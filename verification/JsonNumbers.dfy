/** The decimal numeral of an integer, and the packed three-digit table that tools/jsonbuilder/stream_int.go prints it with. */
module JsonNumbers {
  import opened Bytes

  const ZERO: byte := 48
  const MINUS: byte := 45

  // ---- numerals ----

  predicate IsDigit(b: byte)
  {
    ZERO <= b < ZERO + 10
  }

  /** Digits without leading zeros. */
  predicate IsNumeral(s: bytes)
  {
    && s != []
    && (forall k :: 0 <= k < |s| ==> IsDigit(s[k]))
    && (|s| > 1 ==> s[0] != ZERO)
  }

  /** The number that a sequence of digits denotes. */
  function NumberOf(s: bytes): (n: nat)
    requires forall k :: 0 <= k < |s| ==> IsDigit(s[k])
  {
    if s == [] then 0
    else
      assert IsDigit(s[|s| - 1]);
      10 * NumberOf(s[..|s| - 1]) + (s[|s| - 1] as int - 48)
  }

  function Digit(n: nat): (b: byte)
    ensures IsDigit(b)
  {
    ZERO + (n % 10) as byte
  }

  function Decimal(n: nat): (s: bytes)
    ensures |s| > 0
  {
    if n < 10 then [Digit(n)] else Decimal(n / 10) + [Digit(n)]
  }

  lemma {:induction false} DecimalIsNumeral(n: nat)
    ensures IsNumeral(Decimal(n)) && NumberOf(Decimal(n)) == n
    ensures Decimal(n)[0] == ZERO ==> n == 0
  {
    var s := Decimal(n);
    if n < 10 {
      assert NumberOf(s[..0]) == 0;
    } else {
      DecimalIsNumeral(n / 10);
      assert s[..|s| - 1] == Decimal(n / 10);
    }
  }

  lemma {:induction false} NumeralIsDecimal(s: bytes)
    requires IsNumeral(s)
    ensures Decimal(NumberOf(s)) == s
    decreases |s|
  {
    var last := |s| - 1;
    if |s| == 1 {
      assert NumberOf(s[..0]) == 0;
    } else {
      assert IsNumeral(s[..last]);
      NumeralIsDecimal(s[..last]);
      DecimalIsNumeral(NumberOf(s[..last]));
      assert Decimal(0) == [ZERO];
      assert NumberOf(s[..last]) != 0;
      assert NumberOf(s) / 10 == NumberOf(s[..last]);
      assert s == s[..last] + [s[last]];
    }
  }

  /** A numeral without leading zeros is determined by its value. */
  lemma NumeralIsUnique(s: bytes, n: nat)
    ensures IsNumeral(s) && NumberOf(s) == n <==> s == Decimal(n)
  {
    DecimalIsNumeral(n);
    if IsNumeral(s) && NumberOf(s) == n {
      NumeralIsDecimal(s);
    }
  }

  // ---- the table ----

  function ThreeDigits(n: nat): bytes
  {
    [Digit(n / 100), Digit(n / 10), Digit(n)]
  }

  /** The numeral of a number above 999 is that of its thousands followed by three digits. */
  lemma Thousands(q: nat, r: nat)
    requires q > 0 && r < 1000
    ensures Decimal(1000 * q + r) == Decimal(q) + ThreeDigits(r)
  {
    var n := 1000 * q + r;
    assert n / 10 / 10 / 10 == q;
    assert Digit(n) == Digit(r);
    assert Digit(n / 10) == Digit(r / 10);
    assert Digit(n / 10 / 10) == Digit(r / 100);
    assert Decimal(n) == Decimal(n / 10) + [Digit(n)];
    assert Decimal(n / 10) == Decimal(n / 10 / 10) + [Digit(n / 10)];
    assert Decimal(n / 10 / 10) == Decimal(q) + [Digit(n / 10 / 10)];
  }

  /** An entry of `digits`: three characters, and above them the number of leading zeros. */
  function Entry(i: nat): (v: nat)
    requires i < 1000
  {
    var v := (i / 100 + 48) * 0x10000 + (i / 10 % 10 + 48) * 0x100 + i % 10 + 48;
    if i < 10 then v + 2 * 0x1000000 else if i < 100 then v + 0x1000000 else v
  }

  /** The low eight bits. */
  function LowByte(v: nat): byte
  {
    (v % 0x100) as byte
  }

  function WriteFirstBuf(space: bytes, v: nat): bytes
  {
    var start := v / 0x1000000;
    (if start == 0 then space + [LowByte(v / 0x10000), LowByte(v / 0x100)]
     else if start == 1 then space + [LowByte(v / 0x100)]
     else space) + [LowByte(v)]
  }

  function WriteBuf(space: bytes, v: nat): bytes
  {
    space + [LowByte(v / 0x10000), LowByte(v / 0x100), LowByte(v)]
  }

  lemma FourBytes(f: nat, a: nat, b: nat, c: nat, v: nat)
    requires a < 0x100 && b < 0x100 && c < 0x100 && v == f * 0x1000000 + a * 0x10000 + b * 0x100 + c
    ensures v % 0x100 == c && v / 0x100 % 0x100 == b && v / 0x10000 % 0x100 == a && v / 0x1000000 == f
  {
    assert v / 0x100 == f * 0x10000 + a * 0x100 + b;
    assert v / 0x10000 == f * 0x100 + a;
  }

  lemma EntryBytes(i: nat)
    requires i < 1000
    ensures LowByte(Entry(i)) == Digit(i)
    ensures LowByte(Entry(i) / 0x100) == Digit(i / 10)
    ensures LowByte(Entry(i) / 0x10000) == Digit(i / 100)
    ensures Entry(i) / 0x1000000 == if i < 10 then 2 else if i < 100 then 1 else 0
  {
    var f := if i < 10 then 2 else if i < 100 then 1 else 0;
    FourBytes(f, i / 100 + 48, i / 10 % 10 + 48, i % 10 + 48, Entry(i));
  }

  lemma ShortDecimal(i: nat)
    requires i < 1000
    ensures Decimal(i) == if i < 10 then [Digit(i)] else if i < 100 then [Digit(i / 10), Digit(i)]
                          else [Digit(i / 100), Digit(i / 10), Digit(i)]
  {
    if i >= 100 {
      assert i / 10 / 10 == i / 100;
      assert Decimal(i / 10) == Decimal(i / 100) + [Digit(i / 10)];
    }
  }

  lemma FirstBufIsDecimal(space: bytes, i: nat)
    requires i < 1000
    ensures WriteFirstBuf(space, Entry(i)) == space + Decimal(i)
  {
    EntryBytes(i);
    ShortDecimal(i);
  }

  lemma BufIsThreeDigits(space: bytes, i: nat)
    requires i < 1000
    ensures WriteBuf(space, Entry(i)) == space + ThreeDigits(i)
  {
    EntryBytes(i);
  }
}
