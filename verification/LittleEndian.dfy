/** Little-endian integers of a given width in bytes, and where they stand in a memory block. */
module LittleEndian {
  import opened Bytes

  function Pow256(width: nat): (p: nat)
    ensures p > 0
  {
    if width == 0 then 1 else 0x100 * Pow256(width - 1)
  }

  lemma Powers()
    ensures Pow256(1) == 0x100 && Pow256(2) == 0x1_0000 && Pow256(4) == 0x1_0000_0000
    ensures Pow256(8) == 0x1_0000_0000_0000_0000
  {
    assert Pow256(3) == 0x100_0000;
    assert Pow256(5) == 0x100_0000_0000;
    assert Pow256(6) == 0x1_0000_0000_0000;
    assert Pow256(7) == 0x100_0000_0000_0000;
  }

  function ToLE(n: nat, width: nat): (s: bytes)
    ensures |s| == width
    decreases width
  {
    if width == 0 then [] else [(n % 0x100) as byte] + ToLE(n / 0x100, width - 1)
  }

  function FromLE(s: bytes): nat
  {
    if s == [] then 0 else s[0] as int + 0x100 * FromLE(s[1..])
  }

  lemma {:induction false} FromToLE(n: nat, width: nat)
    requires n < Pow256(width)
    ensures FromLE(ToLE(n, width)) == n
    decreases width
  {
    if width > 0 {
      FromToLE(n / 0x100, width - 1);
      assert ToLE(n, width)[1..] == ToLE(n / 0x100, width - 1);
    }
  }

  /** The unsigned value of a two's complement integer. */
  function Twos(i: int, width: nat): nat
    requires 0 <= Pow256(width) + 2 * i && 2 * i < Pow256(width)
  {
    if i < 0 then i + Pow256(width) else i
  }

  function FromTwos(u: nat, width: nat): int
  {
    if 2 * u >= Pow256(width) then u - Pow256(width) else u
  }

  // ---- memory ----

  /** `s` stands in `block` at offset `p`. */
  predicate At(block: bytes, p: nat, s: bytes)
  {
    p + |s| <= |block| && forall k :: 0 <= k < |s| ==> block[p + k] == s[k]
  }

  lemma AtSlice(block: bytes, p: nat, s: bytes)
    requires At(block, p, s)
    ensures block[p..p + |s|] == s
  {
  }

  lemma AtPart(block: bytes, p: nat, s: bytes, i: nat, t: bytes)
    requires At(block, p, s) && At(s, i, t)
    ensures At(block, p + i, t)
  {
    forall k | 0 <= k < |t| ensures block[p + i + k] == t[k] {
      assert s[i + k] == t[k];
      assert block[p + (i + k)] == s[i + k];
    }
  }

  lemma AtConcat(a: bytes, b: bytes, c: bytes)
    ensures At(a + b + c, |a|, b)
  {
  }

  lemma AtPrefix(a: bytes, b: bytes, p: nat, s: bytes)
    requires At(a, p, s)
    ensures At(a + b, p, s)
  {
  }

  function Load(block: bytes, p: nat, width: nat): nat
    requires p + width <= |block|
  {
    FromLE(block[p..p + width])
  }

  lemma LoadStored(block: bytes, p: nat, n: nat, width: nat)
    requires At(block, p, ToLE(n, width)) && n < Pow256(width)
    ensures Load(block, p, width) == n
  {
    FromToLE(n, width);
    AtSlice(block, p, ToLE(n, width));
  }

  lemma {:induction false} ConcatAt(parts: seq<bytes>, n: nat, k: nat)
    requires k < n <= |parts|
    ensures At(Concat(parts, n), |Concat(parts, k)|, parts[k])
    decreases n
  {
    var before, last := Concat(parts, n - 1), parts[n - 1];
    if k == n - 1 {
      AtConcat(before, last, []);
      assert before + last + [] == before + last;
    } else {
      ConcatAt(parts, n - 1, k);
      AtPrefix(before, last, |Concat(parts, k)|, parts[k]);
    }
  }

  predicate AllOfLength(parts: seq<bytes>, width: nat)
  {
    forall k :: 0 <= k < |parts| ==> |parts[k]| == width
  }

  lemma {:induction false} ConcatLength(parts: seq<bytes>, n: nat, width: nat)
    requires n <= |parts| && AllOfLength(parts, width)
    ensures |Concat(parts, n)| == n * width
    decreases n
  {
    if n > 0 {
      ConcatLength(parts, n - 1, width);
      assert n * width == (n - 1) * width + width;
    }
  }

  /** In a row of parts of one width, each stands at a multiple of the width. */
  lemma StrideAt(parts: seq<bytes>, k: nat, width: nat)
    requires k < |parts| && AllOfLength(parts, width)
    ensures At(Concat(parts, |parts|), k * width, parts[k])
  {
    ConcatAt(parts, |parts|, k);
    ConcatLength(parts, k, width);
  }

  lemma PartIn(block: bytes, p: nat, parts: seq<bytes>, k: nat)
    requires k < |parts| && At(block, p, Concat(parts, |parts|))
    ensures At(block, p + |Concat(parts, k)|, parts[k])
  {
    ConcatAt(parts, |parts|, k);
    AtPart(block, p, Concat(parts, |parts|), |Concat(parts, k)|, parts[k]);
  }

  lemma StrideIn(block: bytes, p: nat, parts: seq<bytes>, k: nat, width: nat, at: nat)
    requires k < |parts| && AllOfLength(parts, width) && At(block, p, Concat(parts, |parts|)) && at == p + k * width
    ensures At(block, at, parts[k])
  {
    PartIn(block, p, parts, k);
    ConcatLength(parts, k, width);
  }

  /** The integer at index `k` of a row of integers of one width. */
  lemma LoadFromRow(block: bytes, p: nat, parts: seq<bytes>, k: nat, width: nat, n: nat, at: nat)
    requires k < |parts| && AllOfLength(parts, width) && At(block, p, Concat(parts, |parts|)) && at == p + k * width
    requires n < Pow256(width) && parts[k] == ToLE(n, width)
    ensures at + width <= |block| && Load(block, at, width) == n
  {
    StrideIn(block, p, parts, k, width, at);
    LoadStored(block, at, n, width);
  }
}
