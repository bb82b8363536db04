/** The `Stream` of tools/jsonbuilder: an object whose methods append to its buffer, each proved to append a text. */
module JsonStream {
  import opened Bytes
  import opened JsonNumbers
  import opened JsonStrings
  import opened Utf8

  /** The loop that fills the table of three-digit groups. */
  method InitDigits() returns (digits: array<nat>)
    ensures fresh(digits) && digits.Length == 1000
    ensures forall i :: 0 <= i < 1000 ==> digits[i] == Entry(i)
  {
    digits := new nat[1000];
    for i := 0 to 1000
      invariant forall k :: 0 <= k < i ==> digits[k] == Entry(k)
    {
      digits[i] := (i / 100 + 48) * 0x10000 + (i / 10 % 10 + 48) * 0x100 + i % 10 + 48;
      if i < 10 {
        digits[i] := digits[i] + 2 * 0x1000000;
      } else if i < 100 {
        digits[i] := digits[i] + 0x1000000;
      }
    }
  }

  /** The numeral of a signed number. */
  function SignedDecimal(n: int): bytes
  {
    if n < 0 then [MINUS] + Decimal(-n) else Decimal(n)
  }

  /** The text of a signed number is a minus sign for a negative one, and the one numeral of its absolute value. */
  lemma SignedDecimalIsUnique(n: int, s: bytes)
    ensures s == SignedDecimal(n) <==>
            if n < 0 then s != [] && s[0] == MINUS && IsNumeral(s[1..]) && NumberOf(s[1..]) == -n
            else IsNumeral(s) && NumberOf(s) == n
  {
    if n < 0 {
      if s != [] {
        NumeralIsUnique(s[1..], -n);
      }
    } else {
      NumeralIsUnique(s, n);
    }
  }

  /** The unsigned `bits`-bit value of `-n` computed in `bits`-bit two's complement, as `uint8(-n)` and its likes do. */
  function NegatedUnsigned(n: int, modulus: nat): (u: nat)
    requires modulus % 2 == 0 && n < 0 <= modulus + 2 * n
    ensures u == -n
  {
    var negated := if -n == modulus / 2 then n else -n;
    if negated < 0 then negated + modulus else negated
  }

  class Stream {
    /** What the underlying writer has accepted. */
    var sent: bytes
    var buf: bytes
    var failed: bool
    const digits: array<nat>

    ghost predicate Valid()
      reads this, digits
    {
      digits.Length == 1000 && forall i :: 0 <= i < 1000 ==> digits[i] == Entry(i)
    }

    constructor (digits: array<nat>)
      requires digits.Length == 1000 && forall i :: 0 <= i < 1000 ==> digits[i] == Entry(i)
      ensures Valid() && this.digits == digits && buf == [] && sent == [] && !failed
    {
      this.digits, sent, buf, failed := digits, [], [], false;
    }

    /** Everything written so far. */
    function Text(): bytes
      reads this
    {
      sent + buf
    }

    /**
      Hands the buffer to the writer, which may take only a part of it and fail. The buffer is emptied exactly when
      all of it was taken, so no byte is lost or sent twice by a flush that succeeds.
    */
    method Flush() returns (ok: bool)
      modifies `sent, `buf, `failed
      ensures ok == !failed
      ensures ok ==> buf == [] && sent == old(Text())
      ensures !ok ==> buf == old(buf) && old(sent) <= sent <= old(Text())
      ensures old(failed) ==> !ok && sent == old(sent)
    {
      if failed {
        return false;
      }
      var accepted: nat :| accepted <= |buf|;
      var written: bool := *;
      if !written {
        sent := sent + buf[..accepted];
        failed := true;
        return false;
      }
      sent := sent + buf;
      buf := [];
      return true;
    }

    // ---- integers ----

    method WriteFirst(v: nat)
      requires Valid() && v < 1000
      modifies `buf
      ensures buf == old(buf) + Decimal(v)
    {
      FirstBufIsDecimal(buf, v);
      buf := WriteFirstBuf(buf, digits[v]);
    }

    /** Appends the last three digits of a number whose earlier digits were just appended. */
    method WriteNext(v: nat, ghost start: bytes, ghost q: nat)
      requires Valid() && v < 1000 && q > 0 && buf == start + Decimal(q)
      modifies `buf
      ensures buf == start + Decimal(1000 * q + v)
    {
      BufIsThreeDigits(buf, v);
      Thousands(q, v);
      buf := WriteBuf(buf, digits[v]);
    }

    method WriteUint8(val: nat)
      requires Valid() && val < 0x100
      modifies `buf
      ensures buf == old(buf) + Decimal(val)
    {
      WriteFirst(val);
    }

    method WriteUint16(val: nat)
      requires Valid() && val < 0x1_0000
      modifies `buf
      ensures buf == old(buf) + Decimal(val)
    {
      var q1 := val / 1000;
      if q1 == 0 {
        WriteFirst(val);
        return;
      }
      WriteFirst(q1);
      WriteNext(val - q1 * 1000, old(buf), q1);
    }

    method WriteUint32(val: nat)
      requires Valid() && val < 0x1_0000_0000
      modifies `buf
      ensures buf == old(buf) + Decimal(val)
    {
      ghost var start := buf;
      var q1 := val / 1000;
      if q1 == 0 {
        WriteFirst(val);
        return;
      }
      var r1 := val - q1 * 1000;
      var q2 := q1 / 1000;
      if q2 == 0 {
        WriteFirst(q1);
        WriteNext(r1, start, q1);
        return;
      }
      var r2 := q1 - q2 * 1000;
      var q3 := q2 / 1000;
      if q3 == 0 {
        WriteFirst(q2);
      } else {
        var r3 := q2 - q3 * 1000;
        buf := buf + [(q3 + 48) as byte];
        WriteNext(r3, start, q3);
      }
      WriteNext(r2, start, q2);
      WriteNext(r1, start, q1);
    }

    method WriteUint64(val: nat)
      requires Valid() && val < 0x1_0000_0000_0000_0000
      modifies `buf
      ensures buf == old(buf) + Decimal(val)
    {
      ghost var start := buf;
      var q1 := val / 1000;
      if q1 == 0 {
        WriteFirst(val);
        return;
      }
      var r1 := val - q1 * 1000;
      var q2 := q1 / 1000;
      if q2 == 0 {
        WriteFirst(q1);
        WriteNext(r1, start, q1);
        return;
      }
      var r2 := q1 - q2 * 1000;
      var q3 := q2 / 1000;
      if q3 == 0 {
        WriteFirst(q2);
        WriteNext(r2, start, q2);
        WriteNext(r1, start, q1);
        return;
      }
      var r3 := q2 - q3 * 1000;
      var q4 := q3 / 1000;
      if q4 == 0 {
        WriteFirst(q3);
        WriteNext(r3, start, q3);
        WriteNext(r2, start, q2);
        WriteNext(r1, start, q1);
        return;
      }
      var r4 := q3 - q4 * 1000;
      var q5 := q4 / 1000;
      if q5 == 0 {
        WriteFirst(q4);
        WriteNext(r4, start, q4);
        WriteNext(r3, start, q3);
        WriteNext(r2, start, q2);
        WriteNext(r1, start, q1);
        return;
      }
      var r5 := q4 - q5 * 1000;
      var q6 := q5 / 1000;
      if q6 == 0 {
        WriteFirst(q5);
      } else {
        WriteFirst(q6);
        var r6 := q5 - q6 * 1000;
        WriteNext(r6, start, q6);
      }
      WriteNext(r5, start, q5);
      WriteNext(r4, start, q4);
      WriteNext(r3, start, q3);
      WriteNext(r2, start, q2);
      WriteNext(r1, start, q1);
    }

    method WriteInt8(nval: int)
      requires Valid() && -0x80 <= nval < 0x80
      modifies `buf
      ensures buf == old(buf) + SignedDecimal(nval)
    {
      var val;
      if nval < 0 {
        val := NegatedUnsigned(nval, 0x100);
        buf := buf + [MINUS];
      } else {
        val := nval;
      }
      WriteFirst(val);
    }

    method WriteInt16(nval: int)
      requires Valid() && -0x8000 <= nval < 0x8000
      modifies `buf
      ensures buf == old(buf) + SignedDecimal(nval)
    {
      var val;
      if nval < 0 {
        val := NegatedUnsigned(nval, 0x1_0000);
        buf := buf + [MINUS];
      } else {
        val := nval;
      }
      WriteUint16(val);
    }

    method WriteInt32(nval: int)
      requires Valid() && -0x8000_0000 <= nval < 0x8000_0000
      modifies `buf
      ensures buf == old(buf) + SignedDecimal(nval)
    {
      var val;
      if nval < 0 {
        val := NegatedUnsigned(nval, 0x1_0000_0000);
        buf := buf + [MINUS];
      } else {
        val := nval;
      }
      WriteUint32(val);
    }

    method WriteInt64(nval: int)
      requires Valid() && -0x8000_0000_0000_0000 <= nval < 0x8000_0000_0000_0000
      modifies `buf
      ensures buf == old(buf) + SignedDecimal(nval)
    {
      var val;
      if nval < 0 {
        val := NegatedUnsigned(nval, 0x1_0000_0000_0000_0000);
        buf := buf + [MINUS];
      } else {
        val := nval;
      }
      WriteUint64(val);
    }

    // ---- strings ----

    method WriteRaw(s: bytes)
      modifies `buf
      ensures buf == old(buf) + s
    {
      buf := buf + s;
    }

    method WriteStringByte(c: byte)
      modifies `buf
      ensures buf == old(buf) + Escape(c)
    {
      if c > 31 && c != QUOTE && c != BACKSLASH {
        buf := buf + [c];
      } else {
        WriteEscape(c);
      }
    }

    /** The switch over the bytes that are not safe. */
    method WriteEscape(c: byte)
      requires !Safe(c)
      modifies `buf
      ensures buf == old(buf) + Escape(c)
    {
      if c == BACKSLASH || c == QUOTE {
        buf := buf + [BACKSLASH, c];
      } else if c == 10 {
        buf := buf + [BACKSLASH, LETTER_N];
      } else if c == 13 {
        buf := buf + [BACKSLASH, LETTER_R];
      } else if c == 9 {
        buf := buf + [BACKSLASH, LETTER_T];
      } else {
        WriteRaw([BACKSLASH, LETTER_U, 48, 48]);
        buf := buf + [Hex(c as int / 16), Hex(c as int % 16)];
      }
    }

    /** A quote, every byte escaped, a quote: wherever the fast path gives way to the slow one. */
    method WriteString(s: bytes)
      modifies `buf
      ensures buf == old(buf) + Quoted(s)
    {
      buf := buf + [QUOTE];
      var i := 0;
      while i < |s| && s[i] > 31 && s[i] != QUOTE && s[i] != BACKSLASH
        invariant 0 <= i <= |s|
        invariant forall k :: 0 <= k < i ==> Safe(s[k])
        invariant buf == old(buf) + [QUOTE] + s[..i]
      {
        buf := buf + [s[i]];
        i := i + 1;
      }
      SafeStandsForItself(s[..i]);
      if i == |s| {
        assert s[..i] == s;
        buf := buf + [QUOTE];
        return;
      }
      WriteStringSlowPath(i, s, old(buf) + [QUOTE]);
    }

    /** Copies runs of safe and non-ASCII bytes whole, and escapes what lies between them. */
    method WriteStringSlowPath(from: nat, s: bytes, ghost before: bytes)
      requires from <= |s| && buf == before + EscapeAll(s[..from])
      modifies `buf
      ensures buf == before + EscapeAll(s) + [QUOTE]
    {
      var start, i := from, from;
      while i < |s|
        invariant 0 <= start <= i <= |s|
        invariant forall k :: start <= k < i ==> Safe(s[k])
        invariant buf == before + EscapeAll(s[..start])
      {
        var b := s[i];
        if b < 0x80 && !Safe(b) {
          EscapeAt(s, start, i, before);
          start := i + 1;
        }
        i := i + 1;
      }
      CopyRun(s, start, |s|, before);
      assert s[..|s|] == s;
      buf := buf + [QUOTE];
    }

    method CopyRun(s: bytes, start: nat, end: nat, ghost before: bytes)
      requires start <= end <= |s| && buf == before + EscapeAll(s[..start])
      requires forall k :: start <= k < end ==> Safe(s[k])
      modifies `buf
      ensures buf == before + EscapeAll(s[..end])
    {
      SafeRun(s, start, end);
      Assoc(before, EscapeAll(s[..start]), s[start..end]);
      if start < end {
        WriteRaw(s[start..end]);
      }
    }

    method EscapeAt(s: bytes, start: nat, i: nat, ghost before: bytes)
      requires start <= i < |s| && !Safe(s[i]) && buf == before + EscapeAll(s[..start])
      requires forall k :: start <= k < i ==> Safe(s[k])
      modifies `buf
      ensures buf == before + EscapeAll(s[..i + 1])
    {
      CopyRun(s, start, i, before);
      EscapeNext(s, i);
      Assoc(before, EscapeAll(s[..i]), Escape(s[i]));
      WriteEscape(s[i]);
    }

    // ---- runes ----

    method WriteRune(r: rune)
      modifies `buf
      ensures buf == old(buf) + Encode(r)
    {
      var u := if r < 0 then r as int + 0x1_0000_0000 else r as int;
      if u <= 0x7F {
        buf := buf + [r as byte];
      } else if u <= 0x7FF {
        buf := buf + [0xC0 + (r / 0x40) as byte];
        buf := buf + [Continuation(r, 1)];
      } else {
        var w := if u > 0x10_FFFF || 0xD800 <= u <= 0xDFFF then RUNE_ERROR else r;
        if w <= 0xFFFF {
          buf := buf + [0xE0 + (w / 0x1000) as byte];
        } else {
          buf := buf + [0xF0 + (w / 0x4_0000) as byte];
          buf := buf + [Continuation(w, 0x1000)];
        }
        buf := buf + [Continuation(w, 0x40)];
        buf := buf + [Continuation(w, 1)];
      }
    }

    /** Each byte of the rune's UTF-8, escaped. */
    method WriteRuneString(r: rune)
      modifies `buf
      ensures buf == old(buf) + EscapeAll(Encode(r))
    {
      var u := if r < 0 then r as int + 0x1_0000_0000 else r as int;
      EscapeEach(Encode(r));
      if u <= 0x7F {
        WriteStringByte(r as byte);
      } else if u <= 0x7FF {
        WriteStringByte(0xC0 + (r / 0x40) as byte);
        WriteStringByte(Continuation(r, 1));
      } else {
        var w := if u > 0x10_FFFF || 0xD800 <= u <= 0xDFFF then RUNE_ERROR else r;
        if w <= 0xFFFF {
          WriteStringByte(0xE0 + (w / 0x1000) as byte);
        } else {
          WriteStringByte(0xF0 + (w / 0x4_0000) as byte);
          WriteStringByte(Continuation(w, 0x1000));
        }
        WriteStringByte(Continuation(w, 0x40));
        WriteStringByte(Continuation(w, 1));
      }
    }
  }

  lemma {:induction false} EncodeAllSnoc(rs: seq<rune>, r: rune)
    ensures EncodeAll(rs + [r]) == EncodeAll(rs) + Encode(r)
    decreases |rs|
  {
    if rs != [] {
      assert (rs + [r])[1..] == rs[1..] + [r];
      EncodeAllSnoc(rs[1..], r);
    }
  }

  lemma EscapeNextRune(rs: seq<rune>, i: nat)
    requires i < |rs|
    ensures EscapeAll(EncodeAll(rs[..i + 1])) == EscapeAll(EncodeAll(rs[..i])) + EscapeAll(Encode(rs[i]))
  {
    assert rs[..i + 1] == rs[..i] + [rs[i]];
    EncodeAllSnoc(rs[..i], rs[i]);
    EscapeAllAppend(EncodeAll(rs[..i]), Encode(rs[i]));
  }

  lemma EscapeEach(s: bytes)
    requires 1 <= |s| <= 4
    ensures |s| == 1 ==> EscapeAll(s) == Escape(s[0])
    ensures |s| == 2 ==> EscapeAll(s) == Escape(s[0]) + Escape(s[1])
    ensures |s| == 3 ==> EscapeAll(s) == Escape(s[0]) + Escape(s[1]) + Escape(s[2])
    ensures |s| == 4 ==> EscapeAll(s) == Escape(s[0]) + Escape(s[1]) + Escape(s[2]) + Escape(s[3])
  {
    var last := |s| - 1;
    assert EscapeAll([s[last]]) == Escape(s[last]);
    if last > 0 {
      EscapeEach(s[..last]);
      EscapeAllAppend(s[..last], [s[last]]);
      assert s == s[..last] + [s[last]];
    }
  }
}
