/** The UTF-8 of section 3 of RFC 3629, as tools/jsonbuilder/stream_rune.go writes it, and a decoder for it. */
module Utf8 {
  import opened Wrappers
  import opened Bytes

  /** A Go `rune`: a signed 32-bit integer. */
  newtype rune = r: int | -0x8000_0000 <= r < 0x8000_0000

  const RUNE_ERROR: rune := 0xFFFD
  const MAX_RUNE: rune := 0x10_FFFF

  predicate IsSurrogate(r: rune)
  {
    0xD800 <= r <= 0xDFFF
  }

  /** The code points that UTF-8 can carry. */
  predicate IsScalar(r: rune)
  {
    0 <= r <= MAX_RUNE && !IsSurrogate(r)
  }

  /** What is written for `r`: itself, or the replacement character when it is no scalar value. */
  function Written(r: rune): rune
  {
    if IsScalar(r) then r else RUNE_ERROR
  }

  /** A continuation byte: the six bits of `r` above bit `6 * k`, marked with `10`. */
  function Continuation(r: rune, divisor: rune): (b: byte)
    requires r >= 0 && divisor > 0
    ensures 0x80 <= b < 0xC0
  {
    0x80 + (r / divisor % 0x40) as byte
  }

  /** `WriteRune`: the branches on the unsigned value of `r`; the marker bits and the value bits are disjoint. */
  function Encode(r: rune): (s: bytes)
    ensures 1 <= |s| <= 4
  {
    var u := if r < 0 then r as int + 0x1_0000_0000 else r as int;
    if u <= 0x7F then [r as byte]
    else if u <= 0x7FF then [0xC0 + (r / 0x40) as byte, Continuation(r, 1)]
    else
      var w := if u > 0x10_FFFF || 0xD800 <= u <= 0xDFFF then RUNE_ERROR else r;
      if w <= 0xFFFF then [0xE0 + (w / 0x1000) as byte, Continuation(w, 0x40), Continuation(w, 1)]
      else [0xF0 + (w / 0x4_0000) as byte, Continuation(w, 0x1000), Continuation(w, 0x40), Continuation(w, 1)]
  }

  predicate IsContinuation(b: byte)
  {
    0x80 <= b < 0xC0
  }

  /** The value bits of a continuation byte. */
  function Bits(b: byte): rune
    requires IsContinuation(b)
  {
    (b - 0x80) as rune
  }

  datatype Decoded = Decoded(r: rune, size: nat)

  /** The scalar value at the front of `s`: shortest form only, no surrogates, at most U+10FFFF. */
  function DecodeFirst(s: bytes): (d: Option<Decoded>)
    ensures d.Some? ==> 0 < d.value.size <= |s| && IsScalar(d.value.r)
  {
    if s == [] then None
    else if s[0] < 0x80 then Some(Decoded(s[0] as rune, 1))
    else if 0xC0 <= s[0] < 0xE0 then
      if |s| < 2 || !IsContinuation(s[1]) then None
      else
        var r := (s[0] - 0xC0) as rune * 0x40 + Bits(s[1]);
        if r < 0x80 then None else Some(Decoded(r, 2))
    else if 0xE0 <= s[0] < 0xF0 then
      if |s| < 3 || !IsContinuation(s[1]) || !IsContinuation(s[2]) then None
      else
        var r := (s[0] - 0xE0) as rune * 0x1000 + Bits(s[1]) * 0x40 + Bits(s[2]);
        if r < 0x800 || IsSurrogate(r) then None else Some(Decoded(r, 3))
    else if 0xF0 <= s[0] < 0xF8 then
      if |s| < 4 || !IsContinuation(s[1]) || !IsContinuation(s[2]) || !IsContinuation(s[3]) then None
      else
        var r := (s[0] - 0xF0) as rune * 0x4_0000 + Bits(s[1]) * 0x1000 + Bits(s[2]) * 0x40 + Bits(s[3]);
        if r < 0x1_0000 || r > MAX_RUNE then None else Some(Decoded(r, 4))
    else None
  }

  lemma Digits2(a: rune, b: rune)
    requires 0 <= a < 0x20 && 0 <= b < 0x40
    ensures var r := a * 0x40 + b; r / 0x40 == a && r / 1 % 0x40 == b
  {
  }

  lemma Digits3(a: rune, b: rune, c: rune)
    requires 0 <= a < 0x10 && 0 <= b < 0x40 && 0 <= c < 0x40
    ensures var r := a * 0x1000 + b * 0x40 + c;
            r / 0x1000 == a && r / 0x40 % 0x40 == b && r / 1 % 0x40 == c
  {
  }

  lemma Digits4(a: rune, b: rune, c: rune, d: rune)
    requires 0 <= a < 8 && 0 <= b < 0x40 && 0 <= c < 0x40 && 0 <= d < 0x40
    ensures var r := a * 0x4_0000 + b * 0x1000 + c * 0x40 + d;
            r / 0x4_0000 == a && r / 0x1000 % 0x40 == b && r / 0x40 % 0x40 == c && r / 1 % 0x40 == d
  {
    var r := a * 0x4_0000 + b * 0x1000 + c * 0x40 + d;
    assert r / 0x1000 == a * 0x40 + b;
    assert r / 0x40 == a * 0x1000 + b * 0x40 + c;
  }

  lemma Sum2(r: rune)
    requires 0 <= r <= 0x7FF
    ensures r / 0x40 * 0x40 + r / 1 % 0x40 == r
  {
  }

  lemma Sum3(r: rune)
    requires 0 <= r <= 0xFFFF
    ensures r / 0x1000 * 0x1000 + r / 0x40 % 0x40 * 0x40 + r / 1 % 0x40 == r
  {
  }

  lemma Sum4(r: rune)
    requires 0 <= r <= MAX_RUNE
    ensures r / 0x4_0000 * 0x4_0000 + r / 0x1000 % 0x40 * 0x1000 + r / 0x40 % 0x40 * 0x40 + r / 1 % 0x40 == r
  {
    var q := r / 0x40;
    assert q / 0x1000 * 0x1000 + q / 0x40 % 0x40 * 0x40 + q % 0x40 == q;
    assert r / 0x1000 == q / 0x40 && r / 0x4_0000 == q / 0x1000;
  }

  lemma DecodeScalar(r: rune, s: bytes)
    requires IsScalar(r) && |Encode(r)| <= |s| && s[..|Encode(r)|] == Encode(r)
    ensures DecodeFirst(s) == Some(Decoded(r, |Encode(r)|))
  {
    var e := Encode(r);
    assert forall k :: 0 <= k < |e| ==> s[k] == e[k];
    if r <= 0x7F {
    } else if r <= 0x7FF {
      Sum2(r);
    } else if r <= 0xFFFF {
      Sum3(r);
    } else {
      Sum4(r);
    }
  }

  /** Decoding what was written for a rune gives the rune, or the replacement character, whatever follows. */
  lemma DecodeEncode(r: rune, tail: bytes)
    ensures DecodeFirst(Encode(r) + tail) == Some(Decoded(Written(r), |Encode(r)|))
  {
    assert Encode(Written(r)) == Encode(r);
    DecodeScalar(Written(r), Encode(r) + tail);
  }

  /** Conversely, bytes that decode are exactly the bytes written for what they decode to. */
  lemma EncodeDecode(s: bytes)
    requires DecodeFirst(s).Some?
    ensures Encode(DecodeFirst(s).value.r) == s[..DecodeFirst(s).value.size]
  {
    if s[0] < 0x80 {
    } else if s[0] < 0xE0 {
      Digits2((s[0] - 0xC0) as rune, Bits(s[1]));
    } else if s[0] < 0xF0 {
      Digits3((s[0] - 0xE0) as rune, Bits(s[1]), Bits(s[2]));
    } else {
      Digits4((s[0] - 0xF0) as rune, Bits(s[1]), Bits(s[2]), Bits(s[3]));
    }
  }

  function EncodeAll(rs: seq<rune>): bytes
  {
    if rs == [] then [] else Encode(rs[0]) + EncodeAll(rs[1..])
  }

  function DecodeAll(s: bytes): Option<seq<rune>>
  {
    if s == [] then Some([])
    else
      match DecodeFirst(s)
      case None => None
      case Some(d) =>
        match DecodeAll(s[d.size..])
        case None => None
        case Some(rs) => Some([d.r] + rs)
  }

  function WrittenAll(rs: seq<rune>): (ws: seq<rune>)
    ensures |ws| == |rs| && forall k :: 0 <= k < |rs| ==> ws[k] == Written(rs[k])
  {
    seq(|rs|, k requires 0 <= k < |rs| => Written(rs[k]))
  }

  lemma {:induction false} DecodeEncodeAll(rs: seq<rune>)
    ensures DecodeAll(EncodeAll(rs)) == Some(WrittenAll(rs))
    decreases |rs|
  {
    if rs == [] {
      assert WrittenAll(rs) == [];
    } else {
      DecodeEncode(rs[0], EncodeAll(rs[1..]));
      assert EncodeAll(rs)[|Encode(rs[0])|..] == EncodeAll(rs[1..]);
      DecodeEncodeAll(rs[1..]);
      assert [Written(rs[0])] + WrittenAll(rs[1..]) == WrittenAll(rs);
    }
  }

  lemma {:induction false} EncodeAllLength(rs: seq<rune>)
    ensures |EncodeAll(rs)| <= 4 * |rs|
    decreases |rs|
  {
    if rs != [] {
      EncodeAllLength(rs[1..]);
    }
  }
}
