/** JSON strings over bytes: the escaping of tools/jsonbuilder/stream_str.go, and a reader after section 7 of RFC 8259. */
module JsonStrings {
  import opened Wrappers
  import opened Bytes
  import opened Utf8

  const QUOTE: byte := 34
  const BACKSLASH: byte := 92
  const SLASH: byte := 47

  const LETTER_B: byte := 98
  const LETTER_F: byte := 102
  const LETTER_N: byte := 110
  const LETTER_R: byte := 114
  const LETTER_T: byte := 116
  const LETTER_U: byte := 117

  // ---- writing ----

  /** A byte that stands for itself; `safeSet` and the fast path agree on it. */
  predicate Safe(b: byte)
  {
    b > 31 && b != QUOTE && b != BACKSLASH
  }

  function Hex(n: nat): (b: byte)
    requires n < 16
  {
    if n < 10 then 48 + n as byte else 97 + (n - 10) as byte
  }

  /** What `WriteStringByte` appends for one byte. */
  function Escape(b: byte): (e: bytes)
    ensures |e| > 0
  {
    if Safe(b) then [b]
    else if b == QUOTE || b == BACKSLASH then [BACKSLASH, b]
    else if b == 10 then [BACKSLASH, LETTER_N]
    else if b == 13 then [BACKSLASH, LETTER_R]
    else if b == 9 then [BACKSLASH, LETTER_T]
    else [BACKSLASH, LETTER_U, 48, 48, Hex(b as int / 16), Hex(b as int % 16)]
  }

  function EscapeAll(s: bytes): bytes
  {
    if s == [] then [] else Escape(s[0]) + EscapeAll(s[1..])
  }

  lemma {:induction false} EscapeAllAppend(s: bytes, t: bytes)
    ensures EscapeAll(s + t) == EscapeAll(s) + EscapeAll(t)
    decreases |s|
  {
    if s == [] {
      assert s + t == t;
    } else {
      assert (s + t)[1..] == s[1..] + t;
      EscapeAllAppend(s[1..], t);
    }
  }

  lemma {:induction false} SafeStandsForItself(s: bytes)
    requires forall k :: 0 <= k < |s| ==> Safe(s[k])
    ensures EscapeAll(s) == s
    decreases |s|
  {
    if s != [] {
      SafeStandsForItself(s[1..]);
    }
  }

  /** A run of safe bytes is escaped as itself. */
  lemma SafeRun(s: bytes, start: nat, end: nat)
    requires start <= end <= |s| && forall k :: start <= k < end ==> Safe(s[k])
    ensures EscapeAll(s[..end]) == EscapeAll(s[..start]) + s[start..end]
    ensures start == end ==> EscapeAll(s[..end]) == EscapeAll(s[..start])
  {
    assert s[..end] == s[..start] + s[start..end];
    EscapeAllAppend(s[..start], s[start..end]);
    SafeStandsForItself(s[start..end]);
  }

  lemma EscapeNext(s: bytes, i: nat)
    requires i < |s|
    ensures EscapeAll(s[..i + 1]) == EscapeAll(s[..i]) + Escape(s[i])
  {
    assert s[..i + 1] == s[..i] + [s[i]];
    EscapeAllAppend(s[..i], [s[i]]);
  }

  // ---- reading ----

  function HexValue(b: byte): (v: Option<int>)
    ensures v.Some? ==> 0 <= v.value < 16
  {
    if 48 <= b < 58 then Some(b as int - 48)
    else if 97 <= b < 103 then Some(b as int - 87)
    else if 65 <= b < 71 then Some(b as int - 55)
    else None
  }

  /** The four hexadecimal digits at the front of `s`. */
  function HexFour(s: bytes): (v: Option<int>)
    ensures v.Some? ==> |s| >= 4 && 0 <= v.value < 0x1_0000
  {
    if |s| < 4 then None
    else
      match (HexValue(s[0]), HexValue(s[1]), HexValue(s[2]), HexValue(s[3]))
      case (Some(a), Some(b), Some(c), Some(d)) => Some(((a * 16 + b) * 16 + c) * 16 + d)
      case _ => None
  }

  /** The content read from the front of a text, and how many bytes it took. */
  datatype Piece = Piece(content: bytes, size: nat)

  /** A `\u` escape, from just after the `u`; a high surrogate must be followed by an escaped low one. */
  function ReadHexEscape(s: bytes): (p: Option<Piece>)
    ensures p.Some? ==> 0 < p.value.size <= |s|
  {
    match HexFour(s)
    case None => None
    case Some(v) =>
      if v < 0xD800 || v > 0xDFFF then Some(Piece(Encode(v as rune), 4))
      else if v > 0xDBFF || |s| < 10 || s[4] != BACKSLASH || s[5] != LETTER_U then None
      else
        match HexFour(s[6..])
        case None => None
        case Some(w) =>
          if w < 0xDC00 || w > 0xDFFF then None
          else Some(Piece(Encode((0x1_0000 + (v - 0xD800) * 0x400 + (w - 0xDC00)) as rune), 10))
  }

  /** One character of a string body: no raw control byte and no bare quote. */
  function ReadPiece(s: bytes): (p: Option<Piece>)
    ensures p.Some? ==> 0 < p.value.size <= |s|
  {
    if s == [] || s[0] < 0x20 || s[0] == QUOTE then None
    else if s[0] != BACKSLASH then Some(Piece([s[0]], 1))
    else if |s| < 2 then None
    else if s[1] == QUOTE || s[1] == BACKSLASH || s[1] == SLASH then Some(Piece([s[1]], 2))
    else if s[1] == LETTER_B then Some(Piece([8], 2))
    else if s[1] == LETTER_F then Some(Piece([12], 2))
    else if s[1] == LETTER_N then Some(Piece([10], 2))
    else if s[1] == LETTER_R then Some(Piece([13], 2))
    else if s[1] == LETTER_T then Some(Piece([9], 2))
    else if s[1] == LETTER_U then
      match ReadHexEscape(s[2..])
      case None => None
      case Some(p) => Some(Piece(p.content, 2 + p.size))
    else None
  }

  datatype Body = Body(content: bytes, rest: bytes)

  /** A string body up to its closing quote, from just after the opening one. */
  function ReadBody(s: bytes): Option<Body>
  {
    if s != [] && s[0] == QUOTE then Some(Body([], s[1..]))
    else
      match ReadPiece(s)
      case None => None
      case Some(p) =>
        match ReadBody(s[p.size..])
        case None => None
        case Some(body) => Some(Body(p.content + body.content, body.rest))
  }

  /** A JSON string at the front of `s`. */
  function ReadString(s: bytes): Option<Body>
  {
    if s == [] || s[0] != QUOTE then None else ReadBody(s[1..])
  }

  lemma HexValueHex(n: nat)
    requires n < 16
    ensures HexValue(Hex(n)) == Some(n)
  {
  }

  lemma ReadPieceEscape(b: byte, tail: bytes)
    ensures ReadPiece(Escape(b) + tail) == Some(Piece([b], |Escape(b)|))
    ensures (Escape(b) + tail)[0] != QUOTE
  {
    var s := Escape(b) + tail;
    if !Safe(b) && b !in {QUOTE, BACKSLASH, 10, 13, 9} {
      var h := [48, 48, Hex(b as int / 16), Hex(b as int % 16)] + tail;
      HexValueHex(b as int / 16);
      HexValueHex(b as int % 16);
      assert s[2..] == h;
      assert HexFour(h) == Some(b as int);
    }
  }

  /** What is written for a string reads back as that string, whatever follows it. */
  lemma {:induction false} ReadBodyEscapeAll(s: bytes, tail: bytes)
    ensures ReadBody(EscapeAll(s) + [QUOTE] + tail) == Some(Body(s, tail))
    decreases |s|
  {
    var text := EscapeAll(s) + [QUOTE] + tail;
    if s == [] {
      assert text[1..] == tail;
    } else {
      var more := EscapeAll(s[1..]) + [QUOTE] + tail;
      assert text == Escape(s[0]) + more;
      ReadPieceEscape(s[0], more);
      assert text[|Escape(s[0])|..] == more;
      ReadBodyEscapeAll(s[1..], tail);
      assert [s[0]] + s[1..] == s;
    }
  }

  function Quoted(s: bytes): bytes
  {
    [QUOTE] + EscapeAll(s) + [QUOTE]
  }

  lemma StringRoundTrip(s: bytes, tail: bytes)
    ensures ReadString(Quoted(s) + tail) == Some(Body(s, tail))
  {
    assert (Quoted(s) + tail)[1..] == EscapeAll(s) + [QUOTE] + tail;
    ReadBodyEscapeAll(s, tail);
  }

  /** An `NCHAR` value written rune by rune reads back, as a string and then as UTF-8, as the runes it stands for. */
  lemma RunesRoundTrip(rs: seq<rune>, tail: bytes)
    ensures ReadString(Quoted(EncodeAll(rs)) + tail) == Some(Body(EncodeAll(rs), tail))
    ensures DecodeAll(EncodeAll(rs)) == Some(WrittenAll(rs))
  {
    StringRoundTrip(EncodeAll(rs), tail);
    DecodeEncodeAll(rs);
  }
}
