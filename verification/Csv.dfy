/**
  The CSV reader of tools/csv/reader.go as a function of the input bytes, and the text it reads back.
  A missing field is `None`; a quoted empty field is `Some([])`.
*/
module Csv {
  import opened Wrappers
  import opened Bytes

  const QUOTE: byte := 34
  const COMMA: byte := 44
  const LF: byte := 10
  const CR: byte := 13

  type Cell = Option<bytes>
  type Record = seq<Cell>

  datatype Error = BareQuote | BadQuote | FieldCount

  // ---- lines ----

  /** A line with its ending, and the input after it. */
  datatype Line = Line(text: bytes, rest: bytes)

  /** The number of bytes up to and including the first line feed, or of the whole input. */
  function LineLength(input: bytes): (n: nat)
    ensures n <= |input|
    ensures input != [] ==> n > 0
  {
    var i := IndexOf(input, LF);
    if i < |input| then i + 1 else i
  }

  predicate StartsWithBom(line: bytes)
  {
    |line| >= 3 && line[0] == 0xef && line[1] == 0xbb && line[2] == 0xbf
  }

  /** The next line: a carriage return that ends the input is dropped, and so is a byte order mark on the first line. */
  function NextLine(input: bytes, first: bool): (l: Line)
    ensures |l.text| + |l.rest| <= |input|
    ensures input != [] ==> |l.rest| < |input|
  {
    var n := LineLength(input);
    var raw := input[..n];
    var line := if n > 0 && raw[n - 1] == CR then raw[..n - 1] else raw;
    Line(if first && StartsWithBom(line) then line[3..] else line, input[n..])
  }

  /** The number of bytes of the line ending. */
  function LengthNL(line: bytes): (n: nat)
    ensures n <= |line| && n <= 2
    ensures n == |line| <==> line == [] || line == [LF] || line == [CR, LF]
  {
    if |line| > 1 && line[|line| - 1] == LF && line[|line| - 2] == CR then 2
    else if |line| > 0 && line[|line| - 1] == LF then 1
    else 0
  }

  // ---- records ----

  datatype Closing = ByComma | ByLineEnd | Unclosed

  /** A quoted field: its text, how it ended, and what follows it on the line and after the line. */
  datatype Quoted = Quoted(text: bytes, closing: Closing, line: bytes, rest: bytes)

  function After(text: bytes, q: Quoted): Quoted
  {
    q.(text := text + q.text)
  }

  /** What one search for a quote finds: more text of the field, or its end. */
  datatype Chunk = More(text: bytes, line: bytes, rest: bytes) | Last(field: Quoted)

  function NextChunk(line: bytes, rest: bytes): (c: Chunk)
    ensures c.More? ==> |c.line| + |c.rest| < |line| + |rest| && |c.rest| <= |rest|
    ensures c.Last? ==> |c.field.line| <= |line| && c.field.rest == rest
  {
    var i := IndexOf(line, QUOTE);
    if i < |line| then
      var follow := line[i + 1..];
      if follow != [] && follow[0] == QUOTE then More(line[..i] + [QUOTE], follow[1..], rest)
      else if follow != [] && follow[0] == COMMA then Last(Quoted(line[..i], ByComma, follow[1..], rest))
      else Last(Quoted(line[..i], if LengthNL(follow) == |follow| then ByLineEnd else Unclosed, follow, rest))
    else if line != [] then
      var next := NextLine(rest, false);
      More(line, next.text, next.rest)
    else
      Last(Quoted([], Unclosed, line, rest))
  }

  /** Reads a quoted field from just after its opening quote. */
  function ReadQuoted(line: bytes, rest: bytes): (q: Quoted)
    ensures |q.line| + |q.rest| <= |line| + |rest| && |q.rest| <= |rest|
    decreases |line| + |rest|
  {
    match NextChunk(line, rest)
    case More(text, line', rest') => After(text, ReadQuoted(line', rest'))
    case Last(field) => field
  }

  /** The fields read, the error that stopped the record if any, and the input after its last line. */
  datatype Parsed = Parsed(fields: Record, error: Option<Error>, rest: bytes)

  function Following(fields: Record, p: Parsed): Parsed
  {
    p.(fields := fields + p.fields)
  }

  /** The text of an unquoted field that ends at the first comma or at the line ending. */
  function BareText(line: bytes): bytes
  {
    var i := IndexOf(line, COMMA);
    if i < |line| then line[..i] else line[..|line| - LengthNL(line)]
  }

  function BareCell(text: bytes): Cell
  {
    if text == [] then None else Some(text)
  }

  function ReadFields(line: bytes, rest: bytes): (p: Parsed)
    ensures |p.rest| <= |rest|
    decreases |line| + |rest|
  {
    if line == [] || line[0] != QUOTE then
      var text := BareText(line);
      var i := IndexOf(line, COMMA);
      if QUOTE in text then Parsed([], Some(BareQuote), rest)
      else if i < |line| then Following([BareCell(text)], ReadFields(line[i + 1..], rest))
      else Parsed([BareCell(text)], None, rest)
    else
      var q := ReadQuoted(line[1..], rest);
      match q.closing
      case ByComma => Following([Some(q.text)], ReadFields(q.line, q.rest))
      case ByLineEnd => Parsed([Some(q.text)], None, q.rest)
      case Unclosed => Parsed([], Some(BadQuote), q.rest)
  }

  predicate Blank(line: bytes)
  {
    |line| == LengthNL(line)
  }

  /** The first line that is not blank, or `None` at the end of the input. */
  function SkipBlank(input: bytes, first: bool): (r: Option<Line>)
    ensures r.Some? ==> !Blank(r.value.text) && |r.value.text| + |r.value.rest| <= |input| && |r.value.rest| < |input|
    decreases |input|
  {
    if input == [] then None
    else
      var l := NextLine(input, first);
      if Blank(l.text) then SkipBlank(l.rest, false) else Some(l)
  }

  /** The expected number of fields after a record of `n` fields. */
  function Width(expected: int, n: nat): int
  {
    if expected == 0 then n else expected
  }

  predicate FitsWidth(expected: int, n: nat)
  {
    expected <= 0 || n == expected
  }

  datatype Outcome = EndOfInput | Read(fields: Record, error: Option<Error>, rest: bytes, expected: int)

  function ReadRecord(input: bytes, first: bool, expected: int): (o: Outcome)
    ensures o.Read? ==> |o.rest| < |input|
  {
    match SkipBlank(input, first)
    case None => EndOfInput
    case Some(l) =>
      var p := ReadFields(l.text, l.rest);
      Read(p.fields,
           if p.error.None? && !FitsWidth(expected, |p.fields|) then Some(FieldCount) else p.error,
           p.rest, Width(expected, |p.fields|))
  }
}
