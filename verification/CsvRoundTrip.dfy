/** Which texts the CSV reader gives back unchanged, and which lists of records it can return at all. */
module CsvRoundTrip {
  import opened Wrappers
  import opened Bytes
  import opened Csv

  // ---- reading everything ----

  datatype All = All(records: seq<Record>) | Failed(error: Error)

  function ReadAll(input: bytes, first: bool, expected: int): All
    decreases |input|
  {
    match ReadRecord(input, first, expected)
    case EndOfInput => All([])
    case Read(fields, Some(e), _, _) => Failed(e)
    case Read(fields, None, rest, width) =>
      match ReadAll(rest, false, width)
      case Failed(e) => Failed(e)
      case All(records) => All([fields] + records)
  }

  // ---- printing, as in section 2 of RFC 4180 ----

  datatype Field = Missing | Bare(text: bytes) | InQuotes(text: bytes)

  datatype Row = Row(fields: seq<Field>, crlf: bool)

  function Value(f: Field): Cell
  {
    match f
    case Missing => None
    case Bare(text) => Some(text)
    case InQuotes(text) => Some(text)
  }

  function Values(fields: seq<Field>): (r: Record)
    ensures |r| == |fields| && forall k :: 0 <= k < |r| ==> r[k] == Value(fields[k])
  {
    seq(|fields|, k requires 0 <= k < |fields| => Value(fields[k]))
  }

  function Records(rows: seq<Row>): (r: seq<Record>)
    ensures |r| == |rows| && forall k :: 0 <= k < |r| ==> r[k] == Values(rows[k].fields)
  {
    seq(|rows|, k requires 0 <= k < |rows| => Values(rows[k].fields))
  }

  /** A text that needs no quotes. */
  predicate Plain(text: bytes)
  {
    text != [] && QUOTE !in text && COMMA !in text && LF !in text && CR !in text
  }

  predicate PlainIfBare(f: Field)
  {
    f.Bare? ==> Plain(f.text)
  }

  predicate Printable(fields: seq<Field>)
  {
    forall k :: 0 <= k < |fields| ==> PlainIfBare(fields[k])
  }

  function Escaped(b: byte): bytes
  {
    if b == QUOTE then [QUOTE, QUOTE] else [b]
  }

  /** The text with each quote written twice. */
  function Doubled(text: bytes): bytes
  {
    if text == [] then [] else Escaped(text[0]) + Doubled(text[1..])
  }

  function PrintField(f: Field): bytes
  {
    match f
    case Missing => []
    case Bare(text) => text
    case InQuotes(text) => [QUOTE] + (Doubled(text) + [QUOTE])
  }

  function PrintFields(fields: seq<Field>): bytes
  {
    if fields == [] then []
    else if |fields| == 1 then PrintField(fields[0])
    else PrintField(fields[0]) + ([COMMA] + PrintFields(fields[1..]))
  }

  function Ending(crlf: bool): (e: bytes)
    ensures LF in e
  {
    if crlf then [CR, LF] else [LF]
  }

  function PrintRows(rows: seq<Row>): bytes
  {
    if rows == [] then []
    else PrintFields(rows[0].fields) + (Ending(rows[0].crlf) + PrintRows(rows[1..]))
  }

  // ---- the first line of a text ----

  function First(text: bytes): bytes
  {
    text[..LineLength(text)]
  }

  function Rest(text: bytes): bytes
  {
    text[LineLength(text)..]
  }

  lemma FirstAfter(prefix: bytes, tail: bytes)
    requires LF !in prefix && LF in tail
    ensures First(prefix + tail) == prefix + First(tail)
    ensures Rest(prefix + tail) == Rest(tail)
  {
    var i := IndexOf(tail, LF);
    forall k | 0 <= k < |prefix| + i ensures (prefix + tail)[k] != LF {
      if k < |prefix| {
        assert prefix[k] in prefix;
      }
    }
    IndexIs(prefix + tail, LF, |prefix| + i);
  }

  lemma FirstOfEnding(crlf: bool, tail: bytes)
    ensures First(Ending(crlf) + tail) == Ending(crlf)
    ensures Rest(Ending(crlf) + tail) == tail
  {
    IndexIs(Ending(crlf) + tail, LF, |Ending(crlf)| - 1);
  }

  lemma NextLineIsFirst(text: bytes)
    requires LF in text
    ensures NextLine(text, false) == Line(First(text), Rest(text))
  {
  }

  // ---- quoted fields ----

  function QuotedAt(text: bytes): Quoted
  {
    ReadQuoted(First(text), Rest(text))
  }

  lemma PlainByteChunk(b: byte, line: bytes, rest: bytes)
    requires b != QUOTE && line != []
    ensures var c, c' := NextChunk(line, rest), NextChunk([b] + line, rest);
            if c.More? then c' == c.(text := [b] + c.text) else c' == Last(After([b], c.field))
  {
    var i := IndexOf(line, QUOTE);
    var whole := [b] + line;
    IndexIs(whole, QUOTE, i + 1);
    if i < |line| {
      assert whole[i + 2..] == line[i + 1..];
      assert whole[..i + 1] == [b] + line[..i];
    }
  }

  lemma {:induction false} PlainByte(b: byte, line: bytes, rest: bytes)
    requires b != QUOTE && line != []
    ensures ReadQuoted([b] + line, rest) == After([b], ReadQuoted(line, rest))
  {
    PlainByteChunk(b, line, rest);
    var c := NextChunk(line, rest);
    if c.More? {
      var q := ReadQuoted(c.line, c.rest);
      assert ReadQuoted([b] + line, rest) == After([b] + c.text, q);
      Assoc([b], c.text, q.text);
    }
  }

  lemma QuoteChunk(line: bytes, rest: bytes, whole: bytes)
    requires whole == [QUOTE, QUOTE] + line
    ensures NextChunk(whole, rest) == More([QUOTE], line, rest)
  {
    IndexIs(whole, QUOTE, 0);
    assert whole[1..][1..] == line;
  }

  lemma QuotedQuote(line: bytes, rest: bytes)
    ensures ReadQuoted([QUOTE, QUOTE] + line, rest) == After([QUOTE], ReadQuoted(line, rest))
  {
    QuoteChunk(line, rest, [QUOTE, QUOTE] + line);
  }

  lemma QuotedLineFeed(rest: bytes)
    requires LF in rest
    ensures ReadQuoted([LF], rest) == After([LF], ReadQuoted(First(rest), Rest(rest)))
  {
    IndexIs([LF], QUOTE, 1);
    NextLineIsFirst(rest);
  }

  lemma QuotedByte(b: byte, tail: bytes)
    requires LF in tail
    ensures QuotedAt(Escaped(b) + tail) == After([b], QuotedAt(tail))
  {
    var line, rest := First(tail), Rest(tail);
    var whole := Escaped(b) + tail;
    if b == QUOTE {
      FirstAfter([QUOTE, QUOTE], tail);
      QuotedQuote(line, rest);
    } else if b == LF {
      FirstOfEnding(false, tail);
      QuotedLineFeed(tail);
    } else {
      FirstAfter([b], tail);
      PlainByte(b, line, rest);
    }
  }

  /** Whatever reads one escaped byte at a time reads a whole escaped text. */
  lemma {:induction false} ByteByByte(read: bytes -> Quoted, text: bytes, tail: bytes)
    requires forall b, t :: LF in t ==> read(Escaped(b) + t) == After([b], read(t))
    requires LF in tail
    ensures read(Doubled(text) + tail) == After(text, read(tail))
    decreases |text|
  {
    if text == [] {
      assert Doubled(text) + tail == tail;
    } else {
      var more := Doubled(text[1..]) + tail;
      assert Doubled(text) + tail == Escaped(text[0]) + more;
      ByteByByte(read, text[1..], tail);
      assert LF in more;
      assert [text[0]] + (text[1..] + read(tail).text) == text + read(tail).text;
    }
  }

  lemma QuotedText(text: bytes, tail: bytes)
    requires LF in tail
    ensures QuotedAt(Doubled(text) + tail) == After(text, QuotedAt(tail))
  {
    forall b, t | LF in t ensures QuotedAt(Escaped(b) + t) == After([b], QuotedAt(t)) {
      QuotedByte(b, t);
    }
    ByteByByte(QuotedAt, text, tail);
  }

  lemma CommaCloses(tail: bytes)
    requires LF in tail
    ensures QuotedAt([QUOTE] + ([COMMA] + tail)) == Quoted([], ByComma, First(tail), Rest(tail))
  {
    FirstAfter([QUOTE, COMMA], tail);
    assert [QUOTE] + ([COMMA] + tail) == [QUOTE, COMMA] + tail;
    var line := [QUOTE, COMMA] + First(tail);
    IndexIs(line, QUOTE, 0);
    assert line[1..][1..] == First(tail);
  }

  lemma EndingCloses(crlf: bool, tail: bytes)
    ensures QuotedAt([QUOTE] + (Ending(crlf) + tail)) == Quoted([], ByLineEnd, Ending(crlf), tail)
  {
    FirstAfter([QUOTE], Ending(crlf) + tail);
    FirstOfEnding(crlf, tail);
    var line := [QUOTE] + Ending(crlf);
    IndexIs(line, QUOTE, 0);
    assert line[1..] == Ending(crlf);
  }

  /** A quoted text followed by something that closes it is read as that text. */
  lemma QuotedReads(text: bytes, tail: bytes, closed: Quoted)
    requires LF in tail && QuotedAt([QUOTE] + tail) == closed && closed.text == []
    ensures QuotedAt(Doubled(text) + [QUOTE] + tail) == closed.(text := text)
  {
    QuotedText(text, [QUOTE] + tail);
    Assoc(Doubled(text), [QUOTE], tail);
    assert text + [] == text;
  }

  // ---- records ----

  function FieldsAt(text: bytes): Parsed
  {
    ReadFields(First(text), Rest(text))
  }

  lemma QuotedField(line: bytes, rest: bytes, q: Quoted)
    requires ReadQuoted(line, rest) == q
    ensures q.closing == ByComma ==>
              ReadFields([QUOTE] + line, rest) == Following([Some(q.text)], ReadFields(q.line, q.rest))
    ensures q.closing == ByLineEnd ==> ReadFields([QUOTE] + line, rest) == Parsed([Some(q.text)], None, q.rest)
  {
    assert ([QUOTE] + line)[1..] == line;
  }

  /** A text without quotes or separators, possibly empty. */
  predicate Unmarked(text: bytes)
  {
    forall k :: 0 <= k < |text| ==> text[k] != QUOTE && text[k] != COMMA && text[k] != LF && text[k] != CR
  }

  lemma BareThenComma(text: bytes, line: bytes, rest: bytes)
    requires Unmarked(text)
    ensures ReadFields(text + [COMMA] + line, rest) == Following([BareCell(text)], ReadFields(line, rest))
  {
    var whole := text + [COMMA] + line;
    assert whole[0] != QUOTE;
    IndexIs(whole, COMMA, |text|);
    assert whole[|text| + 1..] == line;
    assert BareText(whole) == text;
    assert QUOTE !in text;
  }

  lemma BareThenEnding(text: bytes, crlf: bool, rest: bytes)
    requires Unmarked(text)
    ensures ReadFields(text + Ending(crlf), rest) == Parsed([BareCell(text)], None, rest)
  {
    var whole := text + Ending(crlf);
    assert whole[0] != QUOTE;
    IndexIs(whole, COMMA, |whole|);
    assert BareText(whole) == text by {
      assert !crlf && text != [] ==> whole[|whole| - 2] == text[|text| - 1];
    }
    assert QUOTE !in text;
  }

  lemma OpeningQuote(body: bytes, q: Quoted)
    requires LF in body && QuotedAt(body) == q
    ensures q.closing == ByComma ==>
              FieldsAt([QUOTE] + body) == Following([Some(q.text)], ReadFields(q.line, q.rest))
    ensures q.closing == ByLineEnd ==> FieldsAt([QUOTE] + body) == Parsed([Some(q.text)], None, q.rest)
  {
    FirstAfter([QUOTE], body);
    QuotedField(First(body), Rest(body), q);
  }

  lemma QuotedFieldReads(text: bytes, tail: bytes, closed: Quoted)
    requires LF in tail && QuotedAt([QUOTE] + tail) == closed && closed.text == []
    ensures closed.closing == ByComma ==>
              FieldsAt(PrintField(InQuotes(text)) + tail)
              == Following([Some(text)], ReadFields(closed.line, closed.rest))
    ensures closed.closing == ByLineEnd ==>
              FieldsAt(PrintField(InQuotes(text)) + tail) == Parsed([Some(text)], None, closed.rest)
  {
    var body := Doubled(text) + [QUOTE] + tail;
    assert PrintField(InQuotes(text)) + tail == [QUOTE] + body;
    assert LF in body;
    QuotedReads(text, tail, closed);
    OpeningQuote(body, closed.(text := text));
  }

  lemma BareFieldThenComma(text: bytes, tail: bytes)
    requires Unmarked(text) && LF in tail
    ensures FieldsAt(text + ([COMMA] + tail)) == Following([BareCell(text)], FieldsAt(tail))
  {
    assert text + ([COMMA] + tail) == (text + [COMMA]) + tail;
    FirstAfter(text + [COMMA], tail);
    BareThenComma(text, First(tail), Rest(tail));
  }

  lemma BareFieldThenEnding(text: bytes, crlf: bool, tail: bytes)
    requires Unmarked(text)
    ensures FieldsAt(text + (Ending(crlf) + tail)) == Parsed([BareCell(text)], None, tail)
  {
    FirstAfter(text, Ending(crlf) + tail);
    FirstOfEnding(crlf, tail);
    BareThenEnding(text, crlf, tail);
  }

  lemma FieldThenComma(f: Field, tail: bytes)
    requires PlainIfBare(f)
    requires LF in tail
    ensures FieldsAt(PrintField(f) + ([COMMA] + tail)) == Following([Value(f)], FieldsAt(tail))
  {
    match f
    case Missing => BareFieldThenComma([], tail);
    case Bare(text) => BareFieldThenComma(text, tail);
    case InQuotes(text) =>
      CommaCloses(tail);
      QuotedFieldReads(text, [COMMA] + tail, Quoted([], ByComma, First(tail), Rest(tail)));
  }

  lemma FieldThenEnding(f: Field, crlf: bool, tail: bytes)
    requires PlainIfBare(f)
    ensures FieldsAt(PrintField(f) + (Ending(crlf) + tail)) == Parsed([Value(f)], None, tail)
  {
    match f
    case Missing => BareFieldThenEnding([], crlf, tail);
    case Bare(text) => BareFieldThenEnding(text, crlf, tail);
    case InQuotes(text) =>
      EndingCloses(crlf, tail);
      QuotedFieldReads(text, Ending(crlf) + tail, Quoted([], ByLineEnd, Ending(crlf), tail));
  }

  /** The printed fields are the first one, then its separator or what ends the line. */
  lemma {:induction false} FirstFieldPrints(fields: seq<Field>, tail: bytes)
    requires fields != []
    ensures |fields| == 1 ==> PrintFields(fields) + tail == PrintField(fields[0]) + tail
    ensures |fields| > 1 ==>
              PrintFields(fields) + tail == PrintField(fields[0]) + ([COMMA] + (PrintFields(fields[1..]) + tail))
  {
    if |fields| > 1 {
      Assoc(PrintField(fields[0]), [COMMA] + PrintFields(fields[1..]), tail);
      Assoc([COMMA], PrintFields(fields[1..]), tail);
    }
  }

  lemma FirstValue(fields: seq<Field>)
    requires fields != []
    ensures Values(fields) == [Value(fields[0])] + Values(fields[1..])
  {
  }

  /** Whatever reads one field at a time reads a whole row. */
  lemma {:induction false} FieldByField(read: bytes -> Parsed, fields: seq<Field>, crlf: bool, tail: bytes)
    requires forall f, t :: PlainIfBare(f) && LF in t ==>
                              read(PrintField(f) + ([COMMA] + t)) == Following([Value(f)], read(t))
    requires forall f :: PlainIfBare(f) ==>
                           read(PrintField(f) + (Ending(crlf) + tail)) == Parsed([Value(f)], None, tail)
    requires fields != [] && Printable(fields)
    ensures read(PrintFields(fields) + (Ending(crlf) + tail)) == Parsed(Values(fields), None, tail)
    decreases |fields|
  {
    assert PlainIfBare(fields[0]);
    FirstFieldPrints(fields, Ending(crlf) + tail);
    FirstValue(fields);
    if |fields| > 1 {
      var more := PrintFields(fields[1..]) + (Ending(crlf) + tail);
      assert LF in Ending(crlf) + tail;
      assert LF in more;
      FieldByField(read, fields[1..], crlf, tail);
      assert read(PrintField(fields[0]) + ([COMMA] + more)) == Following([Value(fields[0])], read(more));
    }
  }

  lemma RowReads(row: Row, tail: bytes)
    requires row.fields != [] && Printable(row.fields)
    ensures FieldsAt(PrintFields(row.fields) + (Ending(row.crlf) + tail)) == Parsed(Values(row.fields), None, tail)
  {
    forall f, t | PlainIfBare(f) && LF in t
      ensures FieldsAt(PrintField(f) + ([COMMA] + t)) == Following([Value(f)], FieldsAt(t))
    {
      FieldThenComma(f, t);
    }
    forall f | PlainIfBare(f)
      ensures FieldsAt(PrintField(f) + (Ending(row.crlf) + tail)) == Parsed([Value(f)], None, tail)
    {
      FieldThenEnding(f, row.crlf, tail);
    }
    FieldByField(FieldsAt, row.fields, row.crlf, tail);
  }

  // ---- whole files ----

  /** What the reader can return: rows of one width, at least one field each, none of them a single missing field. */
  predicate Readable(records: seq<Record>)
  {
    && (forall k :: 0 <= k < |records| ==> |records[k]| > 0 && records[k] != [None])
    && (forall j, k :: 0 <= j < |records| && 0 <= k < |records| ==> |records[j]| == |records[k]|)
  }

  lemma PrintedLineIsNotBlank(fields: seq<Field>, crlf: bool, tail: bytes)
    requires fields != [] && Printable(fields) && fields != [Missing]
    ensures !Blank(First(PrintFields(fields) + (Ending(crlf) + tail)))
  {
    var text := PrintFields(fields) + (Ending(crlf) + tail);
    assert PlainIfBare(fields[0]);
    assert text[0] != LF && text[0] != CR;
    assert First(text)[0] == text[0];
  }

  /** One printed row is read as its values, and the reader is left at the next row. */
  lemma RecordReads(row: Row, tail: bytes, expected: int)
    requires row.fields != [] && Printable(row.fields) && row.fields != [Missing]
    requires FitsWidth(expected, |row.fields|)
    ensures ReadRecord(PrintFields(row.fields) + (Ending(row.crlf) + tail), false, expected)
            == Read(Values(row.fields), None, tail, Width(expected, |row.fields|))
  {
    var text := PrintFields(row.fields) + (Ending(row.crlf) + tail);
    PrintedLineIsNotBlank(row.fields, row.crlf, tail);
    NextLineIsFirst(text);
    assert SkipBlank(text, false) == Some(Line(First(text), Rest(text)));
    RowReads(row, tail);
  }

  predicate AllPrintable(rows: seq<Row>)
  {
    forall k :: 0 <= k < |rows| ==> Printable(rows[k].fields)
  }

  /** From the second line on, rows that fit the expected width are read as their values. */
  lemma {:induction false} PrintedRowsRead(rows: seq<Row>, expected: int)
    requires AllPrintable(rows) && Readable(Records(rows))
    requires forall k :: 0 <= k < |rows| ==> FitsWidth(expected, |Records(rows)[k]|)
    ensures ReadAll(PrintRows(rows), false, expected) == All(Records(rows))
    decreases |rows|
  {
    if rows == [] {
      assert Records(rows) == [];
    } else {
      var more := rows[1..];
      var width := Width(expected, |rows[0].fields|);
      assert Records(rows)[0] == Values(rows[0].fields) && Records(rows)[0] != [None];
      assert Values([Missing]) == [None];
      assert Records(more) == Records(rows)[1..];
      RecordReads(rows[0], PrintRows(more), expected);
      PrintedRowsRead(more, width);
      assert Records(rows) == [Values(rows[0].fields)] + Records(more);
    }
  }

  lemma {:induction false} ReadFieldsAreSome(line: bytes, rest: bytes)
    requires ReadFields(line, rest).error.None?
    ensures ReadFields(line, rest).fields != []
    ensures !Blank(line) ==> ReadFields(line, rest).fields != [None]
    decreases |line| + |rest|
  {
    var i := IndexOf(line, COMMA);
    if line == [] || line[0] != QUOTE {
      if i < |line| {
        ReadFieldsAreSome(line[i + 1..], rest);
      }
    } else {
      var q := ReadQuoted(line[1..], rest);
      if q.closing == ByComma {
        ReadFieldsAreSome(q.line, q.rest);
      }
    }
  }

  lemma ReadRecordIsSome(input: bytes, first: bool, expected: int)
    requires ReadRecord(input, first, expected).Read? && ReadRecord(input, first, expected).error.None?
    ensures ReadRecord(input, first, expected).fields !in {[], [None]}
  {
    var l := SkipBlank(input, first).value;
    ReadFieldsAreSome(l.text, l.rest);
  }

  predicate AllOfWidth(records: seq<Record>, width: nat)
  {
    forall k :: 0 <= k < |records| ==> |records[k]| == width
  }

  lemma ReadableCons(fields: Record, records: seq<Record>)
    requires Readable(records) && AllOfWidth(records, |fields|) && fields !in {[], [None]}
    ensures Readable([fields] + records) && AllOfWidth([fields] + records, |fields|)
  {
  }

  lemma {:induction false} ReadRecordsAreReadable(input: bytes, first: bool, expected: int)
    requires expected >= 0 && ReadAll(input, first, expected).All?
    ensures Readable(ReadAll(input, first, expected).records)
    ensures expected > 0 ==> AllOfWidth(ReadAll(input, first, expected).records, expected)
    decreases |input|
  {
    var o := ReadRecord(input, first, expected);
    if o.Read? {
      ReadRecordIsSome(input, first, expected);
      ReadRecordsAreReadable(o.rest, false, o.expected);
      ReadableCons(o.fields, ReadAll(o.rest, false, o.expected).records);
    }
  }

  // ---- the byte order mark ----

  function WithoutMark(input: bytes): bytes
  {
    if StartsWithBom(input) then input[3..] else input
  }

  lemma FirstLineWithoutMark(input: bytes)
    requires input != []
    ensures StartsWithBom(input) && |input| == 3 ==> NextLine(input, true) == Line([], [])
    ensures WithoutMark(input) != [] ==> NextLine(input, true) == NextLine(WithoutMark(input), false)
  {
    if StartsWithBom(input) {
      var i := IndexOf(input[3..], LF);
      forall k | 0 <= k < 3 + i ensures input[k] != LF {
        assert k >= 3 ==> input[k] == input[3..][k - 3];
      }
      IndexIs(input, LF, 3 + i);
      var n := LineLength(input[3..]);
      assert LineLength(input) == 3 + n;
      assert input[..3 + n][3..] == input[3..][..n] && input[3 + n..] == input[3..][n..];
      assert n > 0 ==> input[..2 + n][3..] == input[3..][..n - 1];
    }
  }

  /** A mark at the start of any input is dropped and changes nothing else. */
  lemma MarkIsDropped(input: bytes, expected: int)
    ensures ReadAll(input, true, expected) == ReadAll(WithoutMark(input), false, expected)
  {
    if input != [] {
      FirstLineWithoutMark(input);
      assert SkipBlank(input, true) == SkipBlank(WithoutMark(input), false);
    }
  }

  /** A row whose first field is unquoted and starts with the mark. */
  predicate Marked(row: Row)
  {
    row.fields != [] && row.fields[0].Bare? && StartsWithBom(row.fields[0].text)
  }

  function FieldSeen(text: bytes): Field
    requires StartsWithBom(text)
  {
    if |text| == 3 then Missing else Bare(text[3..])
  }

  function RowSeen(row: Row): Row
    requires Marked(row)
  {
    row.(fields := [FieldSeen(row.fields[0].text)] + row.fields[1..])
  }

  lemma MarkIsInField(f: Field, tail: bytes)
    requires PlainIfBare(f) && tail != [] && tail[0] in {CR, LF, COMMA} && StartsWithBom(PrintField(f) + tail)
    ensures f.Bare? && StartsWithBom(f.text)
  {
    var text := PrintField(f) + tail;
    assert forall k :: 0 <= k < |PrintField(f)| ==> text[k] == PrintField(f)[k];
  }

  lemma {:induction false} MarkIsInFirstField(rows: seq<Row>)
    requires AllPrintable(rows) && StartsWithBom(PrintRows(rows))
    ensures rows != [] && Marked(rows[0])
  {
    var fields := rows[0].fields;
    var tail := Ending(rows[0].crlf) + PrintRows(rows[1..]);
    assert fields != [] by {
      assert PrintFields([]) + tail == tail;
    }
    FirstFieldPrints(fields, tail);
    assert PlainIfBare(fields[0]) by {
      assert Printable(fields);
    }
    MarkIsInField(fields[0], if |fields| == 1 then tail else [COMMA] + (PrintFields(fields[1..]) + tail));
  }

  /** What the reader sees of rows that start with a mark: a first field without it, or no first row. */
  function RowsSeen(rows: seq<Row>): seq<Row>
    requires AllPrintable(rows) && StartsWithBom(PrintRows(rows))
  {
    MarkIsInFirstField(rows);
    if RowSeen(rows[0]).fields == [Missing] then rows[1..] else [RowSeen(rows[0])] + rows[1..]
  }

  lemma DropInFirst(first: bytes, second: bytes)
    requires |first| >= 3
    ensures (first + second)[3..] == first[3..] + second
  {
  }

  lemma {:induction false} RowSeenPrints(row: Row, tail: bytes)
    requires Marked(row) && Printable(row.fields)
    ensures Printable(RowSeen(row).fields)
    ensures WithoutMark(PrintFields(row.fields) + tail) == PrintFields(RowSeen(row).fields) + tail
  {
    var text := row.fields[0].text;
    var seen := RowSeen(row).fields;
    assert PlainIfBare(row.fields[0]) && PlainIfBare(seen[0]);
    assert forall k :: 1 <= k < |seen| ==> seen[k] == row.fields[k];
    assert seen[1..] == row.fields[1..];
    FirstFieldPrints(row.fields, tail);
    FirstFieldPrints(seen, tail);
    DropInFirst(text, if |seen| == 1 then tail else [COMMA] + (PrintFields(seen[1..]) + tail));
  }

  lemma {:induction false} RowsWithoutMark(rows: seq<Row>)
    requires AllPrintable(rows) && StartsWithBom(PrintRows(rows))
    ensures rows != [] && Marked(rows[0]) && Printable(RowSeen(rows[0]).fields)
    ensures WithoutMark(PrintRows(rows))
            == PrintFields(RowSeen(rows[0]).fields) + (Ending(rows[0].crlf) + PrintRows(rows[1..]))
  {
    MarkIsInFirstField(rows);
    RowSeenPrints(rows[0], Ending(rows[0].crlf) + PrintRows(rows[1..]));
  }

  lemma {:induction false} RestIsReadable(rows: seq<Row>)
    requires rows != [] && AllPrintable(rows) && Readable(Records(rows))
    ensures AllPrintable(rows[1..]) && Readable(Records(rows[1..]))
    ensures AllOfWidth(Records(rows[1..]), |rows[0].fields|) && Records(rows)[1..] == Records(rows[1..])
  {
    assert Records(rows)[1..] == Records(rows[1..]);
    assert |Records(rows)[0]| == |rows[0].fields|;
  }

  /** A blank first line is skipped. */
  lemma {:induction false} BlankRowIsSkipped(crlf: bool, rows: seq<Row>)
    requires AllPrintable(rows) && Readable(Records(rows))
    ensures ReadAll(Ending(crlf) + PrintRows(rows), false, 0) == All(Records(rows))
  {
    var text := Ending(crlf) + PrintRows(rows);
    FirstOfEnding(crlf, PrintRows(rows));
    NextLineIsFirst(text);
    assert SkipBlank(text, false) == SkipBlank(PrintRows(rows), false);
    PrintedRowsRead(rows, 0);
  }

  lemma {:induction false} RecordsSeen(rows: seq<Row>)
    requires AllPrintable(rows) && StartsWithBom(PrintRows(rows)) && Marked(rows[0])
    requires RowSeen(rows[0]).fields != [Missing]
    ensures Records(RowsSeen(rows)) == [Values(RowSeen(rows[0]).fields)] + Records(rows[1..])
    ensures Records(RowsSeen(rows)) != Records(rows)
  {
    var seen := RowsSeen(rows);
    assert seen[0] == RowSeen(rows[0]) && seen[1..] == rows[1..];
    assert Records(seen) == [Values(seen[0].fields)] + Records(rows[1..]);
    assert Records(seen)[0][0] == Value(FieldSeen(rows[0].fields[0].text));
    assert Records(rows)[0][0] == Some(rows[0].fields[0].text);
  }

  /** A readable table that starts with a mark is read as another table. */
  lemma {:induction false} MarkedTableReads(rows: seq<Row>)
    requires AllPrintable(rows) && Readable(Records(rows)) && StartsWithBom(PrintRows(rows))
    ensures ReadAll(PrintRows(rows), true, 0) == All(Records(RowsSeen(rows)))
    ensures Records(RowsSeen(rows)) != Records(rows)
  {
    RowsWithoutMark(rows);
    RestIsReadable(rows);
    MarkIsDropped(PrintRows(rows), 0);
    var row := RowSeen(rows[0]);
    if row.fields == [Missing] {
      assert PrintFields(row.fields) + (Ending(row.crlf) + PrintRows(rows[1..]))
          == Ending(row.crlf) + PrintRows(rows[1..]);
      BlankRowIsSkipped(row.crlf, rows[1..]);
    } else {
      RecordReads(row, PrintRows(rows[1..]), 0);
      PrintedRowsRead(rows[1..], |row.fields|);
      RecordsSeen(rows);
    }
  }

  /**
    However each field is quoted and each line ended, the text is read back exactly when the records are readable
    and the text does not start with a byte order mark.
  */
  lemma {:induction false} RoundTripIff(rows: seq<Row>)
    requires AllPrintable(rows)
    ensures ReadAll(PrintRows(rows), true, 0) == All(Records(rows))
            <==> Readable(Records(rows)) && !StartsWithBom(PrintRows(rows))
  {
    if ReadAll(PrintRows(rows), true, 0) == All(Records(rows)) {
      ReadRecordsAreReadable(PrintRows(rows), true, 0);
    }
    if Readable(Records(rows)) {
      if StartsWithBom(PrintRows(rows)) {
        MarkedTableReads(rows);
      } else {
        MarkIsDropped(PrintRows(rows), 0);
        PrintedRowsRead(rows, 0);
      }
    }
  }

  /** One unquoted field of a mark and the letter a: only the letter is read. */
  lemma MarkIsLost()
    ensures var rows := [Row([Bare([0xef, 0xbb, 0xbf, 97])], false)];
            && AllPrintable(rows) && Readable(Records(rows))
            && ReadAll(PrintRows(rows), true, 0) == All([[Some([97])]])
  {
    var text: bytes := [0xef, 0xbb, 0xbf, 97];
    var row := Row([Bare(text)], false);
    assert PrintRows([row]) == text + [LF];
    MarkedTableReads([row]);
    assert FieldSeen(text) == Bare([97]);
    assert RowSeen(row).fields == [Bare([97])];
    assert RowsSeen([row]) == [RowSeen(row)];
    assert Values(RowSeen(row).fields) == [Some([97])];
    assert Records([RowSeen(row)]) == [[Some([97])]];
  }

  function Quote(cell: Cell): Field
  {
    match cell
    case None => Missing
    case Some(text) => InQuotes(text)
  }

  /** The rows that print each present field in quotes and end each line with a line feed. */
  function QuotedRows(records: seq<Record>): (rows: seq<Row>)
    ensures Records(rows) == records && AllPrintable(rows)
  {
    var rows := seq(|records|, k requires 0 <= k < |records| =>
      Row(seq(|records[k]|, i requires 0 <= i < |records[k]| => Quote(records[k][i])), false));
    assert forall k :: 0 <= k < |records| ==> Values(rows[k].fields) == records[k];
    rows
  }

  lemma QuotedRowsHaveNoBom(records: seq<Record>)
    ensures !StartsWithBom(PrintRows(QuotedRows(records)))
  {
    var rows := QuotedRows(records);
    if rows != [] {
      var fields := rows[0].fields;
      assert fields != [] ==> fields[0] == Quote(records[0][0]);
      assert PrintRows(rows)[0] in {QUOTE, COMMA, LF};
    }
  }

  /** A list of records is the result of reading some input exactly when it is readable. */
  lemma ReturnedIffReadable(records: seq<Record>)
    ensures (exists input :: ReadAll(input, true, 0) == All(records)) <==> Readable(records)
  {
    if Readable(records) {
      QuotedRowsHaveNoBom(records);
      RoundTripIff(QuotedRows(records));
    }
    forall input | ReadAll(input, true, 0) == All(records) ensures Readable(records) {
      ReadRecordsAreReadable(input, true, 0);
    }
  }

  /** Printing what was read and reading it again gives the same records. */
  lemma RereadIsSame(input: bytes)
    requires ReadAll(input, true, 0).All?
    ensures ReadAll(PrintRows(QuotedRows(ReadAll(input, true, 0).records)), true, 0) == ReadAll(input, true, 0)
  {
    var records := ReadAll(input, true, 0).records;
    ReadRecordsAreReadable(input, true, 0);
    QuotedRowsHaveNoBom(records);
    RoundTripIff(QuotedRows(records));
  }
}
