/**
  Which inputs the CSV reader of tools/csv/reader.go refuses: the grammar of RFC 4180, section 2, read byte by byte,
  without lines and without the search for quotes, and the proof that the reader refuses exactly what it does.
*/
module CsvGrammar {
  import opened Wrappers
  import opened Bytes
  import opened Csv
  import RoundTrip = CsvRoundTrip

  /** Where a byte of a record stands. */
  datatype Place = FieldStart | InBare | InQuotes | AfterQuote

  /** The end of the input, a line feed, or a carriage return before either. */
  predicate AtRecordEnd(text: bytes)
  {
    text == [] || text[0] == LF || text == [CR] || (|text| > 1 && text[0] == CR && text[1] == LF)
  }

  /** What follows the end of a record. */
  function AfterEnd(text: bytes): (rest: bytes)
    requires AtRecordEnd(text)
    ensures |rest| <= |text|
  {
    if text == [] || text == [CR] then [] else if text[0] == LF then text[1..] else text[2..]
  }

  /**
    Why a record is refused: a quote inside a field that does not start with one, a quoted field that is never closed,
    or a closing quote that neither a separator nor the end of the record follows.
  */
  function Refusal(text: bytes, at: Place): Option<Error>
    decreases |text|
  {
    match at
    case FieldStart =>
      if text == [] || text[0] == LF then None
      else if text[0] == QUOTE then Refusal(text[1..], InQuotes)
      else if text[0] == COMMA then Refusal(text[1..], FieldStart)
      else Refusal(text[1..], InBare)
    case InBare =>
      if text == [] || text[0] == LF then None
      else if text[0] == QUOTE then Some(BareQuote)
      else if text[0] == COMMA then Refusal(text[1..], FieldStart)
      else Refusal(text[1..], InBare)
    case InQuotes =>
      if text == [] then Some(BadQuote)
      else if text[0] == QUOTE then Refusal(text[1..], AfterQuote)
      else Refusal(text[1..], InQuotes)
    case AfterQuote =>
      if AtRecordEnd(text) then None
      else if text[0] == QUOTE then Refusal(text[1..], InQuotes)
      else if text[0] == COMMA then Refusal(text[1..], FieldStart)
      else Some(BadQuote)
  }

  // ---- the reader at a place of the input ----

  function LineAt(text: bytes): Line
  {
    NextLine(text, false)
  }

  function QuotedAt(text: bytes): Quoted
  {
    ReadQuoted(LineAt(text).text, LineAt(text).rest)
  }

  function FieldsAt(text: bytes): Parsed
  {
    ReadFields(LineAt(text).text, LineAt(text).rest)
  }

  /** The line goes on after bytes of it, up to the carriage return that ends the input. */
  lemma LineAfter(prefix: bytes, tail: bytes)
    requires prefix != [] && LF !in prefix && (tail != [] || prefix[|prefix| - 1] != CR)
    ensures LineAt(prefix + tail) == Line(prefix + LineAt(tail).text, LineAt(tail).rest)
  {
    var i := IndexOf(tail, LF);
    forall k | 0 <= k < |prefix| + i ensures (prefix + tail)[k] != LF {
      if k < |prefix| {
        assert prefix[k] in prefix;
      }
    }
    IndexIs(prefix + tail, LF, |prefix| + i);
    var n := LineLength(tail);
    assert LineLength(prefix + tail) == |prefix| + n;
    assert (prefix + tail)[..|prefix| + n] == prefix + tail[..n];
    assert (prefix + tail)[|prefix| + n..] == tail[n..];
    if n > 0 && tail[n - 1] == CR {
      assert (prefix + tail[..n])[..|prefix| + n - 1] == prefix + tail[..n][..n - 1];
    }
  }

  lemma LineFeedFirst(text: bytes)
    requires text != [] && text[0] == LF
    ensures LineAt(text) == Line([LF], text[1..])
  {
    IndexIs(text, LF, 0);
    assert text[..1] == [LF];
  }

  /** The line is empty but for its ending exactly at the end of a record. */
  lemma EndIffBlank(text: bytes)
    ensures AtRecordEnd(text) ==> LineAt(text).rest == AfterEnd(text)
    ensures var line := LineAt(text).text; |line| == LengthNL(line) <==> AtRecordEnd(text)
    ensures LineAt(text).text == [] <==> text == [] || text == [CR]
    ensures LineAt(text).text != [] ==> LineAt(text).text[0] == text[0]
  {
    var n := LineLength(text);
    if text != [] && text[0] == LF {
      LineFeedFirst(text);
    } else if |text| > 1 && text[0] == CR && text[1] == LF {
      IndexIs(text, LF, 1);
    }
  }

  // ---- quoted fields ----

  /** A quoted field by the grammar: how it ends, its text, and what follows its comma or its record. */
  datatype End = End(closing: Closing, text: bytes, tail: bytes)

  /** Behind the opening quote: any byte stands for itself, two quotes for one, and a single quote ends the field. */
  function EndOf(text: bytes): End
    decreases |text|
  {
    if text == [] then End(Unclosed, [], [])
    else if text[0] != QUOTE then var e := EndOf(text[1..]); e.(text := [text[0]] + e.text)
    else if AtRecordEnd(text[1..]) then End(ByLineEnd, [], AfterEnd(text[1..]))
    else if text[1] == QUOTE then var e := EndOf(text[2..]); e.(text := [QUOTE] + e.text)
    else if text[1] == COMMA then End(ByComma, [], text[2..])
    else End(Unclosed, [], [])
  }

  lemma {:induction false} EndIsShorter(text: bytes)
    ensures |EndOf(text).tail| <= |text|
    decreases |text|
  {
    if text != [] && text[0] != QUOTE {
      EndIsShorter(text[1..]);
    } else if |text| > 1 && text[1] == QUOTE {
      EndIsShorter(text[2..]);
    }
  }

  lemma {:induction false} RefusalByEnd(text: bytes)
    ensures Refusal(text, InQuotes) ==
            match EndOf(text).closing
            case ByComma => Refusal(EndOf(text).tail, FieldStart)
            case ByLineEnd => None
            case Unclosed => Some(BadQuote)
    decreases |text|
  {
    if text != [] {
      if text[0] != QUOTE {
        RefusalByEnd(text[1..]);
      } else if !AtRecordEnd(text[1..]) {
        assert text[1..][1..] == text[2..];
        if text[1] == QUOTE {
          RefusalByEnd(text[2..]);
        }
      }
    }
  }

  /** The reader finds the end that the grammar gives. */
  ghost predicate EndsLike(q: Quoted, e: End)
  {
    && q.closing == e.closing
    && (q.closing != Unclosed ==> q.text == e.text)
    && (q.closing == ByComma ==> Line(q.line, q.rest) == LineAt(e.tail))
    && (q.closing == ByLineEnd ==> q.rest == e.tail)
  }

  lemma {:induction false} PlainEnds(text: bytes)
    requires text != [] && text[0] != QUOTE && EndsLike(QuotedAt(text[1..]), EndOf(text[1..]))
    ensures EndsLike(QuotedAt(text), EndOf(text))
  {
    var b, tail := text[0], text[1..];
    assert text == [b] + tail;
    if b == LF {
      LineFeedFirst(text);
      IndexIs([LF], QUOTE, 1);
    } else if text != [CR] {
      LineAfter([b], tail);
      EndIffBlank(tail);
      var line, rest := LineAt(tail).text, LineAt(tail).rest;
      if line != [] {
        RoundTrip.PlainByte(b, line, rest);
      } else {
        IndexIs([b], QUOTE, 1);
        assert rest == [];
      }
    }
  }

  lemma ClosingChunk(follow: bytes, rest: bytes, whole: bytes)
    requires whole == [QUOTE] + follow && (follow == [] || (follow[0] != QUOTE && follow[0] != COMMA))
    ensures NextChunk(whole, rest)
            == Last(Quoted([], if LengthNL(follow) == |follow| then ByLineEnd else Unclosed, follow, rest))
  {
    IndexIs(whole, QUOTE, 0);
    assert whole[1..] == follow;
  }

  lemma {:induction false} ClosingEnds(text: bytes)
    requires text != [] && text[0] == QUOTE && (AtRecordEnd(text[1..]) || (text[1] != QUOTE && text[1] != COMMA))
    ensures EndsLike(QuotedAt(text), EndOf(text))
  {
    var tail := text[1..];
    assert text == [QUOTE] + tail;
    LineAfter([QUOTE], tail);
    EndIffBlank(tail);
    ClosingChunk(LineAt(tail).text, LineAt(tail).rest, LineAt(text).text);
  }

  lemma CommaChunk(line: bytes, rest: bytes, whole: bytes)
    requires whole == [QUOTE, COMMA] + line
    ensures NextChunk(whole, rest) == Last(Quoted([], ByComma, line, rest))
  {
    IndexIs(whole, QUOTE, 0);
    assert whole[1..][1..] == line;
  }

  lemma {:induction false} CommaEnds(text: bytes)
    requires |text| > 1 && text[0] == QUOTE && text[1] == COMMA
    ensures EndsLike(QuotedAt(text), EndOf(text))
  {
    var tail := text[2..];
    assert text == [QUOTE, COMMA] + tail;
    LineAfter([QUOTE, COMMA], tail);
    CommaChunk(LineAt(tail).text, LineAt(tail).rest, LineAt(text).text);
  }

  lemma {:induction false} QuotedEnds(text: bytes)
    ensures EndsLike(QuotedAt(text), EndOf(text))
    decreases |text|
  {
    if text == [] {
    } else if text[0] != QUOTE {
      QuotedEnds(text[1..]);
      PlainEnds(text);
    } else if AtRecordEnd(text[1..]) || (text[1] != QUOTE && text[1] != COMMA) {
      ClosingEnds(text);
    } else if text[1] == COMMA {
      CommaEnds(text);
    } else {
      var tail := text[2..];
      assert text == [QUOTE, QUOTE] + tail;
      LineAfter([QUOTE, QUOTE], tail);
      RoundTrip.QuotedQuote(LineAt(tail).text, LineAt(tail).rest);
      QuotedEnds(tail);
    }
  }

  // ---- bare fields ----

  predicate EndsBare(b: byte)
  {
    b == COMMA || b == LF || b == QUOTE
  }

  /** The number of bytes before the first comma, line feed or quote. */
  function BareLength(text: bytes): (n: nat)
    ensures n <= |text|
    ensures forall k :: 0 <= k < n ==> !EndsBare(text[k])
    ensures n < |text| ==> EndsBare(text[n])
  {
    if text == [] || EndsBare(text[0]) then 0 else 1 + BareLength(text[1..])
  }

  lemma {:induction false} RefusalOfBare(text: bytes)
    ensures var n := BareLength(text);
            Refusal(text, InBare) ==
            if n == |text| || text[n] == LF then None
            else if text[n] == QUOTE then Some(BareQuote)
            else Refusal(text[n + 1..], FieldStart)
    decreases |text|
  {
    if text != [] && !EndsBare(text[0]) {
      RefusalOfBare(text[1..]);
      var n := BareLength(text[1..]);
      assert n < |text[1..]| ==> text[1..][n + 1..] == text[n + 2..];
    }
  }

  /** A field that does not start with a quote, at the start of a field. */
  lemma {:induction false} BareStart(text: bytes)
    requires text == [] || text[0] != QUOTE
    ensures Refusal(text, FieldStart) == Refusal(text, InBare)
  {
  }

  lemma CommaInLine(line: bytes, rest: bytes, n: nat)
    requires n < |line| && line[n] == COMMA && forall k :: 0 <= k < n ==> line[k] != COMMA && line[k] != QUOTE
    ensures ReadFields(line, rest) == Following([BareCell(line[..n])], ReadFields(line[n + 1..], rest))
  {
    IndexIs(line, COMMA, n);
    assert line[0] != QUOTE;
  }

  lemma QuoteInLine(line: bytes, rest: bytes, n: nat)
    requires 0 < n < |line| && line[n] == QUOTE && forall k :: 0 <= k < n ==> line[k] != COMMA && line[k] != QUOTE
    ensures ReadFields(line, rest).error == Some(BareQuote)
  {
    assert IndexOf(line, COMMA) > n;
    assert BareText(line)[n] == QUOTE;
  }

  lemma NeitherInLine(line: bytes, rest: bytes)
    requires forall k :: 0 <= k < |line| ==> line[k] != COMMA && line[k] != QUOTE
    ensures ReadFields(line, rest).error == None
  {
    IndexIs(line, COMMA, |line|);
  }

  /** The line that starts with the field and the byte after it. */
  lemma {:induction false} BareLine(text: bytes)
    requires var n := BareLength(text); n < |text| && text[n] != LF
    ensures var n := BareLength(text);
            LineAt(text) == Line(text[..n + 1] + LineAt(text[n + 1..]).text, LineAt(text[n + 1..]).rest)
  {
    var n := BareLength(text);
    var prefix, tail := text[..n + 1], text[n + 1..];
    assert text == prefix + tail;
    assert LF !in prefix;
    LineAfter(prefix, tail);
  }

  lemma {:induction false} BareThenComma(text: bytes)
    requires var n := BareLength(text); n < |text| && text[n] == COMMA
    ensures var n := BareLength(text);
            FieldsAt(text) == Following([BareCell(text[..n])], FieldsAt(text[n + 1..]))
  {
    var n := BareLength(text);
    BareLine(text);
    var line := LineAt(text).text;
    CommaInLine(line, LineAt(text).rest, n);
    assert line[n + 1..] == LineAt(text[n + 1..]).text && line[..n] == text[..n];
  }

  lemma {:induction false} BareThenQuote(text: bytes)
    requires var n := BareLength(text); 0 < n < |text| && text[n] == QUOTE
    ensures FieldsAt(text).error == Some(BareQuote)
  {
    BareLine(text);
    QuoteInLine(LineAt(text).text, LineAt(text).rest, BareLength(text));
  }

  lemma {:induction false} BareThenEnd(text: bytes)
    requires var n := BareLength(text); n == |text| || text[n] == LF
    ensures FieldsAt(text).error == None
  {
    IndexIs(text, LF, BareLength(text));
    NeitherInLine(LineAt(text).text, LineAt(text).rest);
  }

  // ---- records ----

  lemma {:induction false} QuotedFirst(text: bytes)
    requires text != [] && text[0] == QUOTE
    ensures var q := QuotedAt(text[1..]);
            FieldsAt(text) ==
            match q.closing
            case ByComma => Following([Some(q.text)], ReadFields(q.line, q.rest))
            case ByLineEnd => Parsed([Some(q.text)], None, q.rest)
            case Unclosed => Parsed([], Some(BadQuote), q.rest)
  {
    var tail := text[1..];
    assert text == [QUOTE] + tail;
    LineAfter([QUOTE], tail);
    assert ([QUOTE] + LineAt(tail).text)[1..] == LineAt(tail).text;
  }

  /** The reader refuses a record exactly when the grammar does, and gives the same reason. */
  lemma {:induction false} RefusedIff(text: bytes)
    ensures FieldsAt(text).error == Refusal(text, FieldStart)
    decreases |text|
  {
    if text != [] && text[0] == QUOTE {
      QuotedFirst(text);
      QuotedEnds(text[1..]);
      RefusalByEnd(text[1..]);
      EndIsShorter(text[1..]);
      RefusedIff(EndOf(text[1..]).tail);
    } else {
      var n := BareLength(text);
      BareStart(text);
      RefusalOfBare(text);
      if n == |text| || text[n] == LF {
        BareThenEnd(text);
      } else if text[n] == QUOTE {
        BareThenQuote(text);
      } else {
        BareThenComma(text);
        RefusedIff(text[n + 1..]);
      }
    }
  }

  // ---- values ----

  /** The text of a field that ends with its record, without the carriage return that belongs to the ending. */
  function WithoutCR(text: bytes): bytes
  {
    if text != [] && text[|text| - 1] == CR then text[..|text| - 1] else text
  }

  /** The fields of a record by the grammar, up to the first that is refused, and what follows the record. */
  function Fields(text: bytes): Parsed
    decreases |text|
  {
    var n := BareLength(text);
    if text != [] && text[0] == QUOTE then
      EndIsShorter(text[1..]);
      var e := EndOf(text[1..]);
      match e.closing
      case ByComma => Following([Some(e.text)], Fields(e.tail))
      case ByLineEnd => Parsed([Some(e.text)], None, e.tail)
      case Unclosed => Parsed([], Some(BadQuote), [])
    else if n == |text| then Parsed([BareCell(WithoutCR(text))], None, [])
    else if text[n] == LF then Parsed([BareCell(WithoutCR(text[..n]))], None, text[n + 1..])
    else if text[n] == QUOTE then Parsed([], Some(BareQuote), [])
    else Following([BareCell(text[..n])], Fields(text[n + 1..]))
  }

  lemma LastInLine(line: bytes, rest: bytes, text: bytes)
    requires forall k :: 0 <= k < |line| ==> line[k] != COMMA && line[k] != QUOTE
    requires text == line[..|line| - LengthNL(line)]
    ensures ReadFields(line, rest) == Parsed([BareCell(text)], None, rest)
  {
    IndexIs(line, COMMA, |line|);
    assert QUOTE !in text;
  }

  lemma {:induction false} BareEnds(text: bytes)
    requires var n := BareLength(text); n == |text| || text[n] == LF
    ensures var n := BareLength(text);
            FieldsAt(text) == Parsed([BareCell(WithoutCR(text[..n]))], None, if n == |text| then [] else text[n + 1..])
  {
    var n := BareLength(text);
    IndexIs(text, LF, n);
    var line := LineAt(text).text;
    LastInLine(line, LineAt(text).rest, WithoutCR(text[..n]));
  }

  /** The reader gives the fields of the grammar, on every input, and goes on behind the record. */
  lemma {:induction false} ReadsTheGrammar(text: bytes)
    ensures var p, g := FieldsAt(text), Fields(text);
            p.fields == g.fields && p.error == g.error && (p.error.None? ==> p.rest == g.rest)
    decreases |text|
  {
    var n := BareLength(text);
    if text != [] && text[0] == QUOTE {
      QuotedFirst(text);
      QuotedEnds(text[1..]);
      EndIsShorter(text[1..]);
      ReadsTheGrammar(EndOf(text[1..]).tail);
    } else if n == |text| || text[n] == LF {
      BareEnds(text);
      assert n == |text| ==> text[..n] == text;
    } else if text[n] == QUOTE {
      BareThenQuote(text);
    } else {
      BareThenComma(text);
      ReadsTheGrammar(text[n + 1..]);
    }
  }

  // ---- the input ----

  /** The input from its first line that is not blank. */
  function FromRecord(input: bytes): (text: bytes)
    ensures |text| <= |input|
    decreases |input|
  {
    if input != [] && Blank(LineAt(input).text) then FromRecord(LineAt(input).rest) else input
  }

  lemma {:induction false} SkipsToRecord(input: bytes)
    ensures SkipBlank(input, false) ==
            if FromRecord(input) == [] then None else Some(LineAt(FromRecord(input)))
    decreases |input|
  {
    if input != [] && Blank(LineAt(input).text) {
      SkipsToRecord(LineAt(input).rest);
    }
  }

  /**
    A record is read without error exactly when the grammar accepts what follows the blank lines and it has the number
    of fields that is expected.
  */
  lemma RecordRefusedIff(input: bytes, expected: int)
    ensures var o, text := ReadRecord(input, false, expected), FromRecord(input);
            && (o.EndOfInput? <==> text == [])
            && (o.Read? ==>
                  o.error == if Refusal(text, FieldStart).Some? then Refusal(text, FieldStart)
                             else if expected <= 0 || |o.fields| == expected then None else Some(FieldCount))
  {
    SkipsToRecord(input);
    RefusedIff(FromRecord(input));
  }
}
