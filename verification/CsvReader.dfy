/** The CSV reader as the object that tools/csv/reader.go updates, proved against the functions of `Csv`. */
module CsvReader {
  import opened Wrappers
  import opened Bytes
  import opened Csv
  import RoundTrip = CsvRoundTrip

  // ---- the record buffer and its index ----

  function TextOf(cell: Cell): bytes
  {
    if cell.None? then [] else cell.value
  }

  /** The record buffer after `fields`: their texts one after another. */
  function Joined(fields: Record): bytes
  {
    if fields == [] then []
    else Joined(fields[..|fields| - 1]) + TextOf(fields[|fields| - 1])
  }

  /** The field index after `fields`: where each text ends in the buffer, or -1 for a missing field. */
  function Ends(fields: Record): (ends: seq<int>)
    ensures |ends| == |fields|
  {
    if fields == [] then []
    else Ends(fields[..|fields| - 1]) + [if fields[|fields| - 1].None? then -1 else |Joined(fields)|]
  }

  lemma AddField(fields: Record, cell: Cell)
    ensures Joined(fields + [cell]) == Joined(fields) + TextOf(cell)
    ensures Ends(fields + [cell]) == Ends(fields) + [if cell.None? then -1 else |Joined(fields)| + |TextOf(cell)|]
  {
    assert (fields + [cell])[..|fields|] == fields;
  }

  /** The part of the buffer between one field's end and the next field's is that field. */
  lemma {:induction false} FieldInBuffer(fields: Record, i: nat)
    requires i < |fields|
    ensures Joined(fields[..i + 1]) <= Joined(fields)
    ensures Joined(fields[..i + 1]) == Joined(fields[..i]) + TextOf(fields[i])
    ensures Ends(fields)[i] == if fields[i].None? then -1 else |Joined(fields[..i + 1])|
    decreases |fields|
  {
    var n := |fields| - 1;
    assert fields[..i + 1][..i] == fields[..i];
    if i == n {
      assert fields[..i + 1] == fields;
    } else {
      FieldInBuffer(fields[..n], i);
      assert fields[..n][..i + 1] == fields[..i + 1];
      assert fields[..n][..i] == fields[..i];
    }
  }

  /** Cuts the buffer at the indexes; every slice is in bounds and is the field that was read. */
  method CutFields(buffer: bytes, indexes: seq<int>, ghost fields: Record) returns (dst: Record)
    requires Joined(fields) <= buffer && indexes == Ends(fields)
    ensures dst == fields
  {
    dst := [];
    var preIdx := 0;
    for i := 0 to |indexes|
      invariant dst == fields[..i]
      invariant preIdx == |Joined(fields[..i])|
    {
      FieldInBuffer(fields, i);
      assert fields[..i + 1] == fields[..i] + [fields[i]];
      assert fields[i].Some? ==> buffer[preIdx..indexes[i]] == fields[i].value;
      if indexes[i] == -1 {
        dst := dst + [None];
      } else {
        dst := dst + [Some(buffer[preIdx..indexes[i]])];
        preIdx := indexes[i];
      }
    }
  }

  lemma AfterAfter(text: bytes, more: bytes, q: Quoted)
    ensures After(text, After(more, q)) == After(text + more, q)
  {
    assert text + (more + q.text) == text + more + q.text;
  }

  class Reader {
    var unread: bytes
    var isFirstLine: bool
    var fieldsPerRecord: int
    var recordBuffer: bytes
    var fieldIndexes: seq<int>

    constructor (input: bytes)
      ensures unread == input && isFirstLine && fieldsPerRecord == 0
    {
      unread, isFirstLine, fieldsPerRecord := input, true, 0;
      recordBuffer, fieldIndexes := [], [];
    }

    method ReadLine() returns (line: bytes, eof: bool)
      modifies `unread, `isFirstLine
      ensures !isFirstLine && eof == (old(unread) == [])
      ensures Line(line, unread) == NextLine(old(unread), old(isFirstLine))
    {
      var readSize := LineLength(unread);
      line := unread[..readSize];
      eof := readSize == 0;
      if readSize > 0 && line[readSize - 1] == CR {
        line := line[..readSize - 1];
      }
      unread := unread[readSize..];
      if isFirstLine {
        isFirstLine := false;
        if StartsWithBom(line) {
          line := line[3..];
        }
      }
    }

    /** One turn of the loop over a quoted field; `closing` is `None` while the field goes on. */
    method ReadChunk(start: bytes) returns (line: bytes, closing: Option<Closing>, ghost text: bytes)
      requires !isFirstLine
      modifies `unread, `isFirstLine, `recordBuffer
      ensures !isFirstLine && recordBuffer == old(recordBuffer) + text
      ensures closing.None? ==>
                && |line| + |unread| < |start| + |old(unread)|
                && ReadQuoted(start, old(unread)) == After(text, ReadQuoted(line, unread))
      ensures closing.Some? ==> ReadQuoted(start, old(unread)) == Quoted(text, closing.value, line, unread)
    {
      var i := IndexOf(start, QUOTE);
      if i < |start| {
        recordBuffer := recordBuffer + start[..i];
        text := start[..i];
        line := start[i + 1..];
        if line != [] && line[0] == QUOTE {
          recordBuffer := recordBuffer + [QUOTE];
          text := text + [QUOTE];
          return line[1..], None, text;
        } else if line != [] && line[0] == COMMA {
          return line[1..], Some(ByComma), text;
        } else if LengthNL(line) == |line| {
          return line, Some(ByLineEnd), text;
        } else {
          return line, Some(Unclosed), text;
        }
      } else if |start| > 0 {
        recordBuffer := recordBuffer + start;
        var eof;
        line, eof := ReadLine();
        return line, None, start;
      } else {
        return start, Some(Unclosed), [];
      }
    }

    /** The loop over a quoted field: its text is appended to the record buffer. */
    method ReadQuotedField(start: bytes) returns (line: bytes, closing: Closing)
      requires !isFirstLine
      modifies `unread, `isFirstLine, `recordBuffer
      ensures !isFirstLine
      ensures var q := ReadQuoted(start, old(unread));
              recordBuffer == old(recordBuffer) + q.text && closing == q.closing && line == q.line && unread == q.rest
    {
      line := start;
      var done: Option<Closing> := None;
      ghost var whole := After(recordBuffer, ReadQuoted(start, unread));
      while done.None?
        invariant !isFirstLine
        invariant done.None? ==> whole == After(recordBuffer, ReadQuoted(line, unread))
        invariant done.Some? ==> whole == Quoted(recordBuffer, done.value, line, unread)
        decreases done.None?, |line| + |unread|
      {
        ghost var text;
        ghost var before := recordBuffer;
        line, done, text := ReadChunk(line);
        AfterAfter(before, text, ReadQuoted(line, unread));
      }
      closing := done.value;
    }

    ghost predicate Holds(fields: Record)
      reads this
    {
      recordBuffer == Joined(fields) && fieldIndexes == Ends(fields)
    }

    method AppendField(missing: bool, ghost cell: Cell, ghost fields: Record)
      requires recordBuffer == Joined(fields) + TextOf(cell) && fieldIndexes == Ends(fields)
      requires missing == cell.None?
      modifies `fieldIndexes
      ensures Holds(fields + [cell])
    {
      fieldIndexes := fieldIndexes + [if missing then -1 else |recordBuffer|];
      AddField(fields, cell);
    }

    ghost predicate Stopped(fields: Record, error: Option<Error>, whole: Parsed)
      reads this
    {
      && Joined(fields) <= recordBuffer && fieldIndexes == Ends(fields)
      && whole == Parsed([], error, unread)
    }

    method AppendBare(field: bytes, ghost fields: Record)
      requires Holds(fields)
      modifies `recordBuffer, `fieldIndexes
      ensures Holds(fields + [BareCell(field)])
    {
      recordBuffer := recordBuffer + field;
      AppendField(|field| == 0, BareCell(field), fields);
    }

    method ReadBareField(start: bytes, ghost fields: Record)
        returns (line: bytes, error: Option<Error>, more: bool, ghost cell: Cell)
      requires Holds(fields) && (start == [] || start[0] != QUOTE)
      modifies `recordBuffer, `fieldIndexes
      ensures error.None? ==> Holds(fields + [cell])
      ensures error.Some? ==> Stopped(fields, error, ReadFields(start, unread))
      ensures error.None? && more ==>
                |line| < |start| && ReadFields(start, unread) == Following([cell], ReadFields(line, unread))
      ensures error.None? && !more ==> ReadFields(start, unread) == Parsed([cell], None, unread)
    {
      var i := IndexOf(start, COMMA);
      var field := BareText(start);
      if QUOTE in field {
        return start, Some(BareQuote), false, None;
      }
      AppendBare(field, fields);
      cell := BareCell(field);
      if i < |start| {
        return start[i + 1..], None, true, cell;
      }
      return start, None, false, cell;
    }

    /** One turn of the loop over the fields; `more` says whether a comma followed the field. */
    method ReadField(start: bytes, ghost fields: Record)
        returns (line: bytes, error: Option<Error>, more: bool, ghost cell: Cell)
      requires !isFirstLine && Holds(fields)
      modifies `unread, `isFirstLine, `recordBuffer, `fieldIndexes
      ensures !isFirstLine
      ensures error.None? ==> Holds(fields + [cell])
      ensures error.Some? ==> Stopped(fields, error, ReadFields(start, old(unread)))
      ensures error.None? && more ==>
                && |line| + |unread| < |start| + |old(unread)|
                && ReadFields(start, old(unread)) == Following([cell], ReadFields(line, unread))
      ensures error.None? && !more ==> ReadFields(start, old(unread)) == Parsed([cell], None, unread)
    {
      if |start| == 0 || start[0] != QUOTE {
        line, error, more, cell := ReadBareField(start, fields);
      } else {
        cell := Some(ReadQuoted(start[1..], unread).text);
        var closing;
        line, closing := ReadQuotedField(start[1..]);
        if closing.Unclosed? {
          return line, Some(BadQuote), false, None;
        }
        AppendField(false, cell, fields);
        return line, None, closing.ByComma?, cell;
      }
    }

    /** The loop over the fields of a record; the cut buffer gives the fields read before any error. */
    method ReadAllFields(start: bytes) returns (record: Record, error: Option<Error>)
      requires !isFirstLine
      modifies `unread, `isFirstLine, `recordBuffer, `fieldIndexes
      ensures !isFirstLine
      ensures Parsed(record, error, unread) == ReadFields(start, old(unread))
    {
      recordBuffer, fieldIndexes := [], [];
      var line, more := start, true;
      error := None;
      ghost var fields: Record := [];
      ghost var whole := ReadFields(start, unread);
      while more
        invariant !isFirstLine
        invariant more ==> error.None? && Holds(fields) && whole == Following(fields, ReadFields(line, unread))
        invariant !more ==> Joined(fields) <= recordBuffer && fieldIndexes == Ends(fields)
        invariant !more ==> whole == Parsed(fields, error, unread)
        decreases more, |line| + |unread|
      {
        ghost var cell;
        line, error, more, cell := ReadField(line, fields);
        if error.None? {
          FollowingFollowing(fields, cell, ReadFields(line, unread));
          fields := fields + [cell];
        } else {
          more := false;
        }
      }
      record := CutFields(recordBuffer, fieldIndexes, fields);
    }

    /** The loop past blank lines. */
    method SkipBlankLines() returns (line: bytes, eof: bool)
      modifies `unread, `isFirstLine
      ensures !isFirstLine
      ensures SkipBlank(old(unread), old(isFirstLine)) == if eof then None else Some(Line(line, unread))
    {
      ghost var found := SkipBlank(unread, isFirstLine);
      line, eof := ReadLine();
      while !eof && |line| == LengthNL(line)
        invariant !isFirstLine
        invariant eof ==> found == None
        invariant !eof ==> found == if Blank(line) then SkipBlank(unread, false) else Some(Line(line, unread))
        decreases !eof, |unread|
      {
        line, eof := ReadLine();
      }
    }

    /** Read: the next record with the error that spoiled it, or `EndOfInput`. */
    method ReadRecord() returns (o: Outcome)
      modifies this
      ensures o == Csv.ReadRecord(old(unread), old(isFirstLine), old(fieldsPerRecord))
      ensures !isFirstLine
      ensures o.Read? ==> unread == o.rest && fieldsPerRecord == o.expected
    {
      var line, eof := SkipBlankLines();
      if eof {
        return EndOfInput;
      }
      var record, error := ReadAllFields(line);
      if fieldsPerRecord > 0 {
        if |record| != fieldsPerRecord && error.None? {
          error := Some(FieldCount);
        }
      } else if fieldsPerRecord == 0 {
        fieldsPerRecord := |record|;
      }
      o := Read(record, error, unread, fieldsPerRecord);
    }

    /** ReadAll: every record up to the end of the input, or the first error. */
    method ReadAll() returns (all: RoundTrip.All)
      modifies this
      ensures all == RoundTrip.ReadAll(old(unread), old(isFirstLine), old(fieldsPerRecord))
    {
      var records := [];
      ghost var whole := RoundTrip.ReadAll(unread, isFirstLine, fieldsPerRecord);
      while true
        invariant whole == Append(records, RoundTrip.ReadAll(unread, isFirstLine, fieldsPerRecord))
        decreases |unread|
      {
        var o := ReadRecord();
        if o.EndOfInput? {
          return RoundTrip.All(records);
        }
        if o.error.Some? {
          return RoundTrip.Failed(o.error.value);
        }
        AppendAppend(records, o.fields, RoundTrip.ReadAll(unread, isFirstLine, fieldsPerRecord));
        records := records + [o.fields];
      }
    }
  }

  lemma FollowingFollowing(fields: Record, cell: Cell, p: Parsed)
    ensures Following(fields, Following([cell], p)) == Following(fields + [cell], p)
  {
    assert fields + ([cell] + p.fields) == fields + [cell] + p.fields;
  }

  function Append(records: seq<Record>, all: RoundTrip.All): RoundTrip.All
  {
    match all
    case All(more) => RoundTrip.All(records + more)
    case Failed(_) => all
  }

  lemma AppendAppend(records: seq<Record>, fields: Record, all: RoundTrip.All)
    ensures Append(records, Append([fields], all)) == Append(records + [fields], all)
  {
    if all.All? {
      assert records + ([fields] + all.records) == records + [fields] + all.records;
    }
  }
}
