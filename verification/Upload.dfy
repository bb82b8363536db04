/** The CSV upload of controller/rest/restful.go: records become row tuples, batched into INSERT statements below 1 MiB. */
module Upload {
  import opened Wrappers
  import opened Bytes
  import opened Csv
  import opened CsvReader
  import RoundTrip = CsvRoundTrip

  const MAX_SQL_LENGTH := 1024 * 1024
  const APOSTROPHE: byte := 39
  const OPEN: byte := 40
  const CLOSE: byte := 41
  const BACKSLASH: byte := 92

  // ---- row tuples ----

  /** The replacer: a backslash before each backslash, apostrophe and parenthesis. */
  function Replace(s: bytes): bytes
  {
    if s == [] then []
    else (if s[0] in {BACKSLASH, APOSTROPHE, OPEN, CLOSE} then [BACKSLASH, s[0]] else [s[0]]) + Replace(s[1..])
  }

  function Literal(cell: Cell, isStr: bool): bytes
  {
    if cell.None? then NULL
    else if isStr then [APOSTROPHE] + Replace(cell.value) + [APOSTROPHE]
    else cell.value
  }

  function Literals(record: Record, isStr: seq<bool>, n: nat): bytes
    requires n <= |isStr| <= |record|
  {
    if n == 0 then []
    else Literals(record, isStr, n - 1) + Literal(record[n - 1], isStr[n - 1]) + (if n < |isStr| then [COMMA] else [])
  }

  function Tuple(record: Record, isStr: seq<bool>): (t: bytes)
    requires |isStr| <= |record|
    ensures |t| > 0
  {
    [OPEN] + Literals(record, isStr, |isStr|) + [CLOSE]
  }

  method WriteLiteral(cell: Cell, isStr: bool) returns (text: bytes)
    ensures text == Literal(cell, isStr)
  {
    if cell.None? {
      text := NULL;
    } else if isStr {
      text := [APOSTROPHE] + Replace(cell.value) + [APOSTROPHE];
    } else {
      text := cell.value;
    }
  }

  method WriteTuple(record: Record, isStr: seq<bool>) returns (colBuffer: bytes)
    requires |isStr| <= |record|
    ensures colBuffer == Tuple(record, isStr)
  {
    colBuffer := [OPEN];
    for i := 0 to |isStr|
      invariant colBuffer == [OPEN] + Literals(record, isStr, i)
    {
      var literal := WriteLiteral(record[i], isStr[i]);
      colBuffer := colBuffer + literal;
      if i != |isStr| - 1 {
        colBuffer := colBuffer + [COMMA];
      }
    }
    colBuffer := colBuffer + [CLOSE];
  }

  // ---- batches ----

  type Batch = seq<bytes>

  function Flatten(batches: seq<Batch>): Batch
  {
    if batches == [] then [] else Flatten(batches[..|batches| - 1]) + batches[|batches| - 1]
  }

  function Statement(prefix: bytes, batch: Batch): bytes
  {
    prefix + Concat(batch, |batch|)
  }

  function Statements(prefix: bytes, batches: seq<Batch>): (ss: seq<bytes>)
    ensures |ss| == |batches| && forall k :: 0 <= k < |ss| ==> ss[k] == Statement(prefix, batches[k])
  {
    seq(|batches|, k requires 0 <= k < |batches| => Statement(prefix, batches[k]))
  }

  /** Whether a tuple no longer fits behind a statement of this length. */
  predicate Overflows(length: nat, tuple: bytes)
  {
    length + |tuple| >= MAX_SQL_LENGTH
  }

  /** The batches already executed, and the one in the buffer. */
  datatype Packed = Packed(closed: seq<Batch>, pending: Batch)

  function AddTuple(prefix: bytes, p: Packed, tuple: bytes): Packed
  {
    if Overflows(|Statement(prefix, p.pending)|, tuple) then Packed(p.closed + [p.pending], [tuple])
    else Packed(p.closed, p.pending + [tuple])
  }

  /** The batches after these rows. */
  function Pack(prefix: bytes, tuples: Batch): Packed
  {
    if tuples == [] then Packed([], [])
    else AddTuple(prefix, Pack(prefix, tuples[..|tuples| - 1]), tuples[|tuples| - 1])
  }

  /** The batches of a whole upload: what is left in the buffer is executed last. */
  function Batches(prefix: bytes, tuples: Batch): seq<Batch>
  {
    var p := Pack(prefix, tuples);
    if p.pending == [] then p.closed else p.closed + [p.pending]
  }

  lemma FlattenSnoc(batches: seq<Batch>, batch: Batch)
    ensures Flatten(batches + [batch]) == Flatten(batches) + batch
  {
    assert (batches + [batch])[..|batches|] == batches;
  }

  lemma {:induction false} PackFlatten(prefix: bytes, tuples: Batch)
    ensures Flatten(Pack(prefix, tuples).closed) + Pack(prefix, tuples).pending == tuples
    decreases |tuples|
  {
    if tuples != [] {
      var init, last := tuples[..|tuples| - 1], tuples[|tuples| - 1];
      var p := Pack(prefix, init);
      PackFlatten(prefix, init);
      FlattenSnoc(p.closed, p.pending);
      assert tuples == init + [last];
    }
  }

  /** The rows of all statements, in order, are the rows of the upload. */
  lemma BatchesFlatten(prefix: bytes, tuples: Batch)
    ensures Flatten(Batches(prefix, tuples)) == tuples
  {
    var p := Pack(prefix, tuples);
    PackFlatten(prefix, tuples);
    FlattenSnoc(p.closed, p.pending);
  }

  /** A statement below the limit, or one with a single row. */
  predicate Small(prefix: bytes, batch: Batch)
  {
    |Statement(prefix, batch)| < 1024 * 1024 || |batch| == 1
  }

  /** After a row the buffer holds a small batch, and only the first batch closed can be without a row. */
  predicate WellPacked(prefix: bytes, p: Packed, first: bytes)
  {
    && p.pending != [] && Small(prefix, p.pending)
    && (Overflows(|prefix|, first) <==> |p.closed| > 0 && p.closed[0] == [])
    && (forall k :: 0 <= k < |p.closed| ==> if p.closed[k] == [] then k == 0 else Small(prefix, p.closed[k]))
  }

  lemma {:induction false} PackIsWellPacked(prefix: bytes, tuples: Batch)
    requires tuples != []
    ensures WellPacked(prefix, Pack(prefix, tuples), tuples[0])
    decreases |tuples|
  {
    var init, last := tuples[..|tuples| - 1], tuples[|tuples| - 1];
    ConcatSnoc(Pack(prefix, init).pending, last);
    if init == [] {
      assert Statement(prefix, []) == prefix;
    } else {
      PackIsWellPacked(prefix, init);
    }
  }

  /**
    Every statement carries a row exactly when the first row fits behind the prefix. When it does not, the code runs one
    INSERT without any row before it.
  */
  lemma EveryStatementHasARowIff(prefix: bytes, tuples: Batch)
    ensures (forall k :: 0 <= k < |Batches(prefix, tuples)| ==> Batches(prefix, tuples)[k] != []) <==>
            tuples == [] || |prefix| + |tuples[0]| < 1024 * 1024
  {
    if tuples != [] {
      PackIsWellPacked(prefix, tuples);
      if Overflows(|prefix|, tuples[0]) {
        assert Batches(prefix, tuples)[0] == [];
      }
    }
  }

  /** Every statement is below the limit or carries exactly one row, exactly when the prefix alone is below the limit. */
  lemma EveryStatementIsSmallIff(prefix: bytes, tuples: Batch)
    ensures (forall k :: 0 <= k < |Batches(prefix, tuples)| ==> Small(prefix, Batches(prefix, tuples)[k])) <==>
            tuples == [] || |prefix| < 1024 * 1024
  {
    if tuples != [] {
      PackIsWellPacked(prefix, tuples);
      assert Statement(prefix, []) == prefix;
      if |prefix| >= MAX_SQL_LENGTH {
        assert Batches(prefix, tuples)[0] == [];
        assert !Small(prefix, Batches(prefix, tuples)[0]);
      }
    }
  }

  /** The batch behind the `k`th one that was closed. */
  function NextBatch(p: Packed, k: nat): Batch
    requires k < |p.closed|
  {
    if k + 1 < |p.closed| then p.closed[k + 1] else p.pending
  }

  /** A batch is closed only when the first row of the next one no longer fits. */
  ghost predicate Full(prefix: bytes, p: Packed, k: nat)
    requires k < |p.closed|
  {
    NextBatch(p, k) != [] && |Statement(prefix, p.closed[k])| + |NextBatch(p, k)[0]| >= 1024 * 1024
  }

  lemma AddKeepsFull(prefix: bytes, p: Packed, tuple: bytes)
    requires forall k :: 0 <= k < |p.closed| ==> Full(prefix, p, k)
    ensures var p' := AddTuple(prefix, p, tuple);
            p'.pending != [] && forall k :: 0 <= k < |p'.closed| ==> Full(prefix, p', k)
  {
    var p' := AddTuple(prefix, p, tuple);
    forall k | 0 <= k < |p'.closed| ensures Full(prefix, p', k) {
      assert k < |p.closed| ==> Full(prefix, p, k);
    }
  }

  lemma {:induction false} PackIsFull(prefix: bytes, tuples: Batch)
    ensures var p := Pack(prefix, tuples);
            && (tuples != [] ==> p.pending != [])
            && forall k :: 0 <= k < |p.closed| ==> Full(prefix, p, k)
    decreases |tuples|
  {
    if tuples != [] {
      PackIsFull(prefix, tuples[..|tuples| - 1]);
      AddKeepsFull(prefix, Pack(prefix, tuples[..|tuples| - 1]), tuples[|tuples| - 1]);
    }
  }

  /** No statement ends early: with the first row of the next one it would reach the limit. */
  lemma EveryStatementIsFull(prefix: bytes, tuples: Batch, k: nat)
    requires k + 1 < |Batches(prefix, tuples)|
    ensures var bs := Batches(prefix, tuples);
            bs[k + 1] != [] && |Statement(prefix, bs[k])| + |bs[k + 1][0]| >= 1024 * 1024
  {
    PackIsFull(prefix, tuples);
    assert Full(prefix, Pack(prefix, tuples), k);
  }

  // ---- reading the parts ----

  datatype Part = Data(text: bytes) | Other | Broken

  datatype Stop = PartError | CsvError(e: Error) | TooFewColumns

  /** The records accepted, and what stopped the upload before the end if anything did. */
  datatype Input = Input(records: seq<Record>, stop: Option<Stop>)

  predicate Wide(records: seq<Record>, columns: nat)
  {
    forall k :: 0 <= k < |records| ==> |records[k]| >= columns
  }

  function Before(records: seq<Record>, i: Input): Input
  {
    i.(records := records + i.records)
  }

  /** The records of one part, from a reader in the given state. */
  function PartInput(unread: bytes, first: bool, expected: int, columns: nat): (i: Input)
    ensures Wide(i.records, columns)
    decreases |unread|
  {
    match Csv.ReadRecord(unread, first, expected)
    case EndOfInput => Input([], None)
    case Read(fields, Some(e), _, _) => Input([], Some(CsvError(e)))
    case Read(fields, None, rest, width) =>
      if |fields| < columns then Input([], Some(TooFewColumns))
      else Before([fields], PartInput(rest, false, width, columns))
  }

  function PartsInput(parts: seq<Part>, p: nat, columns: nat): (i: Input)
    requires p <= |parts|
    ensures Wide(i.records, columns)
    decreases |parts| - p
  {
    if p == |parts| then Input([], None)
    else
      match parts[p]
      case Broken => Input([], Some(PartError))
      case Other => PartsInput(parts, p + 1, columns)
      case Data(text) =>
        var i := PartInput(text, true, 0, columns);
        if i.stop.Some? then i else Before(i.records, PartsInput(parts, p + 1, columns))
  }

  /** A part is taken whole exactly when it can be read and its records have enough columns. */
  lemma {:induction false} PartIsTakenIff(unread: bytes, first: bool, expected: int, columns: nat)
    ensures var i, all := PartInput(unread, first, expected, columns), RoundTrip.ReadAll(unread, first, expected);
            && (i.stop.None? <==> all.All? && Wide(all.records, columns))
            && (i.stop.None? ==> i.records == all.records)
            && (i.stop.Some? && i.stop.value.CsvError? ==> all == RoundTrip.Failed(i.stop.value.e))
            && (all.All? && i.stop.Some? ==> i.stop.value.TooFewColumns?)
    decreases |unread|
  {
    var o := Csv.ReadRecord(unread, first, expected);
    if o.Read? && o.error.None? {
      var later := RoundTrip.ReadAll(o.rest, false, o.expected);
      PartIsTakenIff(o.rest, false, o.expected, columns);
      if later.All? {
        assert forall k :: 0 <= k < |later.records| ==> later.records[k] == ([o.fields] + later.records)[k + 1];
        assert ([o.fields] + later.records)[0] == o.fields;
      }
    }
  }

  /** A part that stops nothing: one that is not data, or data that is taken whole. */
  predicate Good(part: Part, columns: nat)
  {
    match part
    case Data(text) => var all := RoundTrip.ReadAll(text, true, 0); all.All? && Wide(all.records, columns)
    case Other => true
    case Broken => false
  }

  predicate AllGood(parts: seq<Part>, p: nat, columns: nat)
  {
    forall q :: p <= q < |parts| ==> Good(parts[q], columns)
  }

  /** The records of a data part that can be read. */
  function PartRecords(part: Part): seq<Record>
  {
    if part.Data? && RoundTrip.ReadAll(part.text, true, 0).All? then RoundTrip.ReadAll(part.text, true, 0).records else []
  }

  /** The records of the parts from the `p`th on, one part after another. */
  function RecordsOf(parts: seq<Part>, p: nat): seq<Record>
    requires p <= |parts|
    decreases |parts| - p
  {
    if p == |parts| then [] else PartRecords(parts[p]) + RecordsOf(parts, p + 1)
  }

  lemma FirstGood(parts: seq<Part>, p: nat, columns: nat)
    requires p < |parts|
    ensures AllGood(parts, p, columns) <==> Good(parts[p], columns) && AllGood(parts, p + 1, columns)
  {
  }

  /** The first of the remaining parts stops the upload, or adds its records to those of the others. */
  lemma PartsStep(parts: seq<Part>, p: nat, columns: nat)
    requires p < |parts|
    ensures var i := PartsInput(parts, p, columns);
            if Good(parts[p], columns) then i == Before(PartRecords(parts[p]), PartsInput(parts, p + 1, columns))
            else i.stop.Some?
  {
    if parts[p].Data? {
      PartIsTakenIff(parts[p].text, true, 0, columns);
    }
  }

  /** An upload takes every part exactly when all are good, and then their records one part after another. */
  lemma {:induction false} PartsAreTakenIff(parts: seq<Part>, p: nat, columns: nat)
    requires p <= |parts|
    ensures PartsInput(parts, p, columns).stop.None? <==> AllGood(parts, p, columns)
    ensures AllGood(parts, p, columns) ==> PartsInput(parts, p, columns).records == RecordsOf(parts, p)
    decreases |parts| - p
  {
    if p < |parts| {
      FirstGood(parts, p, columns);
      PartsStep(parts, p, columns);
      PartsAreTakenIff(parts, p + 1, columns);
    }
  }

  lemma {:induction false} MarkedTableIsWide(rows: seq<RoundTrip.Row>, columns: nat)
    requires RoundTrip.AllPrintable(rows) && StartsWithBom(RoundTrip.PrintRows(rows))
    requires Wide(RoundTrip.Records(rows), columns)
    ensures Wide(RoundTrip.Records(RoundTrip.RowsSeen(rows)), columns)
  {
    var records := RoundTrip.Records(rows);
    var seen := RoundTrip.Records(RoundTrip.RowsSeen(rows));
    forall k | 0 <= k < |seen| ensures |seen[k]| >= columns {
      assert |seen[k]| == if |seen| == |records| then |records[k]| else |records[k + 1]|;
    }
  }

  /**
    Uploading a printed table offers the database exactly the rows of that table, unless its text starts with a byte
    order mark.
  */
  lemma {:induction false} PrintedTableIsUploaded(rows: seq<RoundTrip.Row>, columns: nat)
    requires RoundTrip.AllPrintable(rows)
    requires RoundTrip.Readable(RoundTrip.Records(rows)) && Wide(RoundTrip.Records(rows), columns)
    ensures PartsInput([Data(RoundTrip.PrintRows(rows))], 0, columns) == Input(RoundTrip.Records(rows), None)
            <==> !StartsWithBom(RoundTrip.PrintRows(rows))
  {
    var text := RoundTrip.PrintRows(rows);
    assert PartsInput([Data(text)], 1, columns) == Input([], None);
    if StartsWithBom(text) {
      RoundTrip.MarkedTableReads(rows);
      MarkedTableIsWide(rows, columns);
    } else {
      RoundTrip.RoundTripIff(rows);
    }
    PartIsTakenIff(text, true, 0, columns);
  }

  function Tuples(records: seq<Record>, isStr: seq<bool>): (ts: Batch)
    requires Wide(records, |isStr|)
    ensures |ts| == |records| && forall k :: 0 <= k < |ts| ==> ts[k] == Tuple(records[k], isStr)
  {
    seq(|records|, k requires 0 <= k < |records| => Tuple(records[k], isStr))
  }

  // ---- the upload ----

  datatype Response = Inserted(rows: nat) | Stopped(stop: Stop) | ExecError

  class Uploader {
    const prefix: bytes
    var buffer: bytes
    var rows: nat
    /** The statements executed with success. */
    var executed: seq<bytes>
    ghost var tuples: Batch

    ghost predicate Valid()
      reads this
    {
      var p := Pack(prefix, tuples);
      && buffer == Statement(prefix, p.pending) && executed == Statements(prefix, p.closed)
      && rows == |tuples|
    }

    /** What was executed is the closed batches of the rows taken. */
    ghost predicate Ran()
      reads this
    {
      executed == Statements(prefix, Pack(prefix, tuples).closed)
    }

    constructor (prefix: bytes)
      ensures Valid() && this.prefix == prefix && tuples == []
    {
      this.prefix, buffer, rows, executed, tuples := prefix, prefix, 0, [], [];
    }

    /** Runs a statement against the database, which may refuse it. */
    method Execute(sql: bytes) returns (ok: bool)
      modifies `executed
      ensures executed == if ok then old(executed) + [sql] else old(executed)
    {
      ok := *;
      if ok {
        executed := executed + [sql];
      }
    }

    method AddRow(tuple: bytes) returns (ok: bool)
      requires Valid()
      modifies `buffer, `rows, `executed, `tuples
      ensures ok ==> Valid() && tuples == old(tuples) + [tuple]
      ensures !ok ==> executed == old(executed) && tuples == old(tuples)
      ensures Ran()
    {
      ghost var p := Pack(prefix, tuples);
      ghost var longer := tuples + [tuple];
      assert longer[..|tuples|] == tuples;
      ConcatSnoc(p.pending, tuple);
      rows := rows + 1;
      if |buffer| + |tuple| >= MAX_SQL_LENGTH {
        ok := Execute(buffer);
        if !ok {
          return;
        }
        buffer := prefix;
        assert Concat([tuple], 1) == tuple;
        assert executed == Statements(prefix, p.closed + [p.pending]);
      }
      buffer := buffer + tuple;
      tuples := longer;
      ok := true;
    }

    method Finish() returns (ok: bool)
      requires Valid() && forall k :: 0 <= k < |tuples| ==> |tuples[k]| > 0
      modifies `executed
      ensures ok ==> executed == Statements(prefix, Batches(prefix, tuples))
      ensures !ok ==> executed == old(executed)
    {
      ghost var p := Pack(prefix, tuples);
      PackFlatten(prefix, tuples);
      if p.pending != [] {
        ghost var last := p.pending[|p.pending| - 1];
        assert last == tuples[|tuples| - 1];
        assert |Concat(p.pending, |p.pending|)| >= |last|;
      }
      ok := true;
      if |buffer| > |prefix| {
        ok := Execute(buffer);
        if ok {
          assert executed == Statements(prefix, p.closed + [p.pending]);
        }
      }
    }
  }

  lemma TuplesSnoc(records: seq<Record>, record: Record, isStr: seq<bool>)
    requires Wide(records, |isStr|) && |record| >= |isStr|
    ensures Wide(records + [record], |isStr|)
    ensures Tuples(records + [record], isStr) == Tuples(records, isStr) + [Tuple(record, isStr)]
  {
  }

  lemma BeforeBefore(records: seq<Record>, more: seq<Record>, i: Input)
    ensures Before(records, Before(more, i)) == Before(records + more, i)
  {
    assert records + (more + i.records) == records + more + i.records;
  }

  /** The loop over the records of one part; `taken` are the records taken before it and, on return, in all. */
  method UploadPart(u: Uploader, text: bytes, isStr: seq<bool>, ghost before: seq<Record>)
      returns (ok: bool, stop: Option<Stop>, ghost taken: seq<Record>)
    requires u.Valid() && Wide(before, |isStr|) && u.tuples == Tuples(before, isStr)
    modifies u
    ensures Wide(taken, |isStr|) && u.tuples == Tuples(taken, isStr) && u.Ran()
    ensures ok ==> u.Valid() && Input(taken, stop) == Before(before, PartInput(text, true, 0, |isStr|))
    ensures !ok ==> taken <= before + PartInput(text, true, 0, |isStr|).records
  {
    var reader := new Reader(text);
    taken := before;
    ghost var whole := Before(before, PartInput(text, true, 0, |isStr|));
    while true
      invariant u.Valid() && Wide(taken, |isStr|) && u.tuples == Tuples(taken, isStr)
      invariant fresh(reader)
      invariant whole == Before(taken, PartInput(reader.unread, reader.isFirstLine, reader.fieldsPerRecord, |isStr|))
      decreases |reader.unread|
    {
      var o := reader.ReadRecord();
      if o.EndOfInput? {
        return true, None, taken;
      }
      if o.error.Some? {
        return true, Some(CsvError(o.error.value)), taken;
      }
      if |o.fields| < |isStr| {
        return true, Some(TooFewColumns), taken;
      }
      var colBuffer := WriteTuple(o.fields, isStr);
      TuplesSnoc(taken, o.fields, isStr);
      BeforeBefore(taken, [o.fields],
                   PartInput(reader.unread, reader.isFirstLine, reader.fieldsPerRecord, |isStr|));
      ok := u.AddRow(colBuffer);
      if !ok {
        return false, None, taken;
      }
      taken := taken + [o.fields];
    }
  }

  ghost predicate RanPrefix(u: Uploader, all: seq<Record>, isStr: seq<bool>)
    requires Wide(all, |isStr|)
    reads u
  {
    u.Ran() && u.tuples <= Tuples(all, isStr)
  }

  lemma TuplesOfPrefix(taken: seq<Record>, all: seq<Record>, isStr: seq<bool>)
    requires Wide(all, |isStr|) && taken <= all
    ensures Wide(taken, |isStr|) && Tuples(taken, isStr) <= Tuples(all, isStr)
  {
    assert forall k :: 0 <= k < |taken| ==> taken[k] == all[k];
  }

  lemma DataPart(parts: seq<Part>, p: nat, columns: nat, taken: seq<Record>, whole: Input, i: Input)
    requires p < |parts| && parts[p].Data? && whole == Before(taken, PartsInput(parts, p, columns))
    requires i == PartInput(parts[p].text, true, 0, columns)
    ensures i.stop.Some? ==> whole == Before(taken, i)
    ensures i.stop.None? ==> whole == Before(taken + i.records, PartsInput(parts, p + 1, columns))
    ensures taken + i.records <= whole.records
  {
    BeforeBefore(taken, i.records, PartsInput(parts, p + 1, columns));
  }

  /** The loop over the parts. */
  method UploadParts(u: Uploader, isStr: seq<bool>, parts: seq<Part>, ghost whole: Input)
      returns (ok: bool, stop: Option<Stop>, ghost taken: seq<Record>)
    requires u.Valid() && u.tuples == [] && whole == PartsInput(parts, 0, |isStr|)
    modifies u
    ensures Wide(taken, |isStr|) && u.tuples == Tuples(taken, isStr) && u.Ran()
    ensures ok ==> u.Valid() && Input(taken, stop) == whole
    ensures !ok ==> taken <= whole.records
  {
    taken := [];
    var p := 0;
    while p < |parts|
      invariant p <= |parts| && u.Valid() && Wide(taken, |isStr|) && u.tuples == Tuples(taken, isStr)
      invariant whole == Before(taken, PartsInput(parts, p, |isStr|))
    {
      if parts[p].Broken? {
        return true, Some(PartError), taken;
      }
      if parts[p].Data? {
        DataPart(parts, p, |isStr|, taken, whole, PartInput(parts[p].text, true, 0, |isStr|));
        ok, stop, taken := UploadPart(u, parts[p].text, isStr, taken);
        if !ok || stop.Some? {
          return;
        }
      }
      p := p + 1;
    }
    return true, None, taken;
  }

  /**
    The upload. When it succeeds, the statements executed are the batches of exactly the records of its parts and the
    number reported is theirs; otherwise only batches of the first records were executed.
  */
  method Upload(u: Uploader, isStr: seq<bool>, parts: seq<Part>) returns (r: Response)
    requires u.Valid() && u.tuples == []
    modifies u
    ensures var input := PartsInput(parts, 0, |isStr|);
            var tuples := Tuples(input.records, isStr);
            match r
            case Inserted(rows) =>
              && input.stop == None && rows == |input.records|
              && u.executed == Statements(u.prefix, Batches(u.prefix, tuples))
            case Stopped(stop) =>
              input.stop == Some(stop) && u.executed == Statements(u.prefix, Pack(u.prefix, tuples).closed)
            case ExecError => RanPrefix(u, input.records, isStr)
  {
    ghost var whole := PartsInput(parts, 0, |isStr|);
    ghost var taken;
    var ok, stop;
    ok, stop, taken := UploadParts(u, isStr, parts, whole);
    if !ok {
      TuplesOfPrefix(taken, whole.records, isStr);
      return ExecError;
    }
    if stop.Some? {
      return Stopped(stop.value);
    }
    ok := u.Finish();
    return if ok then Inserted(u.rows) else ExecError;
  }
}
