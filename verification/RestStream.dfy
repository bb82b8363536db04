/** The response of controller/rest/restful.go `execute`: rows fetched block by block, streamed as one JSON array. */
module RestStream {
  import opened Wrappers
  import opened Bytes
  import opened JsonNumbers
  import opened JsonStream
  import opened JsonStrings

  const COMMA: byte := 44
  const COLON: byte := 58
  const FLUSH_ABOVE := 16352

  /** `],"data":[` */
  const QUERY3: bytes := [93, 44, 34, 100, 97, 116, 97, 34, 58, 91]
  /** `],"rows":` */
  const QUERY4: bytes := [93, 44, 34, 114, 111, 119, 115, 34, 58]
  /** `,"timing":` */
  const TIMING: bytes := [44, 34, 116, 105, 109, 105, 110, 103, 34, 58]

  /** A row is the JSON text of each of its columns. */
  type Row = seq<bytes>

  /** The column names when rows are written as objects. */
  type Names = Option<seq<bytes>>

  /** What a fetch gives: a block of one row or more, or its end or an error. */
  datatype Fetch = Block(rows: seq<Row>) | Done

  // ---- comma-separated lists ----

  /** The first `n` parts with a comma after each. */
  function EachWithComma(parts: seq<bytes>, n: nat): bytes
    requires n <= |parts|
  {
    if n == 0 then [] else EachWithComma(parts, n - 1) + parts[n - 1] + [COMMA]
  }

  /** The first `n` parts with a comma between each two. */
  function CommaJoin(parts: seq<bytes>, n: nat): bytes
    requires n <= |parts|
  {
    if n == 0 then [] else EachWithComma(parts, n - 1) + parts[n - 1]
  }

  lemma PrefixOfLonger(a: bytes, b: bytes, c: bytes, d: bytes)
    requires a <= b
    ensures a <= b + c + d
  {
  }

  /** What stands before a part, and the part itself, are a prefix of any longer list. */
  lemma {:induction false} PartIsInside(parts: seq<bytes>, i: nat, n: nat)
    requires i < n <= |parts|
    ensures CommaJoin(parts, i + 1) <= CommaJoin(parts, n)
    decreases n
  {
    if i < n - 1 {
      PartIsInside(parts, i, n - 1);
      PrefixOfLonger(CommaJoin(parts, i + 1), CommaJoin(parts, n - 1), [COMMA], parts[n - 1]);
    }
  }

  // ---- the text of the data array ----

  function Cell(names: Names, row: Row, column: nat): bytes
    requires column < |row|
  {
    if names.Some? && column < |names.value| then Quoted(names.value[column]) + [COLON] + row[column] else row[column]
  }

  function Cells(names: Names, row: Row): (parts: seq<bytes>)
    ensures |parts| == |row| && forall k :: 0 <= k < |row| ==> parts[k] == Cell(names, row, k)
  {
    seq(|row|, k requires 0 <= k < |row| => Cell(names, row, k))
  }

  function OpenRow(names: Names): bytes
  {
    if names.Some? then [123] else [91]
  }

  function CloseRow(names: Names): bytes
  {
    if names.Some? then [125] else [93]
  }

  function RowText(names: Names, row: Row): bytes
  {
    OpenRow(names) + CommaJoin(Cells(names, row), |row|) + CloseRow(names)
  }

  function RowTexts(names: Names, rows: seq<Row>): (parts: seq<bytes>)
    ensures |parts| == |rows|
  {
    if rows == [] then [] else RowTexts(names, rows[..|rows| - 1]) + [RowText(names, rows[|rows| - 1])]
  }

  ghost predicate IsText(names: Names, rows: seq<Row>, parts: seq<bytes>, k: nat)
    requires k < |rows| == |parts|
  {
    parts[k] == RowText(names, rows[k])
  }

  /** The parts are the texts of the rows. */
  ghost predicate AreTexts(names: Names, rows: seq<Row>, parts: seq<bytes>)
  {
    |parts| == |rows| && forall k :: 0 <= k < |rows| ==> IsText(names, rows, parts, k)
  }

  lemma {:induction false} RowTextAt(names: Names, rows: seq<Row>, k: nat)
    requires k < |rows|
    ensures RowTexts(names, rows)[k] == RowText(names, rows[k])
    decreases |rows|
  {
    if k < |rows| - 1 {
      RowTextAt(names, rows[..|rows| - 1], k);
    }
  }

  lemma TextsAre(names: Names, rows: seq<Row>)
    ensures AreTexts(names, rows, RowTexts(names, rows))
  {
    forall k | 0 <= k < |rows| ensures IsText(names, rows, RowTexts(names, rows), k) {
      RowTextAt(names, rows, k);
    }
  }

  /** The rows of the blocks from the `f`th on, up to the first answer that is no block. */
  function RowsFrom(fetches: seq<Fetch>, f: nat): seq<Row>
    requires f <= |fetches|
    decreases |fetches| - f
  {
    if f == |fetches| || fetches[f].Done? || fetches[f].rows == [] then []
    else fetches[f].rows + RowsFrom(fetches, f + 1)
  }

  function RowsOf(fetches: seq<Fetch>): seq<Row>
  {
    RowsFrom(fetches, 0)
  }

  /** The fetches give `stop` blocks, and then no block or an empty one. */
  predicate StopsAt(fetches: seq<Fetch>, stop: nat)
  {
    && stop <= |fetches|
    && (forall f :: 0 <= f < stop ==> fetches[f].Block? && fetches[f].rows != [])
    && (stop < |fetches| ==> fetches[stop].Done? || fetches[stop].rows == [])
  }

  /** The number of rows in the first `f` blocks. */
  function RowsBefore(fetches: seq<Fetch>, f: nat): nat
    requires f <= |fetches| && forall g :: 0 <= g < f ==> fetches[g].Block?
  {
    if f == 0 then 0 else RowsBefore(fetches, f - 1) + |fetches[f - 1].rows|
  }

  lemma {:induction false} RowIsInPlace(fetches: seq<Fetch>, stop: nat, g: nat, f: nat, r: nat)
    requires StopsAt(fetches, stop) && g <= f < stop && r < |fetches[f].rows|
    ensures var i := RowsBefore(fetches, f) - RowsBefore(fetches, g) + r;
            0 <= i < |RowsFrom(fetches, g)| && RowsFrom(fetches, g)[i] == fetches[f].rows[r]
    decreases f - g
  {
    if g < f {
      RowIsInPlace(fetches, stop, g + 1, f, r);
      assert RowsBefore(fetches, g + 1) == RowsBefore(fetches, g) + |fetches[g].rows|;
    }
  }

  lemma {:induction false} RowsAreCounted(fetches: seq<Fetch>, stop: nat, g: nat)
    requires StopsAt(fetches, stop) && g <= stop
    ensures |RowsFrom(fetches, g)| == RowsBefore(fetches, stop) - RowsBefore(fetches, g)
    decreases stop - g
  {
    if g < stop {
      RowsAreCounted(fetches, stop, g + 1);
      assert RowsBefore(fetches, g + 1) == RowsBefore(fetches, g) + |fetches[g].rows|;
    }
  }

  /** The rows are those of the blocks before the stop, each in its place, and no others. */
  lemma RowsInOrder(fetches: seq<Fetch>, stop: nat, f: nat, r: nat)
    requires StopsAt(fetches, stop)
    ensures |RowsOf(fetches)| == RowsBefore(fetches, stop)
    ensures f < stop && r < |fetches[f].rows| ==>
              && RowsBefore(fetches, f) + r < |RowsOf(fetches)|
              && RowsOf(fetches)[RowsBefore(fetches, f) + r] == fetches[f].rows[r]
  {
    RowsAreCounted(fetches, stop, 0);
    if f < stop && r < |fetches[f].rows| {
      RowIsInPlace(fetches, stop, 0, f, r);
    }
  }

  // ---- the loops ----

  method WriteCell(builder: Stream, names: Names, row: Row, column: nat)
    requires column < |row|
    modifies builder`buf
    ensures builder.buf == old(builder.buf) + Cell(names, row, column)
  {
    if names.Some? && column < |names.value| {
      builder.WriteString(names.value[column]);
      builder.buf := builder.buf + [COLON];
    }
    builder.WriteRaw(row[column]);
  }

  lemma PrefixAfter(base: bytes, part: bytes, whole: bytes, sent: bytes)
    requires part <= whole && sent <= base + part
    ensures sent <= base + whole
  {
  }

  /** Appends to what was written so far. */
  method Emit(builder: Stream, s: bytes)
    modifies builder`buf
    ensures builder.Text() == old(builder.Text()) + s
  {
    Assoc(builder.sent, builder.buf, s);
    builder.buf := builder.buf + s;
  }

  /** A column and the comma that follows all but the last. */
  method WriteColumn(builder: Stream, names: Names, row: Row, column: nat, ghost before: bytes, ghost each: bytes)
    requires column < |row| && builder.buf == before + each
    modifies builder`buf
    ensures column == |row| - 1 ==> builder.buf == before + (each + Cell(names, row, column))
    ensures column < |row| - 1 ==> builder.buf == before + (each + Cell(names, row, column) + [COMMA])
  {
    ghost var part := Cell(names, row, column);
    WriteCell(builder, names, row, column);
    Assoc(before, each, part);
    if column != |row| - 1 {
      Assoc(before, each + part, [COMMA]);
      builder.buf := builder.buf + [COMMA];
    }
  }

  method WriteCells(builder: Stream, names: Names, row: Row, ghost parts: seq<bytes>)
    requires parts == Cells(names, row)
    modifies builder`buf
    ensures builder.Text() == old(builder.Text()) + CommaJoin(parts, |parts|)
  {
    ghost var before := builder.buf;
    for column := 0 to |row|
      invariant column < |row| ==> builder.buf == before + EachWithComma(parts, column)
      invariant column == |row| ==> builder.buf == before + CommaJoin(parts, column)
    {
      WriteColumn(builder, names, row, column, before, EachWithComma(parts, column));
      assert parts[column] == Cell(names, row, column);
    }
    Assoc(builder.sent, before, CommaJoin(parts, |parts|));
  }

  /** Sends what is buffered exactly when that is more than 16352 bytes. */
  method TryFlush(builder: Stream) returns (ok: bool)
    modifies builder
    ensures old(|builder.buf|) <= 16352 ==> ok && builder.buf == old(builder.buf) && builder.sent == old(builder.sent)
    ensures ok && old(|builder.buf|) > 16352 ==> builder.buf == []
    ensures ok ==> builder.Text() == old(builder.Text())
    ensures !ok ==> builder.sent <= old(builder.Text())
  {
    if |builder.buf| > FLUSH_ABOVE {
      ok := builder.Flush();
    } else {
      ok := true;
    }
  }

  /** A row, with a flush tried before its closing bracket. */
  method WriteRow(builder: Stream, names: Names, row: Row, ghost text: bytes) returns (ok: bool)
    requires text == RowText(names, row)
    modifies builder
    ensures ok ==> |builder.buf| <= 16353
    ensures ok ==> builder.Text() == old(builder.Text()) + text
    ensures !ok ==> builder.sent <= old(builder.Text()) + text
  {
    ghost var before, join := builder.Text(), CommaJoin(Cells(names, row), |row|);
    ghost var part := OpenRow(names) + join;
    Assoc(before, OpenRow(names), join);
    Assoc(before, part, CloseRow(names));
    Emit(builder, OpenRow(names));
    WriteCells(builder, names, row, Cells(names, row));
    ok := TryFlush(builder);
    if ok {
      Emit(builder, CloseRow(names));
    } else {
      PrefixAfter(before, part, text, builder.sent);
    }
  }

  /** How many rows are wanted of `n` available ones: all of them, or as many as a limit allows. */
  function Wanted(n: nat, limit: int): (k: nat)
    ensures k <= n && (limit < 0 ==> k == n) && (limit >= 0 ==> k <= limit) && (k < n ==> k == limit)
  {
    if limit > -1 && limit < n then limit else n
  }

  /** The row after `done` others, of an array that will hold `wanted` rows. */
  method WriteNextRow(builder: Stream, names: Names, row: Row, ghost base: bytes, ghost all: seq<Row>,
                      ghost parts: seq<bytes>, ghost done: nat, ghost wanted: nat) returns (ok: bool)
    requires done < wanted <= |parts| && AreTexts(names, all, parts) && all[done] == row
    requires builder.Text() == base + EachWithComma(parts, done)
    modifies builder
    ensures ok ==> builder.Text() == base + CommaJoin(parts, done + 1)
    ensures !ok ==> builder.sent <= base + CommaJoin(parts, wanted)
  {
    assert IsText(names, all, parts, done);
    Assoc(base, EachWithComma(parts, done), parts[done]);
    ok := WriteRow(builder, names, row, parts[done]);
    if !ok {
      PartIsInside(parts, done, wanted);
      PrefixAfter(base, CommaJoin(parts, done + 1), CommaJoin(parts, wanted), builder.sent);
    }
  }

  method WriteMore(builder: Stream, ghost base: bytes, ghost parts: seq<bytes>, ghost done: nat)
    requires 0 < done <= |parts| && builder.Text() == base + CommaJoin(parts, done)
    modifies builder`buf
    ensures builder.Text() == base + EachWithComma(parts, done)
  {
    Assoc(base, CommaJoin(parts, done), [COMMA]);
    Emit(builder, [COMMA]);
  }

  predicate StandsAt(block: seq<Row>, rows: seq<Row>, i: nat)
  {
    i + |block| <= |rows| && forall k :: 0 <= k < |block| ==> rows[i + k] == block[k]
  }

  lemma RowStands(block: seq<Row>, rows: seq<Row>, i: nat, k: nat)
    requires StandsAt(block, rows, i) && k < |block|
    ensures i + k < |rows| && rows[i + k] == block[k]
  {
  }

  /** One row of a block, and the comma behind it unless the block or the limit ends there. */
  method WriteBlockRow(builder: Stream, names: Names, row: Row, last: bool, ghost base: bytes, ghost all: seq<Row>,
                       ghost parts: seq<bytes>, ghost done: nat, ghost wanted: nat) returns (ok: bool)
    requires done < wanted <= |parts| && AreTexts(names, all, parts) && all[done] == row
    requires builder.Text() == base + EachWithComma(parts, done)
    modifies builder
    ensures ok ==>
              builder.Text() == base + if last then CommaJoin(parts, done + 1) else EachWithComma(parts, done + 1)
    ensures !ok ==> builder.sent <= base + CommaJoin(parts, wanted)
  {
    ok := WriteNextRow(builder, names, row, base, all, parts, done, wanted);
    if ok && !last {
      WriteMore(builder, base, parts, done + 1);
    }
  }

  /** The rows of one block, with `before` rows before them and a comma between any two. */
  method WriteBlock(builder: Stream, names: Names, rows: seq<Row>, limit: int, before: nat,
                    ghost base: bytes, ghost all: seq<Row>, ghost parts: seq<bytes>) returns (ok: bool, total: nat)
    requires rows != [] && StandsAt(rows, all, before) && AreTexts(names, all, parts)
    requires limit > -1 ==> before < limit
    requires builder.Text() == base + EachWithComma(parts, before)
    modifies builder
    ensures ok ==> before < total <= before + |rows| && (limit < 0 ==> total == before + |rows|)
    ensures ok ==> (limit >= 0 ==> total <= limit) && (total < before + |rows| ==> total == limit)
    ensures ok ==> builder.Text() == base + CommaJoin(parts, total)
    ensures !ok ==> builder.sent <= base + CommaJoin(parts, Wanted(|parts|, limit))
  {
    total := before;
    var row, last := 0, false;
    ok := true;
    while !last
      invariant total == before + row && ok && (limit > -1 ==> total <= limit) && row <= |rows| && (last ==> row > 0)
      invariant if last then total == before + |rows| || total == limit
                else row < |rows| && (limit > -1 ==> total < limit)
      invariant builder.Text() == base + if last then CommaJoin(parts, total) else EachWithComma(parts, total)
      invariant total <= |parts|
      decreases !last, |rows| - row
    {
      RowStands(rows, all, before, row);
      last := (limit > -1 && total + 1 == limit) || row == |rows| - 1;
      ok := WriteBlockRow(builder, names, rows[row], last, base, all, parts, total, Wanted(|parts|, limit));
      if !ok {
        return;
      }
      total, row := total + 1, row + 1;
    }
  }

  predicate Left(fetches: seq<Fetch>, f: nat, rows: seq<Row>, total: nat)
  {
    f <= |fetches| && total + |RowsFrom(fetches, f)| == |rows| && StandsAt(RowsFrom(fetches, f), rows, total)
  }

  /** The rows that earlier blocks left are those of this block followed by those of the later ones. */
  lemma NextBlock(fetches: seq<Fetch>, f: nat, rows: seq<Row>, total: nat)
    requires f < |fetches| && fetches[f].Block? && fetches[f].rows != [] && Left(fetches, f, rows, total)
    ensures Left(fetches, f + 1, rows, total + |fetches[f].rows|)
    ensures StandsAt(fetches[f].rows, rows, total)
  {
    var here, later := fetches[f].rows, RowsFrom(fetches, f + 1);
    forall k | 0 <= k < |here| ensures rows[total + k] == here[k] {
      assert rows[total + k] == (here + later)[k];
    }
    forall k | 0 <= k < |later| ensures rows[total + |here| + k] == later[k] {
      assert rows[total + (|here| + k)] == (here + later)[|here| + k];
    }
  }

  lemma NoMoreRows(fetches: seq<Fetch>, f: nat, rows: seq<Row>, total: nat)
    requires Left(fetches, f, rows, total)
    requires f == |fetches| || fetches[f].Done? || fetches[f].rows == []
    ensures total == |rows|
  {
  }

  /**
    The fetch loop. However the rows are split into blocks and wherever flushes fall, what was written is the comma join
    of the first rows, as many as the limit allows; a failed flush leaves a prefix of that.
  */
  method StreamRows(builder: Stream, names: Names, fetches: seq<Fetch>, limit: int,
                    ghost rows: seq<Row>, ghost parts: seq<bytes>) returns (ok: bool, total: nat)
    requires rows == RowsOf(fetches) && AreTexts(names, rows, parts)
    modifies builder
    ensures ok ==> total <= |rows| && (limit < 0 ==> total == |rows|)
    ensures ok ==> (limit >= 0 ==> total <= limit) && (total < |rows| ==> total == limit)
    ensures ok ==> builder.Text() == old(builder.Text()) + CommaJoin(parts, total)
    ensures !ok ==> builder.sent <= old(builder.Text()) + CommaJoin(parts, Wanted(|rows|, limit))
  {
    ghost var base := builder.Text();
    total := 0;
    var fetched, f := false, 0;
    assert Left(fetches, f, rows, total);
    while true
      invariant f <= |fetches| && total <= |rows| && fetched == (total > 0)
      invariant limit > -1 ==> total <= limit
      invariant limit <= -1 || total < limit ==> Left(fetches, f, rows, total)
      invariant builder.Text() == base + CommaJoin(parts, total)
      decreases |fetches| - f
    {
      if limit > -1 && total == limit {
        return true, total;
      }
      if f == |fetches| || fetches[f].Done? || fetches[f].rows == [] {
        NoMoreRows(fetches, f, rows, total);
        return true, total;
      }
      NextBlock(fetches, f, rows, total);
      SeparateBlock(builder, fetched, base, parts, total);
      fetched := true;
      ok, total := WriteBlock(builder, names, fetches[f].rows, limit, total, base, rows, parts);
      if !ok {
        return;
      }
      f := f + 1;
    }
  }

  method SeparateBlock(builder: Stream, fetched: bool, ghost base: bytes, ghost parts: seq<bytes>, ghost total: nat)
    requires total <= |parts| && fetched == (total > 0) && builder.Text() == base + CommaJoin(parts, total)
    modifies builder`buf
    ensures builder.Text() == base + EachWithComma(parts, total)
  {
    if fetched {
      WriteMore(builder, base, parts, total);
    }
  }

  function TimingText(timing: Option<int>): bytes
  {
    if timing.None? then [] else TIMING + SignedDecimal(timing.value)
  }

  function Trailer(count: nat, timing: Option<int>): bytes
  {
    QUERY4 + Decimal(count) + TimingText(timing) + [125]
  }

  method WriteTrailer(builder: Stream, total: nat, timing: Option<int>)
    requires builder.Valid() && total < 0x8000_0000_0000_0000
    requires timing.Some? ==> -0x8000_0000_0000_0000 <= timing.value < 0x8000_0000_0000_0000
    modifies builder`buf
    ensures builder.Text() == old(builder.Text()) + Trailer(total, timing)
  {
    ghost var before := builder.buf;
    builder.buf := builder.buf + QUERY4;
    builder.WriteInt64(total);
    if timing.Some? {
      builder.buf := builder.buf + TIMING;
      builder.WriteInt64(timing.value);
    }
    builder.buf := builder.buf + [125];
    assert builder.buf == before + Trailer(total, timing);
    Assoc(builder.sent, before, Trailer(total, timing));
  }

  /** The response from the data array on: the rows, and their number. */
  function ResponseText(names: Names, rows: seq<Row>, count: nat, timing: Option<int>): bytes
    requires count <= |rows|
  {
    QUERY3 + CommaJoin(RowTexts(names, rows), count) + Trailer(count, timing)
  }

  /**
    A response that was sent completely is the response text of all rows, or of as many as the limit allows, and says
    their number; one that failed is a prefix of it.
  */
  method Respond(builder: Stream, names: Names, fetches: seq<Fetch>, limit: int, timing: Option<int>)
      returns (ok: bool, total: nat)
    requires builder.Valid() && |RowsOf(fetches)| < 0x8000_0000_0000_0000
    requires timing.Some? ==> -0x8000_0000_0000_0000 <= timing.value < 0x8000_0000_0000_0000
    modifies builder
    ensures ok ==> total <= |RowsOf(fetches)| && (limit < 0 ==> total == |RowsOf(fetches)|)
    ensures ok ==> (limit >= 0 ==> total <= limit) && (total < |RowsOf(fetches)| ==> total == limit)
    ensures ok ==>
              && builder.sent == old(builder.Text()) + ResponseText(names, RowsOf(fetches), total, timing)
              && builder.buf == []
    ensures !ok ==>
              var rows := RowsOf(fetches);
              builder.sent <= old(builder.Text()) + ResponseText(names, rows, Wanted(|rows|, limit), timing)
  {
    ghost var before, rows := builder.Text(), RowsOf(fetches);
    ghost var parts, wanted := RowTexts(names, rows), Wanted(|rows|, limit);
    ghost var data := CommaJoin(parts, wanted);
    Assoc(before, QUERY3, data);
    Assoc(before, QUERY3 + data, Trailer(wanted, timing));
    Emit(builder, QUERY3);
    TextsAre(names, rows);
    ok, total := StreamRows(builder, names, fetches, limit, rows, parts);
    if ok {
      assert total == wanted;
      WriteTrailer(builder, total, timing);
      ok := builder.Flush();
    } else {
      PrefixAfter(before, QUERY3 + data, ResponseText(names, rows, wanted, timing), builder.sent);
    }
  }
}
