/**
  What the range checks of a bind message leave open: which accepted messages make the parser of
  driver/wrapper/stmt2binary.go read outside them, and which leave a structure that points outside.  The conditions are
  arithmetic on the words of the message, so they can be evaluated before it is parsed.
*/
module Stmt2Range {
  import opened Wrappers
  import opened Bytes
  import opened LittleEndian
  import opened Stmt2
  import opened Stmt2Message

  // ---- one record in numbers ----

  /** Where the flag stands: behind three words and the null marks. */
  function FlagOf(data: bytes, p: nat): int
    requires p + 12 <= |data|
  {
    p + 12 + Signed(data, p + 8)
  }

  /** Where the buffer length stands: behind the flag and, if it is set, a word for each null mark. */
  function SizeWordOf(data: bytes, p: nat): int
    requires p + 12 <= |data| && 0 <= FlagOf(data, p) < |data|
  {
    FlagOf(data, p) + 1 + (if data[FlagOf(data, p)] == 0 then 0 else 4 * Signed(data, p + 8))
  }

  /** All that the parser reads of a record at `p` is in the message, and the one product it computes is an `int`. */
  predicate HeadInside(data: bytes, p: nat)
  {
    && p + 12 <= |data| && 0 <= FlagOf(data, p) < |data|
    && (data[FlagOf(data, p)] != 0 ==> IsInt32(4 * Signed(data, p + 8)))
    && 0 <= SizeWordOf(data, p) <= |data| - 4
  }

  /** The number of bytes from `p` to the end of the buffer. */
  function Span(data: bytes, p: nat): int
    requires HeadInside(data, p)
  {
    var size := Signed(data, SizeWordOf(data, p));
    SizeWordOf(data, p) + 4 - p + (if size > 0 then size else 0)
  }

  /** A record that is as long as its first word says. */
  predicate Whole(data: bytes, p: nat)
  {
    HeadInside(data, p) && Span(data, p) == Load(data, p, 4)
  }

  lemma RecordIff(data: bytes, p: nat)
    ensures ReadBind(data, p) == Undefined <==> !HeadInside(data, p)
    ensures ReadBind(data, p) == LengthError <==> HeadInside(data, p) && !Whole(data, p)
    ensures ReadBind(data, p).Parsed? <==> Whole(data, p)
    ensures Whole(data, p) ==> ReadBind(data, p).next == p + Load(data, p, 4)
  {
  }

  // ---- the records of a section in numbers ----

  /** Where record `k` starts when every record before it is as long as it says. */
  function StartOf(data: bytes, p: nat, k: nat): Option<nat>
  {
    if k == 0 then Some(p)
    else
      match StartOf(data, p, k - 1)
      case None => None
      case Some(c) => if c + 4 > |data| then None else Some(c + Load(data, c, 4))
  }

  predicate WholeAt(data: bytes, p: nat, k: nat)
  {
    StartOf(data, p, k).Some? && Whole(data, StartOf(data, p, k).value)
  }

  ghost predicate WholeUpTo(data: bytes, p: nat, n: nat)
  {
    forall k: nat :: k < n ==> WholeAt(data, p, k)
  }

  /** Record `k` starts behind whole records, and the parser leaves the message while it reads it. */
  ghost predicate OutsideAt(data: bytes, p: nat, k: nat)
  {
    WholeUpTo(data, p, k) && StartOf(data, p, k).Some? && !HeadInside(data, StartOf(data, p, k).value)
  }

  ghost predicate SomeOutside(data: bytes, p: nat, n: nat)
  {
    exists k: nat :: k < n && OutsideAt(data, p, k)
  }

  lemma WholeOneMore(data: bytes, p: nat, n: nat)
    ensures WholeUpTo(data, p, n + 1) <==> WholeUpTo(data, p, n) && WholeAt(data, p, n)
  {
    assert WholeUpTo(data, p, n + 1) ==> WholeAt(data, p, n);
  }

  lemma {:induction false} ReadOneMore(data: bytes, p: nat, n: nat, c: nat)
    requires ReadBinds(data, p, n).Binds? && ReadBinds(data, p, n).cursors[n] == c
    ensures ReadBinds(data, p, n + 1).Binds? <==> ReadBind(data, c).Parsed?
    ensures ReadBind(data, c).Parsed? ==> ReadBinds(data, p, n + 1).cursors[n + 1] == ReadBind(data, c).next
  {
  }

  lemma {:induction false} NextStart(data: bytes, p: nat, n: nat, c: nat)
    requires StartOf(data, p, n) == Some(c) && c + 4 <= |data|
    ensures StartOf(data, p, n + 1) == Some(c + Load(data, c, 4))
  {
  }

  lemma {:induction false} StartOneMore(data: bytes, p: nat, n: nat, c: nat)
    requires ReadBinds(data, p, n).Binds? && ReadBinds(data, p, n).cursors[n] == c && StartOf(data, p, n) == Some(c)
    ensures ReadBinds(data, p, n + 1).Binds? <==> WholeAt(data, p, n)
    ensures WholeAt(data, p, n) ==> StartOf(data, p, n + 1) == Some(ReadBinds(data, p, n + 1).cursors[n + 1])
  {
    ReadOneMore(data, p, n, c);
    RecordIff(data, c);
    assert WholeAt(data, p, n) <==> Whole(data, c);
    if Whole(data, c) {
      NextStart(data, p, n, c);
    }
  }

  /** The parser gets through a section exactly when its records are whole, and its cursors are their starts. */
  lemma {:induction false} BindsIff(data: bytes, p: nat, n: nat)
    ensures ReadBinds(data, p, n).Binds? <==> WholeUpTo(data, p, n)
    ensures ReadBinds(data, p, n).Binds? ==> StartOf(data, p, n) == Some(ReadBinds(data, p, n).cursors[n])
    decreases n
  {
    if n > 0 {
      BindsIff(data, p, n - 1);
      WholeOneMore(data, p, n - 1);
      if WholeUpTo(data, p, n - 1) {
        StartOneMore(data, p, n - 1, ReadBinds(data, p, n - 1).cursors[n - 1]);
      } else {
        FailureStays(Reader(data), p, n - 1, n);
      }
    }
  }

  lemma StopsOutsideIff(data: bytes, p: nat, k: nat)
    ensures StopsAt(data, p, k, Undefined) <==> OutsideAt(data, p, k)
  {
    BindsIff(data, p, k);
    if WholeUpTo(data, p, k) {
      RecordIff(data, StartOf(data, p, k).value);
    }
  }

  lemma SectionOutsideIff(data: bytes, p: nat, n: nat)
    ensures ReadBinds(data, p, n) == NoBinds(Undefined) <==> SomeOutside(data, p, n)
  {
    StopsAtRecord(data, p, n, Undefined);
    if SomeStops(data, p, n, Undefined) {
      var k: nat :| k < n && StopsAt(data, p, k, Undefined);
      StopsOutsideIff(data, p, k);
    }
    if SomeOutside(data, p, n) {
      var k: nat :| k < n && OutsideAt(data, p, k);
      StopsOutsideIff(data, p, k);
    }
  }

  // ---- reads outside the message ----

  /** Some record of a present section, behind whole ones, makes the parser leave the message. */
  ghost predicate SectionLeaves(data: bytes, offset: nat, fieldCount: nat, count: nat)
  {
    offset != 0 && SomeOutside(data, offset + 4 * count, count * fieldCount)
  }

  ghost predicate SectionWhole(data: bytes, offset: nat, fieldCount: nat, count: nat)
  {
    offset == 0 || WholeUpTo(data, offset + 4 * count, count * fieldCount)
  }

  lemma SectionIff(data: bytes, offset: nat, fieldCount: nat, count: nat)
    ensures SectionLeaves(data, offset, fieldCount, count) <==>
            offset != 0 && SectionRead(data, offset, fieldCount, count) == NoBinds(Undefined)
    ensures SectionWhole(data, offset, fieldCount, count) <==>
            offset == 0 || SectionRead(data, offset, fieldCount, count).Binds?
  {
    SectionOutsideIff(data, offset + 4 * count, count * fieldCount);
    BindsIff(data, offset + 4 * count, count * fieldCount);
  }

  /**
    Exactly when a message that passed the checks makes the parser read outside it: a record of the tags does, or all
    tags are whole and a record of the columns does.
  */
  lemma {:induction false} LeavesMessageIff(data: bytes, h: Header)
    ensures Failure(data, h) == Some(BindError(Undefined)) <==>
            && StructCount(h) != 0 && Allocates(h)
            && (|| SectionLeaves(data, h.tags, h.tagCount, h.count)
                || (&& SectionWhole(data, h.tags, h.tagCount, h.count)
                    && SectionLeaves(data, h.cols, h.colCount, h.count)))
  {
    SectionIff(data, h.tags, h.tagCount, h.count);
    SectionIff(data, h.cols, h.colCount, h.count);
  }

  lemma ShortHeader(data: bytes, ws: seq<nat>)
    requires ws == [33, 1, 0, 1, 0, 0, 28] && HeaderIs(data, ws)
    ensures |data| >= 28 && Load(data, 0, 4) == 33 && HeaderOf(data) == Header(1, 0, 1, 0, 0, 28)
  {
    assert LengthIs(data, 4 * 0, 4, ws[0]);
    assert LengthIs(data, 4 * 1, 4, ws[1]);
    assert LengthIs(data, 4 * 2, 4, ws[2]);
    assert LengthIs(data, 4 * 3, 4, ws[3]);
    assert LengthIs(data, 4 * 4, 4, ws[4]);
    assert LengthIs(data, 4 * 5, 4, ws[5]);
    assert LengthIs(data, 4 * 6, 4, ws[6]);
  }

  lemma {:induction false} WordBetween(before: bytes, n: nat, after: bytes, data: bytes)
    requires n < UINT32 && data == before + (ToLE(n, 4) + after)
    ensures LengthIs(data, |before|, 4, n)
  {
    Powers();
    LoadStored(data, |before|, n, 4);
  }

  /** One table whose length fits between its word and the end of the message. */
  lemma {:induction false} OneTablePasses(data: bytes, total: nat, length: nat)
    requires LengthIs(data, 28, 4, length) && 0 < length && 32 + length <= total < UINT32
    ensures Check(data, total, 28, 4, 1) == Passed
  {
    var ls := [length];
    assert LengthsAt(data, 28, 4, ls) by {
      assert LengthIs(data, 28 + 0 * 4, 4, ls[0]);
    }
    assert Sum(ls, 0) == 0 && Sum(ls, 1) == length;
    CheckIff(data, total, 28, 4, ls, 32);
  }

  lemma ShortRead(data: bytes)
    requires |data| == 33
    ensures SectionRead(data, 28, 1, 1) == NoBinds(Undefined)
  {
    assert StopsAt(data, 32, 0, Undefined);
    StopsThere(data, 32, 0, Undefined);
  }

  lemma ShortFailure(data: bytes, h: Header)
    requires h == Header(1, 0, 1, 0, 0, 28) && SectionRead(data, 28, 1, 1) == NoBinds(Undefined)
    ensures Failure(data, h) == Some(BindError(Undefined))
  {
  }

  /** One table of one column whose length says one byte: every check passes, and no record fits in that byte. */
  lemma {:induction false} CheckedMessageLeaves(data: bytes)
    requires data == Concat(Words([33, 1, 0, 1, 0, 0, 28], 4), 7) + (ToLE(1, 4) + [0])
    ensures Accepted(data) && Failure(data, HeaderOf(data)) == Some(BindError(Undefined))
  {
    var ws := [33, 1, 0, 1, 0, 0, 28];
    var words, rest := Concat(Words(ws, 4), 7), ToLE(1, 4) + [0];
    ConcatLength(Words(ws, 4), 7, 4);
    HeaderAt(data, ws, words, rest);
    ShortHeader(data, ws);
    WordBetween(words, 1, [0], data);
    OneTablePasses(data, 33, 1);
    ShortRead(data);
    ShortFailure(data, HeaderOf(data));
  }

  // ---- structures that point outside the message ----

  /** The null marks, the lengths and the buffer lie in the message; the buffer's size is the word before it. */
  predicate PointsInside(data: bytes, x: Bound)
  {
    && x.isNullAt <= |data| && x.isNullAt + x.num <= |data|
    && (x.lengthAt.Some? ==> x.lengthAt.value <= |data| && x.lengthAt.value + 4 * x.num <= |data|)
    && (x.bufferAt.Some? ==>
          && 4 <= x.bufferAt.value <= |data|
          && x.bufferAt.value + Signed(data, x.bufferAt.value - 4) <= |data|)
  }

  /** The structure of a whole record points inside exactly when the record ends inside. */
  lemma BoundInsideIff(data: bytes, p: nat)
    requires Whole(data, p)
    ensures ReadBind(data, p).Parsed?
    ensures PointsInside(data, ReadBind(data, p).bound) <==> p + Load(data, p, 4) <= |data|
  {
    RecordIff(data, p);
  }

  /** Record `k` ends inside the message: its start plus its first word. */
  predicate EndsInside(data: bytes, p: nat, k: nat)
  {
    StartOf(data, p, k + 1).Some? && StartOf(data, p, k + 1).value <= |data|
  }

  ghost predicate AllEndInside(data: bytes, p: nat, n: nat)
  {
    forall k: nat :: k < n ==> EndsInside(data, p, k)
  }

  ghost predicate AllPointInside(data: bytes, xs: seq<Bound>)
  {
    forall k :: 0 <= k < |xs| ==> PointsInside(data, xs[k])
  }

  lemma {:induction false} CursorIsStart(data: bytes, p: nat, n: nat, k: nat)
    requires ReadBinds(data, p, n).Binds? && k <= n
    ensures StartOf(data, p, k) == Some(ReadBinds(data, p, n).cursors[k])
    decreases n
  {
    BindsIff(data, p, n);
    if k < n {
      CursorIsStart(data, p, n - 1, k);
    }
  }

  lemma RecordOfSection(data: bytes, p: nat, n: nat, k: nat)
    requires ReadBinds(data, p, n).Binds? && k < n
    ensures PointsInside(data, ReadBinds(data, p, n).bounds[k]) <==> EndsInside(data, p, k)
  {
    BindsIff(data, p, n);
    assert WholeAt(data, p, k);
    var c := StartOf(data, p, k).value;
    BoundInsideIff(data, c);
    CursorIsStart(data, p, n, k);
    BindsTile(data, p, n, k);
  }

  lemma SectionPointsIff(data: bytes, p: nat, n: nat)
    requires ReadBinds(data, p, n).Binds?
    ensures AllPointInside(data, ReadBinds(data, p, n).bounds) <==> AllEndInside(data, p, n)
  {
    var bounds := ReadBinds(data, p, n).bounds;
    forall k: nat | k < n ensures PointsInside(data, bounds[k]) <==> EndsInside(data, p, k) {
      RecordOfSection(data, p, n, k);
    }
  }

  /** Of whole records only the last can end outside: each other one has the next behind it. */
  lemma OnlyTheLastLeaves(data: bytes, p: nat, n: nat)
    requires n > 0 && WholeUpTo(data, p, n)
    ensures AllEndInside(data, p, n) <==> EndsInside(data, p, n - 1)
  {
    forall k: nat | k < n - 1 ensures EndsInside(data, p, k) {
      assert WholeAt(data, p, k + 1);
    }
  }

  /** Every record of a present section ends inside the message. */
  ghost predicate SectionEndsInside(data: bytes, offset: nat, fieldCount: nat, count: nat)
  {
    offset == 0 || AllEndInside(data, offset + 4 * count, count * fieldCount)
  }

  lemma SplitStructures(data: bytes, xs: seq<Bound>, base: nat, tags: seq<Bound>, cols: seq<Bound>)
    requires base == |tags| && |xs| == |tags| + |cols| && Written(xs, 0, tags) && Written(xs, base, cols)
    ensures AllPointInside(data, xs) <==> AllPointInside(data, tags) && AllPointInside(data, cols)
  {
    assert xs == tags + cols by {
      forall k | 0 <= k < |xs| ensures xs[k] == (tags + cols)[k] {
        assert k < base ==> xs[0 + k] == tags[k];
        assert k >= base ==> xs[base + (k - base)] == cols[k - base];
      }
    }
  }

  function SectionBounds(data: bytes, offset: nat, fieldCount: nat, count: nat): seq<Bound>
  {
    if offset == 0 then []
    else
      match SectionRead(data, offset, fieldCount, count)
      case NoBinds(_) => []
      case Binds(bounds, _) => bounds
  }

  lemma OptionPoints(data: bytes, structs: seq<Bound>, base: nat, ptrs: Option<seq<nat>>, offset: nat, fieldCount: nat,
                     count: nat)
    requires base <= |structs| && OptionBound(data, structs, base, ptrs, offset, fieldCount, count)
    ensures var bounds := SectionBounds(data, offset, fieldCount, count);
            && |bounds| == Needed(offset, count, fieldCount) && Written(structs, base, bounds)
            && (AllPointInside(data, bounds) <==> SectionEndsInside(data, offset, fieldCount, count))
  {
    if offset != 0 {
      SectionPointsIff(data, offset + 4 * count, count * fieldCount);
    }
  }

  /**
    Of every message that is answered: all structures point inside it exactly when every record that was parsed ends
    inside it.
  */
  lemma {:induction false} StructuresInsideIff(data: bytes, r: Response, h: Header)
    requires Accepted(data) && h == HeaderOf(data) && Answered(data, r) && r.BindV?
    ensures AllPointInside(data, r.structs) <==>
            || StructCount(h) == 0
            || (&& SectionEndsInside(data, h.tags, h.tagCount, h.count)
                && SectionEndsInside(data, h.cols, h.colCount, h.count))
  {
    if StructCount(h) != 0 {
      var base := Needed(h.tags, h.count, h.tagCount);
      OptionPoints(data, r.structs, 0, r.tags, h.tags, h.tagCount, h.count);
      OptionPoints(data, r.structs, base, r.cols, h.cols, h.colCount, h.count);
      SplitStructures(data, r.structs, base, SectionBounds(data, h.tags, h.tagCount, h.count),
                      SectionBounds(data, h.cols, h.colCount, h.count));
    }
  }

  /** The words of a message of 50 bytes: one table, one column, one record with a buffer of 100 bytes. */
  ghost predicate LongBuffer(data: bytes)
  {
    && |data| == 50 && HeaderIs(data, [50, 1, 0, 1, 0, 0, 28]) && LengthIs(data, 28, 4, 18)
    && LengthIs(data, 32, 4, 118) && LengthIs(data, 36, 4, 4) && LengthIs(data, 40, 4, 1)
    && data[44] == 0 && data[45] == 0 && LengthIs(data, 46, 4, 100)
  }

  lemma LongBufferHeader(data: bytes)
    requires LongBuffer(data)
    ensures Load(data, 0, 4) == 50 && HeaderOf(data) == Header(1, 0, 1, 0, 0, 28)
  {
    var ws := [50, 1, 0, 1, 0, 0, 28];
    assert LengthIs(data, 4 * 0, 4, ws[0]);
    assert LengthIs(data, 4 * 1, 4, ws[1]);
    assert LengthIs(data, 4 * 2, 4, ws[2]);
    assert LengthIs(data, 4 * 3, 4, ws[3]);
    assert LengthIs(data, 4 * 4, 4, ws[4]);
    assert LengthIs(data, 4 * 5, 4, ws[5]);
    assert LengthIs(data, 4 * 6, 4, ws[6]);
  }

  lemma LongBufferReads(data: bytes)
    requires LongBuffer(data)
    ensures ReadBind(data, 32) == Parsed(Bound(4, 1, 44, None, Some(50)), 150)
  {
    Powers();
    assert Load(data, 40, 4) == 1 && Load(data, 46, 4) == 100 && Load(data, 36, 4) == 4 && Load(data, 32, 4) == 118;
  }

  /** Every check passes and the parser reads nothing outside, yet the buffer it points to lies behind the message. */
  lemma {:induction false} LongBufferLeaves(data: bytes)
    requires LongBuffer(data)
    ensures Accepted(data) && Failure(data, HeaderOf(data)) == None
    ensures SectionRead(data, 28, 1, 1) == Binds([Bound(4, 1, 44, None, Some(50))], [32, 150])
    ensures !PointsInside(data, Bound(4, 1, 44, None, Some(50)))
  {
    LongBufferHeader(data);
    OneTablePasses(data, 50, 18);
    LongBufferReads(data);
    assert ReadBinds(data, 32, 0) == Binds([], [32]);
    assert ReadBinds(data, 32, 1) == Binds([Bound(4, 1, 44, None, Some(50))], [32, 150]);
    Powers();
  }

  lemma {:induction false} FourWords(data: bytes, p: nat, ws: seq<nat>)
    requires |ws| == 4 && At(data, p, Concat(Words(ws, 4), 4)) && forall i :: 0 <= i < 4 ==> ws[i] < UINT32
    ensures LengthIs(data, p, 4, ws[0]) && LengthIs(data, p + 4, 4, ws[1])
    ensures LengthIs(data, p + 8, 4, ws[2]) && LengthIs(data, p + 12, 4, ws[3])
  {
    Powers();
    WordsAreLengths(data, p, ws, Words(ws, 4), 4);
    assert LengthIs(data, p + 0 * 4, 4, ws[0]);
    assert LengthIs(data, p + 1 * 4, 4, ws[1]);
    assert LengthIs(data, p + 2 * 4, 4, ws[2]);
    assert LengthIs(data, p + 3 * 4, 4, ws[3]);
  }

  lemma {:induction false} Middle(first: bytes, second: bytes, third: bytes)
    ensures At(first + (second + third), |first|, second)
    ensures first + (second + third) == first + second + third
  {
  }

  lemma {:induction false} LongBufferTail(data: bytes, before: bytes)
    requires |before| == 44 && data == before + ([0, 0] + ToLE(100, 4))
    ensures |data| == 50 && data[44] == 0 && data[45] == 0 && LengthIs(data, 46, 4, 100)
  {
    assert data == before + [0, 0] + (ToLE(100, 4) + []);
    WordBetween(before + [0, 0], 100, [], data);
  }

  /** There is such a message. */
  lemma {:induction false} LongBufferExists() returns (data: bytes)
    ensures LongBuffer(data)
  {
    var ws := [50, 1, 0, 1, 0, 0, 28];
    var record := [18, 118, 4, 1];
    var words, body := Concat(Words(ws, 4), 7), Concat(Words(record, 4), 4);
    var tail := [0, 0] + ToLE(100, 4);
    ConcatLength(Words(ws, 4), 7, 4);
    ConcatLength(Words(record, 4), 4, 4);
    data := words + (body + tail);
    HeaderAt(data, ws, words, body + tail);
    Middle(words, body, tail);
    FourWords(data, 28, record);
    LongBufferTail(data, words + body);
  }

  // ---- which messages pass the checks ----

  /** A length word of a section lies inside the message and is not 0. */
  ghost predicate LengthOk(data: bytes, offset: nat, width: nat, k: nat)
  {
    offset + k * width + width <= |data| && Load(data, offset + k * width, width) != 0
  }

  /** The sum of the first `n` lengths. */
  function Lengths(data: bytes, offset: nat, width: nat, n: nat): nat
  {
    if n == 0 then 0
    else Lengths(data, offset, width, n - 1)
         + if offset + (n - 1) * width + width <= |data| then Load(data, offset + (n - 1) * width, width) else 0
  }

  lemma {:induction false} LengthsGrow(data: bytes, offset: nat, width: nat, i: nat, n: nat)
    requires i <= n
    ensures Lengths(data, offset, width, i) <= Lengths(data, offset, width, n)
    decreases n
  {
    if i < n {
      LengthsGrow(data, offset, width, i, n - 1);
    }
  }

  lemma WrapAdds(a: nat, b: nat)
    ensures (a % UINT32 + b) % UINT32 == (a + b) % UINT32
  {
  }

  lemma {:induction false} PassesFromIff(data: bytes, total: nat, offset: nat, width: nat, count: nat, i: nat, end: nat)
    requires i <= count && end < UINT32
    ensures Lengths(data, offset, width, i) <= Lengths(data, offset, width, count)
    ensures CheckFrom(data, total, offset, width, count, i, end) == Passed <==>
            && (forall k :: i <= k < count ==> LengthOk(data, offset, width, k))
            && (end + (Lengths(data, offset, width, count) - Lengths(data, offset, width, i))) % UINT32 <= total
    decreases count - i
  {
    LengthsGrow(data, offset, width, i, count);
    if i < count && LengthOk(data, offset, width, i) {
      var length := Load(data, offset + i * width, width);
      var rest := Lengths(data, offset, width, count) - Lengths(data, offset, width, i + 1);
      PassesFromIff(data, total, offset, width, count, i + 1, (end + length) % UINT32);
      WrapAdds(end + length, rest);
    }
  }

  /** The section that starts at `offset` with `count` lengths, in 32-bit arithmetic. */
  ghost predicate InRange(data: bytes, offset: nat, width: nat, count: nat)
  {
    && (offset + count * width) % UINT32 <= |data|
    && (forall k :: 0 <= k < count ==> LengthOk(data, offset, width, k))
    && (offset + count * width + Lengths(data, offset, width, count)) % UINT32 <= |data|
  }

  lemma PassesIff(data: bytes, offset: nat, width: nat, count: nat)
    ensures Check(data, |data|, offset, width, count) == Passed <==> InRange(data, offset, width, count)
  {
    var start := offset + count * width;
    PassesFromIff(data, |data|, offset, width, count, 0, start % UINT32);
    WrapAdds(start, Lengths(data, offset, width, count));
  }

  /**
    A message is accepted exactly when it says its own length and each of names, tags and columns is absent or in range,
    tags and columns with fields.  The words are count, numbers of tags and columns, and the three offsets.
  */
  lemma AcceptedIff(data: bytes)
    requires |data| >= 28
    ensures var count, names, tags, cols := Load(data, 4, 4), Load(data, 16, 4), Load(data, 20, 4), Load(data, 24, 4);
            Accepted(data) <==>
            && Load(data, 0, 4) == |data| % UINT32
            && (names != 0 ==> InRange(data, names, 2, count))
            && (tags != 0 ==> Load(data, 8, 4) != 0 && InRange(data, tags, 4, count))
            && (cols != 0 ==> Load(data, 12, 4) != 0 && InRange(data, cols, 4, count))
  {
    var h := HeaderOf(data);
    PassesIff(data, h.names, 2, h.count);
    PassesIff(data, h.tags, 4, h.count);
    PassesIff(data, h.cols, 4, h.count);
  }
}
