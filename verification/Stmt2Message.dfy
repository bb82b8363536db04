/** Whole bind messages of driver/wrapper/stmt2binary.go: header, range checks, table names, tags and columns. */
module Stmt2Message {
  import opened Wrappers
  import opened Bytes
  import opened LittleEndian
  import opened Stmt2

  // ---- range checks ----

  datatype Verdict = Unreadable | Refused | Passed

  /** The loop over the lengths of a section, in unsigned 32-bit arithmetic. */
  function CheckFrom(data: bytes, total: nat, offset: nat, width: nat, count: nat, i: nat, end: nat): Verdict
    requires i <= count
    decreases count - i
  {
    if i == count then (if end > total then Refused else Passed)
    else if offset + i * width + width > |data| then Unreadable
    else
      var length := Load(data, offset + i * width, width);
      if length == 0 then Refused
      else CheckFrom(data, total, offset, width, count, i + 1, (end + length) % UINT32)
  }

  function Check(data: bytes, total: nat, offset: nat, width: nat, count: nat): Verdict
  {
    var end := (offset + count * width) % UINT32;
    if end > total then Refused else CheckFrom(data, total, offset, width, count, 0, end)
  }

  method CheckLengths(data: bytes, total: nat, offset: nat, width: nat, count: nat) returns (v: Verdict)
    ensures v == Check(data, total, offset, width, count)
  {
    var end: nat := (offset + count * width) % UINT32;
    if end > total {
      return Refused;
    }
    for i := 0 to count
      invariant Check(data, total, offset, width, count) == CheckFrom(data, total, offset, width, count, i, end)
    {
      if offset + i * width + width > |data| {
        return Unreadable;
      }
      var length := Load(data, offset + i * width, width);
      if length == 0 {
        return Refused;
      }
      end := (end + length) % UINT32;
    }
    return if end > total then Refused else Passed;
  }

  function Sum(ls: seq<nat>, n: nat): nat
    requires n <= |ls|
  {
    if n == 0 then 0 else Sum(ls, n - 1) + ls[n - 1]
  }

  lemma {:induction false} SumGrows(ls: seq<nat>, n: nat, m: nat)
    requires n <= m <= |ls|
    ensures Sum(ls, n) <= Sum(ls, m)
    decreases m
  {
    if n < m {
      SumGrows(ls, n, m - 1);
    }
  }

  /** The length words of a section. */
  ghost predicate LengthIs(data: bytes, at: nat, width: nat, length: nat)
  {
    at + width <= |data| && Load(data, at, width) == length
  }

  ghost predicate LengthsAt(data: bytes, offset: nat, width: nat, ls: seq<nat>)
  {
    forall i :: 0 <= i < |ls| ==> LengthIs(data, offset + i * width, width, ls[i])
  }

  lemma {:induction false} CheckStep(data: bytes, total: nat, offset: nat, width: nat, count: nat, i: nat, end: nat,
                                     length: nat)
    requires i < count && LengthIs(data, offset + i * width, width, length) && end + length < UINT32
    ensures CheckFrom(data, total, offset, width, count, i, end)
            == if length == 0 then Refused else CheckFrom(data, total, offset, width, count, i + 1, end + length)
  {
    assert (end + length) % UINT32 == end + length;
  }

  /** From row `i` on, the check passes exactly when no length is zero and the section ends inside the message. */
  lemma {:induction false} CheckFromIff(data: bytes, total: nat, offset: nat, width: nat, ls: seq<nat>, i: nat, start: nat)
    requires i <= |ls| && LengthsAt(data, offset, width, ls) && start + Sum(ls, |ls|) < UINT32
    ensures CheckFrom(data, total, offset, width, |ls|, i, start + Sum(ls, i)) == Passed <==>
            (forall k :: i <= k < |ls| ==> ls[k] != 0) && start + Sum(ls, |ls|) <= total
    decreases |ls| - i
  {
    if i < |ls| {
      assert LengthIs(data, offset + i * width, width, ls[i]);
      SumGrows(ls, i + 1, |ls|);
      assert Sum(ls, i + 1) == Sum(ls, i) + ls[i];
      CheckStep(data, total, offset, width, |ls|, i, start + Sum(ls, i), ls[i]);
      CheckFromIff(data, total, offset, width, ls, i + 1, start);
    }
  }

  lemma CheckStart(data: bytes, total: nat, offset: nat, width: nat, count: nat, start: nat)
    requires start == offset + count * width < UINT32
    ensures Check(data, total, offset, width, count)
            == if start > total then Refused else CheckFrom(data, total, offset, width, count, 0, start)
  {
  }

  /** Without wrap-around, a section passes exactly when its lengths are positive and it ends inside the message. */
  lemma CheckIff(data: bytes, total: nat, offset: nat, width: nat, ls: seq<nat>, start: nat)
    requires LengthsAt(data, offset, width, ls) && start == offset + |ls| * width
    requires start + Sum(ls, |ls|) < UINT32
    ensures Check(data, total, offset, width, |ls|) == Passed <==>
            (forall k :: 0 <= k < |ls| ==> ls[k] != 0) && start + Sum(ls, |ls|) <= total
  {
    CheckStart(data, total, offset, width, |ls|, start);
    CheckFromIff(data, total, offset, width, ls, 0, start);
  }

  // ---- table names ----

  /** Each name starts behind the lengths and the names before it. */
  predicate PointToNames(ptrs: seq<nat>, start: nat, ls: seq<nat>, n: nat)
    requires n <= |ls|
  {
    |ptrs| == n && forall i :: 0 <= i < n ==> ptrs[i] == start + Sum(ls, i)
  }

  method NamePointers(data: bytes, offset: nat, count: nat, ghost ls: seq<nat>, ghost start: nat)
      returns (names: seq<nat>)
    requires |ls| == count && LengthsAt(data, offset, 2, ls) && start == offset + count * 2
    ensures PointToNames(names, start, ls, count)
  {
    names := [];
    var p := offset + count * 2;
    for i := 0 to count
      invariant PointToNames(names, start, ls, i) && p == start + Sum(ls, i)
    {
      assert LengthIs(data, offset + i * 2, 2, ls[i]);
      names := names + [p];
      p := p + Load(data, offset + i * 2, 2);
    }
  }

  // ---- sections ----

  /** Lengths, each in a word of the given width, and then the parts they are the lengths of. */
  function Words(ls: seq<nat>, width: nat): (parts: seq<bytes>)
    ensures |parts| == |ls| && AllOfLength(parts, width)
    ensures forall i :: 0 <= i < |ls| ==> parts[i] == ToLE(ls[i], width)
  {
    seq(|ls|, i requires 0 <= i < |ls| => ToLE(ls[i], width))
  }

  lemma WordIsLength(data: bytes, offset: nat, parts: seq<bytes>, i: nat, width: nat, length: nat, at: nat)
    requires i < |parts| && AllOfLength(parts, width) && At(data, offset, Concat(parts, |parts|))
    requires length < Pow256(width) && parts[i] == ToLE(length, width) && at == offset + i * width
    ensures LengthIs(data, at, width, length)
  {
    LoadFromRow(data, offset, parts, i, width, length, at);
  }

  lemma WordsAreLengths(data: bytes, offset: nat, ls: seq<nat>, parts: seq<bytes>, width: nat)
    requires |parts| == |ls| && AllOfLength(parts, width) && At(data, offset, Concat(parts, |parts|))
    requires forall i :: 0 <= i < |ls| ==> ls[i] < Pow256(width) && parts[i] == ToLE(ls[i], width)
    ensures LengthsAt(data, offset, width, ls)
  {
    forall i | 0 <= i < |ls| ensures LengthIs(data, offset + i * width, width, ls[i]) {
      WordIsLength(data, offset, parts, i, width, ls[i], offset + i * width);
    }
  }

  function SectionBytes(ls: seq<nat>, width: nat, parts: seq<bytes>): bytes
  {
    Concat(Words(ls, width), |ls|) + Concat(parts, |parts|)
  }

  lemma SectionParts(data: bytes, offset: nat, words: bytes, body: bytes, start: nat)
    requires At(data, offset, words + body) && start == offset + |words|
    ensures At(data, offset, words) && At(data, start, body)
  {
    AtPart(data, offset, words + body, 0, words);
    AtPart(data, offset, words + body, |words|, body);
  }

  ghost predicate SectionAt(data: bytes, offset: nat, ls: seq<nat>, width: nat, parts: seq<bytes>)
  {
    && LengthsAt(data, offset, width, ls) && At(data, offset + |ls| * width, Concat(parts, |parts|))
  }

  lemma SectionIsAt(data: bytes, offset: nat, ls: seq<nat>, width: nat, parts: seq<bytes>)
    requires At(data, offset, SectionBytes(ls, width, parts))
    requires forall i :: 0 <= i < |ls| ==> ls[i] < Pow256(width)
    ensures SectionAt(data, offset, ls, width, parts)
  {
    var words := Words(ls, width);
    ConcatLength(words, |ls|, width);
    SectionParts(data, offset, Concat(words, |ls|), Concat(parts, |parts|), offset + |ls| * width);
    WordsAreLengths(data, offset, ls, words, width);
  }

  // ---- groups of binds: the tags or the columns of every table ----

  /** The binds of all tables, table by table. */
  datatype Group = Group(fieldCount: nat, binds: seq<Bind>)

  predicate ValidGroup(g: Group, count: nat)
  {
    && g.fieldCount > 0 && |g.binds| == count * g.fieldCount
    && forall k :: 0 <= k < |g.binds| ==> ValidBind(g.binds[k])
  }

  function Records(bs: seq<Bind>): (parts: seq<bytes>)
    requires forall k :: 0 <= k < |bs| ==> ValidBind(bs[k])
    ensures |parts| == |bs|
  {
    seq(|bs|, k requires 0 <= k < |bs| => EncodeBind(bs[k]))
  }

  ghost predicate IsRecord(parts: seq<bytes>, bs: seq<Bind>, k: nat)
    requires k < |parts| == |bs|
  {
    ValidBind(bs[k]) && parts[k] == EncodeBind(bs[k])
  }

  ghost predicate AreRecords(parts: seq<bytes>, bs: seq<Bind>)
  {
    |parts| == |bs| && forall k :: 0 <= k < |bs| ==> IsRecord(parts, bs, k)
  }

  predicate NoneEmpty(parts: seq<bytes>)
  {
    forall k :: 0 <= k < |parts| ==> |parts[k]| > 0
  }

  lemma RecordIsNotEmpty(b: Bind)
    requires ValidBind(b)
    ensures |EncodeBind(b)| > 0
  {
    EncodedLength(b);
  }

  lemma RecordsAre(bs: seq<Bind>)
    requires forall k :: 0 <= k < |bs| ==> ValidBind(bs[k])
    ensures AreRecords(Records(bs), bs) && NoneEmpty(Records(bs))
  {
    forall k | 0 <= k < |bs| ensures IsRecord(Records(bs), bs, k) && |Records(bs)[k]| > 0 {
      RecordIsNotEmpty(bs[k]);
    }
  }

  lemma {:induction false} ConcatGrows(parts: seq<bytes>, n: nat, m: nat)
    requires n <= m <= |parts|
    ensures |Concat(parts, n)| <= |Concat(parts, m)|
    ensures n < m && |parts[n]| > 0 ==> |Concat(parts, n)| < |Concat(parts, m)|
    decreases m
  {
    if n + 1 < m {
      ConcatGrows(parts, n, m - 1);
    }
  }

  lemma TableEnds(count: nat, fieldCount: nat, t: nat)
    requires t < count
    ensures t * fieldCount <= (t + 1) * fieldCount <= count * fieldCount
    ensures (t + 1) * fieldCount == t * fieldCount + fieldCount
  {
    NextTable(count, fieldCount, t);
  }

  /** The length of the records of one table. */
  function TableLength(parts: seq<bytes>, fieldCount: nat, count: nat, t: nat): nat
    requires |parts| == count * fieldCount && t < count
  {
    TableEnds(count, fieldCount, t);
    ConcatGrows(parts, t * fieldCount, (t + 1) * fieldCount);
    |Concat(parts, (t + 1) * fieldCount)| - |Concat(parts, t * fieldCount)|
  }

  function TableLengths(parts: seq<bytes>, fieldCount: nat, count: nat): (ls: seq<nat>)
    requires |parts| == count * fieldCount
    ensures |ls| == count && forall t :: 0 <= t < count ==> ls[t] == TableLength(parts, fieldCount, count, t)
  {
    seq(count, t requires 0 <= t < count => TableLength(parts, fieldCount, count, t))
  }

  lemma {:induction false} SumOfTables(parts: seq<bytes>, fieldCount: nat, count: nat, n: nat)
    requires |parts| == count * fieldCount && n <= count
    ensures n * fieldCount <= |parts|
    ensures Sum(TableLengths(parts, fieldCount, count), n) == |Concat(parts, n * fieldCount)|
    decreases n
  {
    if n > 0 {
      TableEnds(count, fieldCount, n - 1);
      SumOfTables(parts, fieldCount, count, n - 1);
    }
  }

  lemma TableLengthPositive(parts: seq<bytes>, fieldCount: nat, count: nat, t: nat)
    requires |parts| == count * fieldCount && t < count && fieldCount > 0
    requires NoneEmpty(parts)
    ensures 0 < TableLength(parts, fieldCount, count, t) <= |Concat(parts, |parts|)|
  {
    TableEnds(count, fieldCount, t);
    ConcatGrows(parts, t * fieldCount, (t + 1) * fieldCount);
    ConcatGrows(parts, (t + 1) * fieldCount, |parts|);
  }

  function Starts(p: nat, parts: seq<bytes>): (starts: seq<nat>)
    ensures |starts| == |parts| + 1 && starts[0] == p
    ensures forall k :: 0 <= k <= |parts| ==> starts[k] == p + |Concat(parts, k)|
  {
    seq(|parts| + 1, k requires 0 <= k < |parts| + 1 => p + |Concat(parts, k)|)
  }

  lemma RecordStarts(data: bytes, p: nat, parts: seq<bytes>, k: nat, b: Bind)
    requires k < |parts| && ValidBind(b) && parts[k] == EncodeBind(b) && At(data, p, Concat(parts, |parts|))
    ensures RecordBetween(data, p + |Concat(parts, k)|, p + |Concat(parts, k + 1)|, b)
  {
    PartIn(data, p, parts, k);
  }

  lemma RecordsStart(data: bytes, p: nat, parts: seq<bytes>, bs: seq<Bind>)
    requires AreRecords(parts, bs) && At(data, p, Concat(parts, |parts|))
    ensures RecordsAt(data, Starts(p, parts), bs)
  {
    forall k | 0 <= k < |bs| ensures RecordBetween(data, Starts(p, parts)[k], Starts(p, parts)[k + 1], bs[k]) {
      assert IsRecord(parts, bs, k);
      RecordStarts(data, p, parts, k, bs[k]);
    }
  }

  function GroupBytes(g: Group, count: nat): bytes
    requires ValidGroup(g, count)
  {
    SectionBytes(TableLengths(Records(g.binds), g.fieldCount, count), 4, Records(g.binds))
  }

  /** An encoded section passes the range check. */
  lemma SectionPasses(data: bytes, offset: nat, width: nat, ls: seq<nat>, body: bytes, start: nat)
    requires LengthsAt(data, offset, width, ls) && start == offset + |ls| * width && At(data, start, body)
    requires Sum(ls, |ls|) == |body| && |data| < UINT32 && forall t :: 0 <= t < |ls| ==> ls[t] > 0
    ensures Check(data, |data|, offset, width, |ls|) == Passed
  {
    CheckIff(data, |data|, offset, width, ls, start);
  }

  /** Every structure points at its bind. */
  ghost predicate GroupRead(data: bytes, r: Binds, bs: seq<Bind>)
  {
    r.Binds? && |r.bounds| == |bs| && forall k :: 0 <= k < |bs| ==> PointsAtValid(data, r.bounds[k], bs[k])
  }

  lemma GroupLengths(parts: seq<bytes>, fieldCount: nat, count: nat, ls: seq<nat>)
    requires |parts| == count * fieldCount && fieldCount > 0 && ls == TableLengths(parts, fieldCount, count)
    requires NoneEmpty(parts)
    ensures Sum(ls, count) == |Concat(parts, |parts|)|
    ensures forall t :: 0 <= t < count ==> 0 < ls[t] <= |Concat(parts, |parts|)|
  {
    SumOfTables(parts, fieldCount, count, count);
    forall t | 0 <= t < count ensures 0 < ls[t] <= |Concat(parts, |parts|)| {
      TableLengthPositive(parts, fieldCount, count, t);
    }
  }

  lemma {:induction false} RecordsAreRead(data: bytes, start: nat, bs: seq<Bind>, parts: seq<bytes>)
    requires AreRecords(parts, bs) && At(data, start, Concat(parts, |parts|))
    ensures GroupRead(data, ReadBinds(data, start, |bs|), bs)
  {
    RecordsStart(data, start, parts, bs);
    ReadBindsEncoded(data, Starts(start, parts), bs);
  }

  lemma {:induction false} SectionIsRead(data: bytes, offset: nat, g: Group, count: nat, parts: seq<bytes>, ls: seq<nat>,
                                         start: nat)
    requires ValidGroup(g, count) && AreRecords(parts, g.binds) && NoneEmpty(parts)
    requires ls == TableLengths(parts, g.fieldCount, count)
    requires At(data, offset, SectionBytes(ls, 4, parts)) && |data| < UINT32 && start == offset + 4 * count
    ensures Check(data, |data|, offset, 4, count) == Passed
    ensures At(data, start, Concat(parts, |parts|))
  {
    GroupLengths(parts, g.fieldCount, count, ls);
    Powers();
    SectionIsAt(data, offset, ls, 4, parts);
    SectionPasses(data, offset, 4, ls, Concat(parts, |parts|), start);
  }

  /** An encoded group passes the range check and is read back bind by bind. */
  lemma GroupIsRead(data: bytes, offset: nat, g: Group, count: nat)
    requires ValidGroup(g, count) && At(data, offset, GroupBytes(g, count)) && |data| < UINT32
    ensures Check(data, |data|, offset, 4, count) == Passed
    ensures GroupRead(data, ReadBinds(data, offset + 4 * count, |g.binds|), g.binds)
  {
    var parts := Records(g.binds);
    RecordsAre(g.binds);
    SectionIsRead(data, offset, g, count, parts, TableLengths(parts, g.fieldCount, count), offset + 4 * count);
    RecordsAreRead(data, offset + 4 * count, g.binds, parts);
  }

  // ---- table names, read back ----

  function NameLengths(names: seq<bytes>): (ls: seq<nat>)
    ensures |ls| == |names| && forall i :: 0 <= i < |ls| ==> ls[i] == |names[i]|
  {
    seq(|names|, i requires 0 <= i < |names| => |names[i]|)
  }

  lemma {:induction false} SumOfNames(names: seq<bytes>, n: nat)
    requires n <= |names|
    ensures Sum(NameLengths(names), n) == |Concat(names, n)|
    decreases n
  {
    if n > 0 {
      SumOfNames(names, n - 1);
    }
  }

  predicate ValidNames(names: seq<bytes>)
  {
    forall i :: 0 <= i < |names| ==> 0 < |names[i]| < 0x1_0000
  }

  ghost predicate NamesAt(data: bytes, ptrs: seq<nat>, names: seq<bytes>)
  {
    |ptrs| == |names| && forall i :: 0 <= i < |names| ==> At(data, ptrs[i], names[i])
  }

  lemma NamesAreAt(data: bytes, start: nat, names: seq<bytes>, ls: seq<nat>, ptrs: seq<nat>)
    requires ls == NameLengths(names) && At(data, start, Concat(names, |names|))
    requires PointToNames(ptrs, start, ls, |ls|)
    ensures NamesAt(data, ptrs, names)
  {
    forall i | 0 <= i < |names| ensures At(data, ptrs[i], names[i]) {
      SumOfNames(names, i);
      PartIn(data, start, names, i);
    }
  }

  lemma NameSectionIsRead(data: bytes, offset: nat, names: seq<bytes>, ls: seq<nat>, start: nat)
    requires ValidNames(names) && ls == NameLengths(names) && start == offset + |names| * 2
    requires At(data, offset, SectionBytes(ls, 2, names)) && |data| < UINT32
    ensures Check(data, |data|, offset, 2, |names|) == Passed && LengthsAt(data, offset, 2, ls)
    ensures At(data, start, Concat(names, |names|))
  {
    Powers();
    SectionIsAt(data, offset, ls, 2, names);
    SumOfNames(names, |names|);
    SectionPasses(data, offset, 2, ls, Concat(names, |names|), start);
  }

  /** A section that passed has readable lengths. */
  lemma {:induction false} PassedIsReadable(data: bytes, total: nat, offset: nat, width: nat, count: nat, i: nat, end: nat, k: nat)
    requires i <= k < count && CheckFrom(data, total, offset, width, count, i, end) == Passed
    ensures offset + k * width + width <= |data|
    decreases count - i
  {
    if i < k {
      var length := Load(data, offset + i * width, width);
      PassedIsReadable(data, total, offset, width, count, i + 1, (end + length) % UINT32, k);
    }
  }

  function LoadedLengths(data: bytes, offset: nat, width: nat, count: nat): (ls: seq<nat>)
    requires forall k :: 0 <= k < count ==> offset + k * width + width <= |data|
    ensures |ls| == count && LengthsAt(data, offset, width, ls)
  {
    seq(count, k requires 0 <= k < count => Load(data, offset + k * width, width))
  }

  lemma SameLengths(data: bytes, offset: nat, width: nat, ls: seq<nat>, ls': seq<nat>)
    requires |ls| == |ls'| && LengthsAt(data, offset, width, ls) && LengthsAt(data, offset, width, ls')
    ensures ls == ls'
  {
    forall i | 0 <= i < |ls| ensures ls[i] == ls'[i] {
      assert LengthIs(data, offset + i * width, width, ls[i]);
      assert LengthIs(data, offset + i * width, width, ls'[i]);
    }
  }

  // ---- messages ----

  datatype Message = Message(count: nat, names: Option<seq<bytes>>, tags: Option<Group>, cols: Option<Group>)

  function FieldCount(g: Option<Group>): nat
  {
    if g.None? then 0 else g.value.fieldCount
  }

  predicate ValidParts(m: Message)
  {
    && m.count > 0
    && (m.names.Some? ==> |m.names.value| == m.count && ValidNames(m.names.value))
    && (m.tags.Some? ==> ValidGroup(m.tags.value, m.count))
    && (m.cols.Some? ==> ValidGroup(m.cols.value, m.count))
  }

  function NamesBytes(m: Message): bytes
  {
    if m.names.None? then [] else SectionBytes(NameLengths(m.names.value), 2, m.names.value)
  }

  function OptionalGroup(g: Option<Group>, count: nat): bytes
    requires g.Some? ==> ValidGroup(g.value, count)
  {
    if g.None? then [] else GroupBytes(g.value, count)
  }

  function NamesOffset(m: Message): nat
  {
    if m.names.None? then 0 else 28
  }

  function TagsOffset(m: Message): nat
  {
    if m.tags.None? then 0 else 28 + |NamesBytes(m)|
  }

  function ColsOffset(m: Message): nat
    requires ValidParts(m)
  {
    if m.cols.None? then 0 else 28 + |NamesBytes(m)| + |OptionalGroup(m.tags, m.count)|
  }

  function TotalLength(m: Message): nat
    requires ValidParts(m)
  {
    28 + |NamesBytes(m)| + |OptionalGroup(m.tags, m.count)| + |OptionalGroup(m.cols, m.count)|
  }

  /** A message whose 32-bit lengths and numbers do not wrap. */
  predicate ValidMessage(m: Message)
  {
    ValidParts(m) && TotalLength(m) < UINT32 && m.count < UINT32
  }

  lemma {:induction false} AtLeastBytes(parts: seq<bytes>, n: nat)
    requires n <= |parts| && NoneEmpty(parts)
    ensures |Concat(parts, n)| >= n
    decreases n
  {
    if n > 0 {
      AtLeastBytes(parts, n - 1);
    }
  }

  lemma GroupAtLeast(g: Group, count: nat)
    requires ValidGroup(g, count)
    ensures |GroupBytes(g, count)| >= count * g.fieldCount
  {
    var parts := Records(g.binds);
    RecordsAre(g.binds);
    AtLeastBytes(parts, |parts|);
  }

  lemma OptionalAtLeast(g: Option<Group>, count: nat)
    requires count > 0 && (g.Some? ==> ValidGroup(g.value, count))
    ensures FieldCount(g) <= count * FieldCount(g) <= |OptionalGroup(g, count)|
  {
    AtLeastOnce(count, FieldCount(g));
    if g.Some? {
      GroupAtLeast(g.value, count);
    }
  }

  lemma AtLeastOnce(count: nat, n: nat)
    requires count > 0
    ensures n <= count * n
  {
  }

  /** No structure count of a message that fits in 32 bits wraps. */
  lemma NumbersFit(m: Message)
    requires ValidMessage(m)
    ensures FieldCount(m.tags) <= m.count * FieldCount(m.tags) && FieldCount(m.cols) <= m.count * FieldCount(m.cols)
    ensures m.count * FieldCount(m.tags) + m.count * FieldCount(m.cols) < UINT32
  {
    OptionalAtLeast(m.tags, m.count);
    OptionalAtLeast(m.cols, m.count);
  }

  function HeaderWords(m: Message): (ws: seq<nat>)
    requires ValidMessage(m)
    ensures |ws| == 7
  {
    [TotalLength(m), m.count, FieldCount(m.tags), FieldCount(m.cols), NamesOffset(m), TagsOffset(m), ColsOffset(m)]
  }

  function HeaderBytes(m: Message): (s: bytes)
    requires ValidMessage(m)
    ensures |s| == 28
  {
    ConcatLength(Words(HeaderWords(m), 4), 7, 4);
    Concat(Words(HeaderWords(m), 4), 7)
  }

  function Encode(m: Message): bytes
    requires ValidMessage(m)
  {
    HeaderBytes(m) + NamesBytes(m) + OptionalGroup(m.tags, m.count) + OptionalGroup(m.cols, m.count)
  }

  ghost predicate HeaderIs(data: bytes, ws: seq<nat>)
  {
    |ws| == 7 && |data| >= 28 && forall i :: 0 <= i < 7 ==> LengthIs(data, 4 * i, 4, ws[i])
  }

  lemma PrefixAt(words: bytes, rest: bytes)
    ensures At(words + rest, 0, words)
  {
  }

  lemma {:induction false} HeaderAt(data: bytes, ws: seq<nat>, words: bytes, rest: bytes)
    requires |ws| == 7 && words == Concat(Words(ws, 4), 7) && data == words + rest
    requires forall i :: 0 <= i < 7 ==> ws[i] < UINT32
    ensures |data| >= 28 ==> HeaderIs(data, ws)
  {
    Powers();
    ConcatLength(Words(ws, 4), 7, 4);
    PrefixAt(words, rest);
    WordsAreLengths(data, 0, ws, Words(ws, 4), 4);
    forall i | 0 <= i < 7 ensures LengthIs(data, 4 * i, 4, ws[i]) {
      assert LengthIs(data, 0 + i * 4, 4, ws[i]);
    }
  }

  lemma FourParts(words: bytes, names: bytes, tags: bytes, cols: bytes, data: bytes)
    requires data == words + names + tags + cols && |words| == 28
    ensures |data| == 28 + |names| + |tags| + |cols|
    ensures At(data, 28, names) && At(data, 28 + |names|, tags) && At(data, 28 + |names| + |tags|, cols)
  {
  }

  /** What an encoded message holds, as the parser looks for it. */
  ghost predicate Holds(data: bytes, m: Message)
    requires ValidMessage(m)
  {
    && HeaderIs(data, HeaderWords(m)) && |data| == TotalLength(m)
    && (m.names.Some? ==> At(data, NamesOffset(m), NamesBytes(m)))
    && (m.tags.Some? ==> At(data, TagsOffset(m), OptionalGroup(m.tags, m.count)))
    && (m.cols.Some? ==> At(data, ColsOffset(m), OptionalGroup(m.cols, m.count)))
  }

  lemma PartsHold(data: bytes, m: Message, words: bytes, names: bytes, tags: bytes, cols: bytes)
    requires ValidMessage(m) && HeaderIs(data, HeaderWords(m)) && |words| == 28
    requires names == NamesBytes(m) && tags == OptionalGroup(m.tags, m.count) && cols == OptionalGroup(m.cols, m.count)
    requires data == words + names + tags + cols
    ensures Holds(data, m)
  {
    FourParts(words, names, tags, cols, data);
  }

  lemma HeaderHolds(m: Message, words: bytes, names: bytes, tags: bytes, cols: bytes, data: bytes)
    requires ValidMessage(m) && words == HeaderBytes(m) && data == words + names + tags + cols
    ensures HeaderIs(data, HeaderWords(m))
  {
    NumbersFit(m);
    assert data == words + (names + tags + cols);
    HeaderAt(data, HeaderWords(m), words, names + tags + cols);
  }

  /** An encoded message holds its header and its sections where the header says. */
  lemma EncodedHolds(m: Message, data: bytes)
    requires ValidMessage(m) && data == Encode(m)
    ensures Holds(data, m)
  {
    var names, tags, cols := NamesBytes(m), OptionalGroup(m.tags, m.count), OptionalGroup(m.cols, m.count);
    HeaderHolds(m, HeaderBytes(m), names, tags, cols, data);
    PartsHold(data, m, HeaderBytes(m), names, tags, cols);
  }

  // ---- the whole parser ----

  datatype Response =
    | BadLength
    | Rejected
    | OutOfBounds
    | BindError(why: Outcome)
    | BindV(names: Option<seq<nat>>, structs: seq<Bound>, tags: Option<seq<nat>>, cols: Option<seq<nat>>)

  /** A section that is present has fields and passes its check; an absent one is fine. */
  method CheckGroup(data: bytes, offset: nat, fieldCount: nat, count: nat) returns (v: Verdict)
    ensures v == GroupVerdict(data, offset, fieldCount, count)
  {
    if offset == 0 {
      return Passed;
    }
    if fieldCount == 0 {
      return Refused;
    }
    v := CheckLengths(data, |data|, offset, 4, count);
  }

  function GroupVerdict(data: bytes, offset: nat, fieldCount: nat, count: nat): Verdict
  {
    if offset == 0 then Passed else if fieldCount == 0 then Refused else Check(data, |data|, offset, 4, count)
  }

  /** The structures of a group stand in the array from `base` on, and each table points to its first one. */
  ghost predicate GroupBound(data: bytes, structs: seq<Bound>, base: nat, ptrs: seq<nat>, g: Group, count: nat)
  {
    && base + |g.binds| <= |structs|
    && (forall k :: 0 <= k < |g.binds| ==> PointsAtValid(data, structs[base + k], g.binds[k]))
    && |ptrs| == count && FirstFields(ptrs, 0, base, g.fieldCount, count)
  }

  /** The records behind the table lengths of a section. */
  function SectionRead(data: bytes, offset: nat, fieldCount: nat, count: nat): Binds
  {
    ReadBinds(data, offset + 4 * count, count * fieldCount)
  }

  /** The structures read from a section stand in the array from `base` on, and each table points to its first one. */
  ghost predicate SectionBound(data: bytes, structs: seq<Bound>, base: nat, ptrs: seq<nat>, offset: nat, fieldCount: nat,
                               count: nat)
  {
    var r := SectionRead(data, offset, fieldCount, count);
    && r.Binds? && Written(structs, base, r.bounds)
    && |ptrs| == count && FirstFields(ptrs, 0, base, fieldCount, count)
  }

  /** What the parser must answer for a message: every name, tag and column where it stands. */
  ghost predicate Answers(data: bytes, r: Response, m: Message)
  {
    && r.BindV? && (r.names.Some? <==> m.names.Some?)
    && (r.names.Some? ==> NamesAt(data, r.names.value, m.names.value))
    && (r.tags.Some? <==> m.tags.Some?)
    && (r.tags.Some? ==> GroupBound(data, r.structs, 0, r.tags.value, m.tags.value, m.count))
    && (r.cols.Some? <==> m.cols.Some?)
    && (r.cols.Some? ==>
          GroupBound(data, r.structs, m.count * FieldCount(m.tags), r.cols.value, m.cols.value, m.count))
  }

  datatype Header = Header(count: nat, tagCount: nat, colCount: nat, names: nat, tags: nat, cols: nat)

  function HeaderOf(data: bytes): Header
    requires |data| >= 28
  {
    Header(Load(data, 4, 4), Load(data, 8, 4), Load(data, 12, 4), Load(data, 16, 4), Load(data, 20, 4), Load(data, 24, 4))
  }

  lemma HeaderOfMessage(data: bytes, m: Message)
    requires ValidMessage(m) && Holds(data, m)
    ensures Load(data, 0, 4) == |data|
    ensures HeaderOf(data)
            == Header(m.count, FieldCount(m.tags), FieldCount(m.cols), NamesOffset(m), TagsOffset(m), ColsOffset(m))
  {
    var ws := HeaderWords(m);
    assert LengthIs(data, 4 * 0, 4, ws[0]);
    assert LengthIs(data, 4 * 1, 4, ws[1]);
    assert LengthIs(data, 4 * 2, 4, ws[2]);
    assert LengthIs(data, 4 * 3, 4, ws[3]);
    assert LengthIs(data, 4 * 4, 4, ws[4]);
    assert LengthIs(data, 4 * 5, 4, ws[5]);
    assert LengthIs(data, 4 * 6, 4, ws[6]);
  }

  /** The three range checks. */
  function NamesVerdict(data: bytes, offset: nat, count: nat): Verdict
  {
    if offset == 0 then Passed else Check(data, |data|, offset, 2, count)
  }

  predicate AllPassed(data: bytes, h: Header)
  {
    && NamesVerdict(data, h.names, h.count) == Passed
    && GroupVerdict(data, h.tags, h.tagCount, h.count) == Passed
    && GroupVerdict(data, h.cols, h.colCount, h.count) == Passed
  }

  lemma OptionalGroupPasses(data: bytes, offset: nat, g: Option<Group>, count: nat)
    requires (g.Some? ==> ValidGroup(g.value, count)) && |data| < UINT32 && (g.None? <==> offset == 0)
    requires g.Some? ==> At(data, offset, OptionalGroup(g, count))
    ensures GroupVerdict(data, offset, FieldCount(g), count) == Passed
    ensures g.Some? ==> GroupRead(data, ReadBinds(data, offset + 4 * count, count * FieldCount(g)), g.value.binds)
  {
    if g.Some? {
      GroupIsRead(data, offset, g.value, count);
    }
  }

  lemma NamesPass(data: bytes, m: Message)
    requires ValidMessage(m) && Holds(data, m)
    ensures NamesVerdict(data, NamesOffset(m), m.count) == Passed
    ensures m.names.Some? ==>
              && LengthsAt(data, 28, 2, NameLengths(m.names.value))
              && At(data, 28 + m.count * 2, Concat(m.names.value, m.count))
  {
    if m.names.Some? {
      NameSectionIsRead(data, 28, m.names.value, NameLengths(m.names.value), 28 + m.count * 2);
    }
  }

  /** A valid message passes every range check. */
  lemma MessagePasses(data: bytes, m: Message)
    requires ValidMessage(m) && Holds(data, m)
    ensures AllPassed(data, HeaderOf(data))
  {
    HeaderOfMessage(data, m);
    NamesPass(data, m);
    OptionalGroupPasses(data, TagsOffset(m), m.tags, m.count);
    OptionalGroupPasses(data, ColsOffset(m), m.cols, m.count);
  }

  method CheckAll(data: bytes, h: Header) returns (v: Verdict)
    ensures v == Passed <==> AllPassed(data, h)
  {
    v := Passed;
    if h.names > 0 {
      v := CheckLengths(data, |data|, h.names, 2, h.count);
    }
    if v == Passed {
      v := CheckGroup(data, h.tags, h.tagCount, h.count);
    }
    if v == Passed {
      v := CheckGroup(data, h.cols, h.colCount, h.count);
    }
  }

  lemma NamesAreReadable(data: bytes, offset: nat, count: nat)
    requires Check(data, |data|, offset, 2, count) == Passed
    ensures forall k :: 0 <= k < count ==> offset + k * 2 + 2 <= |data|
  {
    forall k | 0 <= k < count ensures offset + k * 2 + 2 <= |data| {
      PassedIsReadable(data, |data|, offset, 2, count, 0, (offset + count * 2) % UINT32, k);
    }
  }

  ghost predicate Carries(data: bytes, m: Message)
  {
    ValidMessage(m) && Holds(data, m)
  }

  /** The lengths at `offset` are `ls`, and each name starts behind them and the names before it. */
  ghost predicate NamesBehind(data: bytes, offset: nat, start: nat, ls: seq<nat>, ptrs: seq<nat>)
  {
    LengthsAt(data, offset, 2, ls) && PointToNames(ptrs, start, ls, |ls|)
  }

  ghost predicate NamesFound(data: bytes, h: Header, names: Option<seq<nat>>)
  {
    && (names.Some? <==> h.names != 0)
    && (names.Some? ==>
          exists ls: seq<nat> :: |ls| == h.count && NamesBehind(data, h.names, h.names + h.count * 2, ls, names.value))
  }

  method BindNames(data: bytes, h: Header) returns (names: Option<seq<nat>>)
    requires NamesVerdict(data, h.names, h.count) == Passed
    ensures NamesFound(data, h, names)
  {
    if h.names == 0 {
      return None;
    }
    NamesAreReadable(data, h.names, h.count);
    ghost var ls := LoadedLengths(data, h.names, 2, h.count);
    var ptrs := NamePointers(data, h.names, h.count, ls, h.names + h.count * 2);
    assert NamesBehind(data, h.names, h.names + h.count * 2, ls, ptrs);
    return Some(ptrs);
  }

  lemma {:induction false} SameNames(data: bytes, offset: nat, start: nat, ls: seq<nat>, ptrs: seq<nat>, names: seq<bytes>)
    requires |ls| == |names| && NamesBehind(data, offset, start, ls, ptrs)
    requires LengthsAt(data, offset, 2, NameLengths(names)) && At(data, start, Concat(names, |names|))
    ensures NamesAt(data, ptrs, names)
  {
    SameLengths(data, offset, 2, ls, NameLengths(names));
    NamesAreAt(data, start, names, ls, ptrs);
  }

  lemma {:induction false} FoundNames(data: bytes, h: Header, ptrs: Option<seq<nat>>, names: seq<bytes>, start: nat)
    requires h.count == |names| && NamesFound(data, h, ptrs) && h.names != 0 && start == h.names + |names| * 2
    requires LengthsAt(data, h.names, 2, NameLengths(names)) && At(data, start, Concat(names, |names|))
    ensures ptrs.Some? && NamesAt(data, ptrs.value, names)
  {
    var ls: seq<nat> :| |ls| == h.count && NamesBehind(data, h.names, start, ls, ptrs.value);
    SameNames(data, h.names, start, ls, ptrs.value, names);
  }

  lemma {:induction false} NamesStand(data: bytes, m: Message, names: seq<bytes>)
    requires Carries(data, m) && m.names == Some(names)
    ensures NamesOffset(m) == 28 && |names| == m.count
    ensures LengthsAt(data, 28, 2, NameLengths(names)) && At(data, 28 + |names| * 2, Concat(names, |names|))
  {
    NamesPass(data, m);
  }

  lemma {:induction false} NamesAreRight(data: bytes, m: Message, ptrs: Option<seq<nat>>, h: Header)
    requires Carries(data, m) && h.names == NamesOffset(m) && h.count == m.count && NamesFound(data, h, ptrs)
    ensures ptrs.Some? <==> m.names.Some?
    ensures ptrs.Some? ==> NamesAt(data, ptrs.value, m.names.value)
  {
    if m.names.Some? {
      var names := m.names.value;
      NamesStand(data, m, names);
      FoundNames(data, h, ptrs, names, 28 + |names| * 2);
    }
  }

  lemma SectionKept(data: bytes, before: seq<Bound>, after: seq<Bound>, ptrs: seq<nat>, offset: nat, fieldCount: nat,
                    count: nat)
    requires SectionBound(data, before, 0, ptrs, offset, fieldCount, count) && Kept(before, after, count * fieldCount)
    ensures SectionBound(data, after, 0, ptrs, offset, fieldCount, count)
  {
    var bounds := SectionRead(data, offset, fieldCount, count).bounds;
    forall k | 0 <= k < |bounds| ensures after[0 + k] == bounds[k] {
      assert before[0 + k] == bounds[k];
    }
  }

  /** One section: its structures are written from `base` on, unless one of its records cannot be read. */
  method BindGroup(data: bytes, offset: nat, fieldCount: nat, count: nat, structs: array<Bound>, ptrs: array<nat>,
                   base: nat, ptrIndex: nat) returns (failure: Option<Outcome>)
    requires base + count * fieldCount <= structs.Length && ptrIndex + count <= ptrs.Length
    modifies structs, ptrs
    ensures Kept(old(structs[..]), structs[..], base) && Kept(old(ptrs[..]), ptrs[..], ptrIndex)
    ensures match failure
            case Some(why) => SectionRead(data, offset, fieldCount, count) == NoBinds(why)
            case None =>
              SectionBound(data, structs[..], base, ptrs[ptrIndex..ptrIndex + count], offset, fieldCount, count)
  {
    ReaderReads(data);
    failure := GenerateBinds(data, count, fieldCount, offset, structs, ptrs, base, ptrIndex, Reader(data));
  }

  /** How many structures a section needs. */
  function Needed(offset: nat, count: nat, fieldCount: nat): nat
  {
    if offset == 0 then 0 else count * fieldCount
  }

  /** The sizes of the two allocations, as the unsigned 32-bit sums the code computes. */
  function StructCount(h: Header): nat
  {
    (Needed(h.tags, h.count, h.tagCount) % UINT32 + Needed(h.cols, h.count, h.colCount) % UINT32) % UINT32
  }

  function PtrCount(h: Header): nat
  {
    ((if h.tags == 0 then 0 else h.count) + (if h.cols == 0 then 0 else h.count)) % UINT32
  }

  /** The allocations hold everything that is written into them. */
  predicate Allocates(h: Header)
  {
    && StructCount(h) == Needed(h.tags, h.count, h.tagCount) + Needed(h.cols, h.count, h.colCount)
    && PtrCount(h) == (if h.tags == 0 then 0 else h.count) + (if h.cols == 0 then 0 else h.count)
  }

  lemma GroupCounts(g: Option<Group>, count: nat)
    requires count > 0 && (g.Some? ==> ValidGroup(g.value, count))
    ensures g.Some? ==> 0 < count <= count * FieldCount(g) <= |OptionalGroup(g, count)|
    ensures g.None? ==> count * FieldCount(g) == 0
  {
    OptionalAtLeast(g, count);
    if g.Some? {
      AtLeastOnce(g.value.fieldCount, count);
    }
  }

  lemma NoWrap(a: nat, b: nat)
    requires a + b < UINT32
    ensures (a % UINT32 + b % UINT32) % UINT32 == a + b == (a + b) % UINT32
  {
  }

  lemma HeaderAllocates(h: Header, a: nat, b: nat)
    requires a == Needed(h.tags, h.count, h.tagCount) && b == Needed(h.cols, h.count, h.colCount) && a + b < UINT32
    requires (h.tags != 0 ==> h.count <= a) && (h.cols != 0 ==> h.count <= b)
    ensures Allocates(h) && StructCount(h) == a + b
  {
    NoWrap(a, b);
    NoWrap(if h.tags == 0 then 0 else h.count, if h.cols == 0 then 0 else h.count);
  }

  lemma GroupsNeed(m: Message, a: nat, b: nat)
    requires ValidMessage(m) && a == m.count * FieldCount(m.tags) && b == m.count * FieldCount(m.cols)
    ensures a + b < UINT32 && (m.tags.None? <==> a == 0) && (m.cols.None? <==> b == 0)
    ensures (m.tags.Some? ==> m.count <= a) && (m.cols.Some? ==> m.count <= b)
  {
    NumbersFit(m);
    GroupCounts(m.tags, m.count);
    GroupCounts(m.cols, m.count);
  }

  /** For a valid message both allocations are as large as needed. */
  lemma MessageAllocates(data: bytes, m: Message, h: Header, a: nat, b: nat)
    requires Carries(data, m) && h == HeaderOf(data)
    requires a == m.count * FieldCount(m.tags) && b == m.count * FieldCount(m.cols)
    ensures Allocates(h) && StructCount(h) == a + b && Needed(h.tags, h.count, h.tagCount) == a
    ensures (m.tags.None? <==> a == 0) && (m.cols.None? <==> b == 0)
  {
    HeaderOfMessage(data, m);
    GroupsNeed(m, a, b);
    HeaderAllocates(h, a, b);
  }

  /** Both groups as the code looks for them. */
  ghost predicate GroupReady(data: bytes, offset: nat, fieldCount: nat, count: nat, g: Group)
  {
    && offset != 0 && fieldCount == g.fieldCount && |g.binds| == count * fieldCount
    && GroupRead(data, SectionRead(data, offset, fieldCount, count), g.binds)
  }

  lemma {:induction false} OneGroupReady(data: bytes, offset: nat, g: Group, count: nat)
    requires ValidGroup(g, count) && |data| < UINT32 && offset > 0 && At(data, offset, OptionalGroup(Some(g), count))
    ensures GroupReady(data, offset, g.fieldCount, count, g)
  {
    assert OptionalGroup(Some(g), count) == GroupBytes(g, count);
    GroupIsRead(data, offset, g, count);
    assert count * g.fieldCount == |g.binds|;
  }

  /** What the code finds of the two groups of a message. */
  ghost predicate GroupsReady(data: bytes, h: Header, tags: Option<Group>, cols: Option<Group>)
  {
    && Allocates(h) && (StructCount(h) == 0 ==> tags.None? && cols.None?)
    && (h.tags == 0 <==> tags.None?) && (h.cols == 0 <==> cols.None?)
    && (tags.Some? ==> GroupReady(data, h.tags, h.tagCount, h.count, tags.value))
    && (cols.Some? ==> GroupReady(data, h.cols, h.colCount, h.count, cols.value))
  }

  lemma OffsetsOfGroups(m: Message)
    requires ValidMessage(m)
    ensures (TagsOffset(m) == 0 <==> m.tags.None?) && (ColsOffset(m) == 0 <==> m.cols.None?)
  {
  }

  lemma TagsReady(data: bytes, m: Message)
    requires ValidMessage(m) && m.tags.Some? && |data| < UINT32
    requires At(data, TagsOffset(m), OptionalGroup(m.tags, m.count))
    ensures GroupReady(data, TagsOffset(m), FieldCount(m.tags), m.count, m.tags.value)
  {
    OneGroupReady(data, TagsOffset(m), m.tags.value, m.count);
  }

  lemma ColsReady(data: bytes, m: Message)
    requires ValidMessage(m) && m.cols.Some? && |data| < UINT32
    requires At(data, ColsOffset(m), OptionalGroup(m.cols, m.count))
    ensures GroupReady(data, ColsOffset(m), FieldCount(m.cols), m.count, m.cols.value)
  {
    OneGroupReady(data, ColsOffset(m), m.cols.value, m.count);
  }

  lemma MessageGroupsReady(data: bytes, m: Message)
    requires Carries(data, m)
    ensures m.tags.Some? ==> GroupReady(data, TagsOffset(m), FieldCount(m.tags), m.count, m.tags.value)
    ensures m.cols.Some? ==> GroupReady(data, ColsOffset(m), FieldCount(m.cols), m.count, m.cols.value)
  {
    if m.tags.Some? {
      TagsReady(data, m);
    }
    if m.cols.Some? {
      ColsReady(data, m);
    }
  }

  lemma ReadyFrom(data: bytes, h: Header, tags: Option<Group>, cols: Option<Group>, a: nat, b: nat)
    requires Allocates(h) && StructCount(h) == a + b && (tags.None? <==> a == 0) && (cols.None? <==> b == 0)
    requires (h.tags == 0 <==> tags.None?) && (h.cols == 0 <==> cols.None?)
    requires tags.Some? ==> GroupReady(data, h.tags, h.tagCount, h.count, tags.value)
    requires cols.Some? ==> GroupReady(data, h.cols, h.colCount, h.count, cols.value)
    ensures GroupsReady(data, h, tags, cols)
  {
  }

  /** The header of a message, with where its groups stand and how many structures they need. */
  ghost predicate Describes(h: Header, m: Message, tagsAt: nat, colsAt: nat, a: nat, b: nat)
  {
    && h.count == m.count && h.tagCount == FieldCount(m.tags) && h.colCount == FieldCount(m.cols)
    && h.tags == tagsAt && h.cols == colsAt && (tagsAt == 0 <==> m.tags.None?) && (colsAt == 0 <==> m.cols.None?)
    && Allocates(h) && StructCount(h) == a + b && (m.tags.None? <==> a == 0) && (m.cols.None? <==> b == 0)
    && Needed(h.tags, h.count, h.tagCount) == a == m.count * FieldCount(m.tags)
  }

  lemma HeaderDescribes(data: bytes, m: Message, h: Header, tagsAt: nat, colsAt: nat, a: nat, b: nat)
    requires Carries(data, m) && h == HeaderOf(data) && tagsAt == TagsOffset(m) && colsAt == ColsOffset(m)
    requires a == m.count * FieldCount(m.tags) && b == m.count * FieldCount(m.cols)
    ensures Describes(h, m, tagsAt, colsAt, a, b)
  {
    HeaderOfMessage(data, m);
    OffsetsOfGroups(m);
    MessageAllocates(data, m, h, a, b);
  }

  lemma DescribedIsReady(data: bytes, m: Message, h: Header, tagsAt: nat, colsAt: nat, a: nat, b: nat)
    requires Describes(h, m, tagsAt, colsAt, a, b)
    requires m.tags.Some? ==> GroupReady(data, tagsAt, FieldCount(m.tags), m.count, m.tags.value)
    requires m.cols.Some? ==> GroupReady(data, colsAt, FieldCount(m.cols), m.count, m.cols.value)
    ensures GroupsReady(data, h, m.tags, m.cols) && h.count == m.count
    ensures Needed(h.tags, h.count, h.tagCount) == m.count * FieldCount(m.tags)
  {
    ReadyFrom(data, h, m.tags, m.cols, a, b);
  }

  lemma MessageIsReady(data: bytes, m: Message, h: Header)
    requires Carries(data, m) && h == HeaderOf(data)
    ensures GroupsReady(data, h, m.tags, m.cols) && h.count == m.count
    ensures Needed(h.tags, h.count, h.tagCount) == m.count * FieldCount(m.tags)
  {
    var a, b := m.count * FieldCount(m.tags), m.count * FieldCount(m.cols);
    HeaderDescribes(data, m, h, TagsOffset(m), ColsOffset(m), a, b);
    MessageGroupsReady(data, m);
    DescribedIsReady(data, m, h, TagsOffset(m), ColsOffset(m), a, b);
  }

  /** What stops the parser after the range checks. */
  function Failure(data: bytes, h: Header): Option<Response>
  {
    var tags := SectionRead(data, h.tags, h.tagCount, h.count);
    var cols := SectionRead(data, h.cols, h.colCount, h.count);
    if StructCount(h) == 0 then None
    else if !Allocates(h) then Some(OutOfBounds)
    else if h.tags != 0 && tags.NoBinds? then Some(BindError(tags.why))
    else if h.cols != 0 && cols.NoBinds? then Some(BindError(cols.why))
    else None
  }

  ghost predicate OptionBound(data: bytes, structs: seq<Bound>, base: nat, ptrs: Option<seq<nat>>, offset: nat,
                              fieldCount: nat, count: nat)
  {
    && (ptrs.Some? <==> offset != 0)
    && (ptrs.Some? ==> SectionBound(data, structs, base, ptrs.value, offset, fieldCount, count))
  }

  /** The structures of the tags and behind them those of the columns; none at all when the 32-bit count is zero. */
  ghost predicate GroupsBound(data: bytes, h: Header, structs: seq<Bound>, tags: Option<seq<nat>>, cols: Option<seq<nat>>)
  {
    if StructCount(h) == 0 then structs == [] && tags.None? && cols.None?
    else
      && |structs| == StructCount(h)
      && OptionBound(data, structs, 0, tags, h.tags, h.tagCount, h.count)
      && OptionBound(data, structs, Needed(h.tags, h.count, h.tagCount), cols, h.cols, h.colCount, h.count)
  }

  method BindGroups(data: bytes, h: Header)
      returns (failure: Option<Response>, structs: seq<Bound>, tags: Option<seq<nat>>, cols: Option<seq<nat>>)
    ensures failure == Failure(data, h)
    ensures failure.None? ==> GroupsBound(data, h, structs, tags, cols)
  {
    structs, tags, cols, failure := [], None, None, None;
    if StructCount(h) == 0 {
      return;
    }
    if !Allocates(h) {
      failure := Some(OutOfBounds);
      return;
    }
    failure, structs, tags, cols := FillGroups(data, h);
  }

  method FillGroups(data: bytes, h: Header)
      returns (failure: Option<Response>, structs: seq<Bound>, tags: Option<seq<nat>>, cols: Option<seq<nat>>)
    requires StructCount(h) > 0 && Allocates(h)
    ensures failure == Failure(data, h)
    ensures failure.None? ==> GroupsBound(data, h, structs, tags, cols)
  {
    structs, tags, cols, failure := [], None, None, None;
    var none := Bound(0, 0, 0, None, None);
    var bindStruct := new Bound[StructCount(h)](_ => none);
    var bindPtr := new nat[PtrCount(h)](_ => 0);
    var structIndex, ptrIndex := 0, 0;
    if h.tags > 0 {
      var why := BindGroup(data, h.tags, h.tagCount, h.count, bindStruct, bindPtr, 0, 0);
      if why.Some? {
        failure := Some(BindError(why.value));
        return;
      }
      tags := Some(bindPtr[0..h.count]);
      structIndex, ptrIndex := h.count * h.tagCount, h.count;
    }
    ghost var before := bindStruct[..];
    if h.cols > 0 {
      var why := BindGroup(data, h.cols, h.colCount, h.count, bindStruct, bindPtr, structIndex, ptrIndex);
      if why.Some? {
        failure := Some(BindError(why.value));
        return;
      }
      cols := Some(bindPtr[ptrIndex..ptrIndex + h.count]);
      if h.tags > 0 {
        SectionKept(data, before, bindStruct[..], tags.value, h.tags, h.tagCount, h.count);
      }
    }
    structs := bindStruct[..];
  }

  /** What the parser answers for any message that passes the range checks. */
  ghost predicate Answered(data: bytes, r: Response)
    requires |data| >= 28
  {
    var h := HeaderOf(data);
    match Failure(data, h)
    case Some(failure) => r == failure
    case None => r.BindV? && NamesFound(data, h, r.names) && GroupsBound(data, h, r.structs, r.tags, r.cols)
  }

  /** What the parser relies on to answer for a message. */
  ghost predicate Prepared(data: bytes, m: Message)
  {
    && Carries(data, m) && 28 <= |data| < UINT32 && Load(data, 0, 4) == |data| && AllPassed(data, HeaderOf(data))
    && var h := HeaderOf(data);
    && GroupsReady(data, h, m.tags, m.cols) && h.count == m.count
    && Needed(h.tags, h.count, h.tagCount) == m.count * FieldCount(m.tags)
  }

  method BindSections(data: bytes, h: Header) returns (r: Response)
    requires |data| >= 28 && h == HeaderOf(data) && NamesVerdict(data, h.names, h.count) == Passed
    ensures Answered(data, r)
  {
    var names := BindNames(data, h);
    var failure, structs, tags, cols := BindGroups(data, h);
    if failure.Some? {
      return failure.value;
    }
    return BindV(names, structs, tags, cols);
  }

  lemma SectionIsRight(data: bytes, structs: seq<Bound>, base: nat, ptrs: seq<nat>, offset: nat, g: Group, count: nat)
    requires GroupReady(data, offset, g.fieldCount, count, g)
    requires SectionBound(data, structs, base, ptrs, offset, g.fieldCount, count)
    ensures GroupBound(data, structs, base, ptrs, g, count)
  {
    var r := SectionRead(data, offset, g.fieldCount, count);
    forall k | 0 <= k < |g.binds| ensures PointsAtValid(data, structs[base + k], g.binds[k]) {
      assert structs[base + k] == r.bounds[k];
    }
  }

  ghost predicate OptionRight(data: bytes, structs: seq<Bound>, base: nat, ptrs: Option<seq<nat>>, g: Option<Group>,
                              count: nat)
  {
    (ptrs.Some? <==> g.Some?) && (g.Some? ==> GroupBound(data, structs, base, ptrs.value, g.value, count))
  }

  lemma OptionIsRight(data: bytes, structs: seq<Bound>, base: nat, ptrs: Option<seq<nat>>, offset: nat, fieldCount: nat,
                      count: nat, g: Option<Group>)
    requires (offset == 0 <==> g.None?) && (g.Some? ==> GroupReady(data, offset, fieldCount, count, g.value))
    requires OptionBound(data, structs, base, ptrs, offset, fieldCount, count)
    ensures OptionRight(data, structs, base, ptrs, g, count)
  {
    if g.Some? {
      SectionIsRight(data, structs, base, ptrs.value, offset, g.value, count);
    }
  }

  lemma GroupsAreRight(data: bytes, h: Header, structs: seq<Bound>, tagPtrs: Option<seq<nat>>, colPtrs: Option<seq<nat>>,
                       tags: Option<Group>, cols: Option<Group>)
    requires GroupsReady(data, h, tags, cols) && GroupsBound(data, h, structs, tagPtrs, colPtrs)
    ensures OptionRight(data, structs, 0, tagPtrs, tags, h.count)
    ensures OptionRight(data, structs, Needed(h.tags, h.count, h.tagCount), colPtrs, cols, h.count)
  {
    if StructCount(h) != 0 {
      OptionIsRight(data, structs, 0, tagPtrs, h.tags, h.tagCount, h.count, tags);
      OptionIsRight(data, structs, Needed(h.tags, h.count, h.tagCount), colPtrs, h.cols, h.colCount, h.count, cols);
    }
  }

  lemma ReadyIsRead(data: bytes, offset: nat, fieldCount: nat, count: nat, g: Group)
    requires GroupReady(data, offset, fieldCount, count, g)
    ensures SectionRead(data, offset, fieldCount, count).Binds?
  {
  }

  lemma ReadyDoesNotFail(data: bytes, h: Header, tags: Option<Group>, cols: Option<Group>)
    requires GroupsReady(data, h, tags, cols)
    ensures Failure(data, h).None?
  {
    if tags.Some? {
      ReadyIsRead(data, h.tags, h.tagCount, h.count, tags.value);
    }
    if cols.Some? {
      ReadyIsRead(data, h.cols, h.colCount, h.count, cols.value);
    }
  }

  /** The general answer, for an encoded message, is the message. */
  lemma AnswerIsRight(data: bytes, r: Response, m: Message, h: Header)
    requires Prepared(data, m) && h == HeaderOf(data) && Answered(data, r)
    requires h.names == NamesOffset(m)
    ensures Answers(data, r, m)
  {
    ReadyDoesNotFail(data, h, m.tags, m.cols);
    NamesAreRight(data, m, r.names, h);
    GroupsAreRight(data, h, r.structs, r.tags, r.cols, m.tags, m.cols);
  }

  lemma EncodedIsPrepared(m: Message, data: bytes)
    requires ValidMessage(m) && data == Encode(m)
    ensures Prepared(data, m)
  {
    EncodedHolds(m, data);
    MessagePasses(data, m);
    HeaderOfMessage(data, m);
    MessageIsReady(data, m, HeaderOf(data));
  }

  /** The length of the message, and the range checks of its header. */
  predicate Accepted(data: bytes)
  {
    |data| >= 28 && Load(data, 0, 4) == |data| % UINT32 && AllPassed(data, HeaderOf(data))
  }

  method CheckMessage(data: bytes) returns (refusal: Option<Response>)
    ensures refusal.None? <==> Accepted(data)
    ensures refusal.Some? ==> refusal.value.BadLength? || refusal.value.Rejected? || refusal.value.OutOfBounds?
    ensures refusal == Some(BadLength) <==> |data| < 28 || Load(data, 0, 4) != |data| % UINT32
  {
    if |data| < 28 || Load(data, 0, 4) != |data| % UINT32 {
      return Some(BadLength);
    }
    var v := CheckAll(data, HeaderOf(data));
    if v != Passed {
      return Some(if v == Refused then Rejected else OutOfBounds);
    }
    return None;
  }

  lemma EncodedIsAccepted(m: Message, data: bytes)
    requires ValidMessage(m) && data == Encode(m)
    ensures Accepted(data)
  {
    EncodedHolds(m, data);
    MessagePasses(data, m);
    HeaderOfMessage(data, m);
  }

  lemma EncodedIsAnswered(m: Message, data: bytes, r: Response)
    requires ValidMessage(m) && data == Encode(m) && |data| >= 28 && Answered(data, r)
    ensures Answers(data, r, m)
  {
    EncodedIsPrepared(m, data);
    HeaderOfMessage(data, m);
    AnswerIsRight(data, r, m, HeaderOf(data));
  }

  /**
    A message is refused or, once its length and every range check passed, answered with the names and the structures
    that its lengths and records spell out. Parsing an encoded message answers with every name, tag and column of it.
  */
  method BindBinary(data: bytes) returns (r: Response)
    ensures r.BindV? ==> Accepted(data)
    ensures Accepted(data) ==> Answered(data, r)
    ensures !Accepted(data) ==> r.BadLength? || r.Rejected? || r.OutOfBounds?
    ensures |data| < 28 || Load(data, 0, 4) != |data| % UINT32 ==> r.BadLength?
    ensures forall m :: ValidMessage(m) && data == Encode(m) ==> Answers(data, r, m)
  {
    var refusal := CheckMessage(data);
    forall m | ValidMessage(m) && data == Encode(m) ensures Accepted(data) {
      EncodedIsAccepted(m, data);
    }
    if refusal.Some? {
      return refusal.value;
    }
    r := BindSections(data, HeaderOf(data));
    forall m | ValidMessage(m) && data == Encode(m) ensures Answers(data, r, m) {
      EncodedIsAnswered(m, data, r);
    }
  }
}
