/**
  The binary bind message of driver/wrapper/stmt2binary.go: its range checks, and the parser that points bind
  structures into it. A read outside the message is undefined in C; here it is an outcome of its own.
*/
module Stmt2 {
  import opened Wrappers
  import opened Bytes
  import opened LittleEndian

  const UINT32: nat := 0x1_0000_0000

  predicate IsInt32(i: int)
  {
    -0x8000_0000 <= i < 0x8000_0000
  }

  // ---- one bind record ----

  /** A bind structure: pointers into the message, as offsets. */
  datatype Bound = Bound(bufferType: int, num: int, isNullAt: nat, lengthAt: Option<nat>, bufferAt: Option<nat>)

  datatype Outcome = Undefined | LengthError | Parsed(bound: Bound, next: nat)

  function Signed(data: bytes, p: nat): int
    requires p + 4 <= |data|
  {
    FromTwos(Load(data, p, 4), 4)
  }

  /** The cursor behind the optional lengths, or `None` when a read or the 32-bit product is undefined. */
  function AfterLengths(data: bytes, q: int, num: int): Option<int>
  {
    if q < 0 || q + 1 > |data| then None
    else if data[q] == 0 then Some(q + 1)
    else if !IsInt32(num * 4) then None
    else Some(q + 1 + num * 4)
  }

  function BufferEnd(data: bytes, q: nat): int
    requires q + 4 <= |data|
  {
    if Signed(data, q) > 0 then q + 4 + Signed(data, q) else q + 4
  }

  function ReadBind(data: bytes, p: nat): Outcome
  {
    if p + 12 > |data| then Undefined
    else
      var total, num := Load(data, p, 4), Signed(data, p + 8);
      var flag := p + 12 + num;
      match AfterLengths(data, flag, num)
      case None => Undefined
      case Some(q) =>
        if q < 0 || q + 4 > |data| then Undefined
        else if BufferEnd(data, q) - p != total then LengthError
        else
          Parsed(Bound(Signed(data, p + 4), num, p + 12,
                       if data[flag] == 0 then None else Some(flag + 1),
                       if Signed(data, q) > 0 then Some(q + 4) else None),
                 p + total)
  }

  /** A bind as the client means it. */
  datatype Bind = Bind(bufferType: int, isNull: bytes, lengths: Option<seq<int>>, buffer: bytes)

  predicate ValidBind(b: Bind)
  {
    && IsInt32(b.bufferType) && IsInt32(|b.isNull| * 4) && IsInt32(|b.buffer|)
    && (b.lengths.Some? ==> |b.lengths.value| == |b.isNull|)
    && (b.lengths.Some? ==> forall k :: 0 <= k < |b.lengths.value| ==> IsInt32(b.lengths.value[k]))
    && BindLength(b) < UINT32
  }

  function BindLength(b: Bind): nat
  {
    17 + |b.isNull| + (if b.lengths.Some? then 4 * |b.isNull| else 0) + |b.buffer|
  }

  /** The unsigned value of a 32-bit integer. */
  function Raw32(i: int): (u: nat)
    requires IsInt32(i)
    ensures u < Pow256(4) && FromTwos(u, 4) == i
  {
    Powers();
    Twos(i, 4)
  }

  function Word(i: int): (s: bytes)
    requires IsInt32(i)
    ensures |s| == 4
  {
    ToLE(Raw32(i), 4)
  }

  function LengthWords(ls: seq<int>): (parts: seq<bytes>)
    requires forall k :: 0 <= k < |ls| ==> IsInt32(ls[k])
    ensures |parts| == |ls| && AllOfLength(parts, 4)
    ensures forall k :: 0 <= k < |ls| ==> parts[k] == Word(ls[k])
  {
    seq(|ls|, k requires 0 <= k < |ls| => Word(ls[k]))
  }

  /** The flag byte, and the lengths when there are any. */
  function LengthBytes(b: Bind): bytes
    requires ValidBind(b)
  {
    if b.lengths.None? then [0] else [1] + Concat(LengthWords(b.lengths.value), |b.lengths.value|)
  }

  lemma LengthBytesLength(b: Bind)
    requires ValidBind(b)
    ensures |LengthBytes(b)| == 1 + if b.lengths.Some? then 4 * |b.isNull| else 0
  {
    if b.lengths.Some? {
      ConcatLength(LengthWords(b.lengths.value), |b.lengths.value|, 4);
    }
  }

  /** The parts of a record, in order. */
  function BindParts(b: Bind): (parts: seq<bytes>)
    requires ValidBind(b)
    ensures |parts| == 7
  {
    [ToLE(BindLength(b), 4), Word(b.bufferType), Word(|b.isNull|), b.isNull, LengthBytes(b), Word(|b.buffer|), b.buffer]
  }

  function EncodeBind(b: Bind): bytes
    requires ValidBind(b)
  {
    Concat(BindParts(b), |BindParts(b)|)
  }

  /** The bind structure points at the parts of the bind. */
  ghost predicate PointsAt(data: bytes, x: Bound, b: Bind)
    requires ValidBind(b)
  {
    && x.bufferType == b.bufferType && x.num == |b.isNull| && At(data, x.isNullAt, b.isNull)
    && (x.lengthAt.Some? <==> b.lengths.Some?)
    && (x.lengthAt.Some? ==>
          At(data, x.lengthAt.value, Concat(LengthWords(b.lengths.value), |b.lengths.value|)))
    && (x.bufferAt.Some? <==> b.buffer != [])
    && (x.bufferAt.Some? ==> At(data, x.bufferAt.value, b.buffer))
  }

  /** Where the parts of a record stand. */
  ghost predicate RecordAt(data: bytes, p: nat, b: Bind)
    requires ValidBind(b)
  {
    var num := |b.isNull|;
    var rest := p + 12 + num + |LengthBytes(b)|;
    && At(data, p, ToLE(BindLength(b), 4)) && At(data, p + 4, Word(b.bufferType)) && At(data, p + 8, Word(num))
    && At(data, p + 12, b.isNull) && At(data, p + 12 + num, LengthBytes(b))
    && At(data, rest, Word(|b.buffer|)) && At(data, rest + 4, b.buffer)
  }

  lemma PartAt(data: bytes, p: nat, parts: seq<bytes>, k: nat, at: nat)
    requires k < |parts| && At(data, p, Concat(parts, |parts|)) && at == p + |Concat(parts, k)|
    ensures At(data, at, parts[k])
  {
    PartIn(data, p, parts, k);
  }

  lemma NextLength(parts: seq<bytes>, k: nat)
    requires k < |parts|
    ensures |Concat(parts, k + 1)| == |Concat(parts, k)| + |parts[k]|
  {
  }

  /** Where seven parts end, when four of them are words. */
  lemma SevenLengths(parts: seq<bytes>, d: nat, e: nat)
    requires |parts| == 7 && |parts[0]| == 4 && |parts[1]| == 4 && |parts[2]| == 4 && |parts[5]| == 4
    requires |parts[3]| == d && |parts[4]| == e
    ensures |Concat(parts, 0)| == 0 && |Concat(parts, 1)| == 4 && |Concat(parts, 2)| == 8 && |Concat(parts, 3)| == 12
    ensures |Concat(parts, 4)| == 12 + d && |Concat(parts, 5)| == 12 + d + e && |Concat(parts, 6)| == 16 + d + e
    ensures |Concat(parts, 7)| == 16 + d + e + |parts[6]|
  {
    NextLength(parts, 0);
    NextLength(parts, 1);
    NextLength(parts, 2);
    NextLength(parts, 3);
    NextLength(parts, 4);
    NextLength(parts, 5);
    NextLength(parts, 6);
  }

  /** Where a part stands, from where the parts before it end. */
  lemma SevenAt(data: bytes, p: nat, parts: seq<bytes>, k: nat, d: nat, e: nat, at: nat)
    requires |parts| == 7 && |parts[0]| == 4 && |parts[1]| == 4 && |parts[2]| == 4 && |parts[5]| == 4
    requires |parts[3]| == d && |parts[4]| == e && k < 7 && At(data, p, Concat(parts, |parts|))
    requires at == p + if k < 4 then 4 * k else if k == 4 then 12 + d else if k == 5 then 12 + d + e else 16 + d + e
    ensures At(data, at, parts[k])
  {
    SevenLengths(parts, d, e);
    assert at == p + |Concat(parts, k)|;
    PartAt(data, p, parts, k, at);
  }

  lemma RecordPart(data: bytes, p: nat, b: Bind, k: nat, at: nat)
    requires ValidBind(b) && At(data, p, EncodeBind(b)) && k < 7
    requires var d, e := |b.isNull|, |LengthBytes(b)|;
             at == p + if k < 4 then 4 * k else if k == 4 then 12 + d else if k == 5 then 12 + d + e else 16 + d + e
    ensures At(data, at, BindParts(b)[k])
  {
    SevenAt(data, p, BindParts(b), k, |b.isNull|, |LengthBytes(b)|, at);
  }

  lemma EncodedLength(b: Bind)
    requires ValidBind(b)
    ensures |EncodeBind(b)| == BindLength(b)
  {
    LengthBytesLength(b);
    SevenLengths(BindParts(b), |b.isNull|, |LengthBytes(b)|);
  }

  lemma EncodedRecord(data: bytes, p: nat, b: Bind)
    requires ValidBind(b) && At(data, p, EncodeBind(b))
    ensures RecordAt(data, p, b)
  {
    var num := |b.isNull|;
    var rest := p + 12 + num + |LengthBytes(b)|;
    RecordPart(data, p, b, 0, p);
    RecordPart(data, p, b, 1, p + 4);
    RecordPart(data, p, b, 2, p + 8);
    RecordPart(data, p, b, 3, p + 12);
    RecordPart(data, p, b, 4, p + 12 + num);
    RecordPart(data, p, b, 5, rest);
    RecordPart(data, p, b, 6, rest + 4);
  }

  lemma LoadWord(data: bytes, p: nat, i: int)
    requires IsInt32(i) && At(data, p, Word(i))
    ensures p + 4 <= |data| && Signed(data, p) == i
  {
    LoadStored(data, p, Raw32(i), 4);
  }

  lemma FlagAt(data: bytes, q: nat, b: Bind)
    requires ValidBind(b) && At(data, q, LengthBytes(b))
    ensures q < |data| && (data[q] == 0 <==> b.lengths.None?)
    ensures b.lengths.Some? ==> At(data, q + 1, Concat(LengthWords(b.lengths.value), |b.lengths.value|))
    ensures AfterLengths(data, q, |b.isNull|) == Some(q + |LengthBytes(b)|)
  {
    LengthBytesLength(b);
    assert data[q + 0] == LengthBytes(b)[0];
    if b.lengths.Some? {
      var words := Concat(LengthWords(b.lengths.value), |b.lengths.value|);
      assert [1] + words == LengthBytes(b);
      AtPart(data, q, [1] + words, 1, words);
    }
  }

  lemma ReadBindFrom(data: bytes, p: nat, total: nat, bufferType: int, num: nat, q: nat, size: nat)
    requires p + 12 + num < |data| && q + 4 <= |data| && q + 4 + size == p + total
    requires Load(data, p, 4) == total && Signed(data, p + 4) == bufferType && Signed(data, p + 8) == num
    requires AfterLengths(data, p + 12 + num, num) == Some(q) && Signed(data, q) == size
    ensures ReadBind(data, p)
            == Parsed(Bound(bufferType, num, p + 12,
                            if data[p + 12 + num] == 0 then None else Some(p + 12 + num + 1),
                            if size > 0 then Some(q + 4) else None),
                      p + total)
  {
  }

  /** What the parser finds at the record of a bind. */
  ghost predicate WordsOf(data: bytes, p: nat, b: Bind, rest: nat)
  {
    var num := |b.isNull|;
    && p + 12 + num < |data| && rest + 4 <= |data| && rest + 4 + |b.buffer| == p + BindLength(b)
    && Load(data, p, 4) == BindLength(b) && Signed(data, p + 4) == b.bufferType
    && Signed(data, p + 8) == num && Signed(data, rest) == |b.buffer|
    && (data[p + 12 + num] == 0 <==> b.lengths.None?) && AfterLengths(data, p + 12 + num, num) == Some(rest)
  }

  lemma RecordLoads(data: bytes, p: nat, b: Bind, rest: nat)
    requires ValidBind(b) && RecordAt(data, p, b) && rest == p + 12 + |b.isNull| + |LengthBytes(b)|
    ensures p + 12 <= |data| && rest + 4 <= |data| && rest + 4 + |b.buffer| == p + BindLength(b)
    ensures Load(data, p, 4) == BindLength(b) && Signed(data, p + 4) == b.bufferType
    ensures Signed(data, p + 8) == |b.isNull| && Signed(data, rest) == |b.buffer|
  {
    Powers();
    LengthBytesLength(b);
    LoadStored(data, p, BindLength(b), 4);
    LoadWord(data, p + 4, b.bufferType);
    LoadWord(data, p + 8, |b.isNull|);
    LoadWord(data, rest, |b.buffer|);
  }

  lemma RecordFlag(data: bytes, p: nat, b: Bind, rest: nat)
    requires ValidBind(b) && RecordAt(data, p, b) && rest == p + 12 + |b.isNull| + |LengthBytes(b)|
    ensures p + 12 + |b.isNull| < |data| && (data[p + 12 + |b.isNull|] == 0 <==> b.lengths.None?)
    ensures AfterLengths(data, p + 12 + |b.isNull|, |b.isNull|) == Some(rest)
  {
    FlagAt(data, p + 12 + |b.isNull|, b);
  }

  lemma RecordWords(data: bytes, p: nat, b: Bind, rest: nat)
    requires ValidBind(b) && RecordAt(data, p, b) && rest == p + 12 + |b.isNull| + |LengthBytes(b)|
    ensures WordsOf(data, p, b, rest)
  {
    RecordLoads(data, p, b, rest);
    RecordFlag(data, p, b, rest);
  }

  /** The bind structure of a record at `p` whose lengths end at `rest`. */
  function BoundAt(b: Bind, p: nat, rest: nat): Bound
  {
    Bound(b.bufferType, |b.isNull|, p + 12,
          if b.lengths.None? then None else Some(p + 12 + |b.isNull| + 1),
          if b.buffer == [] then None else Some(rest + 4))
  }

  lemma BoundPointsAt(data: bytes, p: nat, b: Bind, rest: nat)
    requires ValidBind(b) && At(data, p + 12, b.isNull) && At(data, p + 12 + |b.isNull|, LengthBytes(b))
    requires At(data, rest + 4, b.buffer)
    ensures PointsAt(data, BoundAt(b, p, rest), b)
  {
    FlagAt(data, p + 12 + |b.isNull|, b);
  }

  lemma ReadBindWords(data: bytes, p: nat, b: Bind, rest: nat)
    requires WordsOf(data, p, b, rest)
    ensures ReadBind(data, p) == Parsed(BoundAt(b, p, rest), p + BindLength(b))
  {
    ReadBindFrom(data, p, BindLength(b), b.bufferType, |b.isNull|, rest, |b.buffer|);
  }

  /** A record that was encoded is parsed as the bind it stands for, and the cursor advances by its length. */
  lemma ReadBindEncoded(data: bytes, p: nat, b: Bind)
    requires ValidBind(b) && At(data, p, EncodeBind(b))
    ensures ReadBind(data, p).Parsed? && ReadBind(data, p).next == p + |EncodeBind(b)|
    ensures PointsAt(data, ReadBind(data, p).bound, b)
  {
    var rest := p + 12 + |b.isNull| + |LengthBytes(b)|;
    EncodedLength(b);
    EncodedRecord(data, p, b);
    RecordWords(data, p, b, rest);
    ReadBindWords(data, p, b, rest);
    BoundPointsAt(data, p, b, rest);
  }

  // ---- the records of a section ----

  /** The binds of consecutive records, with the cursor before each and behind the last; or what stopped the parser. */
  datatype Binds = NoBinds(why: Outcome) | Binds(bounds: seq<Bound>, cursors: seq<nat>)

  /** Consecutive records, whatever reads one of them. */
  function ReadMany(read: nat -> Outcome, p: nat, n: nat): (r: Binds)
    ensures r.Binds? ==> |r.bounds| == n && |r.cursors| == n + 1 && r.cursors[0] == p
  {
    if n == 0 then Binds([], [p])
    else
      match ReadMany(read, p, n - 1)
      case NoBinds(why) => NoBinds(why)
      case Binds(bounds, cursors) =>
        var o := read(cursors[n - 1]);
        if o.Parsed? then Binds(bounds + [o.bound], cursors + [o.next]) else NoBinds(o)
  }

  function Reader(data: bytes): nat -> Outcome
  {
    (p: nat) => ReadBind(data, p)
  }

  ghost predicate Reads(read: nat -> Outcome, data: bytes, p: nat)
  {
    read(p) == ReadBind(data, p)
  }

  /** `read` reads the records of `data`. */
  ghost predicate IsReader(read: nat -> Outcome, data: bytes)
  {
    forall p: nat :: Reads(read, data, p)
  }

  lemma ReaderReads(data: bytes)
    ensures IsReader(Reader(data), data)
  {
    forall p: nat ensures Reads(Reader(data), data, p) {
    }
  }

  function ReadBinds(data: bytes, p: nat, n: nat): Binds
  {
    ReadMany(Reader(data), p, n)
  }

  /** The records before index `k` are read, and the one there is not. */
  predicate StopsAt(data: bytes, p: nat, k: nat, why: Outcome)
  {
    && !why.Parsed? && ReadBinds(data, p, k).Binds?
    && ReadBind(data, ReadBinds(data, p, k).cursors[k]) == why
  }

  ghost predicate SomeStops(data: bytes, p: nat, n: nat, why: Outcome)
  {
    exists k: nat :: k < n && StopsAt(data, p, k, why)
  }

  lemma {:induction false} FailureStays(read: nat -> Outcome, p: nat, n: nat, m: nat)
    requires n <= m && ReadMany(read, p, n).NoBinds?
    ensures ReadMany(read, p, m) == ReadMany(read, p, n)
    decreases m
  {
    if n < m {
      FailureStays(read, p, n, m - 1);
    }
  }

  lemma {:induction false} SomeRecordStops(data: bytes, p: nat, n: nat)
    requires ReadBinds(data, p, n).NoBinds?
    ensures SomeStops(data, p, n, ReadBinds(data, p, n).why)
    decreases n
  {
    if ReadBinds(data, p, n - 1).Binds? {
      assert StopsAt(data, p, n - 1, ReadBinds(data, p, n).why);
    } else {
      SomeRecordStops(data, p, n - 1);
    }
  }

  lemma StopsThere(data: bytes, p: nat, k: nat, why: Outcome)
    requires StopsAt(data, p, k, why)
    ensures ReadBinds(data, p, k + 1) == NoBinds(why)
  {
  }

  /** The first record that cannot be read stops the parser, and nothing else does. */
  lemma {:induction false} StopsAtRecord(data: bytes, p: nat, n: nat, why: Outcome)
    ensures ReadBinds(data, p, n) == NoBinds(why) <==> SomeStops(data, p, n, why)
  {
    if ReadBinds(data, p, n) == NoBinds(why) {
      SomeRecordStops(data, p, n);
    }
    forall k: nat | k < n && StopsAt(data, p, k, why) ensures ReadBinds(data, p, n) == NoBinds(why) {
      StopsThere(data, p, k, why);
      FailureStays(Reader(data), p, k + 1, n);
    }
  }

  lemma {:induction false} ManyTile(read: nat -> Outcome, p: nat, n: nat, k: nat)
    requires ReadMany(read, p, n).Binds? && k < n
    ensures var r := ReadMany(read, p, n); read(r.cursors[k]) == Parsed(r.bounds[k], r.cursors[k + 1])
    decreases n
  {
    if k < n - 1 {
      ManyTile(read, p, n - 1, k);
    }
  }

  /** On success the records tile the section: each starts where the one before ended, and its declared length is its size. */
  lemma BindsTile(data: bytes, p: nat, n: nat, k: nat)
    requires ReadBinds(data, p, n).Binds? && k < n
    ensures var r := ReadBinds(data, p, n);
            && r.cursors[0] == p && ReadBind(data, r.cursors[k]) == Parsed(r.bounds[k], r.cursors[k + 1])
            && r.cursors[k] + 4 <= |data| && r.cursors[k + 1] == r.cursors[k] + Load(data, r.cursors[k], 4)
  {
    ManyTile(Reader(data), p, n, k);
  }

  /** Where each record is read up to the next, all of them are read. */
  lemma {:induction false} ReadManyChained(read: nat -> Outcome, starts: seq<nat>, n: nat)
    requires n < |starts|
    requires forall k :: 0 <= k < |starts| - 1 ==> read(starts[k]).Parsed? && read(starts[k]).next == starts[k + 1]
    ensures ReadMany(read, starts[0], n).Binds? && ReadMany(read, starts[0], n).cursors[n] == starts[n]
    ensures forall k :: 0 <= k < n ==> ReadMany(read, starts[0], n).bounds[k] == read(starts[k]).bound
    decreases n
  {
    if n > 0 {
      ReadManyChained(read, starts, n - 1);
    }
  }

  ghost predicate RecordBetween(data: bytes, p: nat, next: nat, b: Bind)
  {
    ValidBind(b) && At(data, p, EncodeBind(b)) && next == p + |EncodeBind(b)|
  }

  /** Records one after another, with the offset of each and of the end. */
  ghost predicate RecordsAt(data: bytes, starts: seq<nat>, bs: seq<Bind>)
  {
    |starts| == |bs| + 1 && forall k :: 0 <= k < |bs| ==> RecordBetween(data, starts[k], starts[k + 1], bs[k])
  }

  lemma RecordIsRead(data: bytes, p: nat, next: nat, b: Bind)
    requires RecordBetween(data, p, next, b)
    ensures Reader(data)(p).Parsed? && Reader(data)(p).next == next && PointsAt(data, Reader(data)(p).bound, b)
  {
    ReadBindEncoded(data, p, b);
  }

  ghost predicate PointsAtValid(data: bytes, x: Bound, b: Bind)
  {
    ValidBind(b) && PointsAt(data, x, b)
  }

  /** The parser reads back every record of an encoded section. */
  lemma ReadBindsEncoded(data: bytes, starts: seq<nat>, bs: seq<Bind>)
    requires RecordsAt(data, starts, bs)
    ensures ReadBinds(data, starts[0], |bs|).Binds?
    ensures forall k :: 0 <= k < |bs| ==> PointsAtValid(data, ReadBinds(data, starts[0], |bs|).bounds[k], bs[k])
  {
    var read := Reader(data);
    forall k | 0 <= k < |bs|
      ensures read(starts[k]).Parsed? && read(starts[k]).next == starts[k + 1]
      ensures PointsAtValid(data, read(starts[k]).bound, bs[k])
    {
      assert RecordBetween(data, starts[k], starts[k + 1], bs[k]);
      RecordIsRead(data, starts[k], starts[k + 1], bs[k]);
    }
    ReadManyChained(read, starts, |bs|);
  }

  lemma NextTable(count: nat, fieldCount: nat, table: nat)
    requires table < count
    ensures (table + 1) * fieldCount == table * fieldCount + fieldCount <= count * fieldCount
  {
    assert (table + 1) * fieldCount <= count * fieldCount;
  }

  predicate Written(structs: seq<Bound>, at: nat, bounds: seq<Bound>)
  {
    at + |bounds| <= |structs| && forall k :: 0 <= k < |bounds| ==> structs[at + k] == bounds[k]
  }

  predicate Kept<T(==)>(before: seq<T>, after: seq<T>, n: nat)
  {
    |before| == |after| && forall k :: 0 <= k < n && k < |before| ==> after[k] == before[k]
  }

  /** The pointer of each table is to the structure of its first field. */
  predicate FirstFields(ptrs: seq<nat>, ptrIndex: nat, structIndex: nat, fieldCount: nat, count: nat)
  {
    ptrIndex + count <= |ptrs| && forall t :: 0 <= t < count ==> ptrs[ptrIndex + t] == structIndex + t * fieldCount
  }

  /** The first `done` records have been read, up to `dataPtr`, and their structures written. */
  ghost predicate ReadSoFar(r: Binds, done: nat, dataPtr: nat, structs: seq<Bound>, structIndex: nat)
  {
    r.Binds? && |r.cursors| == done + 1 && dataPtr == r.cursors[done] && |r.bounds| == done
    && Written(structs, structIndex, r.bounds)
  }

  /** The body of the loops: one record, read part by part. */
  method ReadOne(data: bytes, dataPtr: nat, ghost read: nat -> Outcome) returns (o: Outcome)
    requires IsReader(read, data)
    ensures o == read(dataPtr)
  {
    assert Reads(read, data, dataPtr);
    if dataPtr + 12 > |data| {
      return Undefined;
    }
    var totalLength := Load(data, dataPtr, 4);
    var bufferType := Signed(data, dataPtr + 4);
    var num := Signed(data, dataPtr + 8);
    var bindDataPtr := dataPtr + 12 + num;
    if bindDataPtr < 0 || bindDataPtr + 1 > |data| {
      return Undefined;
    }
    var haveLength := data[bindDataPtr];
    bindDataPtr := bindDataPtr + 1;
    var length: Option<nat> := None;
    if haveLength != 0 {
      length := Some(bindDataPtr);
      if !IsInt32(num * 4) {
        return Undefined;
      }
      bindDataPtr := bindDataPtr + num * 4;
    }
    if bindDataPtr < 0 || bindDataPtr + 4 > |data| {
      return Undefined;
    }
    var bufferLength := Signed(data, bindDataPtr);
    bindDataPtr := bindDataPtr + 4;
    var buffer: Option<nat> := None;
    if bufferLength > 0 {
      buffer := Some(bindDataPtr);
      bindDataPtr := bindDataPtr + bufferLength;
    }
    if bindDataPtr - dataPtr != totalLength {
      return LengthError;
    }
    return Parsed(Bound(bufferType, num, dataPtr + 12, length, buffer), bindDataPtr);
  }

  /** One record: its structure is written behind those of the `done` records before it. */
  method GenerateField(data: bytes, from: nat, bindStruct: array<Bound>, structIndex: nat, done: nat,
                       ghost start: nat, ghost read: nat -> Outcome)
      returns (failure: Option<Outcome>, dataPtr: nat)
    requires structIndex + done < bindStruct.Length && IsReader(read, data)
    requires ReadSoFar(ReadMany(read, start, done), done, from, bindStruct[..], structIndex)
    modifies bindStruct
    ensures Kept(old(bindStruct[..]), bindStruct[..], structIndex)
    ensures match failure
            case Some(why) => ReadMany(read, start, done + 1) == NoBinds(why)
            case None => ReadSoFar(ReadMany(read, start, done + 1), done + 1, dataPtr, bindStruct[..], structIndex)
  {
    var o := ReadOne(data, from, read);
    if !o.Parsed? {
      return Some(o), from;
    }
    ghost var before := bindStruct[..];
    bindStruct[structIndex + done] := o.bound;
    assert bindStruct[..] == before[structIndex + done := o.bound];
    return None, o.next;
  }

  /** The fields of one table, behind `done` records of the tables before it. */
  method GenerateTable(data: bytes, fieldCount: nat, from: nat, bindStruct: array<Bound>, structIndex: nat, done: nat,
                       ghost start: nat, ghost read: nat -> Outcome)
      returns (failure: Option<Outcome>, dataPtr: nat)
    requires structIndex + done + fieldCount <= bindStruct.Length && IsReader(read, data)
    requires ReadSoFar(ReadMany(read, start, done), done, from, bindStruct[..], structIndex)
    modifies bindStruct
    ensures Kept(old(bindStruct[..]), bindStruct[..], structIndex)
    ensures match failure
            case Some(why) => ReadMany(read, start, done + fieldCount) == NoBinds(why)
            case None =>
              ReadSoFar(ReadMany(read, start, done + fieldCount), done + fieldCount, dataPtr, bindStruct[..], structIndex)
  {
    dataPtr := from;
    for fieldIndex := 0 to fieldCount
      invariant ReadSoFar(ReadMany(read, start, done + fieldIndex), done + fieldIndex, dataPtr, bindStruct[..], structIndex)
      invariant Kept(old(bindStruct[..]), bindStruct[..], structIndex)
    {
      failure, dataPtr := GenerateField(data, dataPtr, bindStruct, structIndex, done + fieldIndex, start, read);
      if failure.Some? {
        FailureStays(read, start, done + fieldIndex + 1, done + fieldCount);
        return;
      }
    }
    failure := None;
  }

  /**
    The nested loops over tables and fields. The structures written are those of the consecutive records, each table's
    pointer is to its first field, and nothing before the caller's part of the two arrays is touched.
  */
  method GenerateBinds(data: bytes, count: nat, fieldCount: nat, fieldOffset: nat, bindStruct: array<Bound>,
                       bindPtr: array<nat>, structIndex: nat, ptrIndex: nat, ghost read: nat -> Outcome)
      returns (failure: Option<Outcome>)
    requires structIndex + count * fieldCount <= bindStruct.Length && ptrIndex + count <= bindPtr.Length
    requires IsReader(read, data)
    modifies bindStruct, bindPtr
    ensures Kept(old(bindStruct[..]), bindStruct[..], structIndex)
    ensures Kept(old(bindPtr[..]), bindPtr[..], ptrIndex)
    ensures var r := ReadMany(read, fieldOffset + 4 * count, count * fieldCount);
            match failure
            case Some(why) => r == NoBinds(why)
            case None =>
              && r.Binds? && Written(bindStruct[..], structIndex, r.bounds)
              && FirstFields(bindPtr[..], ptrIndex, structIndex, fieldCount, count)
  {
    var dataPtr: nat := fieldOffset + 4 * count;
    ghost var start: nat := dataPtr;
    var done := 0;
    for tableIndex := 0 to count
      invariant done == tableIndex * fieldCount
      invariant ReadSoFar(ReadMany(read, start, done), done, dataPtr, bindStruct[..], structIndex)
      invariant FirstFields(bindPtr[..], ptrIndex, structIndex, fieldCount, tableIndex)
      invariant Kept(old(bindStruct[..]), bindStruct[..], structIndex)
      invariant Kept(old(bindPtr[..]), bindPtr[..], ptrIndex)
    {
      bindPtr[ptrIndex + tableIndex] := structIndex + done;
      NextTable(count, fieldCount, tableIndex);
      failure, dataPtr := GenerateTable(data, fieldCount, dataPtr, bindStruct, structIndex, done, start, read);
      if failure.Some? {
        FailureStays(read, start, done + fieldCount, count * fieldCount);
        return;
      }
      done := done + fieldCount;
    }
    failure := None;
  }
}
