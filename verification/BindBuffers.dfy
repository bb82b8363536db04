/** The strided bind buffers that driver/wrapper/stmt.go builds for variable-width columns of a decoded block. */
module BindBuffers {
  import opened Wrappers
  import opened Bytes
  import opened Utf8
  import opened LittleEndian
  import opened Block
  import opened BlockConvert

  // ---- the lengths of decoded values ----

  /** The bytes that are bound: the runes of an `NCHAR` value as UTF-8. */
  function BoundBytes(v: Value): bytes
  {
    match v
    case Text(s) => s
    case Runes(rs) => EncodeAll(rs)
    case _ => []
  }

  function BoundColumn(column: Column): (values: seq<Option<bytes>>)
    ensures |values| == |column|
    ensures forall k :: 0 <= k < |column| ==>
              values[k] == if column[k].None? then None else Some(BoundBytes(column[k].value))
  {
    seq(|column|, k requires 0 <= k < |column| => if column[k].None? then None else Some(BoundBytes(column[k].value)))
  }

  predicate Bounded(values: seq<Option<bytes>>, maxLen: nat)
  {
    forall k :: 0 <= k < |values| && values[k].Some? ==> |values[k].value| <= maxLen
  }

  /** The maximum length that decoding leaves bounds every value, four bytes for each rune of an `NCHAR` one included. */
  lemma DecodedValuesAreBounded(column: Column, start: nat)
    ensures Bounded(BoundColumn(column), Longest(column, |column|, start))
  {
    var maxLen := Longest(column, |column|, start);
    LongestBounds(column, |column|, start);
    forall k | 0 <= k < |column| && column[k].Some? ensures |BoundBytes(column[k].value)| <= maxLen {
      var v := column[k].value;
      assert LengthOf(column[k]) <= maxLen;
      if v.Runes? {
        EncodeAllLength(v.rs);
      }
    }
  }

  // ---- the buffer ----

  /** The size handed to `malloc`: the product cut to an unsigned 32-bit integer. */
  function Allocated(maxLen: nat, rows: nat): nat
  {
    maxLen * rows % 0x1_0000_0000
  }

  /** Where byte `j` of the slot of row `i` lies. */
  function SlotByte(maxLen: nat, i: nat, j: nat): nat
  {
    maxLen * i + j
  }

  lemma SlotInside(maxLen: nat, rows: nat, i: nat, j: nat)
    requires i < rows && j < maxLen
    ensures SlotByte(maxLen, i, j) < maxLen * rows
  {
    assert maxLen * (i + 1) == maxLen * i + maxLen;
    assert maxLen * (i + 1) <= maxLen * rows;
  }

  lemma LastByte(maxLen: nat, rows: nat)
    requires rows > 0 && maxLen > 0
    ensures SlotByte(maxLen, rows - 1, maxLen - 1) == maxLen * rows - 1
  {
    assert maxLen * rows == maxLen * (rows - 1) + maxLen;
  }

  /** Every byte of every row's slot lies inside the allocation exactly when the product needs no cutting. */
  lemma SlotsFitIff(maxLen: nat, rows: nat)
    ensures (forall i: nat, j: nat :: i < rows && j < maxLen ==> SlotByte(maxLen, i, j) < Allocated(maxLen, rows)) <==>
            maxLen * rows < 0x1_0000_0000
  {
    if maxLen * rows < 0x1_0000_0000 {
      forall i: nat, j: nat | i < rows && j < maxLen ensures SlotByte(maxLen, i, j) < Allocated(maxLen, rows) {
        SlotInside(maxLen, rows, i, j);
      }
    } else {
      LastByte(maxLen, rows);
      assert SlotByte(maxLen, rows - 1, maxLen - 1) >= Allocated(maxLen, rows);
    }
  }

  lemma SlotsInOrder(maxLen: nat, i: nat, k: nat)
    requires i < k
    ensures maxLen * i + maxLen <= maxLen * k
  {
    assert maxLen * (i + 1) == maxLen * i + maxLen;
    assert maxLen * (i + 1) <= maxLen * k;
  }

  /** Every byte that is copied lies inside the allocation. */
  predicate WritesFit(values: seq<Option<bytes>>, maxLen: nat)
  {
    forall i :: 0 <= i < |values| && values[i].Some? && values[i].value != [] ==>
                  maxLen * i + |values[i].value| <= Allocated(maxLen, |values|)
  }

  /** A column of nulls with one value in its last row. */
  function LastOnly<T>(value: T, rows: nat): (values: seq<Option<T>>)
    requires rows > 0
    ensures |values| == rows && values[rows - 1] == Some(value)
    ensures forall k :: 0 <= k < rows - 1 ==> values[k] == None
  {
    seq(rows - 1, _ => None) + [Some(value)]
  }

  lemma LastWriteEndsOutside(maxLen: nat, rows: nat, value: bytes)
    requires maxLen * rows >= 0x1_0000_0000 && |value| == maxLen
    ensures rows > 0 && maxLen > 0 && !WritesFit(LastOnly(value, rows), maxLen)
  {
    assert rows > 0 && maxLen > 0;
    var values := LastOnly(value, rows);
    assert maxLen * rows == maxLen * (rows - 1) + maxLen;
    assert values[rows - 1].Some? && values[rows - 1].value != [];
  }

  /** Whatever the values are, every byte is copied inside the allocation exactly when the product needs no cutting. */
  lemma WritesFitIff(maxLen: nat, rows: nat)
    ensures (forall values :: |values| == rows && Bounded(values, maxLen) ==> WritesFit(values, maxLen)) <==>
            maxLen * rows < 0x1_0000_0000
  {
    if maxLen * rows < 0x1_0000_0000 {
      forall values: seq<Option<bytes>> | |values| == rows && Bounded(values, maxLen) ensures WritesFit(values, maxLen) {
        forall i | 0 <= i < rows && values[i].Some? ensures maxLen * i + |values[i].value| <= maxLen * rows {
          SlotsInOrder(maxLen, i, rows);
        }
      }
    } else {
      var value: bytes := seq(maxLen, _ => 0);
      LastWriteEndsOutside(maxLen, rows, value);
      assert Bounded(LastOnly(value, rows), maxLen);
    }
  }

  // ---- a column that does not fit ----

  lemma {:induction false} NullsTakeNoRoom(t: FieldType, column: Column, n: nat)
    requires IsVarDataType(t) && FitsColumn(t, column) && n <= |column| && forall k :: 0 <= k < n ==> column[k] == None
    ensures Concat(VarEntries(t, column), n) == []
    decreases n
  {
    if n > 0 {
      NullsTakeNoRoom(t, column, n - 1);
      assert VarEntries(t, column)[n - 1] == VarEntry(t, column[n - 1]);
    }
  }

  lemma LastEntry(parts: seq<bytes>, n: nat)
    requires 0 < n <= |parts| && Concat(parts, n - 1) == []
    ensures Concat(parts, n) == parts[n - 1]
  {
  }

  lemma LastOnlyIsValid(value: bytes, rows: nat)
    requires rows > 0 && |value| < 0x1_0000
    ensures var column := LastOnly(Text(value), rows);
            ValidColumn(Binary, column, rows) && |Data(Binary, column)| == 2 + |value|
  {
    var column := LastOnly(Text(value), rows);
    assert FitsColumn(Binary, column) by {
      assert Fits(Binary, Text(value));
    }
    NullsTakeNoRoom(Binary, column, rows - 1);
    LastEntry(VarEntries(Binary, column), rows);
    assert VarEntry(Binary, column[rows - 1]) == ToLE(|value|, 2) + value;
  }

  lemma LastOnlyLongest(value: bytes, rows: nat)
    requires rows > 0
    ensures Longest(LastOnly(Text(value), rows), rows, 0) == |value|
    ensures BoundColumn(LastOnly(Text(value), rows)) == LastOnly(value, rows)
  {
    var column := LastOnly(Text(value), rows);
    LongestBounds(column, rows, 0);
    assert LengthOf(column[rows - 1]) == |value|;
  }

  /** A value of 65,535 bytes after nulls: a column of 65,538 rows or more whose slots do not fit. */
  lemma LongColumnDoesNotFit(value: bytes, rows: nat)
    requires |value| == 0xFFFF && rows >= 65538
    ensures var column := LastOnly(Text(value), rows);
            var maxLen := Longest(column, rows, 0);
            && ValidColumn(Binary, column, rows) && |Data(Binary, column)| == 0x1_0001
            && maxLen * rows >= 0x1_0000_0000 && !WritesFit(BoundColumn(column), maxLen)
  {
    LastOnlyIsValid(value, rows);
    LastOnlyLongest(value, rows);
    LastWriteEndsOutside(0xFFFF, rows, value);
  }

  // ---- filling the buffer ----

  predicate HoldsByte(buffer: seq<byte>, at: nat, value: bytes, j: nat)
    requires j < |value|
  {
    at + j < |buffer| && buffer[at + j] == value[j]
  }

  /** The slot of a row starts with its value. */
  predicate SlotHolds(buffer: seq<byte>, at: nat, value: bytes)
  {
    forall j :: 0 <= j < |value| ==> HoldsByte(buffer, at, value, j)
  }

  predicate Outside(before: seq<byte>, after: seq<byte>, from: nat, to: nat)
  {
    |before| == |after| && forall x :: 0 <= x < |before| && !(from <= x < to) ==> after[x] == before[x]
  }

  lemma ValueKept(before: seq<byte>, after: seq<byte>, from: nat, to: nat, at: nat, value: bytes)
    requires SlotHolds(before, at, value) && Outside(before, after, from, to)
    requires at + |value| <= from || to <= at
    ensures SlotHolds(after, at, value)
  {
    forall j | 0 <= j < |value| ensures HoldsByte(after, at, value, j) {
      assert HoldsByte(before, at, value, j);
    }
  }

  /** A write to one row's slot leaves every other row's as it was. */
  lemma OtherSlotKept(before: seq<byte>, after: seq<byte>, maxLen: nat, i: nat, size: nat, k: nat, value: bytes)
    requires k != i && |value| <= maxLen && size <= maxLen && SlotHolds(before, maxLen * k, value)
    requires Outside(before, after, maxLen * i, maxLen * i + size)
    ensures SlotHolds(after, maxLen * k, value)
  {
    if k < i {
      SlotsInOrder(maxLen, k, i);
    } else {
      SlotsInOrder(maxLen, i, k);
    }
    ValueKept(before, after, maxLen * i, maxLen * i + size, maxLen * k, value);
  }

  method CopyValue(p: array<byte>, at: nat, value: bytes)
    requires value != [] ==> at + |value| <= p.Length
    modifies p
    ensures SlotHolds(p[..], at, value)
    ensures Outside(old(p[..]), p[..], at, at + |value|)
  {
    for j := 0 to |value|
      invariant forall x :: 0 <= x < j ==> p[at + x] == value[x]
      invariant forall x :: 0 <= x < p.Length && !(at <= x < at + j) ==> p[x] == old(p[x])
    {
      p[at + j] := value[j];
    }
  }

  /** What the driver reads back for one row: the null mark, or the length and that many bytes of the row's slot. */
  predicate RowHolds(buffer: seq<byte>, nulls: seq<byte>, lengths: seq<int>, maxLen: nat, i: nat, value: Option<bytes>)
    requires i < |nulls| && i < |lengths|
  {
    if value.None? then nulls[i] == 1
    else nulls[i] == 0 && lengths[i] == |value.value| && SlotHolds(buffer, maxLen * i, value.value)
  }

  /**
    When every copied byte fits in the buffers, every row is read back as it was: no write touches another row's slot.
  */
  method BindColumn(values: seq<Option<bytes>>, maxLen: nat)
      returns (p: array<byte>, nullList: array<byte>, lengthList: array<int>)
    requires Bounded(values, maxLen) && WritesFit(values, maxLen) && 4 * |values| < 0x1_0000_0000
    ensures p.Length == Allocated(maxLen, |values|) && nullList.Length == lengthList.Length == |values|
    ensures forall i :: 0 <= i < |values| ==> RowHolds(p[..], nullList[..], lengthList[..], maxLen, i, values[i])
  {
    p := new byte[Allocated(maxLen, |values|)];
    nullList := new byte[|values|];
    lengthList := new int[|values|];
    for i := 0 to |values|
      invariant p.Length == Allocated(maxLen, |values|) && nullList.Length == lengthList.Length == |values|
      invariant fresh(p) && fresh(nullList) && fresh(lengthList) && p != nullList
      invariant forall k :: 0 <= k < i ==> RowHolds(p[..], nullList[..], lengthList[..], maxLen, k, values[k])
    {
      BindRow(values, maxLen, i, p, nullList, lengthList);
    }
  }

  method BindRow(values: seq<Option<bytes>>, maxLen: nat, i: nat, p: array<byte>, nullList: array<byte>, lengthList: array<int>)
    requires Bounded(values, maxLen) && WritesFit(values, maxLen) && i < |values|
    requires p.Length == Allocated(maxLen, |values|) && nullList.Length == lengthList.Length == |values| && p != nullList
    requires forall k :: 0 <= k < i ==> RowHolds(p[..], nullList[..], lengthList[..], maxLen, k, values[k])
    modifies p, nullList, lengthList
    ensures forall k :: 0 <= k <= i ==> RowHolds(p[..], nullList[..], lengthList[..], maxLen, k, values[k])
  {
    if values[i].None? {
      nullList[i] := 1;
    } else {
      nullList[i] := 0;
      var value := values[i].value;
      ghost var before := p[..];
      CopyValue(p, maxLen * i, value);
      lengthList[i] := |value|;
      forall k | 0 <= k < i && values[k].Some? ensures SlotHolds(p[..], maxLen * k, values[k].value) {
        OtherSlotKept(before, p[..], maxLen, i, |value|, k, values[k].value);
      }
    }
  }
}
