/** The loops of controller/ws/stmt/convert.go and controller/rest/restful.go over a column block. */
module BlockConvert {
  import opened Wrappers
  import opened Bytes
  import opened Utf8
  import opened LittleEndian
  import opened Block

  /** The parts of one column, where the two cursors point. */
  ghost predicate Cursors(block: bytes, pHeader: nat, pStart: nat, t: FieldType, column: Column)
  {
    && FitsColumn(t, column) && |Data(t, column)| < 0x8000_0000
    && At(block, pHeader, Header(t, column)) && At(block, pStart, Data(t, column))
  }

  // ---- lengths ----

  /** The length that a conversion reports, which bounds the bytes of the value in a bind buffer. */
  function LengthOf(cell: Option<Value>): nat
  {
    if cell.None? then 0
    else
      match cell.value
      case Text(s) => |s|
      case Runes(rs) => 4 * |rs|
      case _ => 0
  }

  /** The largest of `start` and the lengths of the first `n` rows. */
  function Longest(column: Column, n: nat, start: nat): nat
    requires n <= |column|
  {
    if n == 0 then start
    else
      var m := Longest(column, n - 1, start);
      if LengthOf(column[n - 1]) > m then LengthOf(column[n - 1]) else m
  }

  lemma {:induction false} LongestBounds(column: Column, n: nat, start: nat)
    requires n <= |column|
    ensures var m := Longest(column, n, start);
            && m >= start && (forall k :: 0 <= k < n ==> LengthOf(column[k]) <= m)
            && (m == start || exists k :: 0 <= k < n && LengthOf(column[k]) == m)
    decreases n
  {
    if n > 0 {
      LongestBounds(column, n - 1, start);
    }
  }

  // ---- columns of variable width ----

  /** The rune at index `k` of a value whose runes start at `p`. */
  ghost predicate RuneAt(block: bytes, p: nat, k: nat, r: rune)
  {
    p + 4 * k + 4 <= |block| && FromTwos(Load(block, p + 4 * k, 4), 4) == r as int
  }

  ghost predicate PayloadAt(block: bytes, p: nat, v: Value)
  {
    match v
    case Text(s) => At(block, p, s)
    case Runes(rs) => forall k :: 0 <= k < |rs| ==> RuneAt(block, p, k, rs[k])
    case _ => false
  }

  /** What a row's offset says: -1 for a null, else where the 16-bit length and the bytes of its value are. */
  ghost predicate VarCell(block: bytes, pHeader: nat, pStart: nat, row: nat, cell: Option<Value>)
  {
    && pHeader + 4 * row + 4 <= |block|
    && var offset := FromTwos(Load(block, pHeader + 4 * row, 4), 4);
    if cell.None? then offset == -1
    else
      && 0 <= offset && LengthOf(cell) < 0x1_0000 && pStart + offset + 2 + LengthOf(cell) <= |block|
      && Load(block, pStart + offset, 2) == LengthOf(cell)
      && PayloadAt(block, pStart + offset + 2, cell.value)
  }

  /** The 32-bit word at index `k` of a row of words. */
  lemma WordAt(block: bytes, p: nat, words: seq<bytes>, k: nat, n: nat, at: nat)
    requires k < |words| && AllOfLength(words, 4) && At(block, p, Concat(words, |words|)) && at == p + 4 * k
    requires n < 0x1_0000_0000 && words[k] == ToLE(n, 4)
    ensures at + 4 <= |block| && Load(block, at, 4) == n
  {
    Powers();
    LoadFromRow(block, p, words, k, 4, n, at);
  }

  lemma {:induction false} OffsetAt(block: bytes, pHeader: nat, t: FieldType, column: Column, row: nat)
    requires IsVarDataType(t) && FitsColumn(t, column) && row < |column| && VarOffset(t, column, row) < 0x1_0000_0000
    requires At(block, pHeader, Concat(VarOffsets(t, column), |column|))
    ensures pHeader + 4 * row + 4 <= |block| && Load(block, pHeader + 4 * row, 4) == VarOffset(t, column, row)
  {
    WordAt(block, pHeader, VarOffsets(t, column), row, VarOffset(t, column, row), pHeader + 4 * row);
  }

  lemma RuneWordOf(rs: seq<rune>, k: nat) returns (raw: nat)
    requires k < |rs|
    ensures raw < Pow256(4) && FromTwos(raw, 4) == rs[k] as int && RuneWords(rs)[k] == ToLE(raw, 4)
  {
    raw := RuneRaw(rs[k]);
  }

  lemma RuneIsAt(block: bytes, p: nat, parts: seq<bytes>, k: nat, raw: nat, r: rune)
    requires k < |parts| && AllOfLength(parts, 4) && At(block, p, Concat(parts, |parts|))
    requires raw < Pow256(4) && FromTwos(raw, 4) == r as int && parts[k] == ToLE(raw, 4)
    ensures RuneAt(block, p, k, r)
  {
    LoadFromRow(block, p, parts, k, 4, raw, p + 4 * k);
  }

  lemma PayloadIsAt(block: bytes, p: nat, v: Value)
    requires (v.Text? || v.Runes?) && At(block, p, Payload(v))
    ensures |Payload(v)| == LengthOf(Some(v)) && PayloadAt(block, p, v)
  {
    if v.Runes? {
      ConcatLength(RuneWords(v.rs), |v.rs|, 4);
      forall k | 0 <= k < |v.rs| ensures RuneAt(block, p, k, v.rs[k]) {
        var raw := RuneWordOf(v.rs, k);
        RuneIsAt(block, p, RuneWords(v.rs), k, raw, v.rs[k]);
      }
    }
  }

  lemma EntryAt(block: bytes, p: nat, t: FieldType, v: Value)
    requires IsVarDataType(t) && Fits(t, v) && At(block, p, VarEntry(t, Some(v)))
    ensures LengthOf(Some(v)) < 0x1_0000 && p + 2 + LengthOf(Some(v)) <= |block|
    ensures Load(block, p, 2) == LengthOf(Some(v)) && PayloadAt(block, p + 2, v)
  {
    var length, payload := ToLE(|Payload(v)|, 2), Payload(v);
    AtPart(block, p, length + payload, 0, length);
    AtPart(block, p, length + payload, 2, payload);
    PayloadIsAt(block, p + 2, v);
    Powers();
    LoadStored(block, p, |payload|, 2);
  }

  lemma EntryOffset(block: bytes, pStart: nat, t: FieldType, column: Column, row: nat)
    requires IsVarDataType(t) && FitsColumn(t, column) && row < |column| && column[row].Some?
    requires |Data(t, column)| < 0x8000_0000 && At(block, pStart, Data(t, column))
    ensures VarOffset(t, column, row) < 0x8000_0000
    ensures At(block, pStart + VarOffset(t, column, row), VarEntry(t, column[row]))
  {
    ConcatAt(VarEntries(t, column), |column|, row);
    PartIn(block, pStart, VarEntries(t, column), row);
  }

  /** The entry of a row that is not null, behind its offset. */
  ghost predicate EntryIs(block: bytes, p: nat, v: Value)
  {
    && LengthOf(Some(v)) < 0x1_0000 && p + 2 + LengthOf(Some(v)) <= |block|
    && Load(block, p, 2) == LengthOf(Some(v)) && PayloadAt(block, p + 2, v)
  }

  lemma VarCellFrom(block: bytes, pHeader: nat, pStart: nat, row: nat, cell: Option<Value>, offset: nat)
    requires pHeader + 4 * row + 4 <= |block| && Load(block, pHeader + 4 * row, 4) == offset
    requires if cell.None? then offset == NULL_OFFSET
             else offset < 0x8000_0000 && EntryIs(block, pStart + offset, cell.value)
    ensures VarCell(block, pHeader, pStart, row, cell)
  {
    Powers();
  }

  lemma EntryOfRow(block: bytes, pStart: nat, t: FieldType, column: Column, row: nat)
    requires IsVarDataType(t) && FitsColumn(t, column) && row < |column| && column[row].Some?
    requires |Data(t, column)| < 0x8000_0000 && At(block, pStart, Data(t, column))
    ensures VarOffset(t, column, row) < 0x8000_0000
    ensures EntryIs(block, pStart + VarOffset(t, column, row), column[row].value)
  {
    EntryOffset(block, pStart, t, column, row);
    EntryAt(block, pStart + VarOffset(t, column, row), t, column[row].value);
  }

  lemma VarCellAt(block: bytes, pHeader: nat, pStart: nat, t: FieldType, column: Column, row: nat)
    requires IsVarDataType(t) && Cursors(block, pHeader, pStart, t, column) && row < |column|
    ensures VarCell(block, pHeader, pStart, row, column[row])
  {
    if column[row].Some? {
      EntryOfRow(block, pStart, t, column, row);
    }
    OffsetAt(block, pHeader, t, column, row);
    VarCellFrom(block, pHeader, pStart, row, column[row], VarOffset(t, column, row));
  }

  /** The loop that copies the bytes of a value. */
  method GetBytesFromPointer(block: bytes, pHeader: nat, pStart: nat, row: nat, ghost cell: Option<Value>)
      returns (r: Option<bytes>, clen: nat)
    requires VarCell(block, pHeader, pStart, row, cell) && (cell.Some? ==> cell.value.Text?)
    ensures cell == (if r.None? then None else Some(Text(r.value)))
    ensures clen == LengthOf(cell)
  {
    var offset := FromTwos(Load(block, pHeader + row * 4, 4), 4);
    if offset == -1 {
      return None, 0;
    }
    var currentRow := pStart + offset;
    clen := Load(block, currentRow, 2);
    currentRow := currentRow + 2;
    var binaryVal := [];
    for index := 0 to clen
      invariant |binaryVal| == index
      invariant forall k :: 0 <= k < index ==> binaryVal[k] == cell.value.s[k]
    {
      binaryVal := binaryVal + [block[currentRow + index]];
    }
    assert binaryVal == cell.value.s;
    return Some(binaryVal), clen;
  }

  /** The loop that reads the runes of a value; its 16-bit index times four does not wrap. */
  method RawConvertNchar(block: bytes, pHeader: nat, pStart: nat, row: nat, ghost cell: Option<Value>)
      returns (r: Option<seq<rune>>, length: nat)
    requires VarCell(block, pHeader, pStart, row, cell) && (cell.Some? ==> cell.value.Runes?)
    ensures cell == (if r.None? then None else Some(Runes(r.value)))
    ensures length == LengthOf(cell)
  {
    var offset := FromTwos(Load(block, pHeader + row * 4, 4), 4);
    if offset == -1 {
      return None, 0;
    }
    var currentRow := pStart + offset;
    var clen := Load(block, currentRow, 2) / 4;
    currentRow := currentRow + 2;
    var binaryVal: seq<rune> := [];
    for index := 0 to clen
      invariant |binaryVal| == index
      invariant forall k :: 0 <= k < index ==> binaryVal[k] == cell.value.rs[k]
    {
      assert RuneAt(block, currentRow, index, cell.value.rs[index]);
      var step := index * 4 % 0x1_0000;
      binaryVal := binaryVal + [FromTwos(Load(block, currentRow + step, 4), 4) as rune];
    }
    assert binaryVal == cell.value.rs;
    return Some(binaryVal), clen * 4;
  }

  // ---- the column loop ----

  method ConvertVarCell(block: bytes, pHeader: nat, pStart: nat, t: FieldType, row: nat, ghost cell: Option<Value>)
      returns (r: Option<Value>, length: nat)
    requires IsVarDataType(t) && (cell.Some? ==> Fits(t, cell.value)) && VarCell(block, pHeader, pStart, row, cell)
    ensures r == cell && length == LengthOf(cell)
  {
    if t.Nchar? {
      var rs;
      rs, length := RawConvertNchar(block, pHeader, pStart, row, cell);
      r := if rs.None? then None else Some(Runes(rs.value));
    } else {
      var s;
      s, length := GetBytesFromPointer(block, pHeader, pStart, row, cell);
      r := if s.None? then None else Some(Text(s.value));
    }
  }

  ghost predicate VarCellOf(block: bytes, pHeader: nat, pStart: nat, t: FieldType, column: Column, row: nat)
    requires row < |column|
  {
    VarCell(block, pHeader, pStart, row, column[row]) && (column[row].Some? ==> Fits(t, column[row].value))
  }

  ghost predicate VarCells(block: bytes, pHeader: nat, pStart: nat, t: FieldType, column: Column)
  {
    forall row :: 0 <= row < |column| ==> VarCellOf(block, pHeader, pStart, t, column, row)
  }

  method ConvertVarColumn(block: bytes, pHeader: nat, pStart: nat, t: FieldType, blockSize: nat, start: nat,
                          ghost column: Column) returns (r: Column, maxLen: nat)
    requires IsVarDataType(t) && VarCells(block, pHeader, pStart, t, column) && blockSize == |column|
    ensures r == column && maxLen == Longest(column, |column|, start)
  {
    r, maxLen := [], start;
    for row := 0 to blockSize
      invariant |r| == row && maxLen == Longest(column, row, start)
      invariant forall k :: 0 <= k < row ==> r[k] == column[k]
    {
      assert VarCellOf(block, pHeader, pStart, t, column, row);
      var cell, length := ConvertVarCell(block, pHeader, pStart, t, row, column[row]);
      r := r + [cell];
      if length > maxLen {
        maxLen := length;
      }
    }
  }

  predicate ItemIsNull(block: bytes, pHeader: nat, row: nat)
    requires pHeader + CharOffset(row) < |block|
  {
    BMIsNull(block[pHeader + CharOffset(row)], row)
  }

  ghost predicate FixedIsAt(block: bytes, pHeader: nat, pStart: nat, t: FieldType, column: Column, row: nat)
    requires !IsVarDataType(t) && FitsColumn(t, column) && row < |column|
  {
    && pHeader + CharOffset(row) < |block| && (ItemIsNull(block, pHeader, row) <==> column[row].None?)
    && At(block, pStart + row * Width(t), FixedCell(t, column[row]))
  }

  ghost predicate FixedCellsAt(block: bytes, pHeader: nat, pStart: nat, t: FieldType, column: Column)
    requires !IsVarDataType(t) && FitsColumn(t, column)
  {
    forall row :: 0 <= row < |column| ==> FixedIsAt(block, pHeader, pStart, t, column, row)
  }

  lemma NullBitAt(block: bytes, pHeader: nat, column: Column, row: nat)
    requires At(block, pHeader, Bitmap(column)) && row < |column|
    ensures pHeader + CharOffset(row) < |block| && (ItemIsNull(block, pHeader, row) <==> column[row].None?)
  {
    NullExactlyWhereBitIsSet(column, row);
    assert Bitmap(column)[CharOffset(row)] == block[pHeader + CharOffset(row)];
  }

  lemma CellAt(block: bytes, pStart: nat, t: FieldType, column: Column, row: nat)
    requires !IsVarDataType(t) && FitsColumn(t, column) && row < |column|
    requires At(block, pStart, Concat(FixedCells(t, column), |column|))
    ensures At(block, pStart + row * Width(t), FixedCell(t, column[row]))
  {
    StrideIn(block, pStart, FixedCells(t, column), row, Width(t), pStart + row * Width(t));
  }

  lemma FixedCellAt(block: bytes, pHeader: nat, pStart: nat, t: FieldType, column: Column, row: nat)
    requires !IsVarDataType(t) && Cursors(block, pHeader, pStart, t, column) && row < |column|
    ensures FixedIsAt(block, pHeader, pStart, t, column, row)
  {
    NullBitAt(block, pHeader, column, row);
    CellAt(block, pStart, t, column, row);
  }

  method ConvertFixedColumn(block: bytes, pHeader: nat, pStart: nat, t: FieldType, blockSize: nat,
                            ghost column: Column) returns (r: Column)
    requires !IsVarDataType(t) && FitsColumn(t, column) && FixedCellsAt(block, pHeader, pStart, t, column)
    requires blockSize == |column|
    ensures r == column
  {
    r := [];
    for row := 0 to blockSize
      invariant |r| == row && forall k :: 0 <= k < row ==> r[k] == column[k]
    {
      assert FixedIsAt(block, pHeader, pStart, t, column, row);
      if ItemIsNull(block, pHeader, row) {
        r := r + [None];
      } else {
        RawConvertReads(t, block, pStart, row, column[row].value);
        r := r + [Some(RawConvert(t, block, pStart, row))];
      }
    }
  }

  // ---- the block loops ----

  /** Where a column's cells start: behind its offsets or its bitmap. */
  function PStart(t: FieldType, pHeader: nat, blockSize: nat): nat
  {
    if IsVarDataType(t) then pHeader + 4 * blockSize else pHeader + BitmapLen(blockSize)
  }

  /** What a cursor walk reads of column `c`: its length, and so where the next column starts. */
  ghost predicate NextIs(block: bytes, t: FieldType, rows: nat, colCount: nat, c: nat, p: nat, next: nat)
  {
    var at := ColumnLengthOffset(colCount) + 4 * c;
    at + 4 <= |block| && next == PStart(t, p, rows) + FromTwos(Load(block, at, 4), 4)
  }

  /** The cells of a column can be read at its cursors. */
  ghost predicate Readable(block: bytes, t: FieldType, column: Column, rows: nat, p: nat)
  {
    && |column| == rows && FitsColumn(t, column)
    && if IsVarDataType(t) then VarCells(block, p, PStart(t, p, rows), t, column)
       else FixedCellsAt(block, p, PStart(t, p, rows), t, column)
  }

  /** The cursors of a walk over a block: one for each column, and one behind the last. */
  ghost predicate Walk(block: bytes, types: seq<FieldType>, columns: seq<Column>, rows: nat, cursors: seq<nat>)
  {
    && |columns| == |types| && |cursors| == |types| + 1 && cursors[0] == ColDataOffset(|types|)
    && forall c :: 0 <= c < |types| ==>
         && Readable(block, types[c], columns[c], rows, cursors[c])
         && NextIs(block, types[c], rows, |types|, c, cursors[c], cursors[c + 1])
  }

  lemma SectionLength(block: bytes, sections: seq<Section>, c: nat, at: nat)
    requires c < |sections| && SectionAt(block, sections, c) && |sections[c].data| < 0x8000_0000
    requires at == ColumnLengthOffset(|sections|) + 4 * c
    ensures at + 4 <= |block| && FromTwos(Load(block, at, 4), 4) == |sections[c].data|
    ensures Cursor(sections, c + 1) == Cursor(sections, c) + |sections[c].header| + |sections[c].data|
  {
    Powers();
    LoadStored(block, at, |sections[c].data|, 4);
  }

  lemma ColumnIsReadable(block: bytes, t: FieldType, column: Column, rows: nat, p: nat)
    requires |column| == rows && Cursors(block, p, PStart(t, p, rows), t, column)
    ensures Readable(block, t, column, rows, p)
  {
    var pStart := PStart(t, p, rows);
    if IsVarDataType(t) {
      forall row | 0 <= row < |column| ensures VarCell(block, p, pStart, row, column[row]) {
        VarCellAt(block, p, pStart, t, column, row);
      }
    } else {
      forall row | 0 <= row < |column| ensures FixedIsAt(block, p, pStart, t, column, row) {
        FixedCellAt(block, p, pStart, t, column, row);
      }
    }
  }

  /** The cursors of a block that is laid out are the prefix sums of its header and data lengths. */
  function CursorList(sections: seq<Section>): (cursors: seq<nat>)
    ensures |cursors| == |sections| + 1 && forall c :: 0 <= c <= |sections| ==> cursors[c] == Cursor(sections, c)
  {
    seq(|sections| + 1, c requires 0 <= c < |sections| + 1 => Cursor(sections, c))
  }

  lemma NextCursor(block: bytes, t: FieldType, rows: nat, sections: seq<Section>, c: nat)
    requires c < |sections| && SectionAt(block, sections, c) && |sections[c].data| < 0x8000_0000
    requires PStart(t, 0, rows) == |sections[c].header|
    ensures NextIs(block, t, rows, |sections|, c, Cursor(sections, c), Cursor(sections, c + 1))
  {
    SectionLength(block, sections, c, ColumnLengthOffset(|sections|) + 4 * c);
  }

  lemma StartBehindHeader(t: FieldType, column: Column, rows: nat, p: nat)
    requires |column| == rows && FitsColumn(t, column)
    ensures PStart(t, p, rows) == p + |Header(t, column)|
  {
  }

  lemma {:induction false} LaidOutColumn(block: bytes, t: FieldType, column: Column, rows: nat, sections: seq<Section>, c: nat)
    requires c < |sections| && ValidColumn(t, column, rows) && SectionAt(block, sections, c)
    requires sections[c] == Section(Header(t, column), Data(t, column))
    ensures Readable(block, t, column, rows, Cursor(sections, c))
  {
    StartBehindHeader(t, column, rows, Cursor(sections, c));
    ColumnIsReadable(block, t, column, rows, Cursor(sections, c));
  }

  lemma {:induction false} LaidOutNext(block: bytes, t: FieldType, column: Column, rows: nat, sections: seq<Section>, c: nat)
    requires c < |sections| && ValidColumn(t, column, rows) && SectionAt(block, sections, c)
    requires sections[c] == Section(Header(t, column), Data(t, column))
    ensures NextIs(block, t, rows, |sections|, c, Cursor(sections, c), Cursor(sections, c + 1))
  {
    StartBehindHeader(t, column, rows, 0);
    NextCursor(block, t, rows, sections, c);
  }

  lemma LaidOutWalk(block: bytes, types: seq<FieldType>, columns: seq<Column>, rows: nat)
    requires ValidTable(types, columns, rows) && LaidOut(block, SectionsOf(types, columns, rows))
    ensures Walk(block, types, columns, rows, CursorList(SectionsOf(types, columns, rows)))
  {
    var sections := SectionsOf(types, columns, rows);
    var cursors := CursorList(sections);
    forall c | 0 <= c < |types|
      ensures Readable(block, types[c], columns[c], rows, cursors[c])
      ensures NextIs(block, types[c], rows, |types|, c, cursors[c], cursors[c + 1])
    {
      LaidOutColumn(block, types[c], columns[c], rows, sections, c);
      LaidOutNext(block, types[c], columns[c], rows, sections, c);
    }
  }

  method ConvertColumn(block: bytes, pHeader: nat, pStart: nat, t: FieldType, blockSize: nat, start: nat,
                       ghost column: Column) returns (r: Column, maxLen: nat)
    requires Readable(block, t, column, blockSize, pHeader) && pStart == PStart(t, pHeader, blockSize)
    ensures r == column
    ensures maxLen == if IsVarDataType(t) then Longest(column, |column|, start) else start
  {
    if IsVarDataType(t) {
      r, maxLen := ConvertVarColumn(block, pHeader, pStart, t, blockSize, start, column);
    } else {
      r := ConvertFixedColumn(block, pHeader, pStart, t, blockSize, column);
      maxLen := start;
    }
  }

  /**
    Decoding gives back the columns that were laid out. When the callers' column types are given, the maximum length of
    each variable-width one is raised to that of its longest value.
  */
  method BlockConvert(block: bytes, blockSize: nat, types: seq<FieldType>, fieldTypes: array?<nat>,
                      ghost columns: seq<Column>, ghost cursors: seq<nat>) returns (r: seq<Column>)
    requires Walk(block, types, columns, blockSize, cursors)
    requires fieldTypes != null ==> fieldTypes.Length == |types|
    modifies fieldTypes
    ensures r == columns
    ensures fieldTypes != null ==> forall c :: 0 <= c < |types| ==>
              fieldTypes[c] == if IsVarDataType(types[c]) then Longest(columns[c], |columns[c]|, old(fieldTypes[c]))
                               else old(fieldTypes[c])
  {
    var colCount := |types|;
    var pHeader := ColDataOffset(colCount);
    r := [];
    for column := 0 to colCount
      invariant |r| == column && forall c :: 0 <= c < column ==> r[c] == columns[c]
      invariant pHeader == cursors[column]
      invariant fieldTypes != null ==> forall c :: 0 <= c < |types| ==>
                  fieldTypes[c] == if c < column && IsVarDataType(types[c])
                                   then Longest(columns[c], |columns[c]|, old(fieldTypes[c])) else old(fieldTypes[c])
    {
      assert NextIs(block, types[column], blockSize, |types|, column, cursors[column], cursors[column + 1]);
      var colLength := FromTwos(Load(block, ColumnLengthOffset(colCount) + 4 * column, 4), 4);
      var pStart := PStart(types[column], pHeader, blockSize);
      var start := if fieldTypes != null then fieldTypes[column] else 0;
      var cells, maxLen := ConvertColumn(block, pHeader, pStart, types[column], blockSize, start, columns[column]);
      r := r + [cells];
      if fieldTypes != null {
        fieldTypes[column] := maxLen;
      }
      pHeader := pStart + colLength;
    }
  }

  /** The cursor walk of the REST row loop visits the same cursors, where the same cells can be read. */
  method RestCursors(block: bytes, blockSize: nat, types: seq<FieldType>, ghost columns: seq<Column>,
                     ghost cursors: seq<nat>) returns (pHeaderList: seq<nat>, pStartList: seq<nat>)
    requires Walk(block, types, columns, blockSize, cursors)
    ensures |pHeaderList| == |pStartList| == |types|
    ensures forall c :: 0 <= c < |types| ==>
              && pHeaderList[c] == cursors[c] && pStartList[c] == PStart(types[c], cursors[c], blockSize)
              && Readable(block, types[c], columns[c], blockSize, pHeaderList[c])
  {
    var fieldsCount := |types|;
    var tmpPHeader := ColDataOffset(fieldsCount);
    pHeaderList, pStartList := [], [];
    for column := 0 to fieldsCount
      invariant |pHeaderList| == |pStartList| == column && tmpPHeader == cursors[column]
      invariant forall c :: 0 <= c < column ==>
                  pHeaderList[c] == cursors[c] && pStartList[c] == PStart(types[c], cursors[c], blockSize)
    {
      assert NextIs(block, types[column], blockSize, |types|, column, cursors[column], cursors[column + 1]);
      var colLength := FromTwos(Load(block, ColumnLengthOffset(fieldsCount) + 4 * column, 4), 4);
      pHeaderList := pHeaderList + [tmpPHeader];
      pStartList := pStartList + [PStart(types[column], tmpPHeader, blockSize)];
      tmpPHeader := pStartList[column] + colLength;
    }
  }

  /** Encoding a table, whatever its description and column infos, gives a block that decodes to the table. */
  method RoundTrip(description: bytes, infos: bytes, types: seq<FieldType>, columns: seq<Column>, rows: nat)
      returns (r: seq<Column>)
    requires ValidTable(types, columns, rows) && |description| == 28 && |infos| == 5 * |types|
    ensures r == columns
  {
    var sections := SectionsOf(types, columns, rows);
    var block := Block.Encode(description, infos, sections);
    EncodedIsLaidOut(description, infos, sections);
    LaidOutWalk(block, types, columns, rows);
    r := BlockConvert(block, rows, types, null, columns, CursorList(sections));
  }
}
