/** The column blocks that the driver returns: their layout, and the cells that controller/ws/stmt/convert.go reads from it. */
module Block {
  import opened Wrappers
  import opened Bytes
  import opened LittleEndian
  import opened Utf8

  datatype FieldType =
    | Bool | Tinyint | Smallint | Int | Bigint | Float | Double | Timestamp
    | UTinyint | USmallint | UInt | UBigint
    | Binary | Nchar | Json | VarBinary | Geometry

  /** A cell that is not null. Floating-point cells are their bit patterns, timestamps their tick counts. */
  datatype Value = Flag(b: bool) | Number(n: int) | Text(s: bytes) | Runes(rs: seq<rune>)

  type Column = seq<Option<Value>>

  predicate IsVarDataType(t: FieldType)
  {
    t.Binary? || t.Nchar? || t.Json? || t.VarBinary? || t.Geometry?
  }

  function Width(t: FieldType): (w: nat)
    requires !IsVarDataType(t)
    ensures w in {1, 2, 4, 8}
  {
    match t
    case Bool => 1
    case Tinyint => 1
    case UTinyint => 1
    case Smallint => 2
    case USmallint => 2
    case Int => 4
    case UInt => 4
    case Float => 4
    case _ => 8
  }

  predicate IsSigned(t: FieldType)
  {
    t.Tinyint? || t.Smallint? || t.Int? || t.Bigint? || t.Timestamp?
  }

  /** The values a column of this type can hold. */
  predicate Fits(t: FieldType, v: Value)
  {
    if t.Bool? then v.Flag?
    else if t.Nchar? then v.Runes? && 4 * |v.rs| < 0x1_0000
    else if IsVarDataType(t) then v.Text? && |v.s| < 0x1_0000
    else if IsSigned(t) then v.Number? && 0 <= Pow256(Width(t)) + 2 * v.n && 2 * v.n < Pow256(Width(t))
    else v.Number? && 0 <= v.n < Pow256(Width(t))
  }

  predicate FitsColumn(t: FieldType, column: Column)
  {
    forall k :: 0 <= k < |column| && column[k].Some? ==> Fits(t, column[k].value)
  }

  // ---- the null bitmap ----

  function BitmapLen(n: nat): nat
  {
    (n + 7) / 8
  }

  function CharOffset(n: nat): nat
  {
    n / 8
  }

  function BitPos(n: nat): (k: nat)
    ensures k < 8
  {
    n % 8
  }

  predicate BMIsNull(c: byte, n: nat)
  {
    (c as bv8) & ((1 as bv8) << (7 - BitPos(n))) == (1 as bv8) << (7 - BitPos(n))
  }

  function Bit(column: Column, row: nat): nat
  {
    if row < |column| && column[row].None? then 1 else 0
  }

  /** Eight rows to a byte, the first row in the highest bit; a set bit is a null. */
  function BitmapByte(column: Column, g: nat): byte
  {
    var r := 8 * g;
    (128 * Bit(column, r) + 64 * Bit(column, r + 1) + 32 * Bit(column, r + 2) + 16 * Bit(column, r + 3)
     + 8 * Bit(column, r + 4) + 4 * Bit(column, r + 5) + 2 * Bit(column, r + 6) + Bit(column, r + 7)) as byte
  }

  function Bitmap(column: Column): (s: bytes)
    ensures |s| == BitmapLen(|column|) && forall g :: 0 <= g < |s| ==> s[g] == BitmapByte(column, g)
  {
    seq(BitmapLen(|column|), (g: nat) => BitmapByte(column, g))
  }

  lemma BitTest(c: byte, n: nat)
    ensures BMIsNull(c, n) <==> c as int / [128, 64, 32, 16, 8, 4, 2, 1][BitPos(n)] % 2 == 1
  {
    var k := BitPos(n);
    if k == 0 {
      assert ((c as bv8) & 0x80 == 0x80) <==> c / 128 % 2 == 1;
    } else if k == 1 {
      assert ((c as bv8) & 0x40 == 0x40) <==> c / 64 % 2 == 1;
    } else if k == 2 {
      assert ((c as bv8) & 0x20 == 0x20) <==> c / 32 % 2 == 1;
    } else if k == 3 {
      assert ((c as bv8) & 0x10 == 0x10) <==> c / 16 % 2 == 1;
    } else if k == 4 {
      assert ((c as bv8) & 8 == 8) <==> c / 8 % 2 == 1;
    } else if k == 5 {
      assert ((c as bv8) & 4 == 4) <==> c / 4 % 2 == 1;
    } else if k == 6 {
      assert ((c as bv8) & 2 == 2) <==> c / 2 % 2 == 1;
    } else {
      assert ((c as bv8) & 1 == 1) <==> c % 2 == 1;
    }
  }

  lemma PackedBits(a: nat, b: nat, c: nat, d: nat, e: nat, f: nat, g: nat, h: nat)
    requires a < 2 && b < 2 && c < 2 && d < 2 && e < 2 && f < 2 && g < 2 && h < 2
    ensures var n := 128 * a + 64 * b + 32 * c + 16 * d + 8 * e + 4 * f + 2 * g + h;
            && n / 128 % 2 == a && n / 64 % 2 == b && n / 32 % 2 == c && n / 16 % 2 == d
            && n / 8 % 2 == e && n / 4 % 2 == f && n / 2 % 2 == g && n % 2 == h
  {
    var n := 128 * a + 64 * b + 32 * c + 16 * d + 8 * e + 4 * f + 2 * g + h;
    assert n / 2 == 64 * a + 32 * b + 16 * c + 8 * d + 4 * e + 2 * f + g;
    assert n / 4 == 32 * a + 16 * b + 8 * c + 4 * d + 2 * e + f;
    assert n / 8 == 16 * a + 8 * b + 4 * c + 2 * d + e;
    assert n / 16 == 8 * a + 4 * b + 2 * c + d;
    assert n / 32 == 4 * a + 2 * b + c;
    assert n / 64 == 2 * a + b;
  }

  /** A row is read as null exactly when its cell is null. */
  lemma NullExactlyWhereBitIsSet(column: Column, row: nat)
    requires row < |column|
    ensures BMIsNull(Bitmap(column)[CharOffset(row)], row) <==> column[row].None?
  {
    var g := CharOffset(row);
    var r := 8 * g;
    BitTest(Bitmap(column)[g], row);
    PackedBits(Bit(column, r), Bit(column, r + 1), Bit(column, r + 2), Bit(column, r + 3),
               Bit(column, r + 4), Bit(column, r + 5), Bit(column, r + 6), Bit(column, r + 7));
    assert row == r + BitPos(row);
  }

  // ---- columns of fixed width ----

  /** The unsigned integer that holds a value of fixed width. */
  function RawOf(t: FieldType, v: Value): (raw: nat)
    requires !IsVarDataType(t) && Fits(t, v)
    ensures raw < Pow256(Width(t))
  {
    Powers();
    if t.Bool? then (if v.b then 1 else 0)
    else if IsSigned(t) then Twos(v.n, Width(t))
    else v.n
  }

  function FixedCell(t: FieldType, cell: Option<Value>): (s: bytes)
    requires !IsVarDataType(t) && (cell.Some? ==> Fits(t, cell.value))
    ensures |s| == Width(t)
  {
    ToLE(if cell.None? then 0 else RawOf(t, cell.value), Width(t))
  }

  function FixedCells(t: FieldType, column: Column): (parts: seq<bytes>)
    requires !IsVarDataType(t) && FitsColumn(t, column)
    ensures |parts| == |column| && AllOfLength(parts, Width(t))
    ensures forall k :: 0 <= k < |parts| ==> parts[k] == FixedCell(t, column[k])
  {
    seq(|column|, k requires 0 <= k < |column| => FixedCell(t, column[k]))
  }

  function Interpret(t: FieldType, raw: nat): Value
    requires !IsVarDataType(t)
  {
    if t.Bool? then Flag(raw != 0)
    else if IsSigned(t) then Number(FromTwos(raw, Width(t)))
    else Number(raw)
  }

  lemma InterpretRaw(t: FieldType, v: Value)
    requires !IsVarDataType(t) && Fits(t, v)
    ensures Interpret(t, RawOf(t, v)) == v
  {
  }

  /** `rawConvert*`: the cell of a fixed-width column, read at its row. */
  function RawConvert(t: FieldType, block: bytes, pStart: nat, row: nat): Value
    requires !IsVarDataType(t) && pStart + row * Width(t) + Width(t) <= |block|
  {
    Interpret(t, Load(block, pStart + row * Width(t), Width(t)))
  }

  lemma RawConvertReads(t: FieldType, block: bytes, pStart: nat, row: nat, v: Value)
    requires !IsVarDataType(t) && Fits(t, v) && At(block, pStart + row * Width(t), FixedCell(t, Some(v)))
    ensures pStart + row * Width(t) + Width(t) <= |block| && RawConvert(t, block, pStart, row) == v
  {
    LoadStored(block, pStart + row * Width(t), RawOf(t, v), Width(t));
    InterpretRaw(t, v);
  }

  // ---- columns of variable width ----

  /** The unsigned 32-bit value of a rune. */
  function RuneRaw(r: rune): (raw: nat)
    ensures raw < Pow256(4) && FromTwos(raw, 4) == r as int
  {
    Powers();
    Twos(r as int, 4)
  }

  function RuneWord(r: rune): (s: bytes)
    ensures |s| == 4
  {
    ToLE(RuneRaw(r), 4)
  }

  function RuneWords(rs: seq<rune>): (parts: seq<bytes>)
    ensures |parts| == |rs| && AllOfLength(parts, 4)
    ensures forall k :: 0 <= k < |parts| ==> parts[k] == RuneWord(rs[k])
  {
    seq(|rs|, k requires 0 <= k < |rs| => RuneWord(rs[k]))
  }

  /** The bytes of a value of variable width. */
  function Payload(v: Value): bytes
    requires v.Text? || v.Runes?
  {
    if v.Text? then v.s else Concat(RuneWords(v.rs), |v.rs|)
  }

  /** A value behind its 16-bit length; a null takes no room. */
  function VarEntry(t: FieldType, cell: Option<Value>): bytes
    requires IsVarDataType(t) && (cell.Some? ==> Fits(t, cell.value))
  {
    if cell.None? then [] else ToLE(|Payload(cell.value)|, 2) + Payload(cell.value)
  }

  function VarEntries(t: FieldType, column: Column): (parts: seq<bytes>)
    requires IsVarDataType(t) && FitsColumn(t, column)
    ensures |parts| == |column| && forall k :: 0 <= k < |parts| ==> parts[k] == VarEntry(t, column[k])
  {
    seq(|column|, k requires 0 <= k < |column| => VarEntry(t, column[k]))
  }

  const NULL_OFFSET: nat := 0xFFFF_FFFF

  /** Where the entry of a row starts in the data, or -1 as a 32-bit integer for a null. */
  function VarOffset(t: FieldType, column: Column, row: nat): nat
    requires IsVarDataType(t) && FitsColumn(t, column) && row < |column|
  {
    if column[row].None? then NULL_OFFSET else |Concat(VarEntries(t, column), row)|
  }

  function VarOffsets(t: FieldType, column: Column): (parts: seq<bytes>)
    requires IsVarDataType(t) && FitsColumn(t, column)
    ensures |parts| == |column| && AllOfLength(parts, 4)
    ensures forall k :: 0 <= k < |parts| ==> parts[k] == ToLE(VarOffset(t, column, k), 4)
  {
    seq(|column|, k requires 0 <= k < |column| => ToLE(VarOffset(t, column, k), 4))
  }

  // ---- whole blocks ----

  const COL_INFO_OFFSET: nat := 28
  const COL_INFO_SIZE: nat := 5

  function ColumnLengthOffset(colCount: nat): nat
  {
    COL_INFO_OFFSET + colCount * COL_INFO_SIZE
  }

  function ColDataOffset(colCount: nat): nat
  {
    COL_INFO_OFFSET + colCount * COL_INFO_SIZE + colCount * 4
  }

  /** The bitmap of a fixed-width column, the offsets of a variable-width one. */
  function Header(t: FieldType, column: Column): (s: bytes)
    requires FitsColumn(t, column)
    ensures |s| == if IsVarDataType(t) then 4 * |column| else BitmapLen(|column|)
  {
    if IsVarDataType(t) then
      ConcatLength(VarOffsets(t, column), |column|, 4);
      Concat(VarOffsets(t, column), |column|)
    else Bitmap(column)
  }

  function Data(t: FieldType, column: Column): bytes
    requires FitsColumn(t, column)
  {
    if IsVarDataType(t) then Concat(VarEntries(t, column), |column|) else Concat(FixedCells(t, column), |column|)
  }

  /** Columns of one length whose values fit their types and whose data length is a positive 32-bit integer. */
  predicate ValidColumn(t: FieldType, column: Column, rows: nat)
  {
    |column| == rows && FitsColumn(t, column) && |Data(t, column)| < 0x8000_0000
  }

  predicate ValidTable(types: seq<FieldType>, columns: seq<Column>, rows: nat)
  {
    && |columns| == |types|
    && forall c :: 0 <= c < |types| ==> ValidColumn(types[c], columns[c], rows)
  }

  datatype Section = Section(header: bytes, data: bytes)

  function SectionsOf(types: seq<FieldType>, columns: seq<Column>, rows: nat): (ss: seq<Section>)
    requires ValidTable(types, columns, rows)
    ensures |ss| == |types|
    ensures forall c :: 0 <= c < |ss| ==>
              ValidColumn(types[c], columns[c], rows)
              && ss[c] == Section(Header(types[c], columns[c]), Data(types[c], columns[c]))
  {
    seq(|types|, c requires 0 <= c < |types| =>
      assert ValidColumn(types[c], columns[c], rows);
      Section(Header(types[c], columns[c]), Data(types[c], columns[c])))
  }

  function LengthWords(sections: seq<Section>): (parts: seq<bytes>)
    ensures |parts| == |sections| && AllOfLength(parts, 4)
    ensures forall c :: 0 <= c < |parts| ==> parts[c] == ToLE(|sections[c].data|, 4)
  {
    seq(|sections|, c requires 0 <= c < |sections| => ToLE(|sections[c].data|, 4))
  }

  function LengthTable(sections: seq<Section>): bytes
  {
    Concat(LengthWords(sections), |sections|)
  }

  /** The headers and data of the first `n` columns. */
  function Joined(sections: seq<Section>, n: nat): bytes
    requires n <= |sections|
  {
    if n == 0 then [] else Joined(sections, n - 1) + sections[n - 1].header + sections[n - 1].data
  }

  /** A block: 28 bytes of description, five bytes for each column, the data lengths, and the columns. */
  function Encode(description: bytes, infos: bytes, sections: seq<Section>): bytes
  {
    description + infos + LengthTable(sections) + Joined(sections, |sections|)
  }

  /** Where a column's header starts: behind the headers and data of the columns before it. */
  function Cursor(sections: seq<Section>, c: nat): nat
    requires c <= |sections|
  {
    ColDataOffset(|sections|) + |Joined(sections, c)|
  }

  /** The parts of a block that hold one column. */
  predicate SectionAt(block: bytes, sections: seq<Section>, c: nat)
    requires c < |sections|
  {
    && At(block, ColumnLengthOffset(|sections|) + 4 * c, ToLE(|sections[c].data|, 4))
    && At(block, Cursor(sections, c), sections[c].header)
    && At(block, Cursor(sections, c) + |sections[c].header|, sections[c].data)
  }

  predicate LaidOut(block: bytes, sections: seq<Section>)
  {
    forall c :: 0 <= c < |sections| ==> SectionAt(block, sections, c)
  }

  lemma {:induction false} JoinedAt(sections: seq<Section>, n: nat, c: nat)
    requires c < n <= |sections|
    ensures At(Joined(sections, n), |Joined(sections, c)|, sections[c].header)
    ensures At(Joined(sections, n), |Joined(sections, c)| + |sections[c].header|, sections[c].data)
    decreases n
  {
    var before, header, data := Joined(sections, n - 1), sections[n - 1].header, sections[n - 1].data;
    if c == n - 1 {
      AtConcat(before, header, data);
      AtConcat(before + header, data, []);
      assert before + header + data + [] == before + header + data;
    } else {
      JoinedAt(sections, n - 1, c);
      assert before + header + data == before + (header + data);
      AtPrefix(before, header + data, |Joined(sections, c)|, sections[c].header);
      AtPrefix(before, header + data, |Joined(sections, c)| + |sections[c].header|, sections[c].data);
    }
  }

  lemma InMiddle(front: bytes, middle: bytes, back: bytes, p: nat, s: bytes)
    requires At(middle, p, s)
    ensures At(front + middle + back, |front| + p, s)
  {
    AtConcat(front, middle, back);
    AtPart(front + middle + back, |front|, middle, p, s);
  }

  lemma InBack(front: bytes, back: bytes, p: nat, s: bytes)
    requires At(back, p, s)
    ensures At(front + back, |front| + p, s)
  {
    InMiddle(front, back, [], p, s);
    assert front + back + [] == front + back;
  }

  lemma Assembled(front: bytes, lengths: bytes, joined: bytes, i: nat, word: bytes, p: nat, header: bytes, data: bytes,
                  block: bytes, at: nat, cursor: nat)
    requires At(lengths, i, word) && At(joined, p, header) && At(joined, p + |header|, data)
    requires block == front + lengths + joined && at == |front| + i && cursor == |front| + |lengths| + p
    ensures At(block, at, word) && At(block, cursor, header) && At(block, cursor + |header|, data)
  {
    InMiddle(front, lengths, joined, i, word);
    InBack(front + lengths, joined, p, header);
    InBack(front + lengths, joined, p + |header|, data);
  }

  lemma LengthTableAt(sections: seq<Section>, c: nat)
    requires c < |sections|
    ensures |LengthTable(sections)| == 4 * |sections|
    ensures At(LengthTable(sections), 4 * c, ToLE(|sections[c].data|, 4))
  {
    ConcatLength(LengthWords(sections), |sections|, 4);
    StrideAt(LengthWords(sections), c, 4);
  }

  lemma EncodedSectionAt(description: bytes, infos: bytes, sections: seq<Section>, c: nat)
    requires |description| == 28 && |infos| == 5 * |sections| && c < |sections|
    ensures SectionAt(Encode(description, infos, sections), sections, c)
  {
    var n, p := |sections|, |Joined(sections, c)|;
    var lengths, joined := LengthTable(sections), Joined(sections, n);
    LengthTableAt(sections, c);
    JoinedAt(sections, n, c);
    Assembled(description + infos, lengths, joined, 4 * c, ToLE(|sections[c].data|, 4),
              p, sections[c].header, sections[c].data,
              description + infos + lengths + joined, ColumnLengthOffset(n) + 4 * c, ColDataOffset(n) + p);
  }

  /** What the encoder produces is laid out as the decoder expects, whatever the description and column infos are. */
  lemma EncodedIsLaidOut(description: bytes, infos: bytes, sections: seq<Section>)
    requires |description| == 28 && |infos| == 5 * |sections|
    ensures LaidOut(Encode(description, infos, sections), sections)
  {
    forall c | 0 <= c < |sections| ensures SectionAt(Encode(description, infos, sections), sections, c) {
      EncodedSectionAt(description, infos, sections, c);
    }
  }
}
