/** The text columns of a raw block written as JSON, read from the block byte by byte and rune by rune. */
module JsonBlock {
  import opened Wrappers
  import opened Bytes
  import opened LittleEndian
  import opened Utf8
  import opened Block
  import opened BlockConvert
  import opened JsonStrings
  import opened JsonStream

  /** The JSON text of a cell: null, or its bytes as a string; runes as UTF-8. */
  function CellText(cell: Option<Value>): bytes
    requires cell.Some? ==> cell.value.Text? || cell.value.Runes?
  {
    match cell
    case None => NULL
    case Some(Text(s)) => Quoted(s)
    case Some(Runes(rs)) => Quoted(EncodeAll(rs))
  }

  lemma QuotedIs(before: bytes, s: bytes)
    ensures before + [QUOTE] + EscapeAll(s) + [QUOTE] == before + Quoted(s)
  {
  }

  method WriteByteAt(builder: Stream, b: byte, index: nat, ghost s: bytes, ghost before: bytes)
    requires index < |s| && b == s[index] && builder.buf == before + EscapeAll(s[..index])
    modifies builder`buf
    ensures builder.buf == before + EscapeAll(s[..index + 1])
  {
    EscapeNext(s, index);
    Assoc(before, EscapeAll(s[..index]), Escape(s[index]));
    builder.WriteStringByte(b);
  }

  /** The loop over the bytes of a value. */
  method WriteBytes(builder: Stream, block: bytes, p: nat, clen: nat, ghost s: bytes)
    requires At(block, p, s) && clen == |s|
    modifies builder`buf
    ensures builder.buf == old(builder.buf) + EscapeAll(s)
  {
    ghost var before := builder.buf;
    assert builder.buf == before + EscapeAll(s[..0]);
    for index := 0 to clen
      invariant builder.buf == before + EscapeAll(s[..index])
    {
      WriteByteAt(builder, block[p + index], index, s, before);
    }
    assert s[..|s|] == s;
  }

  ghost predicate RunesAt(block: bytes, p: nat, rs: seq<rune>)
  {
    forall k :: 0 <= k < |rs| ==> RuneAt(block, p, k, rs[k])
  }

  method WriteRuneAt(builder: Stream, r: rune, index: nat, ghost rs: seq<rune>, ghost before: bytes)
    requires index < |rs| && r == rs[index] && builder.buf == before + EscapeAll(EncodeAll(rs[..index]))
    modifies builder`buf
    ensures builder.buf == before + EscapeAll(EncodeAll(rs[..index + 1]))
  {
    EscapeNextRune(rs, index);
    Assoc(before, EscapeAll(EncodeAll(rs[..index])), EscapeAll(Utf8.Encode(rs[index])));
    builder.WriteRuneString(r);
  }

  /** The loop over the runes of a value; its 16-bit index times four does not wrap. */
  method WriteRunes(builder: Stream, block: bytes, p: nat, clen: nat, ghost rs: seq<rune>)
    requires RunesAt(block, p, rs) && clen == |rs| && 4 * |rs| < 0x1_0000
    modifies builder`buf
    ensures builder.buf == old(builder.buf) + EscapeAll(EncodeAll(rs))
  {
    ghost var before := builder.buf;
    assert builder.buf == before + EscapeAll(EncodeAll(rs[..0]));
    for index := 0 to clen
      invariant builder.buf == before + EscapeAll(EncodeAll(rs[..index]))
    {
      assert RuneAt(block, p, index, rs[index]);
      var step := index * 4 % 0x1_0000;
      WriteRuneAt(builder, FromTwos(Load(block, p + step, 4), 4) as rune, index, rs, before);
    }
    assert rs[..|rs|] == rs;
  }

  /** A null cell is written as null, any other as the string of its bytes. */
  method WriteRawJsonBinary(builder: Stream, block: bytes, pHeader: nat, pStart: nat, row: nat, ghost cell: Option<Value>)
    requires VarCell(block, pHeader, pStart, row, cell) && (cell.Some? ==> cell.value.Text?)
    modifies builder`buf
    ensures builder.buf == old(builder.buf) + CellText(cell)
  {
    var offset := FromTwos(Load(block, pHeader + row * 4, 4), 4);
    if offset == -1 {
      builder.WriteRaw(NULL);
      return;
    }
    var currentRow := pStart + offset;
    var clen := Load(block, currentRow, 2);
    builder.WriteRaw([QUOTE]);
    WriteBytes(builder, block, currentRow + 2, clen, cell.value.s);
    builder.WriteRaw([QUOTE]);
    QuotedIs(old(builder.buf), cell.value.s);
  }

  /** A null cell is written as null, any other as the string of the UTF-8 of its runes. */
  method WriteRawJsonNchar(builder: Stream, block: bytes, pHeader: nat, pStart: nat, row: nat, ghost cell: Option<Value>)
    requires VarCell(block, pHeader, pStart, row, cell) && (cell.Some? ==> cell.value.Runes?)
    modifies builder`buf
    ensures builder.buf == old(builder.buf) + CellText(cell)
  {
    var offset := FromTwos(Load(block, pHeader + row * 4, 4), 4);
    if offset == -1 {
      builder.WriteRaw(NULL);
      return;
    }
    var currentRow := pStart + offset;
    var clen := Load(block, currentRow, 2) / 4;
    builder.WriteRaw([QUOTE]);
    WriteRunes(builder, block, currentRow + 2, clen, cell.value.rs);
    builder.WriteRaw([QUOTE]);
    QuotedIs(old(builder.buf), EncodeAll(cell.value.rs));
  }

  /** The text of a cell that is not null is read back as its bytes, and never starts like null. */
  lemma CellTextReads(v: Value, tail: bytes)
    requires v.Text? || v.Runes?
    ensures ReadString(CellText(Some(v)) + tail) == Some(Body(if v.Text? then v.s else EncodeAll(v.rs), tail))
    ensures CellText(Some(v))[0] != NULL[0]
  {
    StringRoundTrip(if v.Text? then v.s else EncodeAll(v.rs), tail);
  }
}
