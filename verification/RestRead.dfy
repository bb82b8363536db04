/** The data array of a REST response, read back as JSON (RFC 8259): it gives the rows cell by cell. */
module RestRead {
  import opened Wrappers
  import opened Bytes
  import B = Block
  import JsonBlock
  import opened JsonNumbers
  import opened JsonStrings
  import opened JsonStream
  import opened RestStream
  import opened Scanning
  import Utf8

  const TRUE: bytes := [116, 114, 117, 101]
  const FALSE: bytes := [102, 97, 108, 115, 101]
  const CLOSE_ARRAY: byte := 93
  const CLOSE_OBJECT: byte := 125

  /** A cell as the client sees it. */
  datatype Json = Null | Flag(b: bool) | Number(n: int) | Text(s: bytes)

  function TextOf(v: Json): (t: bytes)
    ensures t != []
  {
    match v
    case Null => NULL
    case Flag(b) => if b then TRUE else FALSE
    case Number(n) => SignedDecimal(n)
    case Text(s) => Quoted(s)
  }

  /** A cell of a block as the client sees it; integers, not the bit patterns of floating-point cells. */
  function JsonOf(cell: Option<B.Value>): Json
  {
    match cell
    case None => Null
    case Some(Flag(b)) => Flag(b)
    case Some(Number(n)) => Number(n)
    case Some(Text(s)) => Text(s)
    case Some(Runes(rs)) => Text(Utf8.EncodeAll(rs))
  }

  /** What is written for a text cell of a block is the text of that value. */
  lemma BlockCellText(cell: Option<B.Value>)
    requires cell.Some? ==> cell.value.Text? || cell.value.Runes?
    ensures JsonBlock.CellText(cell) == TextOf(JsonOf(cell))
  {
  }

  // ---- one value ----

  /** The number of digits at the front of `s`. */
  function DigitRun(s: bytes): (n: nat)
    ensures n <= |s| && (forall k :: 0 <= k < n ==> IsDigit(s[k])) && (n < |s| ==> !IsDigit(s[n]))
  {
    if s == [] || !IsDigit(s[0]) then 0 else 1 + DigitRun(s[1..])
  }

  /** Digits without leading zeros. */
  function ReadNatural(s: bytes): Option<Scanned<nat>>
  {
    var n := DigitRun(s);
    if n == 0 || (n > 1 && s[0] == ZERO) then None else Some(Scanned(NumberOf(s[..n]), s[n..]))
  }

  function ReadNumber(s: bytes): Option<Scanned<Json>>
  {
    if s != [] && s[0] == MINUS then
      match ReadNatural(s[1..])
      case None => None
      case Some(t) => Some(Scanned(Number(-(t.value as int)), t.rest))
    else
      match ReadNatural(s)
      case None => None
      case Some(t) => Some(Scanned(Number(t.value), t.rest))
  }

  function ReadValue(s: bytes): Option<Scanned<Json>>
  {
    if s != [] && s[0] == QUOTE then
      match ReadString(s)
      case None => None
      case Some(b) => Some(Scanned(Text(b.content), b.rest))
    else if NULL <= s then Some(Scanned(Null, s[4..]))
    else if TRUE <= s then Some(Scanned(Flag(true), s[4..]))
    else if FALSE <= s then Some(Scanned(Flag(false), s[5..]))
    else ReadNumber(s)
  }

  /** A value of a list ends before a comma or before what closes the list. */
  predicate Ends(tail: bytes)
  {
    tail != [] && tail[0] in {COMMA, CLOSE_ARRAY, CLOSE_OBJECT}
  }

  lemma {:induction false} DigitRunIs(digits: bytes, tail: bytes)
    requires (forall k :: 0 <= k < |digits| ==> IsDigit(digits[k])) && Ends(tail)
    ensures DigitRun(digits + tail) == |digits|
  {
    var n := DigitRun(digits + tail);
    assert n > |digits| ==> IsDigit((digits + tail)[|digits|]);
  }

  lemma {:induction false} NaturalReads(n: nat, tail: bytes)
    requires Ends(tail)
    ensures ReadNatural(Decimal(n) + tail) == Some(Scanned(n, tail))
  {
    var s := Decimal(n) + tail;
    DecimalIsNumeral(n);
    DigitRunIs(Decimal(n), tail);
    assert s[..|Decimal(n)|] == Decimal(n) && s[|Decimal(n)|..] == tail;
  }

  lemma {:induction false} NumeralStarts(n: nat, tail: bytes)
    ensures IsDigit((Decimal(n) + tail)[0])
  {
    DecimalIsNumeral(n);
    assert IsDigit(Decimal(n)[0]);
  }

  lemma {:induction false} MinusReads(n: nat, more: bytes, tail: bytes)
    requires ReadNatural(more) == Some(Scanned(n, tail))
    ensures ReadNumber([MINUS] + more) == Some(Scanned(Number(-(n as int)), tail))
  {
    assert ([MINUS] + more)[1..] == more;
  }

  lemma {:induction false} NumberReads(n: int, tail: bytes)
    requires Ends(tail)
    ensures var s := SignedDecimal(n) + tail;
            ReadNumber(s) == Some(Scanned(Number(n), tail)) && (s[0] == MINUS || IsDigit(s[0]))
  {
    if n < 0 {
      Assoc([MINUS], Decimal(-n), tail);
      NaturalReads(-n, tail);
      MinusReads(-n, Decimal(-n) + tail, tail);
    } else {
      NumeralStarts(n, tail);
      NaturalReads(n, tail);
    }
  }

  lemma {:induction false} WordReads(v: Json, tail: bytes)
    requires v.Null? || v.Flag?
    ensures ReadValue(TextOf(v) + tail) == Some(Scanned(v, tail))
  {
    var s := TextOf(v) + tail;
    assert TextOf(v) <= s && s[|TextOf(v)|..] == tail;
  }

  /** What is written for a value is read back as that value. */
  lemma {:induction false} ValueReads(v: Json, tail: bytes)
    requires Ends(tail)
    ensures ReadValue(TextOf(v) + tail) == Some(Scanned(v, tail))
  {
    match v
    case Null => WordReads(v, tail);
    case Flag(_) => WordReads(v, tail);
    case Text(s) => StringRoundTrip(s, tail);
    case Number(n) => NumberReads(n, tail);
  }

  // ---- lists ----

  /** The items of a list that is not empty, from the first one on, up to what closes it. */
  function ReadSome<T>(read: bytes -> Option<Scanned<T>>, close: byte, s: bytes): Option<Scanned<seq<T>>>
    decreases |s|
  {
    match read(s)
    case None => None
    case Some(t) =>
      if t.rest == [] || |t.rest| >= |s| then None
      else if t.rest[0] == close then Some(Scanned([t.value], t.rest[1..]))
      else if t.rest[0] == COMMA then Onto(t.value, ReadSome(read, close, t.rest[1..]))
      else None
  }

  /** The items of a list, from behind what opens it. */
  function ReadList<T>(read: bytes -> Option<Scanned<T>>, close: byte, s: bytes): Option<Scanned<seq<T>>>
  {
    if s != [] && s[0] == close then Some(Scanned([], s[1..])) else ReadSome(read, close, s)
  }

  /** The parts from `i` on with a comma between each two. */
  function JoinFrom(parts: seq<bytes>, i: nat, n: nat): bytes
    requires i < n <= |parts|
    decreases n - i
  {
    if i == n - 1 then parts[i] else parts[i] + ([COMMA] + JoinFrom(parts, i + 1, n))
  }

  lemma {:induction false} JoinSplit(parts: seq<bytes>, i: nat, n: nat)
    requires i < n <= |parts|
    ensures EachWithComma(parts, i) + JoinFrom(parts, i, n) == CommaJoin(parts, n)
    decreases n - i
  {
    if i < n - 1 {
      JoinSplit(parts, i + 1, n);
      var before, more := EachWithComma(parts, i), JoinFrom(parts, i + 1, n);
      Assoc(before + parts[i], [COMMA], more);
      Assoc(before, parts[i], [COMMA] + more);
    }
  }

  /** The text of each item is read as that item wherever an item may end, and does not look like the end of the list. */
  ghost predicate Reads<T>(read: bytes -> Option<Scanned<T>>, close: byte, item: T, part: bytes)
  {
    && part != [] && part[0] != close
    && forall tail :: Ends(tail) ==> read(part + tail) == Some(Scanned(item, tail))
  }

  ghost predicate AllRead<T>(read: bytes -> Option<Scanned<T>>, close: byte, items: seq<T>, parts: seq<bytes>, n: nat)
  {
    n <= |items| && n <= |parts| && forall k :: 0 <= k < n ==> Reads(read, close, items[k], parts[k])
  }

  lemma {:induction false} OneMore<T>(read: bytes -> Option<Scanned<T>>, close: byte, item: T, part: bytes, more: bytes)
    requires Reads(read, close, item, part) && close in {CLOSE_ARRAY, CLOSE_OBJECT}
    ensures ReadSome(read, close, part + ([COMMA] + more)) == Onto(item, ReadSome(read, close, more))
    ensures ReadSome(read, close, part + ([close] + more)) == Some(Scanned([item], more))
  {
    assert Ends([COMMA] + more) && Ends([close] + more);
    assert ([COMMA] + more)[1..] == more && ([close] + more)[1..] == more;
  }

  lemma {:induction false} SomeRead<T>(read: bytes -> Option<Scanned<T>>, close: byte, items: seq<T>, parts: seq<bytes>,
                                       i: nat, n: nat, rest: bytes)
    requires AllRead(read, close, items, parts, n) && i < n && close in {CLOSE_ARRAY, CLOSE_OBJECT}
    ensures ReadSome(read, close, JoinFrom(parts, i, n) + ([close] + rest)) == Some(Scanned(items[i..n], rest))
    decreases n - i
  {
    assert Reads(read, close, items[i], parts[i]);
    if i == n - 1 {
      OneMore(read, close, items[i], parts[i], rest);
      assert items[i..n] == [items[i]];
    } else {
      var more := JoinFrom(parts, i + 1, n) + ([close] + rest);
      SomeRead(read, close, items, parts, i + 1, n, rest);
      OneMore(read, close, items[i], parts[i], more);
      Assoc(parts[i], [COMMA] + JoinFrom(parts, i + 1, n), [close] + rest);
      Assoc([COMMA], JoinFrom(parts, i + 1, n), [close] + rest);
      assert items[i..n] == [items[i]] + items[i + 1..n];
    }
  }

  /** A comma-separated list of readable items is read back as the items. */
  lemma {:induction false} ListReads<T>(read: bytes -> Option<Scanned<T>>, close: byte, items: seq<T>, parts: seq<bytes>,
                                        n: nat, rest: bytes)
    requires AllRead(read, close, items, parts, n) && close in {CLOSE_ARRAY, CLOSE_OBJECT}
    ensures ReadList(read, close, CommaJoin(parts, n) + ([close] + rest)) == Some(Scanned(items[..n], rest))
  {
    var s := CommaJoin(parts, n) + ([close] + rest);
    if n == 0 {
      assert s == [close] + rest && s[1..] == rest;
    } else {
      JoinSplit(parts, 0, n);
      assert CommaJoin(parts, n) == JoinFrom(parts, 0, n);
      SomeRead(read, close, items, parts, 0, n, rest);
      assert Reads(read, close, items[0], parts[0]);
      assert s[0] == parts[0][0];
      assert items[0..n] == items[..n];
    }
  }

  // ---- rows ----

  /** A cell with the name of its column when rows are objects. */
  datatype Field = Field(name: Option<bytes>, value: Json)

  function ReadField(named: bool, s: bytes): Option<Scanned<Field>>
  {
    if !named then
      match ReadValue(s)
      case None => None
      case Some(t) => Some(Scanned(Field(None, t.value), t.rest))
    else
      match ReadString(s)
      case None => None
      case Some(b) =>
        if b.rest == [] || b.rest[0] != COLON then None
        else
          match ReadValue(b.rest[1..])
          case None => None
          case Some(t) => Some(Scanned(Field(Some(b.content), t.value), t.rest))
  }

  function FieldReader(named: bool): bytes -> Option<Scanned<Field>>
  {
    (s: bytes) => ReadField(named, s)
  }

  function CloseOf(named: bool): byte
  {
    if named then CLOSE_OBJECT else CLOSE_ARRAY
  }

  function ReadRow(named: bool, s: bytes): Option<Scanned<seq<Field>>>
  {
    if s == [] || s[0] != (if named then 123 else 91) then None
    else ReadList(FieldReader(named), CloseOf(named), s[1..])
  }

  function Fields(names: Names, values: seq<Json>): (fs: seq<Field>)
    requires names.Some? ==> |names.value| == |values|
    ensures |fs| == |values|
    ensures forall k :: 0 <= k < |fs| ==> fs[k] == Field(if names.None? then None else Some(names.value[k]), values[k])
  {
    seq(|values|, k requires 0 <= k < |values| =>
      Field(if names.None? then None else Some(names.value[k]), values[k]))
  }

  /** The texts of the cells. */
  function Texts(values: seq<Json>): (row: Row)
    ensures |row| == |values| && forall k :: 0 <= k < |row| ==> row[k] == TextOf(values[k])
  {
    seq(|values|, k requires 0 <= k < |values| => TextOf(values[k]))
  }

  lemma {:induction false} FieldReads(names: Names, values: seq<Json>, k: nat, tail: bytes)
    requires (names.Some? ==> |names.value| == |values|) && k < |values| && Ends(tail)
    ensures ReadField(names.Some?, Cell(names, Texts(values), k) + tail) == Some(Scanned(Fields(names, values)[k], tail))
  {
    ValueReads(values[k], tail);
    if names.Some? {
      var name, text := names.value[k], TextOf(values[k]);
      StringRoundTrip(name, [COLON] + (text + tail));
      Assoc(Quoted(name), [COLON], text);
      Assoc(Quoted(name), [COLON] + text, tail);
      Assoc([COLON], text, tail);
      assert ([COLON] + (text + tail))[1..] == text + tail;
    }
  }

  lemma TextStarts(v: Json)
    ensures TextOf(v)[0] !in {CLOSE_ARRAY, CLOSE_OBJECT}
  {
    if v.Number? {
      NumeralStarts(if v.n < 0 then -v.n else v.n, []);
      assert Decimal(if v.n < 0 then -v.n else v.n) + [] == Decimal(if v.n < 0 then -v.n else v.n);
    }
  }

  /** The cells of a row, each behind its name when rows are objects, are readable items. */
  lemma {:induction false} CellReads(names: Names, values: seq<Json>, k: nat)
    requires (names.Some? ==> |names.value| == |values|) && k < |values|
    ensures Reads(FieldReader(names.Some?), CloseOf(names.Some?), Fields(names, values)[k], Cell(names, Texts(values), k))
  {
    TextStarts(values[k]);
    forall tail | Ends(tail)
      ensures FieldReader(names.Some?)(Cell(names, Texts(values), k) + tail) == Some(Scanned(Fields(names, values)[k], tail))
    {
      FieldReads(names, values, k, tail);
    }
  }

  lemma {:induction false} InsideRow(open: bytes, inside: bytes, close: bytes, tail: bytes)
    requires |open| == 1
    ensures (open + inside + close + tail)[0] == open[0] && (open + inside + close + tail)[1..] == inside + (close + tail)
  {
  }

  lemma {:induction false} RowReads(names: Names, values: seq<Json>, tail: bytes)
    requires names.Some? ==> |names.value| == |values|
    ensures ReadRow(names.Some?, RowText(names, Texts(values)) + tail) == Some(Scanned(Fields(names, values), tail))
  {
    var named, n := names.Some?, |values|;
    var parts := Cells(names, Texts(values));
    forall k | 0 <= k < n ensures Reads(FieldReader(named), CloseOf(named), Fields(names, values)[k], parts[k]) {
      CellReads(names, values, k);
    }
    ListReads(FieldReader(named), CloseOf(named), Fields(names, values), parts, n, tail);
    assert Fields(names, values)[..n] == Fields(names, values);
    InsideRow(OpenRow(names), CommaJoin(parts, n), CloseRow(names), tail);
  }

  // ---- the response ----

  function RowReader(named: bool): bytes -> Option<Scanned<seq<Field>>>
  {
    (s: bytes) => ReadRow(named, s)
  }

  predicate Named(names: Names, table: seq<seq<Json>>)
  {
    names.Some? ==> forall k :: 0 <= k < |table| ==> |table[k]| == |names.value|
  }

  function Rows(table: seq<seq<Json>>): (rows: seq<Row>)
    ensures |rows| == |table| && forall k :: 0 <= k < |rows| ==> rows[k] == Texts(table[k])
  {
    seq(|table|, k requires 0 <= k < |table| => Texts(table[k]))
  }

  function AllFields(names: Names, table: seq<seq<Json>>): (fs: seq<seq<Field>>)
    requires Named(names, table)
    ensures |fs| == |table|
    ensures forall k :: 0 <= k < |fs| ==> (names.Some? ==> |names.value| == |table[k]|) && fs[k] == Fields(names, table[k])
  {
    seq(|table|, k requires 0 <= k < |table| => Fields(names, table[k]))
  }

  lemma {:induction false} RowIsItem(names: Names, values: seq<Json>, part: bytes)
    requires (names.Some? ==> |names.value| == |values|) && part == RowText(names, Texts(values))
    ensures Reads(RowReader(names.Some?), CLOSE_ARRAY, Fields(names, values), part)
  {
    forall tail | Ends(tail) ensures RowReader(names.Some?)(part + tail) == Some(Scanned(Fields(names, values), tail)) {
      RowReads(names, values, tail);
    }
  }

  lemma {:induction false} RowsAreItems(names: Names, table: seq<seq<Json>>, count: nat)
    requires Named(names, table) && count <= |table|
    ensures AllRead(RowReader(names.Some?), CLOSE_ARRAY, AllFields(names, table), RowTexts(names, Rows(table)), count)
  {
    var parts, items := RowTexts(names, Rows(table)), AllFields(names, table);
    forall k | 0 <= k < count ensures Reads(RowReader(names.Some?), CLOSE_ARRAY, items[k], parts[k]) {
      RowTextAt(names, Rows(table), k);
      RowIsItem(names, table[k], parts[k]);
    }
  }

  lemma {:induction false} BehindPrefix(prefix: bytes, data: bytes, trailer: bytes)
    ensures prefix <= prefix + data + trailer && (prefix + data + trailer)[|prefix|..] == data + trailer
  {
  }

  lemma {:induction false} TrailerIs(count: nat, timing: Option<int>)
    ensures Trailer(count, timing) == QUERY4 + (Decimal(count) + (TimingText(timing) + [125]))
    ensures Trailer(count, timing)[0] == CLOSE_ARRAY
  {
    Assoc(QUERY4, Decimal(count), TimingText(timing));
    Assoc(QUERY4, Decimal(count) + TimingText(timing), [125]);
    Assoc(Decimal(count), TimingText(timing), [125]);
  }

  /** The data array, from behind its opening, whatever follows it. */
  lemma {:induction false} DataReads(names: Names, table: seq<seq<Json>>, count: nat, trailer: bytes)
    requires Named(names, table) && count <= |table| && trailer != [] && trailer[0] == CLOSE_ARRAY
    ensures ReadList(RowReader(names.Some?), CLOSE_ARRAY, CommaJoin(RowTexts(names, Rows(table)), count) + trailer)
            == Some(Scanned(AllFields(names, table)[..count], trailer[1..]))
  {
    assert trailer == [CLOSE_ARRAY] + trailer[1..];
    RowsAreItems(names, table, count);
    ListReads(RowReader(names.Some?), CLOSE_ARRAY, AllFields(names, table), RowTexts(names, Rows(table)), count, trailer[1..]);
  }

  /**
    Behind the opening of the data array, a response is read as exactly the first `count` rows, cell by cell; what
    follows the array starts with their number.
  */
  lemma {:induction false} ResponseReads(names: Names, table: seq<seq<Json>>, count: nat, timing: Option<int>, text: bytes)
    requires Named(names, table) && count <= |table| && text == ResponseText(names, Rows(table), count, timing)
    ensures QUERY3 <= text
    ensures ReadList(RowReader(names.Some?), CLOSE_ARRAY, text[|QUERY3|..])
            == Some(Scanned(AllFields(names, table)[..count], Trailer(count, timing)[1..]))
  {
    BehindPrefix(QUERY3, CommaJoin(RowTexts(names, Rows(table)), count), Trailer(count, timing));
    TrailerIs(count, timing);
    DataReads(names, table, count, Trailer(count, timing));
  }

  lemma {:induction false} CountReads(count: nat, timing: Option<int>)
    ensures QUERY4 <= Trailer(count, timing)
    ensures ReadNatural(Trailer(count, timing)[|QUERY4|..]) == Some(Scanned(count, TimingText(timing) + [125]))
  {
    var tail := TimingText(timing) + [125];
    TrailerIs(count, timing);
    BehindPrefix(QUERY4, Decimal(count), tail);
    Assoc(QUERY4, Decimal(count), tail);
    NaturalReads(count, tail);
  }

  /**
    What a client reads of a response that was sent completely: the rows of the table, all of them or as many as the
    limit allows, cell by cell, and then their number.
  */
  lemma {:induction false} SentResponseReads(names: Names, table: seq<seq<Json>>, limit: int, total: nat,
                                             timing: Option<int>, text: bytes)
    requires Named(names, table) && total <= |table| && (limit < 0 ==> total == |table|)
    requires (limit >= 0 ==> total <= limit) && (total < |table| ==> total == limit)
    requires text == ResponseText(names, Rows(table), total, timing)
    ensures QUERY3 <= text
    ensures var data := ReadList(RowReader(names.Some?), CLOSE_ARRAY, text[|QUERY3|..]);
            && data.Some? && |data.value.value| == total == (if limit < 0 || |table| < limit then |table| else limit)
            && (forall k :: 0 <= k < |data.value.value| ==> data.value.value[k] == AllFields(names, table)[k])
            && QUERY4[1..] <= data.value.rest
            && ReadNatural(data.value.rest[|QUERY4| - 1..])
               == Some(Scanned(total, TimingText(timing) + [125]))
  {
    ResponseReads(names, table, total, timing, text);
    CountReads(total, timing);
    var trailer := Trailer(total, timing);
    assert trailer[1..][|QUERY4| - 1..] == trailer[|QUERY4|..];
    assert QUERY4[1..] <= trailer[1..];
  }
}
