/** What the row tuples of a CSV upload mean: a reader of SQL literals gives back the record they were written from. */
module UploadTuples {
  import opened Wrappers
  import opened Bytes
  import opened Csv
  import opened Scanning
  import opened Upload

  // ---- one literal ----

  /** Reads a string behind its opening apostrophe: a backslash stands for the byte behind it. */
  function ScanString(s: bytes): Option<Scanned<bytes>>
  {
    if s == [] then None
    else if s[0] == APOSTROPHE then Some(Scanned([], s[1..]))
    else if s[0] == BACKSLASH then
      if |s| == 1 then None else Onto(s[1], ScanString(s[2..]))
    else Onto(s[0], ScanString(s[1..]))
  }

  /** What ends a literal that is not quoted. */
  predicate EndsWord(b: byte)
  {
    b == COMMA || b == CLOSE
  }

  predicate Terminated(tail: bytes)
  {
    tail != [] && EndsWord(tail[0])
  }

  /** The number of bytes up to the next comma or closing parenthesis. */
  function WordLength(s: bytes): (n: nat)
    ensures n <= |s| && (forall k :: 0 <= k < n ==> !EndsWord(s[k])) && (n < |s| ==> EndsWord(s[n]))
  {
    if s == [] || EndsWord(s[0]) then 0 else 1 + WordLength(s[1..])
  }

  /** Reads a quoted string, the word null, or any other word. */
  function ScanLiteral(s: bytes): Option<Scanned<Cell>>
  {
    if s != [] && s[0] == APOSTROPHE then
      match ScanString(s[1..])
      case None => None
      case Some(t) => Some(Scanned(Some(t.value), t.rest))
    else
      var n := WordLength(s);
      if n == 0 then None else Some(Scanned(if s[..n] == NULL then None else Some(s[..n]), s[n..]))
  }

  /** The text of one byte of a string. */
  function ReplaceByte(b: byte): (s: bytes)
    ensures Replace([b]) == s
  {
    assert Replace([]) == [];
    if b in {BACKSLASH, APOSTROPHE, OPEN, CLOSE} then [BACKSLASH, b] else [b]
  }

  lemma {:induction false} ByteIsScanned(b: byte, more: bytes)
    ensures ScanString(ReplaceByte(b) + more) == Onto(b, ScanString(more))
  {
    var text := ReplaceByte(b) + more;
    assert text[|ReplaceByte(b)|..] == more;
  }

  lemma {:induction false} ReplaceFirst(v: bytes, tail: bytes)
    requires v != []
    ensures Replace(v) + tail == ReplaceByte(v[0]) + (Replace(v[1..]) + tail)
  {
    Assoc(ReplaceByte(v[0]), Replace(v[1..]), tail);
  }

  /** The replaced text ends at the apostrophe behind it and not before, and is read as what was replaced. */
  lemma {:induction false} ReplacedIsScanned(v: bytes, rest: bytes)
    ensures ScanString(Replace(v) + ([APOSTROPHE] + rest)) == Some(Scanned(v, rest))
    decreases |v|
  {
    var tail := [APOSTROPHE] + rest;
    if v == [] {
      assert Replace(v) + tail == tail;
    } else {
      ReplaceFirst(v, tail);
      ByteIsScanned(v[0], Replace(v[1..]) + tail);
      ReplacedIsScanned(v[1..], rest);
      OntoRest(v, rest);
    }
  }

  lemma {:induction false} QuotedText(s: bytes, rest: bytes)
    ensures ([APOSTROPHE] + s + [APOSTROPHE] + rest)[1..] == s + ([APOSTROPHE] + rest)
  {
  }

  lemma {:induction false} StringIsScanned(v: bytes, rest: bytes)
    ensures ScanLiteral(Literal(Some(v), true) + rest) == Some(Scanned(Some(v), rest))
  {
    QuotedText(Replace(v), rest);
    ReplacedIsScanned(v, rest);
  }

  lemma {:induction false} WordIs(word: bytes, tail: bytes)
    requires Terminated(tail)
    ensures WordLength(word + tail) <= |word|
    ensures WordLength(word + tail) == |word| <==> forall k :: 0 <= k < |word| ==> !EndsWord(word[k])
  {
    var n := WordLength(word + tail);
    assert (word + tail)[|word|] == tail[0];
    assert forall k :: 0 <= k < |word| ==> (word + tail)[k] == word[k];
    assert n < |word| ==> EndsWord(word[n]);
  }

  lemma {:induction false} NullIsScanned(isStr: bool, rest: bytes)
    requires Terminated(rest)
    ensures ScanLiteral(Literal(None, isStr) + rest) == Some(Scanned(None, rest))
  {
    var text := NULL + rest;
    WordIs(NULL, rest);
    assert text[..4] == NULL && text[4..] == rest;
  }

  // ---- cells that are written without quotes ----

  /** A text that stands for itself between commas: a word other than null. */
  predicate IsWord(v: bytes)
  {
    v != [] && v != NULL && v[0] != APOSTROPHE && forall k :: 0 <= k < |v| ==> !EndsWord(v[k])
  }

  lemma {:induction false} WordIsScanned(v: bytes, rest: bytes)
    requires IsWord(v) && Terminated(rest)
    ensures ScanLiteral(Literal(Some(v), false) + rest) == Some(Scanned(Some(v), rest))
  {
    WordIs(v, rest);
    assert (v + rest)[..|v|] == v && (v + rest)[|v|..] == rest;
  }

  predicate Special(b: byte)
  {
    b == BACKSLASH || b == APOSTROPHE
  }

  /** Where a string is read as backslashes and apostrophes, each of them stands behind a backslash. */
  lemma {:induction false} EscapedPairs(t: bytes, v: bytes, rest: bytes, k: nat)
    requires ScanString(t) == Some(Scanned(v, rest)) && k <= |v| && forall j :: 0 <= j < k ==> Special(v[j])
    ensures 2 * k <= |t| && forall j :: 0 <= j < k ==> t[2 * j] == BACKSLASH && t[2 * j + 1] == v[j]
    decreases k
  {
    if k > 0 {
      assert Special(v[0]);
      var more := ScanString(t[2..]).value;
      assert v == [v[0]] + more.value;
      EscapedPairs(t[2..], v[1..], rest, k - 1);
      forall j | 0 <= j < k ensures t[2 * j] == BACKSLASH && t[2 * j + 1] == v[j] {
        assert j > 0 ==> t[2 * j] == t[2..][2 * (j - 1)] && t[2 * j + 1] == t[2..][2 * (j - 1) + 1] && v[j] == v[1..][j - 1];
      }
    }
  }

  lemma {:induction false} PairsAreSpecial(t: bytes, v: bytes, rest: bytes, k: nat, p: nat)
    requires ScanString(t) == Some(Scanned(v, rest)) && k <= |v| && (forall j :: 0 <= j < k ==> Special(v[j])) && p < 2 * k
    ensures p < |t| && Special(t[p])
  {
    EscapedPairs(t, v, rest, k);
    var j := p / 2;
    assert p == 2 * j || p == 2 * j + 1;
    assert t[2 * j] == BACKSLASH && t[2 * j + 1] == v[j];
  }

  /** A text that starts with an apostrophe is never read as itself: its escapes would have no end. */
  lemma {:induction false} ApostropheIsNotItself(v: bytes, tail: bytes)
    requires v != [] && v[0] == APOSTROPHE && Terminated(tail)
    ensures ScanString(v[1..] + tail).None? || ScanString(v[1..] + tail).value.value != v
  {
    var t := v[1..] + tail;
    if ScanString(t).Some? && ScanString(t).value.value == v {
      var rest, k := ScanString(t).value.rest, 1;
      while k < |v|
        invariant 1 <= k <= |v| && forall j :: 0 <= j < k ==> Special(v[j])
      {
        PairsAreSpecial(t, v, rest, k, k - 1);
        assert t[k - 1] == v[k];
        k := k + 1;
      }
      PairsAreSpecial(t, v, rest, |v|, |v| - 1);
      assert false;
    }
  }

  /** One column without quotes is read back, whatever stands behind its end, exactly when it is a word. */
  lemma {:induction false} BareIsScannedIff(v: bytes, tail: bytes)
    requires Terminated(tail)
    ensures var t := ScanLiteral(Literal(Some(v), false) + tail);
            && (t == Some(Scanned(Some(v), tail)) <==> IsWord(v))
            && (t.Some? && t.value.value == Some(v) ==> IsWord(v))
  {
    if IsWord(v) {
      WordIsScanned(v, tail);
    } else if v == [] {
      assert v + tail == tail;
    } else if v[0] == APOSTROPHE {
      assert (v + tail)[1..] == v[1..] + tail;
      ApostropheIsNotItself(v, tail);
    } else {
      var n := WordLength(v + tail);
      WordIs(v, tail);
      assert (v + tail)[..n] == v[..n];
    }
  }

  // ---- whole tuples ----

  /** Drops a comma when one is expected. */
  function AfterComma(s: bytes, expected: bool): Option<bytes>
  {
    if !expected then Some(s)
    else if s != [] && s[0] == COMMA then Some(s[1..])
    else None
  }

  /** Reads `n` literals with commas between them. */
  function ScanLiterals(s: bytes, n: nat): Option<Scanned<Record>>
    decreases n
  {
    if n == 0 then Some(Scanned([], s))
    else
      match ScanLiteral(s)
      case None => None
      case Some(t) =>
        match AfterComma(t.rest, n > 1)
        case None => None
        case Some(more) => Onto(t.value, ScanLiterals(more, n - 1))
  }

  function ScanTuple(s: bytes, n: nat): Option<Scanned<Record>>
  {
    if s == [] || s[0] != OPEN then None
    else
      match ScanLiterals(s[1..], n)
      case None => None
      case Some(t) => if t.rest == [] || t.rest[0] != CLOSE then None else Some(t.(rest := t.rest[1..]))
  }

  function Separator(i: nat, n: nat): bytes
  {
    if i + 1 < n then [COMMA] else []
  }

  /** The literals from column `i` on. */
  function LiteralsFrom(record: Record, isStr: seq<bool>, i: nat): bytes
    requires i <= |isStr| <= |record|
    decreases |isStr| - i
  {
    if i == |isStr| then []
    else Literal(record[i], isStr[i]) + (Separator(i, |isStr|) + LiteralsFrom(record, isStr, i + 1))
  }

  lemma {:induction false} LiteralsSplit(record: Record, isStr: seq<bool>, i: nat)
    requires i <= |isStr| <= |record|
    ensures Literals(record, isStr, i) + LiteralsFrom(record, isStr, i) == Literals(record, isStr, |isStr|)
    decreases |isStr| - i
  {
    if i < |isStr| {
      LiteralsSplit(record, isStr, i + 1);
      var before, literal := Literals(record, isStr, i), Literal(record[i], isStr[i]);
      var comma, more := Separator(i, |isStr|), LiteralsFrom(record, isStr, i + 1);
      assert Literals(record, isStr, i + 1) == before + literal + comma;
      Assoc(before + literal, comma, more);
      Assoc(before, literal, comma + more);
    }
  }

  /** What is written for a cell can be read back. */
  predicate Clear(cell: Cell, isStr: bool)
  {
    isStr || cell.None? || IsWord(cell.value)
  }

  predicate ClearFrom(record: Record, isStr: seq<bool>, i: nat)
  {
    |isStr| <= |record| && forall k :: i <= k < |isStr| ==> Clear(record[k], isStr[k])
  }

  lemma {:induction false} ColumnIsScannedIff(cell: Cell, isStr: bool, rest: bytes)
    requires Terminated(rest)
    ensures var t := ScanLiteral(Literal(cell, isStr) + rest);
            && (t == Some(Scanned(cell, rest)) <==> Clear(cell, isStr))
            && (t.Some? && t.value.value == cell ==> Clear(cell, isStr))
  {
    if cell.None? {
      NullIsScanned(isStr, rest);
    } else if isStr {
      StringIsScanned(cell.value, rest);
    } else {
      BareIsScannedIff(cell.value, rest);
    }
  }

  lemma {:induction false} SeparatorIsRead(i: nat, n: nat, more: bytes)
    requires i < n
    ensures AfterComma(Separator(i, n) + more, n - i > 1) == Some(more)
  {
    assert Separator(i, n) + more == if i + 1 < n then [COMMA] + more else more;
  }

  lemma {:induction false} FirstLiteral(record: Record, isStr: seq<bool>, i: nat, rest: bytes)
    requires i < |isStr| <= |record|
    ensures LiteralsFrom(record, isStr, i) + rest
            == Literal(record[i], isStr[i]) + (Separator(i, |isStr|) + (LiteralsFrom(record, isStr, i + 1) + rest))
  {
    var literal, comma := Literal(record[i], isStr[i]), Separator(i, |isStr|);
    var more := LiteralsFrom(record, isStr, i + 1);
    Assoc(literal, comma + more, rest);
    Assoc(comma, more, rest);
  }

  lemma {:induction false} SeparatorEnds(record: Record, isStr: seq<bool>, i: nat, rest: bytes)
    requires i < |isStr| <= |record| && Terminated(rest)
    ensures Terminated(Separator(i, |isStr|) + (LiteralsFrom(record, isStr, i + 1) + rest))
  {
    assert i + 1 == |isStr| ==> LiteralsFrom(record, isStr, i + 1) + rest == rest;
  }

  lemma {:induction false} ScanStep(s: bytes, n: nat, cell: Cell, tail: bytes, more: bytes)
    requires n > 0 && ScanLiteral(s) == Some(Scanned(cell, tail)) && AfterComma(tail, n > 1) == Some(more)
    ensures ScanLiterals(s, n) == Onto(cell, ScanLiterals(more, n - 1))
  {
  }

  lemma {:induction false} FirstIsScanned(record: Record, isStr: seq<bool>, i: nat, rest: bytes)
    requires i < |isStr| <= |record| && Clear(record[i], isStr[i]) && Terminated(rest)
    ensures ScanLiterals(LiteralsFrom(record, isStr, i) + rest, |isStr| - i)
            == Onto(record[i], ScanLiterals(LiteralsFrom(record, isStr, i + 1) + rest, |isStr| - i - 1))
  {
    var more := LiteralsFrom(record, isStr, i + 1) + rest;
    var tail := Separator(i, |isStr|) + more;
    FirstLiteral(record, isStr, i, rest);
    SeparatorEnds(record, isStr, i, rest);
    ColumnIsScannedIff(record[i], isStr[i], tail);
    SeparatorIsRead(i, |isStr|, more);
    ScanStep(Literal(record[i], isStr[i]) + tail, |isStr| - i, record[i], tail, more);
  }

  lemma {:induction false} FirstIsNotScanned(record: Record, isStr: seq<bool>, i: nat, rest: bytes)
    requires i < |isStr| <= |record| && !Clear(record[i], isStr[i]) && Terminated(rest)
    ensures var t := ScanLiterals(LiteralsFrom(record, isStr, i) + rest, |isStr| - i);
            t.None? || t.value.value[0] != record[i]
  {
    var more := LiteralsFrom(record, isStr, i + 1) + rest;
    var tail := Separator(i, |isStr|) + more;
    FirstLiteral(record, isStr, i, rest);
    SeparatorEnds(record, isStr, i, rest);
    ColumnIsScannedIff(record[i], isStr[i], tail);
  }

  lemma RestOfColumns(record: Record, i: nat, n: nat)
    requires i < n <= |record|
    ensures record[i..n] != [] && record[i..n][0] == record[i] && record[i..n][1..] == record[i + 1..n]
  {
  }

  lemma ClearOneMore(record: Record, isStr: seq<bool>, i: nat)
    requires i < |isStr| <= |record|
    ensures ClearFrom(record, isStr, i) <==> Clear(record[i], isStr[i]) && ClearFrom(record, isStr, i + 1)
  {
  }

  /** The literals from column `i` on are read back as the columns, up to what follows them. */
  predicate BackFrom(record: Record, isStr: seq<bool>, i: nat, rest: bytes)
    requires i <= |isStr| <= |record|
  {
    ScanLiterals(LiteralsFrom(record, isStr, i) + rest, |isStr| - i) == Some(Scanned(record[i..|isStr|], rest))
  }

  lemma {:induction false} ColumnStepIff(record: Record, isStr: seq<bool>, i: nat, rest: bytes)
    requires i < |isStr| <= |record| && Terminated(rest)
    ensures BackFrom(record, isStr, i, rest) <==> Clear(record[i], isStr[i]) && BackFrom(record, isStr, i + 1, rest)
  {
    RestOfColumns(record, i, |isStr|);
    if Clear(record[i], isStr[i]) {
      FirstIsScanned(record, isStr, i, rest);
      OntoIff(record[i..|isStr|], rest, ScanLiterals(LiteralsFrom(record, isStr, i + 1) + rest, |isStr| - i - 1));
    } else {
      FirstIsNotScanned(record, isStr, i, rest);
    }
  }

  lemma {:induction false} LiteralsAreScannedIff(record: Record, isStr: seq<bool>, i: nat, rest: bytes)
    requires i <= |isStr| <= |record| && Terminated(rest)
    ensures BackFrom(record, isStr, i, rest) <==> ClearFrom(record, isStr, i)
    decreases |isStr| - i
  {
    if i == |isStr| {
      assert LiteralsFrom(record, isStr, i) + rest == rest;
      assert record[i..|isStr|] == [];
    } else {
      ColumnStepIff(record, isStr, i, rest);
      LiteralsAreScannedIff(record, isStr, i + 1, rest);
      ClearOneMore(record, isStr, i);
    }
  }

  lemma {:induction false} InsideTuple(literals: bytes, rest: bytes)
    ensures var text := [OPEN] + literals + [CLOSE] + rest; text[0] == OPEN && text[1..] == literals + ([CLOSE] + rest)
  {
  }

  lemma {:induction false} ScanInsideIff(s: bytes, n: nat, record: Record, rest: bytes)
    requires s != [] && s[0] == OPEN
    ensures ScanTuple(s, n) == Some(Scanned(record, rest)) <==>
            ScanLiterals(s[1..], n) == Some(Scanned(record, [CLOSE] + rest))
  {
    assert ([CLOSE] + rest)[1..] == rest;
    if ScanTuple(s, n) == Some(Scanned(record, rest)) {
      var t := ScanLiterals(s[1..], n).value;
      assert t.rest == [t.rest[0]] + t.rest[1..];
    }
  }

  /**
    The tuple is read back as the record, and ends where it was closed, exactly when each column that is neither null
    nor quoted is a word; quoted columns may hold any bytes.
  */
  lemma {:induction false} TupleIsScannedIff(record: Record, isStr: seq<bool>, rest: bytes)
    requires |isStr| <= |record|
    ensures ScanTuple(Tuple(record, isStr) + rest, |isStr|) == Some(Scanned(record[..|isStr|], rest))
            <==> ClearFrom(record, isStr, 0)
  {
    var literals := LiteralsFrom(record, isStr, 0);
    assert Literals(record, isStr, |isStr|) == literals by {
      LiteralsSplit(record, isStr, 0);
      assert Literals(record, isStr, 0) + literals == literals;
    }
    InsideTuple(literals, rest);
    LiteralsAreScannedIff(record, isStr, 0, [CLOSE] + rest);
    assert record[0..|isStr|] == record[..|isStr|];
    ScanInsideIff(Tuple(record, isStr) + rest, |isStr|, record[..|isStr|], rest);
  }
}
