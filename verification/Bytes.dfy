/** Bytes and the search that the Go `bytes` package does over them. */
module Bytes {
  newtype byte = x: int | 0 <= x < 0x100

  type bytes = seq<byte>

  /** The word null, of JSON and of SQL. */
  const NULL: bytes := [110, 117, 108, 108]

  predicate FirstAt(s: bytes, b: byte, i: nat)
  {
    i < |s| && s[i] == b && forall k :: 0 <= k < i ==> s[k] != b
  }

  lemma SomeFirst(s: bytes, b: byte)
    requires b in s
    ensures exists i: nat :: i < |s| && FirstAt(s, b, i)
  {
    if s[0] == b {
      assert FirstAt(s, b, 0);
    } else {
      SomeFirst(s[1..], b);
      var i: nat :| i < |s[1..]| && FirstAt(s[1..], b, i);
      assert forall k :: 1 <= k < i + 1 ==> s[k] == s[1..][k - 1];
      assert FirstAt(s, b, i + 1);
    }
  }

  /** The first index of `b` in `s`, or the length of `s` when there is none. */
  function IndexOf(s: bytes, b: byte): (i: nat)
    ensures i <= |s|
    ensures forall k :: 0 <= k < i ==> s[k] != b
    ensures i < |s| ==> s[i] == b
  {
    if b in s then
      SomeFirst(s, b);
      var i: nat :| i < |s| && FirstAt(s, b, i);
      i
    else |s|
  }

  /** The contract of `IndexOf` determines it. */
  lemma IndexIs(s: bytes, b: byte, i: nat)
    requires i <= |s|
    requires forall k :: 0 <= k < i ==> s[k] != b
    requires i < |s| ==> s[i] == b
    ensures IndexOf(s, b) == i
  {
    if IndexOf(s, b) < i {
      assert false;
    }
  }

  lemma Assoc(a: bytes, b: bytes, c: bytes)
    ensures a + b + c == a + (b + c)
  {
  }

  /** The first `n` parts one after another. */
  function Concat(parts: seq<bytes>, n: nat): bytes
    requires n <= |parts|
  {
    if n == 0 then [] else Concat(parts, n - 1) + parts[n - 1]
  }

  lemma {:induction false} ConcatOfPrefix(parts: seq<bytes>, more: seq<bytes>, n: nat)
    requires n <= |parts|
    ensures Concat(parts + more, n) == Concat(parts, n)
    decreases n
  {
    if n > 0 {
      ConcatOfPrefix(parts, more, n - 1);
    }
  }

  lemma ConcatSnoc(parts: seq<bytes>, last: bytes)
    ensures Concat(parts + [last], |parts| + 1) == Concat(parts, |parts|) + last
  {
    ConcatOfPrefix(parts, [last], |parts|);
  }
}
