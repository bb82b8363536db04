/** Reading a text from its front. */
module Scanning {
  import opened Wrappers
  import opened Bytes

  /** What was read from the front of a text, and what follows it. */
  datatype Scanned<T> = Scanned(value: T, rest: bytes)

  /** One more item before those that were read. */
  function Onto<T>(first: T, s: Option<Scanned<seq<T>>>): Option<Scanned<seq<T>>>
  {
    if s.None? then None else Some(Scanned([first] + s.value.value, s.value.rest))
  }

  lemma OntoRest<T>(v: seq<T>, rest: bytes)
    requires v != []
    ensures Onto(v[0], Some(Scanned(v[1..], rest))) == Some(Scanned(v, rest))
  {
    assert [v[0]] + v[1..] == v;
  }

  lemma OntoIff<T>(v: seq<T>, rest: bytes, t: Option<Scanned<seq<T>>>)
    requires v != []
    ensures Onto(v[0], t) == Some(Scanned(v, rest)) <==> t == Some(Scanned(v[1..], rest))
  {
    OntoRest(v, rest);
    if Onto(v[0], t) == Some(Scanned(v, rest)) {
      assert v[1..] == t.value.value;
    }
  }
}
