/** Queues of numbers: order, absence of repetition, and removal of one element. */
module Sequences {
  ghost predicate Increasing(q: seq<nat>)
  {
    forall i, j :: 0 <= i < j < |q| ==> q[i] < q[j]
  }

  ghost predicate NoDup(q: seq<nat>)
  {
    forall i, j :: 0 <= i < j < |q| ==> q[i] != q[j]
  }

  /** The queue without the first occurrence of `x`. */
  function Without(q: seq<nat>, x: nat): (q': seq<nat>)
    ensures forall y :: y in q' ==> y in q
    ensures |q'| <= |q|
  {
    if q == [] then []
    else if q[0] == x then q[1..]
    else [q[0]] + Without(q[1..], x)
  }

  lemma {:induction false} WithoutIncreasing(q: seq<nat>, x: nat)
    requires Increasing(q)
    ensures Increasing(Without(q, x))
    ensures forall y :: y in Without(q, x) <==> y in q && y != x
  {
    if q != [] {
      assert q == [q[0]] + q[1..];
      assert Increasing(q[1..]);
      WithoutIncreasing(q[1..], x);
      var rest := Without(q[1..], x);
      forall j | 0 <= j < |rest| ensures q[0] < rest[j] {
        assert rest[j] in q[1..];
      }
    }
  }

  lemma IncreasingAppend(q: seq<nat>, x: nat)
    requires Increasing(q) && forall y :: y in q ==> y < x
    ensures Increasing(q + [x])
  {
    forall i | 0 <= i < |q| ensures q[i] < x {
      assert q[i] in q;
    }
  }

  lemma HeadOfIncreasing(q: seq<nat>)
    requires Increasing(q) && q != []
    ensures Increasing(q[1..])
    ensures forall x :: x in q <==> x == q[0] || x in q[1..]
    ensures forall x :: x in q[1..] ==> q[0] < x
  {
    assert q == [q[0]] + q[1..];
  }

  lemma NoDupAppend(q: seq<nat>, x: nat)
    requires NoDup(q) && x !in q
    ensures NoDup(q + [x])
  {
  }

  lemma HeadOfNoDup(q: seq<nat>)
    requires NoDup(q) && q != []
    ensures NoDup(q[1..])
    ensures forall x :: x in q[1..] <==> x in q && x != q[0]
  {
    assert q == [q[0]] + q[1..];
  }
}
