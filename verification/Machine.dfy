/** Runs of a transition system that is given by its step function. */
module Machine {
  import opened Wrappers

  /** The state after the events, or `None` when one of them is not enabled. */
  function Run<S, E>(next: (S, E) -> Option<S>, s: S, es: seq<E>): Option<S>
    decreases |es|
  {
    if es == [] then Some(s)
    else
      match next(s, es[0])
      case None => None
      case Some(s1) => Run(next, s1, es[1..])
  }

  lemma RunOne<S, E>(next: (S, E) -> Option<S>, s: S, e: E)
    ensures Run(next, s, [e]) == next(s, e)
  {
    assert [e][1..] == [];
  }

  lemma {:induction false} RunAppend<S, E>(next: (S, E) -> Option<S>, s: S, es: seq<E>, more: seq<E>)
    requires Run(next, s, es).Some?
    ensures Run(next, s, es + more) == Run(next, Run(next, s, es).value, more)
    decreases |es|
  {
    if es == [] {
      assert es + more == more;
    } else {
      assert (es + more)[1..] == es[1..] + more;
      RunAppend(next, next(s, es[0]).value, es[1..], more);
    }
  }

  lemma RunSnoc<S, E>(next: (S, E) -> Option<S>, s: S, es: seq<E>, e: E)
    requires Run(next, s, es).Some?
    ensures Run(next, s, es + [e]) == next(Run(next, s, es).value, e)
  {
    RunAppend(next, s, es, [e]);
    RunOne(next, Run(next, s, es).value, e);
  }

  /** A run goes on by one event. */
  lemma RunOn<S, E>(next: (S, E) -> Option<S>, s0: S, es: seq<E>, s: S, e: E, s': S)
    requires Run(next, s0, es) == Some(s) && next(s, e) == Some(s')
    ensures Run(next, s0, es + [e]) == Some(s')
  {
    RunSnoc(next, s0, es, e);
  }
}
