/**
  The pool of callback handlers of db/async/handlerpool.go: a fixed number of handlers, a channel of that capacity
  and a list of one-slot waiter channels.
*/
module HandlerPool {
  import opened Wrappers
  import Machine
  import opened Sequences
  import opened ConnectPool

  type Handler = Conn

  /** `slow` counts calls of `Get` that found the channel empty and have not queued yet. */
  datatype Handlers = Handlers(
    count: nat,
    handlers: seq<Handler>,
    reqList: seq<Req>,
    slots: seq<Slot>,
    held: set<Handler>,
    slow: nat)

  datatype Step = TrySelect | Enqueue | Await(r: Req) | PutBack(h: Handler)

  /** `None` is a step that cannot happen; for `PutBack` of a held handler, a send that blocks with the mutex held. */
  function Act(s: Handlers, e: Step): Option<Handlers>
  {
    match e
    case TrySelect =>
      if s.handlers != [] then Some(s.(handlers := s.handlers[1..], held := s.held + {s.handlers[0]}))
      else Some(s.(slow := s.slow + 1))
    case Enqueue =>
      if s.slow == 0 then None
      else Some(s.(slow := s.slow - 1, reqList := s.reqList + [|s.slots|], slots := s.slots + [Empty]))
    case Await(r) =>
      if r < |s.slots| && s.slots[r].Full? then
        Some(s.(slots := s.slots[r := Empty], held := s.held + {s.slots[r].conn}))
      else None
    case PutBack(h) =>
      if h !in s.held then None
      else if s.reqList != [] then
        var r := s.reqList[0];
        if r < |s.slots| && s.slots[r].Empty? then
          Some(s.(reqList := s.reqList[1..], slots := s.slots[r := Full(h)], held := s.held - {h}))
        else None
      else if |s.handlers| < s.count then Some(s.(handlers := s.handlers + [h], held := s.held - {h}))
      else None
  }

  function Acts(s: Handlers, es: seq<Step>): Option<Handlers>
  {
    Machine.Run(Act, s, es)
  }

  function NewHandlerPool(count: nat): Handlers
  {
    Handlers(count, seq(count, i => i), [], [], {}, 0)
  }

  ghost predicate Steady(s: Handlers)
  {
    && OnePlace(s.handlers, s.held, s.slots, [], s.count)
    && Increasing(s.reqList)
    && (forall i :: 0 <= i < |s.reqList| ==> s.reqList[i] < |s.slots| && s.slots[s.reqList[i]].Empty?)
  }

  lemma Total(s: Handlers)
    requires Steady(s)
    ensures |s.handlers| + |s.held| + |InSlots(s.slots)| == s.count
  {
    AllCounts(s.count);
    assert |multiset(s.handlers) + multiset(s.held) + InSlots(s.slots) + multiset([])|
        == |s.handlers| + |s.held| + |InSlots(s.slots)|;
  }

  lemma PutBackKeepsSteady(s: Handlers, h: Handler)
    requires Steady(s) && h in s.held
    ensures Act(s, PutBack(h)).Some? && Steady(Act(s, PutBack(h)).value)
  {
    Total(s);
    assert s.held == (s.held - {h}) + {h};
    if s.reqList != [] {
      CallerToSlot(s.handlers, s.held, s.slots, [], s.count, h, s.reqList[0]);
    } else {
      CallerAway(s.handlers, s.held, s.slots, [], s.count, h);
    }
  }

  lemma TrySelectKeepsSteady(s: Handlers, s': Handlers)
    requires Steady(s) && Act(s, TrySelect) == Some(s')
    ensures Steady(s') && s'.count == s.count
  {
    if s.handlers != [] {
      IdleToCaller(s.handlers, s.held, s.slots, [], s.count);
    }
  }

  lemma EnqueueKeepsSteady(s: Handlers, s': Handlers)
    requires Steady(s) && Act(s, Enqueue) == Some(s')
    ensures Steady(s') && s'.count == s.count
  {
    SlotAdded(s.handlers, s.held, s.slots, [], s.count);
    IncreasingAppend(s.reqList, |s.slots|);
  }

  lemma AwaitKeepsSteady(s: Handlers, r: Req, s': Handlers)
    requires Steady(s) && Act(s, Await(r)) == Some(s')
    ensures Steady(s') && s'.count == s.count
  {
    SlotToCaller(s.handlers, s.held, s.slots, [], s.count, r);
  }

  lemma ActKeepsSteady(s: Handlers, e: Step, s': Handlers)
    requires Steady(s) && Act(s, e) == Some(s')
    ensures Steady(s') && s'.count == s.count
  {
    match e
    case TrySelect => TrySelectKeepsSteady(s, s');
    case Enqueue => EnqueueKeepsSteady(s, s');
    case Await(r) => AwaitKeepsSteady(s, r, s');
    case PutBack(h) => PutBackKeepsSteady(s, h);
  }

  lemma {:induction false} ActsKeepSteady(s: Handlers, es: seq<Step>, s': Handlers)
    requires Steady(s) && Acts(s, es) == Some(s')
    ensures Steady(s') && s'.count == s.count
    decreases |es|
  {
    if es != [] {
      var s1 := Act(s, es[0]).value;
      ActKeepsSteady(s, es[0], s1);
      ActsKeepSteady(s1, es[1..], s');
    }
  }

  lemma OneOfEach(s: Handlers)
    requires Steady(s)
    ensures forall h: Handler :: multiset(s.handlers)[h] + multiset(s.held)[h] + InSlots(s.slots)[h]
                                 == if h < s.count then 1 else 0
  {
    AllCounts(s.count);
    forall h: Handler
      ensures multiset(s.handlers)[h] + multiset(s.held)[h] + InSlots(s.slots)[h] == if h < s.count then 1 else 0
    {
      assert Places(s.handlers, s.held, s.slots, [])[h] == All(s.count)[h];
    }
  }

  /**
    In every interleaving idle + held + delivered equals `count`, no handler is in two places, and giving back a
    held handler never blocks with the mutex held.
  */
  lemma HandlersConserved(count: nat, es: seq<Step>, s: Handlers)
    requires Acts(NewHandlerPool(count), es) == Some(s)
    ensures |s.handlers| + |s.held| + |InSlots(s.slots)| == count
    ensures forall h: Handler :: multiset(s.handlers)[h] + multiset(s.held)[h] + InSlots(s.slots)[h]
                                 == if h < count then 1 else 0
    ensures forall h :: h in s.held ==> Act(s, PutBack(h)).Some?
  {
    FreshIdle(count);
    ActsKeepSteady(NewHandlerPool(count), es, s);
    Total(s);
    OneOfEach(s);
    forall h | h in s.held ensures Act(s, PutBack(h)).Some? {
      PutBackKeepsSteady(s, h);
    }
  }

  // ---------- Which request gets which handler ----------

  /** The queue is the last requests that were made, in order. */
  ghost predicate LastInOrder(reqList: seq<Req>, made: nat)
  {
    && |reqList| <= made
    && forall i :: 0 <= i < |reqList| ==> reqList[i] == made - |reqList| + i
  }

  lemma ActKeepsOrder(s: Handlers, e: Step, s': Handlers)
    requires LastInOrder(s.reqList, |s.slots|) && Act(s, e) == Some(s')
    ensures LastInOrder(s'.reqList, |s'.slots|)
  {
  }

  lemma {:induction false} ActsKeepOrder(s: Handlers, es: seq<Step>, s': Handlers)
    requires LastInOrder(s.reqList, |s.slots|) && Acts(s, es) == Some(s')
    ensures LastInOrder(s'.reqList, |s'.slots|)
    decreases |es|
  {
    if es != [] {
      var s1 := Act(s, es[0]).value;
      ActKeepsOrder(s, es[0], s1);
      ActsKeepOrder(s1, es[1..], s');
    }
  }

  /** The handler becomes idle, or is sent to the first request that has not been served. */
  ghost predicate GoesToFirst(s: Handlers, h: Handler)
  {
    var first, s' := |s.slots| - |s.reqList|, Act(s, PutBack(h));
    if s.reqList == [] then s' == Some(s.(handlers := s.handlers + [h], held := s.held - {h}))
    else
      && 0 <= first < |s.slots|
      && s' == Some(s.(reqList := s.reqList[1..], slots := s.slots[first := Full(h)], held := s.held - {h}))
  }

  lemma PutBackGoes(s: Handlers, h: Handler)
    requires Act(s, PutBack(h)).Some? && LastInOrder(s.reqList, |s.slots|)
    ensures GoesToFirst(s, h)
  {
    assert s.reqList != [] ==> s.reqList[0] == |s.slots| - |s.reqList|;
  }

  lemma PutBacksGo(s: Handlers)
    requires Steady(s) && LastInOrder(s.reqList, |s.slots|)
    ensures forall h :: h in s.held ==> GoesToFirst(s, h)
  {
    forall h | h in s.held ensures GoesToFirst(s, h) {
      PutBackKeepsSteady(s, h);
      PutBackGoes(s, h);
    }
  }

  /**
    In every interleaving a call of `Get` takes the handler that has been idle longest exactly when one is idle, a
    call that found none is the last in the queue, and a handler given back goes to the first request that has not
    been served, which is the first in the queue, or becomes idle when all have.
  */
  lemma HandlersGoInOrder(count: nat, es: seq<Step>, s: Handlers)
    requires Acts(NewHandlerPool(count), es) == Some(s)
    ensures forall i :: 0 <= i < |s.reqList| ==> s.reqList[i] == |s.slots| - |s.reqList| + i
    ensures s.handlers != [] ==>
              && s.handlers[0] !in s.held
              && Act(s, TrySelect) == Some(s.(handlers := s.handlers[1..], held := s.held + {s.handlers[0]}))
    ensures s.handlers == [] ==> Act(s, TrySelect) == Some(s.(slow := s.slow + 1))
    ensures Act(s, Enqueue).Some? <==> s.slow > 0
    ensures s.slow > 0 ==>
              Act(s, Enqueue).value == s.(slow := s.slow - 1, reqList := s.reqList + [|s.slots|], slots := s.slots + [Empty])
    ensures forall h :: h in s.held ==> GoesToFirst(s, h)
  {
    FreshIdle(count);
    ActsKeepSteady(NewHandlerPool(count), es, s);
    ActsKeepOrder(NewHandlerPool(count), es, s);
    PutBacksGo(s);
    if s.handlers != [] {
      OnlyThere(s.handlers, s.held, s.slots, [], s.count, s.handlers[0]);
    }
  }
}
