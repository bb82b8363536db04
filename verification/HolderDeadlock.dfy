/**
  When requests on results wait for each other.  A fetch waits for a handler while it holds an item lock
  (controller/ws/ws/fetch.go:59-68, 170-179), a request that has a handler waits for the holder lock (76, 91, 185, 193,
  and query.go:226), and the owner of the holder lock waits for an item lock: with few handlers left this is a cycle.
*/
module HolderDeadlock {
  import opened Wrappers
  import Machine
  import opened Sequences
  import opened Holders

  // ---------- The condition ----------

  predicate WaitsForHandler(pc: PC)
  {
    pc.WantHandler? || pc.Slow? || pc.Queued?
  }

  /** The lock of the item is held by a request that waits for a handler. */
  predicate StuckItem(s: State, i: Item)
  {
    && i < |s.entries| && s.entries[i].lock.Some?
    && s.entries[i].lock.value in s.threads && WaitsForHandler(s.threads[s.entries[i].lock.value])
  }

  /** The owner of the holder lock cannot finish before a request that waits for a handler. */
  ghost predicate BlockedHolder(s: State)
  {
    && s.holderLock.Some? && s.holderLock.value in s.threads
    && var pc := s.threads[s.holderLock.value];
    (pc.Freeing? && StuckItem(s, pc.i)) || (pc.FreeingAll? && exists i :: i in s.results && StuckItem(s, i))
  }

  /** A request that must free an item before it gives its handler back, and whose item is stuck. */
  predicate MustFreeStuck(s: State, pc: PC)
  {
    pc.WantFree? && Finds(s, pc.id, pc.kind) && StuckItem(s, pc.id - 1)
  }

  predicate Active(pc: PC)
  {
    pc.Fetching? || pc.Returning?
  }

  ghost predicate Doom(s: State, t: Tid)
    requires t in s.threads
  {
    if BlockedHolder(s) then !Active(s.threads[t]) else MustFreeStuck(s, s.threads[t])
  }

  /**
    No handler is idle, and each request that has one waits, directly or for the holder lock, for a request that waits
    for a handler.
  */
  ghost predicate Doomed(s: State)
  {
    s.idle == 0 && forall t :: t in HandlersOut(s.threads) ==> Doom(s, t)
  }

  // ---------- Such a state never ends ----------

  lemma NoneActive(s: State)
    requires Doomed(s)
    ensures forall t :: t in s.threads ==> !Active(s.threads[t])
  {
    forall t | t in s.threads ensures !Active(s.threads[t]) {
      assert t in HandlersOut(s.threads) ==> Doom(s, t);
    }
  }

  /** What a step of a doomed state must keep: stuck items stay stuck and listed, and nobody gets a handler. */
  ghost predicate KeepsStuck(s: State, s': State)
  {
    && s'.idle == 0
    && (forall i: Item :: StuckItem(s, i) ==> StuckItem(s', i))
    && (forall i: Item :: i in s.results && StuckItem(s, i) ==> i in s'.results)
    && |s.entries| <= |s'.entries| && (forall i: Item :: i < |s.entries| ==> s'.entries[i].isStmt2 == s.entries[i].isStmt2)
    && (forall t :: t in HandlersOut(s'.threads) ==> t in HandlersOut(s.threads))
    && (forall t :: t in HandlersOut(s'.threads) ==> !Active(s'.threads[t]))
  }

  /** The holder lock stays with a blocked owner, or the owner has become blocked. */
  ghost predicate KeepsDoom(s: State, s': State)
  {
    && KeepsStuck(s, s')
    && (BlockedHolder(s) ==> BlockedHolder(s'))
    && (!BlockedHolder(s) && !BlockedHolder(s') ==>
          forall t :: t in HandlersOut(s'.threads) ==> s'.threads[t] == s.threads[t])
  }

  lemma KeepsDoomed(s: State, s': State)
    requires Doomed(s) && KeepsDoom(s, s')
    ensures Doomed(s')
  {
    forall t | t in HandlersOut(s'.threads) ensures Doom(s', t) {
      assert Doom(s, t);
    }
  }

  lemma UnlockKeepsDoomed(s: State, t: Tid, thenFree: bool, s': State)
    requires Inv(s) && Doomed(s) && NextItem(s, UnlockItem(t, thenFree)) == Some(s')
    ensures Doomed(s')
  {
    assert ThreadOk(s, t);
    NoneActive(s);
    assert KeepsStuck(s, s');
    KeepsDoomed(s, s');
  }

  lemma LookUpKeepsDoomed(s: State, t: Tid, s': State)
    requires Inv(s) && Doomed(s) && NextItem(s, LookUp(t)) == Some(s')
    ensures Doomed(s')
  {
    assert ThreadOk(s, t);
    NoneActive(s);
    assert KeepsStuck(s, s');
    KeepsDoomed(s, s');
  }

  lemma LockItemKeepsDoomed(s: State, t: Tid, s': State)
    requires Inv(s) && Doomed(s) && NextItem(s, LockItem(t)) == Some(s')
    ensures Doomed(s')
  {
    assert ThreadOk(s, t);
    NoneActive(s);
    assert KeepsStuck(s, s');
    KeepsDoomed(s, s');
  }

  lemma HandlerKeepsDoomed(s: State, e: Event, s': State)
    requires Inv(s) && Doomed(s) && (e.TakeHandler? || e.Enqueue? || e.Answer? || e.PutHandler?)
    requires NextHandler(s, e) == Some(s')
    ensures Doomed(s')
  {
    assert ThreadOk(s, e.t);
    NoneActive(s);
    assert KeepsStuck(s, s');
    KeepsDoomed(s, s');
  }

  lemma AddKeepsDoomed(s: State, t: Tid, s': State)
    requires Inv(s) && Doomed(s) && NextHolder(s, Add(t)) == Some(s')
    ensures Doomed(s')
  {
    assert ThreadOk(s, t);
    NoneActive(s);
    assert t in HandlersOut(s.threads) ==> Doom(s, t);
    assert KeepsStuck(s, s');
    KeepsDoomed(s, s');
  }

  lemma LockHolderKeepsDoomed(s: State, t: Tid, s': State)
    requires Inv(s) && Doomed(s) && NextHolder(s, LockHolder(t)) == Some(s')
    ensures Doomed(s')
  {
    assert ThreadOk(s, t);
    NoneActive(s);
    assert t in HandlersOut(s.threads) ==> Doom(s, t);
    assert KeepsStuck(s, s');
    KeepsDoomed(s, s');
  }

  lemma FreeItemKeepsDoomed(s: State, t: Tid, s': State)
    requires Inv(s) && Doomed(s) && NextHolder(s, FreeItem(t)) == Some(s')
    ensures Doomed(s')
  {
    FreesItem(s, t, s');
    assert ThreadOk(s, t);
    NoneActive(s);
    var i := FreesNext(s, s.threads[t]).value;
    assert !StuckItem(s, i);
    assert t in HandlersOut(s.threads) ==> Doom(s, t);
    assert KeepsStuck(s, s');
    KeepsDoomed(s, s');
  }

  lemma StartKeepsDoomed(s: State, e: Event, s': State)
    requires Inv(s) && Doomed(s) && Starts(e) && Next(s, e) == Some(s')
    ensures Doomed(s')
  {
    assert ThreadOk(s, s.spawned);
    NoneActive(s);
    assert KeepsStuck(s, s');
    KeepsDoomed(s, s');
  }

  lemma NextKeepsDoomed(s: State, e: Event, s': State)
    requires Inv(s) && Doomed(s) && Next(s, e) == Some(s')
    ensures Doomed(s')
  {
    match e
    case StartGet(_, _, _) | StartQuery | StartAdd(_, _) | StartFree(_, _) | StartFreeAll => StartKeepsDoomed(s, e, s');
    case LookUp(t) => LookUpKeepsDoomed(s, t, s');
    case LockItem(t) => LockItemKeepsDoomed(s, t, s');
    case DriverCall(_) =>
    case UnlockItem(t, thenFree) => UnlockKeepsDoomed(s, t, thenFree, s');
    case TakeHandler(_) | Enqueue(_) | Answer(_, _, _) | PutHandler(_) => HandlerKeepsDoomed(s, e, s');
    case Add(t) => AddKeepsDoomed(s, t, s');
    case LockHolder(t) => LockHolderKeepsDoomed(s, t, s');
    case FreeItem(t) => FreeItemKeepsDoomed(s, t, s');
  }

  /** No continuation, of whatever length and with whatever new requests, gives anybody a handler again. */
  lemma {:induction false} DoomedForEver(s: State, es: seq<Event>, s': State)
    requires Inv(s) && Doomed(s) && Run(s, es) == Some(s')
    ensures Doomed(s') && forall t :: t in s'.threads ==> !s'.threads[t].Fetching?
    decreases |es|
  {
    if es == [] {
      NoneActive(s');
    } else {
      var s1 := Next(s, es[0]).value;
      NextKeepsInv(s, es[0], s1);
      NextKeepsDoomed(s, es[0], s1);
      DoomedForEver(s1, es[1..], s');
    }
  }

  // ---------- Every other state has a way out ----------

  ghost predicate Served(s: State, c: Tid)
  {
    c in s.threads && s.threads[c].Fetching?
  }

  predicate AllForResults(es: seq<Event>)
  {
    forall k :: 0 <= k < |es| ==> ForResults(es[k])
  }

  /** Some continuation, with steps of the result holder only, gives `c` a handler. */
  ghost predicate CanBeServed(s: State, c: Tid)
  {
    exists es :: AllForResults(es) && Run(s, es).Some? && Served(Run(s, es).value, c)
  }

  lemma ServedNow(s: State, c: Tid)
    requires Served(s, c)
    ensures CanBeServed(s, c)
  {
    assert AllForResults([]) && Run(s, []) == Some(s);
  }

  lemma ServedAfter(s: State, e: Event, s1: State, c: Tid)
    requires ForResults(e) && Next(s, e) == Some(s1) && CanBeServed(s1, c)
    ensures CanBeServed(s, c)
  {
    var es :| AllForResults(es) && Run(s1, es).Some? && Served(Run(s1, es).value, c);
    assert ([e] + es)[0] == e && ([e] + es)[1..] == es;
    assert Run(s, [e] + es) == Run(s1, es);
  }

  ghost predicate Waits(s: State, c: Tid)
  {
    c in s.threads && WaitsForHandler(s.threads[c])
  }

  ghost predicate ActiveIn(s: State, h: Tid)
  {
    h in s.threads && Active(s.threads[h])
  }

  /** The request that has a handler ends what it does with it. */
  lemma EndsFetch(s: State, h: Tid) returns (e: Event, s': State)
    requires Inv(s) && Served(s, h)
    ensures ForResults(e) && Next(s, e) == Some(s') && Inv(s')
    ensures h in s'.threads && s'.threads[h].Returning? && s'.queue == s.queue
    ensures forall x :: x in s.threads && x != h ==> x in s'.threads && s'.threads[x] == s.threads[x]
  {
    assert ThreadOk(s, h);
    e := if s.threads[h].item.Some? then UnlockItem(h, false) else Answer(h, false, false);
    s' := Next(s, e).value;
    NextKeepsInv(s, e, s');
  }

  /** Handlers pass from each request to the next one in the queue. */
  lemma {:induction false} QueueMoves(s: State, h: Tid, k: nat)
    requires Inv(s) && ActiveIn(s, h) && k < |s.queue|
    ensures CanBeServed(s, s.queue[k])
    decreases k, s.threads[h].Fetching?
  {
    if s.threads[h].Fetching? {
      var e, s1 := EndsFetch(s, h);
      QueueMoves(s1, h, k);
      ServedAfter(s, e, s1, s.queue[k]);
    } else {
      var s1 := Next(s, PutHandler(h)).value;
      NextKeepsInv(s, PutHandler(h), s1);
      if k == 0 {
        ServedNow(s1, s.queue[0]);
      } else {
        assert s1.queue[k - 1] == s.queue[k];
        QueueMoves(s1, s.queue[0], k - 1);
      }
      ServedAfter(s, PutHandler(h), s1, s.queue[k]);
    }
  }

  lemma QueuedIsServed(s: State, c: Tid, h: Tid)
    requires Inv(s) && Waits(s, c) && ActiveIn(s, h) && s.threads[c].Queued?
    ensures CanBeServed(s, c)
  {
    assert ThreadOk(s, c);
    var k: nat :| k < |s.queue| && s.queue[k] == c;
    QueueMoves(s, h, k);
  }

  lemma SlowIsServed(s: State, c: Tid, h: Tid)
    requires Inv(s) && Waits(s, c) && ActiveIn(s, h) && !s.threads[c].WantHandler?
    ensures CanBeServed(s, c)
  {
    if s.threads[c].Queued? {
      QueuedIsServed(s, c, h);
    } else {
      var s1 := Next(s, Enqueue(c)).value;
      NextKeepsInv(s, Enqueue(c), s1);
      QueuedIsServed(s1, c, h);
      ServedAfter(s, Enqueue(c), s1, c);
    }
  }

  lemma ActiveServes(s: State, c: Tid, h: Tid)
    requires Inv(s) && Waits(s, c) && ActiveIn(s, h)
    ensures CanBeServed(s, c)
  {
    if s.threads[c].WantHandler? {
      var s1 := Next(s, TakeHandler(c)).value;
      NextKeepsInv(s, TakeHandler(c), s1);
      if Served(s1, c) {
        ServedNow(s1, c);
      } else {
        SlowIsServed(s1, c, h);
      }
      ServedAfter(s, TakeHandler(c), s1, c);
    } else {
      SlowIsServed(s, c, h);
    }
  }

  /** With an idle handler, one more query is enough. */
  lemma IdleServes(s: State, c: Tid)
    requires Inv(s) && Waits(s, c) && s.idle > 0
    ensures CanBeServed(s, c)
  {
    assert ThreadOk(s, s.spawned);
    var h := s.spawned;
    var s1 := Next(s, StartQuery).value;
    NextKeepsInv(s, StartQuery, s1);
    var s2 := Next(s1, TakeHandler(h)).value;
    NextKeepsInv(s1, TakeHandler(h), s2);
    ActiveServes(s2, c, h);
    ServedAfter(s1, TakeHandler(h), s2, c);
    ServedAfter(s, StartQuery, s1, c);
  }

  // ---------- Handlers held by requests that want the holder lock ----------

  /** A request that has a handler and is not waiting for a stuck item. */
  ghost predicate GoodOwner(s: State, t: Tid)
  {
    t in s.threads && Has(s.threads[t]) && !Active(s.threads[t]) && !MustFreeStuck(s, s.threads[t])
  }

  /** The lock of an item that is not stuck can be freed, and nothing else changes. */
  lemma FreesLock(s: State, i: Item) returns (e: Event, s': State)
    requires Inv(s) && i < |s.entries| && s.entries[i].lock.Some? && !StuckItem(s, i)
    requires forall x :: x in s.threads ==> !Active(s.threads[x])
    ensures Next(s, e) == Some(s') && Inv(s') && s'.idle == s.idle && s'.results == s.results && s'.holderLock == s.holderLock
    ensures |s'.entries| == |s.entries| && s'.entries == s.entries[i := s.entries[i].(lock := None)]
    ensures e.UnlockItem? && e.t in s.threads && s.threads[e.t].InItem? && s'.threads == s.threads - {e.t}
  {
    assert EntryOk(s, i);
    e := UnlockItem(s.entries[i].lock.value, false);
    s' := Next(s, e).value;
    NextKeepsInv(s, e, s');
  }

  /** What making way for the holder's owner leaves alone. */
  ghost predicate Undisturbed(s: State, s': State)
  {
    && Inv(s') && s'.idle == s.idle && |s'.entries| == |s.entries|
    && (forall x :: x in s.threads && !s.threads[x].InItem? && !OwnsHolder(s.threads[x]) ==>
          x in s'.threads && s'.threads[x] == s.threads[x])
    && (forall x :: x in s'.threads && !s'.threads[x].Returning? ==> x in s.threads && s'.threads[x] == s.threads[x])
    && (forall i: Item :: StuckItem(s', i) ==> StuckItem(s, i))
    && (forall i: Item :: i < |s.entries| ==> s'.entries[i].isStmt2 == s.entries[i].isStmt2)
    && (forall i :: i in s'.results ==> i in s.results)
  }

  lemma StillGood(s: State, s': State, c: Tid, t: Tid)
    requires Undisturbed(s, s') && Waits(s, c) && GoodOwner(s, t) && !OwnsHolder(s.threads[t])
    ensures Waits(s', c) && GoodOwner(s', t)
  {
  }

  lemma UnlockUndisturbed(s: State, i: Item) returns (e: Event, s': State)
    requires Inv(s) && i < |s.entries| && s.entries[i].lock.Some? && !StuckItem(s, i)
    requires forall x :: x in s.threads ==> !Active(s.threads[x])
    ensures ForResults(e) && Next(s, e) == Some(s') && Undisturbed(s, s') && s'.results == s.results && s'.holderLock == s.holderLock
    ensures s'.entries[i].lock.None? && (forall x :: x in s'.threads ==> !Active(s'.threads[x]))
    ensures forall x :: x in s.threads && OwnsHolder(s.threads[x]) ==> x in s'.threads && s'.threads[x] == s.threads[x]
    ensures |s'.threads| < |s.threads|
  {
    e, s' := FreesLock(s, i);
    assert s.threads.Keys == s'.threads.Keys + {e.t};
  }

  lemma FreeUndisturbed(s: State, b: Tid, s': State)
    requires Inv(s) && Next(s, FreeItem(b)) == Some(s')
    ensures Undisturbed(s, s') && |s'.results| < |s.results|
    ensures s'.holderLock == s.holderLock || s'.holderLock.None?
    ensures s'.holderLock.Some? ==> b in s'.threads && s'.threads[b] == s.threads[b] && s.threads[b].FreeingAll?
    ensures s.threads[b].Freeing? && s.threads[b].has ==> ActiveIn(s', b)
    ensures (forall x :: x in s.threads ==> !Active(s.threads[x])) && !(s.threads[b].Freeing? && s.threads[b].has) ==>
              forall x :: x in s'.threads ==> !Active(s'.threads[x])
  {
    FreesItem(s, b, s');
    WithoutShorter(s.results, FreesNext(s, s.threads[b]).value);
    NextKeepsInv(s, FreeItem(b), s');
  }

  lemma {:induction false} WithoutShorter(q: seq<nat>, x: nat)
    requires x in q
    ensures |Without(q, x)| < |q|
  {
    if q[0] != x {
      WithoutShorter(q[1..], x);
    }
  }

  /** With the holder lock free, a good owner takes it, does what it came for and gives its handler back. */
  lemma AdderServes(s: State, c: Tid, t: Tid)
    requires Inv(s) && Waits(s, c) && GoodOwner(s, t) && s.holderLock.None? && s.threads[t].WantAdd?
    ensures CanBeServed(s, c)
  {
    var s1 := Next(s, Add(t)).value;
    NextKeepsInv(s, Add(t), s1);
    ActiveServes(s1, c, t);
    ServedAfter(s, Add(t), s1, c);
  }

  lemma FreeOwnerServes(s: State, c: Tid, t: Tid)
    requires Inv(s) && Waits(s, c) && GoodOwner(s, t) && s.holderLock.None? && s.threads[t].WantFree?
    requires Finds(s, s.threads[t].id, s.threads[t].kind) ==> s.entries[s.threads[t].id - 1].lock.None?
    ensures CanBeServed(s, c)
  {
    assert ThreadOk(s, t);
    var s1 := Next(s, LockHolder(t)).value;
    NextKeepsInv(s, LockHolder(t), s1);
    if s1.threads[t].Returning? {
      ActiveServes(s1, c, t);
    } else {
      var s2 := Next(s1, FreeItem(t)).value;
      NextKeepsInv(s1, FreeItem(t), s2);
      ActiveServes(s2, c, t);
      ServedAfter(s1, FreeItem(t), s2, c);
    }
    ServedAfter(s, LockHolder(t), s1, c);
  }

  lemma FreeHolderServes(s: State, c: Tid, t: Tid)
    requires Inv(s) && Waits(s, c) && GoodOwner(s, t) && s.holderLock.None?
    requires forall x :: x in s.threads ==> !Active(s.threads[x])
    ensures CanBeServed(s, c)
  {
    assert ThreadOk(s, t);
    if s.threads[t].WantAdd? {
      AdderServes(s, c, t);
    } else {
      var i := s.threads[t].id - 1;
      if Finds(s, s.threads[t].id, s.threads[t].kind) && s.entries[i].lock.Some? {
        var e, s1 := UnlockUndisturbed(s, i);
        StillGood(s, s1, c, t);
        FreeOwnerServes(s1, c, t);
        ServedAfter(s, e, s1, c);
      } else {
        FreeOwnerServes(s, c, t);
      }
    }
  }

  lemma OwnerNextIsListed(s: State, b: Tid)
    requires Inv(s) && s.holderLock == Some(b)
    ensures b in s.threads && OwnsHolder(s.threads[b])
    ensures FreesNext(s, s.threads[b]).Some?
    ensures var i := FreesNext(s, s.threads[b]).value; i < |s.entries| && i in s.results
  {
    assert ThreadOk(s, b);
    assert EntryOk(s, FreesNext(s, s.threads[b]).value);
  }

  lemma OwnedStays(s: State, s1: State, c: Tid, b: Tid, t: Tid)
    requires Inv(s) && Waits(s, c) && GoodOwner(s, t) && s.holderLock == Some(b) && !BlockedHolder(s) && b in s.threads
    requires Undisturbed(s, s1) && s1.results == s.results && s1.holderLock == s.holderLock
    requires forall x :: x in s.threads && OwnsHolder(s.threads[x]) ==> x in s1.threads && s1.threads[x] == s.threads[x]
    ensures Waits(s1, c) && GoodOwner(s1, t) && !BlockedHolder(s1)
  {
    assert ThreadOk(s, b);
  }

  lemma FreeStays(s: State, s1: State, c: Tid, b: Tid, t: Tid)
    requires Inv(s) && Waits(s, c) && GoodOwner(s, t) && s.holderLock == Some(b) && !BlockedHolder(s) && b in s.threads
    requires Next(s, FreeItem(b)) == Some(s1) && !(s.threads[b].Freeing? && s.threads[b].has)
    requires forall x :: x in s.threads ==> !Active(s.threads[x])
    ensures Waits(s1, c) && GoodOwner(s1, t) && !BlockedHolder(s1) && Inv(s1) && |s1.results| < |s.results|
    ensures s1.holderLock == Some(b) || s1.holderLock.None?
    ensures forall x :: x in s1.threads ==> !Active(s1.threads[x])
  {
    FreeUndisturbed(s, b, s1);
    assert ThreadOk(s, t);
    StillGood(s, s1, c, t);
  }

  /** An owner of the holder lock that is not blocked frees its items and lets the next one in. */
  lemma {:induction false} HeldHolderServes(s: State, c: Tid, b: Tid, t: Tid)
    requires Inv(s) && Waits(s, c) && GoodOwner(s, t) && s.holderLock == Some(b) && !BlockedHolder(s)
    requires forall x :: x in s.threads ==> !Active(s.threads[x])
    ensures CanBeServed(s, c)
    decreases |s.results|, |s.threads|
  {
    OwnerNextIsListed(s, b);
    var i := FreesNext(s, s.threads[b]).value;
    if s.entries[i].lock.Some? {
      var e, s1 := UnlockUndisturbed(s, i);
      OwnedStays(s, s1, c, b, t);
      HeldHolderServes(s1, c, b, t);
      ServedAfter(s, e, s1, c);
    } else {
      var s1 := Next(s, FreeItem(b)).value;
      if s.threads[b].Freeing? && s.threads[b].has {
        FreeUndisturbed(s, b, s1);
        ActiveServes(s1, c, b);
      } else {
        FreeStays(s, s1, c, b, t);
        if s1.holderLock.None? {
          FreeHolderServes(s1, c, t);
        } else {
          HeldHolderServes(s1, c, b, t);
        }
      }
      ServedAfter(s, FreeItem(b), s1, c);
    }
  }

  /** A handler that is neither idle nor doomed. */
  lemma OutsideDoom(s: State) returns (t: Tid)
    requires Inv(s) && !Doomed(s) && s.idle == 0
    ensures t in s.threads && Has(s.threads[t]) && !Doom(s, t)
  {
    t :| t in HandlersOut(s.threads) && !Doom(s, t);
  }

  lemma NotDoomedServes(s: State, c: Tid)
    requires Inv(s) && Waits(s, c) && !Doomed(s)
    ensures CanBeServed(s, c)
  {
    if s.idle > 0 {
      IdleServes(s, c);
    } else if h :| ActiveIn(s, h) {
      ActiveServes(s, c, h);
    } else {
      var t := OutsideDoom(s);
      assert !ActiveIn(s, t);
      assert !BlockedHolder(s);
      forall x | x in s.threads ensures !Active(s.threads[x]) {
        assert !ActiveIn(s, x);
      }
      if s.holderLock.None? {
        FreeHolderServes(s, c, t);
      } else {
        OwnerNextIsListed(s, s.holderLock.value);
        HeldHolderServes(s, c, s.holderLock.value, t);
      }
    }
  }

  /**
    A request that waits for a handler can still get one, in some continuation of the run, if and only if the state is
    not doomed; from a doomed state no continuation at all helps.
  */
  lemma HandlerComesIff(count: nat, es: seq<Event>, s: State, c: Tid)
    requires Reached(count, es, s) && Waits(s, c)
    ensures CanBeServed(s, c) <==> !Doomed(s)
    ensures Doomed(s) ==> forall more :: Run(s, more).Some? ==> !Served(Run(s, more).value, c)
  {
    ReachedInv(count, es, s);
    if Doomed(s) {
      forall more | Run(s, more).Some? ensures !Served(Run(s, more).value, c) {
        DoomedForEver(s, more, Run(s, more).value);
      }
    } else {
      NotDoomedServes(s, c);
    }
  }

  // ---------- When no request can move ----------

  /** A step of a request that is under way. */
  predicate Moves(e: Event)
  {
    !Starts(e) && !e.DriverCall?
  }

  ghost predicate NobodyMoves(s: State)
  {
    forall e :: Moves(e) ==> Next(s, e).None?
  }

  predicate WantsHolder(pc: PC)
  {
    pc.WantGet? || pc.WantAdd? || pc.WantFree? || pc.WantFreeAll?
  }

  /** The next item of the holder's owner is stuck. */
  predicate HolderStands(s: State)
  {
    && s.holderLock.Some? && s.holderLock.value in s.threads
    && var next := FreesNext(s, s.threads[s.holderLock.value]); next.Some? && StuckItem(s, next.value)
  }

  predicate Stands(s: State, pc: PC)
  {
    pc.Queued? || (pc.Got? && StuckItem(s, pc.i)) || ((WantsHolder(pc) || OwnsHolder(pc)) && HolderStands(s))
  }

  lemma StandingCannotMove(s: State, e: Event)
    requires Inv(s) && Moves(e) && forall t :: t in s.threads ==> Stands(s, s.threads[t])
    ensures Next(s, e).None?
  {
    if e.t in s.threads {
      assert Stands(s, s.threads[e.t]);
      assert ThreadOk(s, e.t);
    }
  }

  /** The lock of an item that nobody can release belongs to a request in the queue. */
  lemma OwnerIsQueued(s: State, i: Item)
    requires Inv(s) && NobodyMoves(s) && i < |s.entries| && s.entries[i].lock.Some?
    ensures StuckItem(s, i) && s.threads[s.entries[i].lock.value].Queued?
  {
    assert EntryOk(s, i);
    var x := s.entries[i].lock.value;
    assert ThreadOk(s, x);
    assert Next(s, UnlockItem(x, false)).None?;
    assert Next(s, TakeHandler(x)).None?;
    assert Next(s, Enqueue(x)).None?;
  }

  lemma HolderOwnerStands(s: State)
    requires Inv(s) && NobodyMoves(s) && s.holderLock.Some?
    ensures HolderStands(s)
  {
    var b := s.holderLock.value;
    OwnerNextIsListed(s, b);
    var i := FreesNext(s, s.threads[b]).value;
    assert Next(s, FreeItem(b)).None?;
    OwnerIsQueued(s, i);
  }

  lemma ImmobileStands(s: State, t: Tid)
    requires Inv(s) && NobodyMoves(s) && t in s.threads
    ensures Stands(s, s.threads[t])
  {
    assert ThreadOk(s, t);
    var pc := s.threads[t];
    assert Next(s, UnlockItem(t, false)).None? && Next(s, Answer(t, false, false)).None? && Next(s, PutHandler(t)).None?;
    assert Next(s, TakeHandler(t)).None? && Next(s, Enqueue(t)).None?;
    assert Next(s, LookUp(t)).None? && Next(s, Add(t)).None? && Next(s, LockHolder(t)).None?;
    if pc.Got? {
      assert Next(s, LockItem(t)).None?;
      OwnerIsQueued(s, pc.i);
    } else if WantsHolder(pc) || OwnsHolder(pc) {
      HolderOwnerStands(s);
    }
  }

  lemma SomebodyQueued(s: State, t: Tid)
    requires Inv(s) && NobodyMoves(s) && t in s.threads
    ensures s.queue != []
  {
    ImmobileStands(s, t);
    var pc := s.threads[t];
    var q := t;
    if pc.Got? {
      OwnerIsQueued(s, pc.i);
      q := s.entries[pc.i].lock.value;
    } else if !pc.Queued? {
      var i := FreesNext(s, s.threads[s.holderLock.value]).value;
      OwnerIsQueued(s, i);
      q := s.entries[i].lock.value;
    }
    assert ThreadOk(s, q);
  }

  lemma StandingIsDoomed(s: State)
    requires Inv(s) && s.idle == 0 && forall t :: t in s.threads ==> Stands(s, s.threads[t])
    ensures Doomed(s)
  {
    forall t | t in HandlersOut(s.threads) ensures Doom(s, t) {
      assert Stands(s, s.threads[t]);
      OwnerNextIsListed(s, s.holderLock.value);
    }
  }

  /**
    While requests are under way, one of them can take its next step, unless each waits in the queue for a handler, for
    an item whose owner waits for a handler, or for the holder lock whose owner waits for such an item.  Then some
    request is in the queue, and either handlers are idle, which `Get` does not look for again once it decided to
    queue, or the state is doomed.
  */
  lemma NobodyMovesIff(count: nat, es: seq<Event>, s: State, t: Tid)
    requires Reached(count, es, s) && t in s.threads
    ensures NobodyMoves(s) <==> forall x :: x in s.threads ==> Stands(s, s.threads[x])
    ensures NobodyMoves(s) ==> s.queue != [] && (s.idle > 0 || Doomed(s))
  {
    ReachedInv(count, es, s);
    if NobodyMoves(s) {
      forall x | x in s.threads ensures Stands(s, s.threads[x]) {
        ImmobileStands(s, x);
      }
      SomebodyQueued(s, t);
      if s.idle == 0 {
        StandingIsDoomed(s);
      }
    } else if forall x :: x in s.threads ==> Stands(s, s.threads[x]) {
      forall e | Moves(e) ensures Next(s, e).None? {
        StandingCannotMove(s, e);
      }
    }
  }

  // ---------- Both kinds of standstill happen ----------

  ghost predicate Leads(s: State, s': State)
  {
    exists es :: AllForResults(es) && Run(s, es) == Some(s')
  }

  lemma LeadsOn(s: State, e: Event, s1: State, s': State)
    requires ForResults(e) && Next(s, e) == Some(s1) && Leads(s1, s')
    ensures Leads(s, s')
  {
    var es :| AllForResults(es) && Run(s1, es) == Some(s');
    assert ([e] + es)[0] == e && ([e] + es)[1..] == es;
    assert Run(s, [e] + es) == Run(s1, es);
  }

  lemma LeadsNowhere(s: State)
    ensures Leads(s, s)
  {
    assert AllForResults([]) && Run(s, []) == Some(s);
  }

  /** Every request under way has fetched the end of a result, has a handler and wants the holder lock. */
  ghost predicate Gathered(s: State)
  {
    && Inv(s) && s.holderLock.None? && s.queue == []
    && (forall i :: 0 <= i < |s.entries| ==> s.entries[i].live && s.entries[i].lock.None?)
    && (forall t :: t in s.threads ==> s.threads[t].WantFree? && s.threads[t].has)
  }

  /** A query takes a handler and adds a result. */
  lemma QueryAdds(s: State) returns (s': State, t: Tid)
    requires Gathered(s) && s.idle > 0
    ensures Inv(s') && t == s.spawned && t !in s.threads && s'.threads == s.threads[t := Returning] && s'.idle == s.idle - 1
    ensures s'.holderLock.None? && s'.queue == [] && s'.entries == s.entries + [Entry(true, true, false, None)]
    ensures forall s'' :: Leads(s', s'') ==> Leads(s, s'')
  {
    assert ThreadOk(s, s.spawned);
    t := s.spawned;
    var s1 := Next(s, StartQuery).value;
    NextKeepsInv(s, StartQuery, s1);
    var s2 := Next(s1, TakeHandler(t)).value;
    NextKeepsInv(s1, TakeHandler(t), s2);
    var s3 := Next(s2, Answer(t, true, true)).value;
    NextKeepsInv(s2, Answer(t, true, true), s3);
    s' := Next(s3, Add(t)).value;
    NextKeepsInv(s3, Add(t), s');
    assert s'.threads == s.threads[t := Returning];
    forall s'' | Leads(s', s'') ensures Leads(s, s'') {
      LeadsOn(s3, Add(t), s', s'');
      LeadsOn(s2, Answer(t, true, true), s3, s'');
      LeadsOn(s1, TakeHandler(t), s2, s'');
      LeadsOn(s, StartQuery, s1, s'');
    }
  }

  /** One more result. */
  lemma AddsResult(s: State) returns (s': State)
    requires Gathered(s) && s.idle > 0
    ensures Gathered(s') && s'.idle == s.idle && |s'.entries| == |s.entries| + 1
    ensures forall s'' :: Leads(s', s'') ==> Leads(s, s'')
  {
    var s1, t := QueryAdds(s);
    s' := Next(s1, PutHandler(t)).value;
    NextKeepsInv(s1, PutHandler(t), s');
    assert s'.threads == s.threads;
    forall s'' | Leads(s', s'') ensures Leads(s, s'') {
      LeadsOn(s1, PutHandler(t), s', s'');
    }
  }

  /** A request looks up the newest result and takes its lock. */
  lemma TakesLock(s: State) returns (s': State, t: Tid)
    requires Gathered(s) && |s.entries| > 0
    ensures Inv(s') && s'.idle == s.idle && s'.holderLock.None? && s'.queue == [] && |s'.entries| == |s.entries|
    ensures t == s.spawned && t !in s.threads && s'.threads == s.threads[t := WantHandler(Some(|s.entries| - 1))]
    ensures s'.results == s.results && s'.spawned == s.spawned + 1
    ensures s'.entries == s.entries[|s.entries| - 1 := s.entries[|s.entries| - 1].(lock := Some(t))]
    ensures forall s'' :: Leads(s', s'') ==> Leads(s, s'')
  {
    assert ThreadOk(s, s.spawned);
    t := s.spawned;
    var i := |s.entries| - 1;
    assert EntryOk(s, i);
    var e1, e2, e3 := StartGet(i + 1, None, true), LookUp(t), LockItem(t);
    var s1 := Next(s, e1).value;
    NextKeepsInv(s, e1, s1);
    var s2 := Next(s1, e2).value;
    NextKeepsInv(s1, e2, s2);
    s' := Next(s2, e3).value;
    NextKeepsInv(s2, e3, s');
    assert s'.threads == s.threads[t := WantHandler(Some(i))];
    forall s'' | Leads(s', s'') ensures Leads(s, s'') {
      LeadsOn(s2, e3, s', s'');
      LeadsOn(s1, e2, s2, s'');
      LeadsOn(s, e1, s1, s'');
    }
  }

  /** It gets a handler, finds the end of the result and goes to free it. */
  lemma FetchesEnd(s: State, s1: State, t: Tid) returns (s': State)
    requires Gathered(s) && |s.entries| > 0 && Inv(s1) && s1.idle > 0 && s1.holderLock.None? && s1.queue == []
    requires t !in s.threads && s1.threads == s.threads[t := WantHandler(Some(|s.entries| - 1))]
    requires s1.entries == s.entries[|s.entries| - 1 := s.entries[|s.entries| - 1].(lock := Some(t))]
    ensures Gathered(s') && s'.idle == s1.idle - 1 && |s'.entries| == |s.entries|
    ensures forall s'' :: Leads(s', s'') ==> Leads(s1, s'')
  {
    var e1, e2 := TakeHandler(t), UnlockItem(t, true);
    var s2 := Next(s1, e1).value;
    NextKeepsInv(s1, e1, s2);
    s' := Next(s2, e2).value;
    NextKeepsInv(s2, e2, s');
    forall s'' | Leads(s', s'') ensures Leads(s1, s'') {
      LeadsOn(s2, e2, s', s'');
      LeadsOn(s1, e1, s2, s'');
    }
  }

  /** All handlers can be with requests that want the holder lock. */
  lemma {:induction false} GathersAll(s: State) returns (s': State)
    requires Gathered(s)
    ensures Gathered(s') && s'.idle == 0 && Leads(s, s') && (s.idle > 0 || |s.entries| > 0 ==> |s'.entries| > 0)
    decreases s.idle
  {
    if s.idle == 0 {
      s' := s;
      LeadsNowhere(s);
    } else {
      var s1 := AddsResult(s);
      var s2, t := TakesLock(s1);
      var s3 := FetchesEnd(s1, s2, t);
      s' := GathersAll(s3);
    }
  }

  /** A free of that result, with the result locked by a request that waits for a handler. */
  lemma ClosesCycle(s: State, s1: State, c: Tid) returns (s': State)
    requires Gathered(s) && |s.entries| > 0 && Inv(s1) && s1.idle == 0 && s1.holderLock.None? && s1.results == s.results
    requires c !in s.threads && s1.threads == s.threads[c := WantHandler(Some(|s.entries| - 1))]
    requires s1.entries == s.entries[|s.entries| - 1 := s.entries[|s.entries| - 1].(lock := Some(c))]
    ensures Leads(s1, s') && Inv(s') && Doomed(s') && Waits(s', c)
  {
    var i := |s.entries| - 1;
    assert EntryOk(s1, i);
    assert ThreadOk(s1, s1.spawned);
    var b := s1.spawned;
    var e1, e2 := StartFree(i + 1, None), LockHolder(b);
    var s2 := Next(s1, e1).value;
    NextKeepsInv(s1, e1, s2);
    s' := Next(s2, e2).value;
    NextKeepsInv(s2, e2, s');
    assert StuckItem(s', i);
    assert BlockedHolder(s');
    LeadsNowhere(s');
    LeadsOn(s2, e2, s', s');
    LeadsOn(s1, e1, s2, s');
  }

  lemma NoHandlers() returns (s: State)
    ensures Leads(Init(0), s) && Inv(s) && Doomed(s) && Waits(s, 0)
  {
    ReachedInv(0, [], Init(0));
    s := Next(Init(0), StartQuery).value;
    NextKeepsInv(Init(0), StartQuery, s);
    assert HandlersOut(s.threads) == {};
    LeadsNowhere(s);
    LeadsOn(Init(0), StartQuery, s, s);
  }

  lemma SomeHandlers(count: nat) returns (s: State, c: Tid)
    requires count > 0
    ensures Leads(Init(count), s) && Inv(s) && Doomed(s) && Waits(s, c)
  {
    var s0 := Init(count);
    ReachedInv(count, [], s0);
    var s1 := GathersAll(s0);
    var s2, t := TakesLock(s1);
    c := t;
    s := ClosesCycle(s1, s2, c);
    assert Leads(s1, s);
    var first :| AllForResults(first) && Run(s0, first) == Some(s1);
    var rest :| AllForResults(rest) && Run(s1, rest) == Some(s);
    Machine.RunAppend(Next, s0, first, rest);
    assert AllForResults(first + rest);
  }

  /** For every number of handlers there is a run of the result holder into a doomed state with a request that waits. */
  lemma DoomIsReachable(count: nat) returns (es: seq<Event>, s: State, c: Tid)
    ensures AllForResults(es) && Reached(count, es, s) && Doomed(s) && Waits(s, c)
  {
    if count == 0 {
      s := NoHandlers();
      c := 0;
    } else {
      s, c := SomeHandlers(count);
    }
    es :| AllForResults(es) && Run(Init(count), es) == Some(s);
  }

  lemma OneQuery() returns (s: State)
    ensures Leads(Init(1), s) && s == Init(1).(threads := map[0 := Returning], spawned := 1, idle := 0)
  {
    var s1 := Next(Init(1), StartQuery).value;
    var s2 := Next(s1, TakeHandler(0)).value;
    s := Next(s2, Answer(0, false, false)).value;
    assert s.threads == map[0 := Returning];
    LeadsNowhere(s);
    LeadsOn(s2, Answer(0, false, false), s, s);
    LeadsOn(s1, TakeHandler(0), s2, s);
    LeadsOn(Init(1), StartQuery, s1, s);
  }

  lemma SecondQuery(s: State) returns (s': State)
    requires s.threads == map[0 := Returning] && s.spawned == 1 && s.idle == 0 && s.queue == []
    ensures Leads(s, s') && s'.queue == [] && s'.idle == 1 && s'.spawned == 2 && s'.threads == map[1 := Slow(None)]
  {
    var s1 := Next(s, StartQuery).value;
    var s2 := Next(s1, TakeHandler(1)).value;
    s' := Next(s2, PutHandler(0)).value;
    assert s'.threads == map[1 := Slow(None)];
    LeadsNowhere(s');
    LeadsOn(s2, PutHandler(0), s', s');
    LeadsOn(s1, TakeHandler(1), s2, s');
    LeadsOn(s, StartQuery, s1, s');
  }

  /** With one handler: the only request under way waits for a handler while the handler is idle. */
  lemma IdleStandstillIsReachable() returns (es: seq<Event>, s: State)
    ensures AllForResults(es) && Reached(1, es, s)
    ensures s.threads == map[1 := Queued(None)] && s.idle == 1 && NobodyMoves(s)
  {
    var s1 := OneQuery();
    var s2 := SecondQuery(s1);
    s := Next(s2, Enqueue(1)).value;
    assert s.threads == map[1 := Queued(None)];
    var first :| AllForResults(first) && Run(Init(1), first) == Some(s1);
    var rest :| AllForResults(rest) && Run(s1, rest) == Some(s2);
    Machine.RunAppend(Next, Init(1), first, rest);
    assert Run(s2, [Enqueue(1)]) == Some(s);
    Machine.RunAppend(Next, Init(1), first + rest, [Enqueue(1)]);
    es := first + rest + [Enqueue(1)];
    NobodyMovesIff(1, es, s, 1);
  }
}
