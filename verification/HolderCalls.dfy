/**
  What the requests to a holder of controller/ws/ws/query_result.go do from beginning to end: for each, from every state
  in which the locks it takes are free, a run of it and the state it leaves.  Other requests may be anywhere else.
*/
module HolderCalls {
  import opened Wrappers
  import Machine
  import opened Sequences
  import opened Holders

  /** The id names an object that was added and not freed, of the kind that is meant. */
  predicate Usable(s: State, id: nat, kind: Option<bool>)
  {
    0 < id <= |s.entries| && s.entries[id - 1].live && (kind.None? || s.entries[id - 1].isStmt2 == kind.value)
  }

  /** The holder lock is free, and the next request is new. */
  ghost predicate Quiet(s: State)
  {
    && (forall i: Item :: EntryOk(s, i)) && Increasing(s.results)
    && s.holderLock.None? && s.spawned !in s.threads
  }

  lemma QuietIff(count: nat, es: seq<Event>, s: State)
    requires Reached(count, es, s)
    ensures Quiet(s) <==> s.holderLock.None?
  {
    ReachedInv(count, es, s);
    assert ThreadOk(s, s.spawned);
  }

  /** The state with a new request. */
  function With(s: State, pc: PC): State
  {
    s.(threads := s.threads[s.spawned := pc], spawned := s.spawned + 1)
  }

  /** The request goes on. */
  lemma Moves(s: State, pc: PC, pc': PC)
    ensures With(s, pc).(threads := With(s, pc).threads[s.spawned := pc']) == With(s, pc')
  {
    assert s.threads[s.spawned := pc][s.spawned := pc'] == s.threads[s.spawned := pc'];
  }

  /** The request returns, and the holder is as before. */
  lemma Returns(s: State, pc: PC)
    requires s.spawned !in s.threads
    ensures With(s, pc).(threads := With(s, pc).threads - {s.spawned}) == s.(spawned := s.spawned + 1)
  {
    assert s.threads[s.spawned := pc] - {s.spawned} == s.threads;
  }

  // ---------- Get ----------

  lemma LookUpIff(s: State, id: nat, kind: Option<bool>, fetches: bool)
    requires Quiet(s)
    ensures var t, s1 := s.spawned, With(s, WantGet(id, kind, fetches));
            Next(s1, LookUp(t)) == Some(if Usable(s, id, kind) then With(s, Got(id - 1, fetches))
                                        else s.(spawned := s.spawned + 1))
  {
    if id > 0 {
      assert EntryOk(s, id - 1);
    }
    if Usable(s, id, kind) {
      Moves(s, WantGet(id, kind, fetches), Got(id - 1, fetches));
    } else {
      Returns(s, WantGet(id, kind, fetches));
    }
  }

  /** A request for anything else finds nothing and changes nothing. */
  lemma GetFindsNothing(s: State, id: nat, kind: Option<bool>, fetches: bool)
    requires Quiet(s) && !Usable(s, id, kind)
    ensures Run(s, [] + [StartGet(id, kind, fetches)] + [LookUp(s.spawned)]) == Some(s.(spawned := s.spawned + 1))
  {
    var s1 := With(s, WantGet(id, kind, fetches));
    Machine.RunOn(Next, s, [], s, StartGet(id, kind, fetches), s1);
    LookUpIff(s, id, kind, fetches);
    Machine.RunOn(Next, s, [] + [StartGet(id, kind, fetches)], s1, LookUp(s.spawned), s.(spawned := s.spawned + 1));
  }

  /** The item's lock. */
  function Locking(s: State, i: Item, lock: Option<Tid>): State
    requires i < |s.entries|
  {
    s.(entries := s.entries[i := s.entries[i].(lock := lock)])
  }

  /** The request has the lock of exactly the item that it asked for. */
  lemma GetLocks(s: State, id: nat, kind: Option<bool>, fetches: bool) returns (es: seq<Event>, s': State)
    requires Quiet(s) && Usable(s, id, kind) && s.entries[id - 1].lock.None?
    ensures Run(s, es) == Some(s')
    ensures s' == With(Locking(s, id - 1, Some(s.spawned)), if fetches then WantHandler(Some(id - 1)) else InItem(id - 1))
  {
    var t, s1 := s.spawned, With(s, WantGet(id, kind, fetches));
    Machine.RunOn(Next, s, [], s, StartGet(id, kind, fetches), s1);
    LookUpIff(s, id, kind, fetches);
    var s2 := With(s, Got(id - 1, fetches));
    Machine.RunOn(Next, s, [] + [StartGet(id, kind, fetches)], s1, LookUp(t), s2);
    var pc := if fetches then WantHandler(Some(id - 1)) else InItem(id - 1);
    Moves(s, Got(id - 1, fetches), pc);
    s' := With(Locking(s, id - 1, Some(t)), pc);
    Machine.RunOn(Next, s, [] + [StartGet(id, kind, fetches)] + [LookUp(t)], s2, LockItem(t), s');
    es := [] + [StartGet(id, kind, fetches)] + [LookUp(t)] + [LockItem(t)];
  }

  lemma Unlocked(s: State, i: Item, t: Tid)
    requires i < |s.entries| && s.entries[i].lock.None?
    ensures Locking(Locking(s, i, Some(t)), i, None) == s
  {
    assert s.entries[i := s.entries[i].(lock := Some(t))][i := s.entries[i]] == s.entries;
  }

  /** A request that needs no handler: the driver is called on the item asked for, and the holder is as before. */
  lemma GetDoes(s: State, id: nat, kind: Option<bool>) returns (es: seq<Event>, s1: State, s': State)
    requires Quiet(s) && Usable(s, id, kind) && s.entries[id - 1].lock.None?
    ensures Run(s, es) == Some(s1) && s.spawned in s1.threads && s1.threads[s.spawned] == InItem(id - 1)
    ensures Next(s1, DriverCall(s.spawned)) == Some(s1)
    ensures Next(s1, UnlockItem(s.spawned, false)) == Some(s') && s' == s.(spawned := s.spawned + 1)
  {
    var t := s.spawned;
    es, s1 := GetLocks(s, id, kind, false);
    Unlocked(s, id - 1, t);
    Returns(s, InItem(id - 1));
    s' := s.(spawned := t + 1);
  }

  // ---------- Free ----------

  /** The object leaves the list; the driver is told to release it if the holder owns it. */
  function Freed(s: State, i: Item): State
    requires i < |s.entries|
  {
    s.(entries := s.entries[i := s.entries[i].(live := false)],
       results := Without(s.results, i),
       released := s.released + if s.entries[i].owned then [i] else [])
  }

  /** What is freed is not listed any more, and nothing else changes its place. */
  lemma FreedIsGone(s: State, i: Item)
    requires Increasing(s.results) && i < |s.entries|
    ensures forall x :: x in Freed(s, i).results <==> x in s.results && x != i
  {
    WithoutIncreasing(s.results, i);
  }

  lemma FreeLocksIff(s: State, id: nat, kind: Option<bool>, has: bool)
    requires Quiet(s)
    ensures var t, s1 := s.spawned, With(s, WantFree(id, kind, has));
            Usable(s, id, kind) ==> Next(s1, LockHolder(t)) == Some(With(s.(holderLock := Some(t)), Freeing(id - 1, has)))
    ensures var t, s1 := s.spawned, With(s, WantFree(id, kind, has));
            !Usable(s, id, kind) && !has ==> Next(s1, LockHolder(t)) == Some(s.(spawned := s.spawned + 1))
  {
    if id > 0 {
      assert EntryOk(s, id - 1);
    }
    if Usable(s, id, kind) {
      Moves(s, WantFree(id, kind, has), Freeing(id - 1, has));
    } else {
      Returns(s, WantFree(id, kind, has));
    }
  }

  /** The owner of the holder lock frees the item, and gives its handler back if it has one. */
  lemma FreeItemIs(s: State, i: Item, has: bool)
    requires Quiet(s) && i < |s.entries| && s.entries[i].live && s.entries[i].lock.None?
    ensures var t, s1 := s.spawned, With(s.(holderLock := Some(s.spawned)), Freeing(i, has));
            Next(s1, FreeItem(t)) == Some(if has then With(Freed(s, i), Returning) else Freed(s, i).(spawned := t + 1))
  {
    var t := s.spawned;
    assert s.released + [] == s.released;
    if has {
      Moves(Freed(s, i), Freeing(i, has), Returning);
    } else {
      Returns(Freed(s, i), Freeing(i, has));
    }
  }

  /** Freeing by id: exactly that object is freed, or nothing happens because the id is of no use. */
  lemma FreeDoes(s: State, id: nat, kind: Option<bool>) returns (es: seq<Event>, s': State)
    requires Quiet(s) && (Usable(s, id, kind) ==> s.entries[id - 1].lock.None?)
    ensures Run(s, es) == Some(s')
    ensures s' == (if Usable(s, id, kind) then Freed(s, id - 1) else s).(spawned := s.spawned + 1)
  {
    var t, s1 := s.spawned, With(s, WantFree(id, kind, false));
    Machine.RunOn(Next, s, [], s, StartFree(id, kind), s1);
    FreeLocksIff(s, id, kind, false);
    es := [] + [StartFree(id, kind)] + [LockHolder(t)];
    s' := Next(s1, LockHolder(t)).value;
    Machine.RunOn(Next, s, [] + [StartFree(id, kind)], s1, LockHolder(t), s');
    if Usable(s, id, kind) {
      var s2 := s';
      FreeItemIs(s, id - 1, false);
      s' := Freed(s, id - 1).(spawned := t + 1);
      Machine.RunOn(Next, s, es, s2, FreeItem(t), s');
      es := es + [FreeItem(t)];
    }
  }

  // ---------- Add ----------

  /** The new object is listed last, live and unlocked. */
  function Added(s: State, owned: bool, isStmt2: bool): State
  {
    s.(entries := s.entries + [Entry(true, owned, isStmt2, None)], results := s.results + [|s.entries|])
  }

  /** Adding: the object can be used by its new id from then on, with the kind that it has. */
  lemma AddDoes(s: State, owned: bool, isStmt2: bool) returns (es: seq<Event>, s': State)
    requires Quiet(s)
    ensures Run(s, es) == Some(s') && s' == Added(s, owned, isStmt2).(spawned := s.spawned + 1)
    ensures Usable(s', |s.entries| + 1, None) && Usable(s', |s.entries| + 1, Some(isStmt2))
    ensures !Usable(s, |s.entries| + 1, None) && !Usable(s', |s.entries| + 1, Some(!isStmt2))
  {
    var t, s1 := s.spawned, With(s, WantAdd(owned, isStmt2, false));
    Machine.RunOn(Next, s, [], s, StartAdd(owned, isStmt2), s1);
    Returns(Added(s, owned, isStmt2), WantAdd(owned, isStmt2, false));
    s' := Added(s, owned, isStmt2).(spawned := s.spawned + 1);
    Machine.RunOn(Next, s, [] + [StartAdd(owned, isStmt2)], s1, Add(t), s');
    es := [] + [StartAdd(owned, isStmt2)] + [Add(t)];
  }

  // ---------- Fetch ----------

  /** A fetch has the item and a handler. */
  lemma FetchBegins(s: State, id: nat) returns (es: seq<Event>, s': State)
    requires Quiet(s) && Usable(s, id, None) && s.entries[id - 1].lock.None? && s.idle > 0
    ensures Run(s, es) == Some(s')
    ensures s' == With(Locking(s, id - 1, Some(s.spawned)).(idle := s.idle - 1), Fetching(Some(id - 1)))
  {
    var t, i := s.spawned, id - 1;
    var es1, s1 := GetLocks(s, id, None, true);
    var l := Locking(s, i, Some(t));
    Moves(l.(idle := s.idle - 1), WantHandler(Some(i)), Fetching(Some(i)));
    s' := With(l.(idle := s.idle - 1), Fetching(Some(i)));
    Machine.RunOn(Next, s, es1, s1, TakeHandler(t), s');
    es := es1 + [TakeHandler(t)];
  }

  /** The handler goes back into the channel when nobody waits for it. */
  lemma HandlerReturns(s: State)
    requires Quiet(s) && s.idle > 0 && s.queue == []
    ensures Next(With(s.(idle := s.idle - 1), Returning), PutHandler(s.spawned)) == Some(s.(spawned := s.spawned + 1))
  {
    Returns(s.(idle := s.idle - 1), Returning);
  }

  /** A fetch of a block: the driver is called on the item asked for, with a handler, and the holder is as before. */
  lemma FetchDoes(s: State, id: nat) returns (es: seq<Event>, s1: State, s': State)
    requires Quiet(s) && Usable(s, id, None) && s.entries[id - 1].lock.None? && s.idle > 0 && s.queue == []
    ensures Run(s, es) == Some(s1) && s.spawned in s1.threads && s1.threads[s.spawned] == Fetching(Some(id - 1))
    ensures Next(s1, DriverCall(s.spawned)) == Some(s1)
    ensures Run(s, es + [UnlockItem(s.spawned, false)] + [PutHandler(s.spawned)]) == Some(s')
    ensures s' == s.(spawned := s.spawned + 1)
  {
    var t, i := s.spawned, id - 1;
    es, s1 := FetchBegins(s, id);
    Unlocked(s, i, t);
    Moves(s.(idle := s.idle - 1), Fetching(Some(i)), Returning);
    var s2 := With(s.(idle := s.idle - 1), Returning);
    Machine.RunOn(Next, s, es, s1, UnlockItem(t, false), s2);
    HandlerReturns(s);
    s' := s.(spawned := t + 1);
    Machine.RunOn(Next, s, es + [UnlockItem(t, false)], s2, PutHandler(t), s');
  }

  lemma QueryBegins(s: State, owned: bool) returns (es: seq<Event>, s': State)
    requires Quiet(s) && s.idle > 0
    ensures Run(s, es) == Some(s') && s' == With(s.(idle := s.idle - 1), WantAdd(owned, false, true))
  {
    var t, r := s.spawned, s.(idle := s.idle - 1);
    var s1, s2 := With(s, WantHandler(None)), With(r, Fetching(None));
    Machine.RunOn(Next, s, [], s, StartQuery, s1);
    Moves(r, WantHandler(None), Fetching(None));
    Machine.RunOn(Next, s, [] + [StartQuery], s1, TakeHandler(t), s2);
    Moves(r, Fetching(None), WantAdd(owned, false, true));
    s' := With(r, WantAdd(owned, false, true));
    Machine.RunOn(Next, s, [] + [StartQuery] + [TakeHandler(t)], s2, Answer(t, true, owned), s');
    es := [] + [StartQuery] + [TakeHandler(t)] + [Answer(t, true, owned)];
  }

  /** A query with rows: its result is listed, and the handler is back. */
  lemma QueryDoes(s: State, owned: bool) returns (es: seq<Event>, s': State)
    requires Quiet(s) && s.idle > 0 && s.queue == []
    ensures Run(s, es) == Some(s') && s' == Added(s, owned, false).(spawned := s.spawned + 1)
  {
    var t, r := s.spawned, s.(idle := s.idle - 1);
    var es1, s1 := QueryBegins(s, owned);
    Moves(Added(r, owned, false), WantAdd(owned, false, true), Returning);
    var s2 := With(Added(r, owned, false), Returning);
    Machine.RunOn(Next, s, es1, s1, Add(t), s2);
    Returns(Added(r, owned, false), Returning);
    s' := Added(s, owned, false).(spawned := t + 1);
    Machine.RunOn(Next, s, es1 + [Add(t)], s2, PutHandler(t), s');
    es := es1 + [Add(t)] + [PutHandler(t)];
  }

  lemma IdleDoesNotMatter(s: State, idle: nat)
    requires Quiet(s)
    ensures Quiet(s.(idle := idle))
  {
    forall i: Item ensures EntryOk(s.(idle := idle), i) {
      assert EntryOk(s, i);
    }
  }

  lemma FetchLeavesToFree(s: State, id: nat) returns (es: seq<Event>, s': State)
    requires Quiet(s) && Usable(s, id, None) && s.entries[id - 1].lock.None? && s.idle > 0
    ensures Run(s, es) == Some(s') && s' == With(s.(idle := s.idle - 1), WantFree(id, None, true))
  {
    var t, i, r := s.spawned, id - 1, s.(idle := s.idle - 1);
    var es1, s1 := FetchBegins(s, id);
    Unlocked(r, i, t);
    Moves(r, Fetching(Some(i)), WantFree(id, None, true));
    s' := With(r, WantFree(id, None, true));
    Machine.RunOn(Next, s, es1, s1, UnlockItem(t, true), s');
    es := es1 + [UnlockItem(t, true)];
  }

  lemma FreeWithHandler(s0: State, es0: seq<Event>, s: State, id: nat) returns (es: seq<Event>, s': State)
    requires Quiet(s) && Usable(s, id, None) && s.entries[id - 1].lock.None?
    requires Run(s0, es0) == Some(With(s, WantFree(id, None, true)))
    ensures Run(s0, es) == Some(s') && s' == With(Freed(s, id - 1), Returning)
  {
    var t, i := s.spawned, id - 1;
    var s1, s2 := With(s, WantFree(id, None, true)), With(s.(holderLock := Some(t)), Freeing(i, true));
    FreeLocksIff(s, id, None, true);
    Machine.RunOn(Next, s0, es0, s1, LockHolder(t), s2);
    FreeItemIs(s, i, true);
    s' := With(Freed(s, i), Returning);
    Machine.RunOn(Next, s0, es0 + [LockHolder(t)], s2, FreeItem(t), s');
    es := es0 + [LockHolder(t)] + [FreeItem(t)];
  }

  /** A fetch that finds the end: the result is freed as well, and the handler is back. */
  lemma LastFetchDoes(s: State, id: nat) returns (es: seq<Event>, s': State)
    requires Quiet(s) && Usable(s, id, None) && s.entries[id - 1].lock.None? && s.idle > 0 && s.queue == []
    ensures Run(s, es) == Some(s') && s' == Freed(s, id - 1).(spawned := s.spawned + 1)
  {
    var t, r := s.spawned, s.(idle := s.idle - 1);
    IdleDoesNotMatter(s, s.idle - 1);
    var es1, s1 := FetchLeavesToFree(s, id);
    var es2, s2 := FreeWithHandler(s, es1, r, id);
    Returns(Freed(r, id - 1), Returning);
    s' := Freed(s, id - 1).(spawned := t + 1);
    Machine.RunOn(Next, s, es2, s2, PutHandler(t), s');
    es := es2 + [PutHandler(t)];
  }

  // ---------- FreeAll ----------

  predicate NoItemLocked(s: State)
  {
    forall i :: 0 <= i < |s.entries| ==> s.entries[i].lock.None?
  }

  lemma FreedIsQuiet(s: State)
    requires Quiet(s) && NoItemLocked(s) && s.results != []
    ensures s.results[0] < |s.entries| && s.entries[s.results[0]].live
    ensures var r := Freed(s, s.results[0]); Quiet(r) && NoItemLocked(r) && r.results == s.results[1..]
  {
    var i := s.results[0];
    assert EntryOk(s, i);
    HeadOfIncreasing(s.results);
    FreedIsGone(s, i);
    forall x: Item ensures EntryOk(Freed(s, i), x) {
      assert EntryOk(s, x);
    }
  }

  lemma FreeFront(s: State)
    requires Quiet(s) && NoItemLocked(s) && s.results != []
    ensures s.results[0] < |s.entries|
    ensures var t, r := s.spawned, Freed(s, s.results[0]);
            Next(With(s.(holderLock := Some(t)), FreeingAll), FreeItem(t))
            == Some(if r.results == [] then r.(spawned := t + 1) else With(r.(holderLock := Some(t)), FreeingAll))
  {
    var t := s.spawned;
    FreedIsQuiet(s);
    assert s.released + [] == s.released;
    Returns(Freed(s, s.results[0]), FreeingAll);
  }

  /** The listed objects that the holder owns, in the order of the list. */
  function Owned(s: State, items: seq<Item>): seq<Item>
  {
    if items == [] then []
    else (if items[0] < |s.entries| && s.entries[items[0]].owned then [items[0]] else []) + Owned(s, items[1..])
  }

  lemma {:induction false} OwnedStays(s: State, r: State, items: seq<Item>)
    requires |r.entries| == |s.entries|
    requires forall i :: 0 <= i < |s.entries| ==> r.entries[i].owned == s.entries[i].owned
    ensures Owned(r, items) == Owned(s, items)
    decreases |items|
  {
    if items != [] {
      OwnedStays(s, r, items[1..]);
    }
  }

  /** Every object is gone, and those that the holder owns were released in the order of the list. */
  ghost predicate AllFreed(s: State, s': State)
  {
    && s' == s.(entries := s'.entries, results := [], released := s.released + Owned(s, s.results))
    && |s'.entries| == |s.entries|
    && forall i :: 0 <= i < |s.entries| ==> s'.entries[i] == s.entries[i].(live := false)
  }

  lemma ReleasedStep(s: State)
    requires s.results != [] && s.results[0] < |s.entries|
    ensures var r := Freed(s, s.results[0]);
            r.released + Owned(r, s.results[1..]) == s.released + Owned(s, s.results)
  {
    var i := s.results[0];
    OwnedStays(s, Freed(s, i), s.results[1..]);
    var first := if s.entries[i].owned then [i] else [];
    assert (s.released + first) + Owned(s, s.results[1..]) == s.released + (first + Owned(s, s.results[1..]));
  }

  lemma AllFreedStep(s: State, s': State)
    requires s.results != [] && s.results[0] < |s.entries| && Freed(s, s.results[0]).results == s.results[1..]
    requires AllFreed(Freed(s, s.results[0]), s')
    ensures AllFreed(s, s')
  {
    ReleasedStep(s);
    forall i | 0 <= i < |s.entries| ensures s'.entries[i] == s.entries[i].(live := false) {
      assert s'.entries[i] == Freed(s, s.results[0]).entries[i].(live := false);
    }
  }

  lemma {:induction false} FreesTheRest(s: State) returns (es: seq<Event>, s': State)
    requires Quiet(s) && NoItemLocked(s) && s.results != []
    ensures Run(With(s.(holderLock := Some(s.spawned)), FreeingAll), es) == Some(s'.(spawned := s.spawned + 1))
    ensures AllFreed(s, s')
    decreases |s.results|
  {
    FreeFront(s);
    FreedIsQuiet(s);
    var t := s.spawned;
    var s0, r := With(s.(holderLock := Some(t)), FreeingAll), Freed(s, s.results[0]);
    if r.results == [] {
      es, s' := [FreeItem(t)], r;
      Machine.RunOne(Next, s0, FreeItem(t));
      NothingListed(r);
    } else {
      var later;
      later, s' := FreesTheRest(r);
      es := [FreeItem(t)] + later;
      assert es[1..] == later;
    }
    AllFreedStep(s, s');
  }

  /** An empty list means that every object is gone already. */
  lemma NothingListed(s: State)
    requires Quiet(s) && s.results == []
    ensures AllFreed(s, s)
  {
    forall i: Item | i < |s.entries| ensures !s.entries[i].live {
      assert EntryOk(s, i);
    }
    assert s.released + [] == s.released;
  }

  /** Freeing everything, at the end of a session. */
  lemma FreeAllDoes(s: State) returns (es: seq<Event>, s': State)
    requires Quiet(s) && NoItemLocked(s)
    ensures Run(s, es) == Some(s'.(spawned := s.spawned + 1)) && AllFreed(s, s')
  {
    var t, s1 := s.spawned, With(s, WantFreeAll);
    Machine.RunOn(Next, s, [], s, StartFreeAll, s1);
    if s.results == [] {
      Returns(s, WantFreeAll);
      Machine.RunOn(Next, s, [] + [StartFreeAll], s1, LockHolder(t), s.(spawned := t + 1));
      es, s' := [] + [StartFreeAll] + [LockHolder(t)], s;
      NothingListed(s);
    } else {
      var s2 := With(s.(holderLock := Some(t)), FreeingAll);
      Moves(s.(holderLock := Some(t)), WantFreeAll, FreeingAll);
      Machine.RunOn(Next, s, [] + [StartFreeAll], s1, LockHolder(t), s2);
      var later;
      later, s' := FreesTheRest(s);
      Machine.RunAppend(Next, s, [] + [StartFreeAll] + [LockHolder(t)], later);
      es := [] + [StartFreeAll] + [LockHolder(t)] + later;
    }
  }
}
