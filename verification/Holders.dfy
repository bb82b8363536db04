/**
  A holder of controller/ws/ws/query_result.go, with the locking pattern of the handlers in controller/ws/ws/fetch.go
  and query.go, as a transition system.  Its steps are those of the result holder and of the statement holder alike: a
  result that belongs to a statement is not released by its holder, and a statement has a kind that a request may have
  to match.  A fetch takes a callback handler from the pool of db/async/handlerpool.go while it holds an item lock, and
  gives it back when it returns.  `SessionHolders` puts the two holders of a session together.
*/
module Holders {
  import opened Wrappers
  import Machine
  import opened Sequences

  type Tid = nat

  /** Items are named by the order of `Add`; the id a client sees is one more. */
  type Item = nat

  /**
    `live` is the native pointer being non-nil, `owned` that the holder must release it (a result with `inStmt` is
    not owned), `isStmt2` the kind of a statement.
  */
  datatype Entry = Entry(live: bool, owned: bool, isStmt2: bool, lock: Option<Tid>)

  /** In the stages of a handler, `item` is the item whose lock the request holds; a query holds none. */
  datatype PC =
    | WantGet(id: nat, kind: Option<bool>, fetches: bool)   // Get: wants to read the list
    | Got(i: Item, fetches: bool)                           // has the pointer, wants the item lock
    | InItem(i: Item)                                       // holds the item lock and needs no handler
    | WantHandler(item: Option<Item>)                       // HandlerPool.Get: about to look into the channel
    | Slow(item: Option<Item>)                              // found the channel empty, about to queue
    | Queued(item: Option<Item>)                            // waits on its own channel
    | Fetching(item: Option<Item>)                          // has a handler
    | Returning                                             // has a handler and only gives it back
    | WantAdd(owned: bool, isStmt2: bool, has: bool)        // Add: wants the holder lock
    | WantFree(id: nat, kind: Option<bool>, has: bool)      // FreeResultByID, FreeStmtByID: wants the holder lock
    | Freeing(i: Item, has: bool)                           // holds the holder lock, wants the item lock
    | WantFreeAll                                           // FreeAll: wants the holder lock
    | FreeingAll                                            // holds the holder lock, wants the lock of the first item

  /** `queue` are the requests that wait for a handler, in order; `idle` handlers are in the channel. */
  datatype State = State(
    entries: seq<Entry>,
    results: seq<Item>,
    holderLock: Option<Tid>,
    threads: map<Tid, PC>,
    spawned: nat,
    released: seq<Item>,
    count: nat,
    idle: nat,
    queue: seq<Tid>)

  datatype Event =
    | StartGet(id: nat, kind: Option<bool>, fetches: bool)
    | StartQuery
    | StartAdd(owned: bool, isStmt2: bool)
    | StartFree(id: nat, kind: Option<bool>)
    | StartFreeAll
    | LookUp(t: Tid)
    | LockItem(t: Tid)
    | DriverCall(t: Tid)
    | UnlockItem(t: Tid, thenFree: bool)
    | TakeHandler(t: Tid)
    | Enqueue(t: Tid)
    | Answer(t: Tid, adds: bool, owned: bool)
    | PutHandler(t: Tid)
    | Add(t: Tid)
    | LockHolder(t: Tid)
    | FreeItem(t: Tid)

  predicate Matches(s: State, i: Item, kind: Option<bool>)
  {
    i < |s.entries| && (kind.None? || kind.value == s.entries[i].isStmt2)
  }

  predicate Finds(s: State, id: nat, kind: Option<bool>)
  {
    id > 0 && id - 1 in s.results && Matches(s, id - 1, kind)
  }

  function Spawn(s: State, pc: PC): State
  {
    s.(threads := s.threads[s.spawned := pc], spawned := s.spawned + 1)
  }

  function At(s: State, t: Tid, pc: PC): State
  {
    s.(threads := s.threads[t := pc])
  }

  /** The request returns, by way of the deferred `Put` when it has a handler. */
  function Leave(s: State, t: Tid, has: bool): State
  {
    if has then At(s, t, Returning) else s.(threads := s.threads - {t})
  }

  function WithLock(s: State, i: Item, lock: Option<Tid>): State
    requires i < |s.entries|
  {
    s.(entries := s.entries[i := s.entries[i].(lock := lock)])
  }

  /** `free` on an item, then its removal from the list. */
  function Frees(s: State, i: Item): State
    requires i < |s.entries|
  {
    s.(entries := s.entries[i := s.entries[i].(live := false)],
       results := Without(s.results, i),
       released := if s.entries[i].live && s.entries[i].owned then s.released + [i] else s.released)
  }

  /** The item that the owner of the holder lock frees next. */
  function FreesNext(s: State, pc: PC): Option<Item>
  {
    match pc
    case Freeing(i, _) => Some(i)
    case FreeingAll => if s.results == [] then None else Some(s.results[0])
    case _ => None
  }

  /** The item whose lock a request holds. */
  function LockedItem(pc: PC): Option<Item>
  {
    match pc
    case InItem(i) => Some(i)
    case WantHandler(item) => item
    case Slow(item) => item
    case Queued(item) => item
    case Fetching(item) => item
    case _ => None
  }

  // ---------- Steps ----------

  function LocksItem(s: State, t: Tid, pc: PC): Option<State>
    requires pc.Got?
  {
    if pc.i >= |s.entries| || s.entries[pc.i].lock.Some? then None
    else if !s.entries[pc.i].live then Some(Leave(s, t, false))
    else Some(At(WithLock(s, pc.i, Some(t)), t, if pc.fetches then WantHandler(Some(pc.i)) else InItem(pc.i)))
  }

  function UnlocksItem(s: State, t: Tid, pc: PC, thenFree: bool): Option<State>
  {
    var has := pc.Fetching?;
    var item := LockedItem(pc);
    if !(pc.InItem? || has) || item.None? || item.value >= |s.entries| then None
    else
      var s1 := WithLock(s, item.value, None);
      Some(if thenFree then At(s1, t, WantFree(item.value + 1, None, has)) else Leave(s1, t, has))
  }

  /** `Put`: the first request in the queue gets the handler, or it goes into the channel. */
  function PutsHandler(s: State, t: Tid): State
  {
    var s1 := Leave(s, t, false);
    if s.queue == [] then s1.(idle := s.idle + 1)
    else
      var q := s.queue[0];
      var item := if q in s.threads && s.threads[q].Queued? then s.threads[q].item else None;
      At(s1.(queue := s.queue[1..]), q, Fetching(item))
  }

  function NextItem(s: State, e: Event): Option<State>
    requires e.LookUp? || e.LockItem? || e.DriverCall? || e.UnlockItem?
  {
    if e.t !in s.threads then None
    else
      var t, pc := e.t, s.threads[e.t];
      match e
      case LookUp(_) =>
        if !pc.WantGet? || s.holderLock.Some? then None
        else if Finds(s, pc.id, pc.kind) then Some(At(s, t, Got(pc.id - 1, pc.fetches)))
        else Some(Leave(s, t, false))
      case LockItem(_) => if pc.Got? then LocksItem(s, t, pc) else None
      case DriverCall(_) => if pc.InItem? || (pc.Fetching? && pc.item.Some?) then Some(s) else None
      case UnlockItem(_, thenFree) => UnlocksItem(s, t, pc, thenFree)
  }

  function NextHandler(s: State, e: Event): Option<State>
    requires e.TakeHandler? || e.Enqueue? || e.Answer? || e.PutHandler?
  {
    if e.t !in s.threads then None
    else
      var t, pc := e.t, s.threads[e.t];
      match e
      case TakeHandler(_) =>
        if !pc.WantHandler? then None
        else if s.idle > 0 then Some(At(s.(idle := s.idle - 1), t, Fetching(pc.item)))
        else Some(At(s, t, Slow(pc.item)))
      case Enqueue(_) =>
        if pc.Slow? then Some(At(s.(queue := s.queue + [t]), t, Queued(pc.item))) else None
      case Answer(_, adds, owned) =>
        if !pc.Fetching? || pc.item.Some? then None
        else Some(At(s, t, if adds then WantAdd(owned, false, true) else Returning))
      case PutHandler(_) => if pc.Returning? then Some(PutsHandler(s, t)) else None
  }

  function NextHolder(s: State, e: Event): Option<State>
    requires e.Add? || e.LockHolder? || e.FreeItem?
  {
    if e.t !in s.threads then None
    else
      var t, pc := e.t, s.threads[e.t];
      match e
      case Add(_) =>
        if !pc.WantAdd? || s.holderLock.Some? then None
        else
          Some(Leave(s.(entries := s.entries + [Entry(true, pc.owned, pc.isStmt2, None)],
                        results := s.results + [|s.entries|]), t, pc.has))
      case LockHolder(_) =>
        if s.holderLock.Some? then None
        else if pc.WantFree? then
          if Finds(s, pc.id, pc.kind) then Some(At(s.(holderLock := Some(t)), t, Freeing(pc.id - 1, pc.has)))
          else Some(Leave(s, t, pc.has))
        else if pc.WantFreeAll? then
          if s.results != [] then Some(At(s.(holderLock := Some(t)), t, FreeingAll)) else Some(Leave(s, t, false))
        else None
      case FreeItem(_) =>
        var next := FreesNext(s, pc);
        if next.None? || next.value >= |s.entries| || s.entries[next.value].lock.Some? then None
        else
          var s1 := Frees(s, next.value);
          Some(if pc.FreeingAll? && s1.results != [] then s1
               else Leave(s1.(holderLock := None), t, pc.Freeing? && pc.has))
  }

  function Next(s: State, e: Event): Option<State>
  {
    match e
    case StartGet(id, kind, fetches) => Some(Spawn(s, WantGet(id, kind, fetches)))
    case StartQuery => Some(Spawn(s, WantHandler(None)))
    case StartAdd(owned, isStmt2) => Some(Spawn(s, WantAdd(owned, isStmt2, false)))
    case StartFree(id, kind) => Some(Spawn(s, WantFree(id, kind, false)))
    case StartFreeAll => Some(Spawn(s, WantFreeAll))
    case LookUp(_) | LockItem(_) | DriverCall(_) | UnlockItem(_, _) => NextItem(s, e)
    case TakeHandler(_) | Enqueue(_) | Answer(_, _, _) | PutHandler(_) => NextHandler(s, e)
    case Add(_) | LockHolder(_) | FreeItem(_) => NextHolder(s, e)
  }

  /** The steps of the result holder, apart from the results that statements add. */
  predicate ForResults(e: Event)
  {
    match e
    case StartGet(_, kind, _) => kind.None?
    case StartFree(_, kind) => kind.None?
    case StartAdd(_, _) => false
    case Answer(_, adds, owned) => adds ==> owned
    case _ => true
  }

  /** The steps of the statement holder: a request says which kind of statement it means, and needs no handler. */
  predicate ForStmts(e: Event)
  {
    match e
    case StartGet(_, kind, fetches) => kind.Some? && !fetches
    case StartFree(_, kind) => kind.Some?
    case StartAdd(owned, _) => owned
    case UnlockItem(_, thenFree) => !thenFree
    case StartQuery | TakeHandler(_) | Enqueue(_) | Answer(_, _, _) | PutHandler(_) => false
    case _ => true
  }

  function Run(s: State, es: seq<Event>): Option<State>
  {
    Machine.Run(Next, s, es)
  }

  /** An empty holder and a pool of `count` idle handlers. */
  function Init(count: nat): State
  {
    State([], [], None, map[], 0, [], count, count, [])
  }

  // ---------- The invariant ----------

  /** Listed exactly while the pointer is non-nil; released exactly when it was dropped by a holder that owns it. */
  ghost predicate EntryOk(s: State, i: Item)
  {
    && (i in s.results <==> i < |s.entries| && s.entries[i].live)
    && (i in s.released <==> i < |s.entries| && !s.entries[i].live && s.entries[i].owned)
    && (i < |s.entries| && s.entries[i].lock.Some? ==>
          s.entries[i].lock.value in s.threads && LockedItem(s.threads[s.entries[i].lock.value]) == Some(i))
  }

  predicate OwnsHolder(pc: PC)
  {
    pc.Freeing? || pc.FreeingAll?
  }

  ghost predicate ThreadOk(s: State, t: Tid)
  {
    && (s.holderLock == Some(t) <==> t in s.threads && OwnsHolder(s.threads[t]))
    && (t in s.queue <==> t in s.threads && s.threads[t].Queued?)
    && (t in s.threads ==>
          var pc := s.threads[t];
          && t < s.spawned
          && (pc.Got? ==> pc.i < |s.entries|)
          && (LockedItem(pc).Some? ==>
                var i := LockedItem(pc).value;
                i < |s.entries| && s.entries[i].lock == Some(t) && s.entries[i].live)
          && (pc.Freeing? ==> pc.i in s.results)
          && (pc.FreeingAll? ==> s.results != []))
  }

  predicate Has(pc: PC)
  {
    pc.Fetching? || pc.Returning? || (pc.WantAdd? && pc.has) || (pc.WantFree? && pc.has) || (pc.Freeing? && pc.has)
  }

  /** The requests that have a handler. */
  function HandlersOut(threads: map<Tid, PC>): set<Tid>
  {
    set t | t in threads && Has(threads[t])
  }

  ghost predicate Inv(s: State)
  {
    && Increasing(s.results)
    && NoDup(s.released)
    && NoDup(s.queue)
    && s.idle + |HandlersOut(s.threads)| == s.count
    && (forall i: Item :: EntryOk(s, i))
    && (forall t: Tid :: ThreadOk(s, t))
  }

  // ---------- Every step keeps the invariant ----------

  lemma HandlersMoved(threads: map<Tid, PC>, t: Tid, pc: PC)
    ensures |HandlersOut(threads[t := pc])|
            == |HandlersOut(threads)| - (if t in threads && Has(threads[t]) then 1 else 0) + (if Has(pc) then 1 else 0)
  {
    var before, after := HandlersOut(threads), HandlersOut(threads[t := pc]);
    assert after == if Has(pc) then (before - {t}) + {t} else before - {t};
  }

  lemma HandlersLeft(threads: map<Tid, PC>, t: Tid)
    requires t in threads
    ensures |HandlersOut(threads - {t})| == |HandlersOut(threads)| - if Has(threads[t]) then 1 else 0
  {
    var before, after := HandlersOut(threads), HandlersOut(threads - {t});
    assert after == before - {t};
  }

  /** What a step of one request that leaves the holder and its lists alone has to respect. */
  ghost predicate Steps(s: State, s': State, t: Tid)
  {
    && t in s.threads && s'.results == s.results && s'.released == s.released && s'.spawned == s.spawned
    && s'.count == s.count && |s'.entries| == |s.entries|
    && (forall x :: x != t ==> (x in s'.threads <==> x in s.threads) && (x in s.threads ==> s'.threads[x] == s.threads[x]))
    && (forall i :: 0 <= i < |s.entries| ==> s'.entries[i].(lock := None) == s.entries[i].(lock := None))
  }

  /** The locks of the items after the step are those of the places of the requests. */
  ghost predicate ItemMoves(s: State, s': State, t: Tid)
    requires Steps(s, s', t)
  {
    var was := LockedItem(s.threads[t]);
    var now := if t in s'.threads then LockedItem(s'.threads[t]) else None;
    forall i: Item :: i < |s.entries| ==>
      if now == Some(i) then s'.entries[i].lock == Some(t) && (was == Some(i) || s.entries[i].lock.None?) && s.entries[i].live
      else s'.entries[i].lock == if was == Some(i) then None else s.entries[i].lock
  }

  lemma StepKeepsEntries(s: State, s': State, t: Tid)
    requires Inv(s) && Steps(s, s', t) && ItemMoves(s, s', t)
    ensures forall i: Item :: EntryOk(s', i)
  {
    assert ThreadOk(s, t);
    forall i: Item ensures EntryOk(s', i) {
      assert EntryOk(s, i);
    }
  }

  lemma LookUpKeeps(s: State, t: Tid, s': State)
    requires Inv(s) && NextItem(s, LookUp(t)) == Some(s')
    ensures Inv(s')
  {
    assert ThreadOk(s, t);
    if t in s'.threads {
      HandlersMoved(s.threads, t, s'.threads[t]);
    } else {
      HandlersLeft(s.threads, t);
    }
    StepKeepsEntries(s, s', t);
    forall x: Tid ensures ThreadOk(s', x) {
      assert ThreadOk(s, x);
      if x == t && t in s'.threads {
        assert EntryOk(s, s'.threads[t].i);
      }
    }
  }

  lemma LockItemKeeps(s: State, t: Tid, s': State)
    requires Inv(s) && NextItem(s, LockItem(t)) == Some(s')
    ensures Inv(s')
  {
    assert ThreadOk(s, t);
    if t in s'.threads {
      HandlersMoved(s.threads, t, s'.threads[t]);
    } else {
      HandlersLeft(s.threads, t);
    }
    StepKeepsEntries(s, s', t);
    forall x: Tid ensures ThreadOk(s', x) {
      assert ThreadOk(s, x);
    }
  }

  lemma UnlockItemKeeps(s: State, t: Tid, thenFree: bool, s': State)
    requires Inv(s) && NextItem(s, UnlockItem(t, thenFree)) == Some(s')
    ensures Inv(s')
  {
    assert ThreadOk(s, t);
    if t in s'.threads {
      HandlersMoved(s.threads, t, s'.threads[t]);
    } else {
      HandlersLeft(s.threads, t);
    }
    StepKeepsEntries(s, s', t);
    forall x: Tid ensures ThreadOk(s', x) {
      assert ThreadOk(s, x);
    }
  }

  lemma TakeHandlerKeeps(s: State, t: Tid, s': State)
    requires Inv(s) && NextHandler(s, TakeHandler(t)) == Some(s')
    ensures Inv(s')
  {
    assert ThreadOk(s, t);
    HandlersMoved(s.threads, t, s'.threads[t]);
    StepKeepsEntries(s, s', t);
    forall x: Tid ensures ThreadOk(s', x) {
      assert ThreadOk(s, x);
    }
  }

  lemma EnqueueKeeps(s: State, t: Tid, s': State)
    requires Inv(s) && NextHandler(s, Enqueue(t)) == Some(s')
    ensures Inv(s')
  {
    assert ThreadOk(s, t);
    HandlersMoved(s.threads, t, s'.threads[t]);
    NoDupAppend(s.queue, t);
    StepKeepsEntries(s, s', t);
    forall x: Tid ensures ThreadOk(s', x) {
      assert ThreadOk(s, x);
    }
  }

  lemma AnswerKeeps(s: State, t: Tid, adds: bool, owned: bool, s': State)
    requires Inv(s) && NextHandler(s, Answer(t, adds, owned)) == Some(s')
    ensures Inv(s')
  {
    assert ThreadOk(s, t);
    HandlersMoved(s.threads, t, s'.threads[t]);
    StepKeepsEntries(s, s', t);
    forall x: Tid ensures ThreadOk(s', x) {
      assert ThreadOk(s, x);
    }
  }

  /** The handler goes into the channel. */
  lemma PutIdleKeeps(s: State, t: Tid, s': State)
    requires Inv(s) && NextHandler(s, PutHandler(t)) == Some(s') && s.queue == []
    ensures Inv(s')
  {
    assert ThreadOk(s, t);
    HandlersLeft(s.threads, t);
    StepKeepsEntries(s, s', t);
    forall x: Tid ensures ThreadOk(s', x) {
      assert ThreadOk(s, x);
    }
  }

  /** The handler goes to the first request in the queue. */
  lemma PutToWaiterKeeps(s: State, t: Tid, s': State)
    requires Inv(s) && NextHandler(s, PutHandler(t)) == Some(s') && s.queue != []
    ensures Inv(s')
  {
    var q := s.queue[0];
    assert q in s.queue;
    assert ThreadOk(s, t);
    assert ThreadOk(s, q);
    HandlersLeft(s.threads, t);
    HandlersMoved(s.threads - {t}, q, s'.threads[q]);
    HeadOfNoDup(s.queue);
    forall i: Item ensures EntryOk(s', i) {
      assert EntryOk(s, i);
    }
    forall x: Tid ensures ThreadOk(s', x) {
      assert ThreadOk(s, x);
    }
  }

  lemma AddKeeps(s: State, t: Tid, s': State)
    requires Inv(s) && NextHolder(s, Add(t)) == Some(s')
    ensures Inv(s')
  {
    assert ThreadOk(s, t);
    if t in s'.threads {
      HandlersMoved(s.threads, t, s'.threads[t]);
    } else {
      HandlersLeft(s.threads, t);
    }
    forall i: Item ensures EntryOk(s', i) {
      assert EntryOk(s, i);
    }
    forall x: Tid ensures ThreadOk(s', x) {
      assert ThreadOk(s, x);
    }
    forall y | y in s.results ensures y < |s.entries| {
      assert EntryOk(s, y);
    }
    IncreasingAppend(s.results, |s.entries|);
  }

  lemma LockHolderThreads(s: State, t: Tid, s': State)
    requires Inv(s) && NextHolder(s, LockHolder(t)) == Some(s')
    ensures forall x: Tid :: ThreadOk(s', x)
  {
    assert ThreadOk(s, t);
    forall x: Tid ensures ThreadOk(s', x) {
      assert ThreadOk(s, x);
    }
  }

  lemma LockHolderKeeps(s: State, t: Tid, s': State)
    requires Inv(s) && NextHolder(s, LockHolder(t)) == Some(s')
    ensures Inv(s')
  {
    if t in s'.threads {
      HandlersMoved(s.threads, t, s'.threads[t]);
    } else {
      HandlersLeft(s.threads, t);
    }
    LockHolderThreads(s, t, s');
    StepKeepsEntries(s, s', t);
  }

  /** Freeing removes exactly the item it is for, which was live. */
  lemma FreesItem(s: State, t: Tid, s': State)
    requires Inv(s) && NextHolder(s, FreeItem(t)) == Some(s')
    ensures var next := FreesNext(s, s.threads[t]);
            && next.Some? && next.value in s.results && next.value < |s.entries| && s.entries[next.value].live
            && s'.results == Without(s.results, next.value)
            && (forall x :: x in s'.results <==> x in s.results && x != next.value)
  {
    assert ThreadOk(s, t);
    var i := FreesNext(s, s.threads[t]).value;
    assert EntryOk(s, i);
    WithoutIncreasing(s.results, i);
  }

  lemma FreeItemThreads(s: State, t: Tid, s': State)
    requires Inv(s) && NextHolder(s, FreeItem(t)) == Some(s')
    ensures forall x: Tid :: ThreadOk(s', x)
  {
    FreesItem(s, t, s');
    assert ThreadOk(s, t);
    forall x: Tid ensures ThreadOk(s', x) {
      assert ThreadOk(s, x);
    }
  }

  lemma FreeItemEntries(s: State, t: Tid, s': State)
    requires Inv(s) && NextHolder(s, FreeItem(t)) == Some(s')
    ensures NoDup(s'.released) && forall i: Item :: EntryOk(s', i)
  {
    FreesItem(s, t, s');
    assert ThreadOk(s, t);
    assert EntryOk(s, FreesNext(s, s.threads[t]).value);
    forall i: Item ensures EntryOk(s', i) {
      assert EntryOk(s, i);
    }
  }

  lemma FreeItemKeeps(s: State, t: Tid, s': State)
    requires Inv(s) && NextHolder(s, FreeItem(t)) == Some(s')
    ensures Inv(s')
  {
    if t in s'.threads {
      HandlersMoved(s.threads, t, s'.threads[t]);
      assert s'.threads == s.threads[t := s'.threads[t]];
    } else {
      HandlersLeft(s.threads, t);
    }
    FreesItem(s, t, s');
    WithoutIncreasing(s.results, FreesNext(s, s.threads[t]).value);
    FreeItemEntries(s, t, s');
    FreeItemThreads(s, t, s');
  }

  predicate Starts(e: Event)
  {
    e.StartGet? || e.StartQuery? || e.StartAdd? || e.StartFree? || e.StartFreeAll?
  }

  lemma StartKeeps(s: State, e: Event, s': State)
    requires Inv(s) && Starts(e) && Next(s, e) == Some(s')
    ensures Inv(s')
  {
    assert ThreadOk(s, s.spawned);
    HandlersMoved(s.threads, s.spawned, s'.threads[s.spawned]);
    forall i: Item ensures EntryOk(s', i) {
      assert EntryOk(s, i);
    }
    forall t: Tid ensures ThreadOk(s', t) {
      assert ThreadOk(s, t);
    }
  }

  lemma NextKeepsInv(s: State, e: Event, s': State)
    requires Inv(s) && Next(s, e) == Some(s')
    ensures Inv(s')
  {
    match e
    case StartGet(_, _, _) | StartQuery | StartAdd(_, _) | StartFree(_, _) | StartFreeAll => StartKeeps(s, e, s');
    case LookUp(t) => LookUpKeeps(s, t, s');
    case LockItem(t) => LockItemKeeps(s, t, s');
    case DriverCall(_) =>
    case UnlockItem(t, thenFree) => UnlockItemKeeps(s, t, thenFree, s');
    case TakeHandler(t) => TakeHandlerKeeps(s, t, s');
    case Enqueue(t) => EnqueueKeeps(s, t, s');
    case Answer(t, adds, owned) => AnswerKeeps(s, t, adds, owned, s');
    case PutHandler(t) =>
      if s.queue == [] {
        PutIdleKeeps(s, t, s');
      } else {
        PutToWaiterKeeps(s, t, s');
      }
    case Add(t) => AddKeeps(s, t, s');
    case LockHolder(t) => LockHolderKeeps(s, t, s');
    case FreeItem(t) => FreeItemKeeps(s, t, s');
  }

  lemma {:induction false} RunKeepsInv(s: State, es: seq<Event>, s': State)
    requires Inv(s) && Run(s, es) == Some(s')
    ensures Inv(s')
    decreases |es|
  {
    if es != [] {
      var s1 := Next(s, es[0]).value;
      NextKeepsInv(s, es[0], s1);
      RunKeepsInv(s1, es[1..], s');
    }
  }

  ghost predicate Reached(count: nat, es: seq<Event>, s: State)
  {
    Run(Init(count), es) == Some(s)
  }

  lemma ReachedInv(count: nat, es: seq<Event>, s: State)
    requires Reached(count, es, s)
    ensures Inv(s)
  {
    assert HandlersOut(map[]) == {};
    RunKeepsInv(Init(count), es, s);
  }

  // ---------- What every run guarantees ----------

  /**
    Over any interleaving an owned native object is released at most once, exactly when its pointer was dropped;
    an object that belongs to a statement is never released; the list holds exactly the live objects.
  */
  lemma ReleasedExactlyOnce(count: nat, es: seq<Event>, s: State)
    requires Reached(count, es, s)
    ensures NoDup(s.released)
    ensures forall i: Item :: i in s.released <==> i < |s.entries| && s.entries[i].owned && !s.entries[i].live
    ensures forall i: Item :: i in s.results <==> i < |s.entries| && s.entries[i].live
    ensures s.results == [] ==> forall i: Item :: i < |s.entries| && s.entries[i].owned ==> i in s.released
  {
    ReachedInv(count, es, s);
    forall i: Item
      ensures i in s.released <==> i < |s.entries| && s.entries[i].owned && !s.entries[i].live
      ensures i in s.results <==> i < |s.entries| && s.entries[i].live
    {
      assert EntryOk(s, i);
    }
  }

  /** Every driver call made under an item lock sees an object that is listed and that this holder has not released. */
  lemma DriverCallsSeeLiveObjects(count: nat, es: seq<Event>, s: State, t: Tid)
    requires Reached(count, es, s) && Next(s, DriverCall(t)).Some?
    ensures LockedItem(s.threads[t]).Some?
    ensures var i := LockedItem(s.threads[t]).value;
            i < |s.entries| && s.entries[i].live && i !in s.released && i in s.results
  {
    ReachedInv(count, es, s);
    assert ThreadOk(s, t);
    assert EntryOk(s, LockedItem(s.threads[t]).value);
  }

  function IdsOf(q: seq<Item>): set<nat>
  {
    set i | i in q :: i + 1
  }

  /** The ids a client can use. */
  function Ids(s: State): set<nat>
  {
    IdsOf(s.results)
  }

  lemma IdsRemove(q: seq<Item>, q': seq<Item>, i: Item)
    requires i in q && forall x :: x in q' <==> x in q && x != i
    ensures IdsOf(q') == IdsOf(q) - {i + 1}
  {
    forall id ensures id in IdsOf(q') <==> id in IdsOf(q) - {i + 1} {
      assert id > 0 ==> (id in IdsOf(q) <==> id - 1 in q) && (id in IdsOf(q') <==> id - 1 in q');
    }
  }

  lemma IdsAppend(q: seq<Item>, i: Item)
    ensures IdsOf(q + [i]) == IdsOf(q) + {i + 1}
  {
    forall id ensures id in IdsOf(q + [i]) <==> id in IdsOf(q) + {i + 1} {
      assert id > 0 ==> (id in IdsOf(q) <==> id - 1 in q) && (id in IdsOf(q + [i]) <==> id - 1 in q + [i]);
    }
  }

  /** A step that neither adds nor frees leaves the list alone. */
  lemma ListKept(s: State, e: Event, s': State)
    requires Next(s, e) == Some(s') && !e.Add? && !e.FreeItem?
    ensures s'.results == s.results && |s'.entries| == |s.entries|
  {
  }

  /**
    The holder is a finite set of ids: `Add` inserts an id above every id given out before, freeing removes the id of
    the item that the request frees next, nothing else changes it, so an id is never reused.
  */
  lemma HolderRefinesIdSet(count: nat, es: seq<Event>, s: State, e: Event, s': State)
    requires Reached(count, es, s) && Next(s, e) == Some(s')
    ensures e.Add? ==> Ids(s') == Ids(s) + {|s.entries| + 1} && |s'.entries| == |s.entries| + 1
    ensures !e.Add? ==> |s'.entries| == |s.entries|
    ensures !e.Add? && !e.FreeItem? ==> Ids(s') == Ids(s)
    ensures e.FreeItem? ==>
              var next := FreesNext(s, s.threads[e.t]);
              next.Some? && next.value + 1 in Ids(s) && Ids(s') == Ids(s) - {next.value + 1}
    ensures forall id :: id in Ids(s) ==> id <= |s.entries|
  {
    ReachedInv(count, es, s);
    forall i | i in s.results ensures i < |s.entries| {
      assert EntryOk(s, i);
    }
    if e.FreeItem? {
      FreesItem(s, e.t, s');
      IdsRemove(s.results, s'.results, FreesNext(s, s.threads[e.t]).value);
    } else if e.Add? {
      IdsAppend(s.results, |s.entries|);
    } else {
      ListKept(s, e, s');
    }
  }

  /** A request that frees an id holds the holder lock for exactly that id, from a list that had it. */
  lemma FreesWhatWasAsked(s: State, t: Tid, s': State)
    requires Next(s, LockHolder(t)) == Some(s') && s.threads[t].WantFree? && s'.holderLock == Some(t)
    ensures t in s'.threads && FreesNext(s', s'.threads[t]) == Some(s.threads[t].id - 1)
    ensures s.threads[t].id in Ids(s)
  {
  }

  /** No request asks for the holder lock, or has it, while it holds the lock of an item of the same holder. */
  lemma HolderLockComesFirst(count: nat, es: seq<Event>, s: State, t: Tid)
    requires Reached(count, es, s) && t in s.threads
    requires var pc := s.threads[t];
             pc.WantGet? || pc.WantAdd? || pc.WantFree? || pc.WantFreeAll? || pc.Freeing? || pc.FreeingAll?
    ensures forall i :: 0 <= i < |s.entries| ==> s.entries[i].lock != Some(t)
  {
    ReachedInv(count, es, s);
    forall i: Item | i < |s.entries| ensures s.entries[i].lock != Some(t) {
      assert EntryOk(s, i);
    }
  }
}
