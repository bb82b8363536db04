/**
  The result holder and the statement holder of one websocket session (controller/ws/ws/handler.go), together.  A
  request that uses the result of a statement (controller/ws/ws/stmt.go:545-572, stmt2.go:212-225) adds it to the result
  holder while it holds the lock of the statement; closing the statement (query_result.go:140-156, 211-235) ends the
  native result and leaves it listed.
*/
module SessionHolders {
  import opened Wrappers
  import Machine
  import opened Sequences
  import H = Holders

  type Tid = nat
  type Item = nat

  /**
    `owner` gives the statement of each result that was added for one, `pending` the request at the result holder by
    which a statement request adds a result, and `ended` the native results that the driver has ended.
  */
  datatype State = State(
    results: H.State,
    stmts: H.State,
    owner: map<Item, Item>,
    pending: map<Tid, Tid>,
    ended: set<Item>)

  datatype Event =
    | OfResults(e: H.Event)
    | OfStmts(e: H.Event)
    | UseResult(t: Tid)
    | AddFor(t: Tid)

  // ---------- Steps ----------

  /** The native results that a step of the result holder releases. */
  function EndedByResults(before: H.State, after: H.State): set<Item>
  {
    set j | j in after.released && j !in before.released
  }

  /** The native results that end with the statements a step closes. */
  function EndedByStmts(owner: map<Item, Item>, before: H.State, after: H.State): set<Item>
  {
    set j | j in owner && owner[j] in after.released && owner[j] !in before.released
  }

  /** A result for a statement is added only by the request that uses the statement. */
  predicate AddsForStmt(pc: H.PC)
  {
    pc.WantAdd? && !pc.owned
  }

  function NextOfResults(s: State, e: H.Event): Option<State>
  {
    if !H.ForResults(e) || (e.Add? && e.t in s.results.threads && AddsForStmt(s.results.threads[e.t])) then None
    else
      match H.Next(s.results, e)
      case None => None
      case Some(results) => Some(s.(results := results, ended := s.ended + EndedByResults(s.results, results)))
  }

  /** The request a step belongs to, unless it starts one. */
  function Mover(e: H.Event): Option<Tid>
  {
    if H.Starts(e) then None else Some(e.t)
  }

  predicate Waits(s: State, e: H.Event)
  {
    Mover(e).Some? && Mover(e).value in s.pending
  }

  function NextOfStmts(s: State, e: H.Event): Option<State>
  {
    if !H.ForStmts(e) || Waits(s, e) then None
    else
      match H.Next(s.stmts, e)
      case None => None
      case Some(stmts) => Some(s.(stmts := stmts, ended := s.ended + EndedByStmts(s.owner, s.stmts, stmts)))
  }

  function Next(s: State, e: Event): Option<State>
  {
    match e
    case OfResults(e) => NextOfResults(s, e)
    case OfStmts(e) => NextOfStmts(s, e)
    case UseResult(t) =>
      if t in s.stmts.threads && s.stmts.threads[t].InItem? && t !in s.pending then
        Some(s.(results := H.Spawn(s.results, H.WantAdd(false, false, false)),
                pending := s.pending[t := s.results.spawned]))
      else None
    case AddFor(t) =>
      if t !in s.pending || t !in s.stmts.threads || !s.stmts.threads[t].InItem? then None
      else
        match H.Next(s.results, H.Add(s.pending[t]))
        case None => None
        case Some(results) =>
          Some(s.(results := results, pending := s.pending - {t},
                  owner := s.owner[|s.results.entries| := s.stmts.threads[t].i]))
  }

  function Run(s: State, es: seq<Event>): Option<State>
  {
    Machine.Run(Next, s, es)
  }

  /** Two empty holders and a pool of `count` idle handlers. */
  function Init(count: nat): State
  {
    State(H.Init(count), H.Init(0), map[], map[], {})
  }

  ghost predicate Reached(count: nat, es: seq<Event>, s: State)
  {
    Run(Init(count), es) == Some(s)
  }

  // ---------- The invariant ----------

  /** Where a statement request can be. */
  predicate StmtPlace(pc: H.PC)
  {
    match pc
    case WantGet(_, kind, fetches) => kind.Some? && !fetches
    case Got(_, fetches) => !fetches
    case WantAdd(owned, _, has) => owned && !has
    case WantFree(_, kind, has) => kind.Some? && !has
    case Freeing(_, has) => !has
    case InItem(_) | WantFreeAll | FreeingAll => true
    case _ => false
  }

  ghost predicate StmtsOk(st: H.State)
  {
    && (forall t :: t in st.threads ==> StmtPlace(st.threads[t]))
    && (forall i :: 0 <= i < |st.entries| ==> st.entries[i].owned)
  }

  ghost predicate PendingOk(s: State, t: Tid)
  {
    t in s.pending ==>
      && t in s.stmts.threads && s.stmts.threads[t].InItem?
      && s.pending[t] in s.results.threads && s.results.threads[s.pending[t]] == H.WantAdd(false, false, false)
  }

  ghost predicate AddsFor(s: State, r: Tid)
  {
    exists t :: t in s.pending && s.pending[t] == r
  }

  ghost predicate AdderOk(s: State, r: Tid)
  {
    r in s.results.threads && AddsForStmt(s.results.threads[r]) ==> AddsFor(s, r)
  }

  ghost predicate Pendings(s: State)
  {
    && (forall t: Tid :: PendingOk(s, t))
    && (forall t, u :: t in s.pending && u in s.pending && s.pending[t] == s.pending[u] ==> t == u)
    && (forall r: Tid :: AdderOk(s, r))
  }

  /** A result names a statement exactly when its holder does not own it. */
  ghost predicate OwnerOk(s: State, j: Item)
  {
    && (j in s.owner <==> j < |s.results.entries| && !s.results.entries[j].owned)
    && (j in s.owner ==> s.owner[j] < |s.stmts.entries|)
  }

  ghost predicate EndedOk(s: State, j: Item)
  {
    j in s.ended <==> j in s.results.released || (j in s.owner && s.owner[j] in s.stmts.released)
  }

  ghost predicate Inv(s: State)
  {
    && H.Inv(s.results) && H.Inv(s.stmts) && StmtsOk(s.stmts) && Pendings(s)
    && (forall j: Item :: OwnerOk(s, j))
    && (forall j: Item :: EndedOk(s, j))
  }

  // ---------- What a step of one holder leaves alone ----------

  /** No step takes an object back. */
  lemma ReleasedGrows(h: H.State, e: H.Event, h': H.State)
    requires H.Next(h, e) == Some(h')
    ensures forall i :: i in h.released ==> i in h'.released
  {
  }

  /** The entries keep their owners, and a new one has that of the request that adds it. */
  lemma OwnersKept(h: H.State, e: H.Event, h': H.State)
    requires H.Next(h, e) == Some(h')
    ensures |h'.entries| == |h.entries| + if e.Add? then 1 else 0
    ensures forall i :: 0 <= i < |h.entries| ==> h'.entries[i].owned == h.entries[i].owned
    ensures e.Add? ==> h'.entries[|h.entries|].owned == h.threads[e.t].owned
  {
  }

  ghost predicate SameAdder(h: H.State, h': H.State, x: Tid)
  {
    && (x in h.threads && AddsForStmt(h.threads[x]) <==> x in h'.threads && AddsForStmt(h'.threads[x]))
    && (x in h.threads && AddsForStmt(h.threads[x]) ==> h'.threads[x] == h.threads[x])
  }

  lemma ItemKeepsAdders(h: H.State, e: H.Event, h': H.State, x: Tid)
    requires (e.LookUp? || e.LockItem? || e.DriverCall? || e.UnlockItem?) && H.NextItem(h, e) == Some(h')
    ensures SameAdder(h, h', x)
  {
  }

  lemma HandlerKeepsAdders(h: H.State, e: H.Event, h': H.State, x: Tid)
    requires H.Inv(h) && (e.TakeHandler? || e.Enqueue? || e.Answer? || e.PutHandler?) && H.NextHandler(h, e) == Some(h')
    requires H.ForResults(e)
    ensures SameAdder(h, h', x)
  {
    if e.PutHandler? && h.queue != [] {
      assert h.queue[0] in h.queue;
      assert H.ThreadOk(h, h.queue[0]);
    }
  }

  lemma HolderKeepsAdders(h: H.State, e: H.Event, h': H.State, x: Tid)
    requires (e.Add? || e.LockHolder? || e.FreeItem?) && H.NextHolder(h, e) == Some(h')
    requires e.Add? ==> !AddsForStmt(h.threads[e.t])
    ensures SameAdder(h, h', x)
  {
  }

  /** Only the request that uses a statement starts and ends an addition for it. */
  lemma AddersKept(h: H.State, e: H.Event, h': H.State, x: Tid)
    requires H.Inv(h) && H.ForResults(e) && H.Next(h, e) == Some(h')
    requires e.Add? ==> !AddsForStmt(h.threads[e.t])
    ensures SameAdder(h, h', x)
  {
    if H.Starts(e) {
      assert H.ThreadOk(h, h.spawned);
    } else if e.LookUp? || e.LockItem? || e.DriverCall? || e.UnlockItem? {
      ItemKeepsAdders(h, e, h', x);
    } else if e.TakeHandler? || e.Enqueue? || e.Answer? || e.PutHandler? {
      HandlerKeepsAdders(h, e, h', x);
    } else {
      HolderKeepsAdders(h, e, h', x);
    }
  }

  /** A step of the statement holder moves one request. */
  lemma OthersKept(h: H.State, e: H.Event, h': H.State, x: Tid)
    requires H.ForStmts(e) && H.Next(h, e) == Some(h') && x in h.threads
    requires Mover(e) != Some(x) && x != h.spawned
    ensures x in h'.threads && h'.threads[x] == h.threads[x]
  {
  }

  lemma StmtItemPlaces(h: H.State, e: H.Event, h': H.State)
    requires (e.LookUp? || e.LockItem? || e.DriverCall? || e.UnlockItem?) && H.ForStmts(e)
    requires H.NextItem(h, e) == Some(h') && StmtsOk(h)
    ensures StmtsOk(h')
  {
    assert StmtPlace(h.threads[e.t]);
  }

  lemma StmtHolderPlaces(h: H.State, e: H.Event, h': H.State)
    requires (e.Add? || e.LockHolder? || e.FreeItem?) && H.NextHolder(h, e) == Some(h') && StmtsOk(h)
    ensures StmtsOk(h')
  {
    assert StmtPlace(h.threads[e.t]);
  }

  lemma StmtsKept(h: H.State, e: H.Event, h': H.State)
    requires H.ForStmts(e) && H.Next(h, e) == Some(h') && StmtsOk(h)
    ensures StmtsOk(h')
  {
    if e.LookUp? || e.LockItem? || e.DriverCall? || e.UnlockItem? {
      StmtItemPlaces(h, e, h');
    } else if e.Add? || e.LockHolder? || e.FreeItem? {
      StmtHolderPlaces(h, e, h');
    }
  }

  // ---------- Every step keeps the invariant ----------

  lemma SamePendings(s: State, s': State)
    requires Pendings(s) && s'.pending == s.pending
    requires forall x: Tid :: SameAdder(s.results, s'.results, x)
    requires forall t :: t in s.pending && t in s.stmts.threads ==>
               t in s'.stmts.threads && s'.stmts.threads[t] == s.stmts.threads[t]
    ensures Pendings(s')
  {
    forall t: Tid ensures PendingOk(s', t) {
      assert PendingOk(s, t);
      if t in s.pending {
        assert SameAdder(s.results, s'.results, s.pending[t]);
      }
    }
    forall r: Tid ensures AdderOk(s', r) {
      assert AdderOk(s, r) && SameAdder(s.results, s'.results, r);
      if AddsFor(s, r) {
        var t :| t in s.pending && s.pending[t] == r;
        assert t in s'.pending && s'.pending[t] == r;
      }
    }
  }

  lemma OfResultsKeeps(s: State, e: H.Event, s': State)
    requires Inv(s) && NextOfResults(s, e) == Some(s')
    ensures Inv(s')
  {
    H.NextKeepsInv(s.results, e, s'.results);
    ReleasedGrows(s.results, e, s'.results);
    OwnersKept(s.results, e, s'.results);
    forall x: Tid ensures SameAdder(s.results, s'.results, x) {
      AddersKept(s.results, e, s'.results, x);
    }
    SamePendings(s, s');
    forall j: Item ensures OwnerOk(s', j) {
      assert OwnerOk(s, j);
    }
    forall j: Item ensures EndedOk(s', j) {
      assert EndedOk(s, j);
    }
  }

  lemma OfStmtsKeeps(s: State, e: H.Event, s': State)
    requires Inv(s) && NextOfStmts(s, e) == Some(s')
    ensures Inv(s')
  {
    H.NextKeepsInv(s.stmts, e, s'.stmts);
    ReleasedGrows(s.stmts, e, s'.stmts);
    OwnersKept(s.stmts, e, s'.stmts);
    StmtsKept(s.stmts, e, s'.stmts);
    forall t | t in s.pending && t in s.stmts.threads
      ensures t in s'.stmts.threads && s'.stmts.threads[t] == s.stmts.threads[t]
    {
      assert H.ThreadOk(s.stmts, t);
      OthersKept(s.stmts, e, s'.stmts, t);
    }
    SamePendings(s, s');
    forall j: Item ensures OwnerOk(s', j) {
      assert OwnerOk(s, j);
    }
    forall j: Item ensures EndedOk(s', j) {
      assert EndedOk(s, j);
    }
  }

  lemma UseResultPendings(s: State, t: Tid, s': State)
    requires Inv(s) && Next(s, UseResult(t)) == Some(s')
    ensures Pendings(s')
  {
    var r := s.results.spawned;
    assert H.ThreadOk(s.results, r);
    forall u: Tid ensures PendingOk(s', u) {
      assert PendingOk(s, u);
    }
    forall u, v | u in s'.pending && v in s'.pending && s'.pending[u] == s'.pending[v] ensures u == v {
      assert PendingOk(s, u) && PendingOk(s, v);
    }
    forall x: Tid ensures AdderOk(s', x) {
      assert AdderOk(s, x);
      if x == r {
        assert t in s'.pending && s'.pending[t] == r;
      } else if AddsFor(s, x) {
        var u :| u in s.pending && s.pending[u] == x;
        assert u in s'.pending && s'.pending[u] == x;
      }
    }
  }

  lemma UseResultKeeps(s: State, t: Tid, s': State)
    requires Inv(s) && Next(s, UseResult(t)) == Some(s')
    ensures Inv(s')
  {
    H.NextKeepsInv(s.results, H.StartAdd(false, false), s'.results);
    UseResultPendings(s, t, s');
    forall j: Item ensures OwnerOk(s', j) {
      assert OwnerOk(s, j);
    }
    forall j: Item ensures EndedOk(s', j) {
      assert EndedOk(s, j);
    }
  }

  lemma AddForPendings(s: State, t: Tid, s': State)
    requires Inv(s) && Next(s, AddFor(t)) == Some(s')
    ensures Pendings(s')
  {
    assert PendingOk(s, t);
    var r := s.pending[t];
    forall u: Tid ensures PendingOk(s', u) {
      assert PendingOk(s, u);
    }
    forall x: Tid ensures AdderOk(s', x) {
      assert AdderOk(s, x);
      if x != r && AddsFor(s, x) {
        var u :| u in s.pending && s.pending[u] == x;
        assert u in s'.pending && s'.pending[u] == x;
      }
    }
  }

  /** The statement is open while its result is added, because its lock is held. */
  lemma AddForOwners(s: State, t: Tid, s': State)
    requires Inv(s) && Next(s, AddFor(t)) == Some(s')
    ensures forall j: Item :: OwnerOk(s', j)
    ensures forall j: Item :: EndedOk(s', j)
  {
    var i := s.stmts.threads[t].i;
    assert PendingOk(s, t) && H.ThreadOk(s.stmts, t) && H.EntryOk(s.stmts, i);
    var e := H.Add(s.pending[t]);
    OwnersKept(s.results, e, s'.results);
    assert H.EntryOk(s.results, |s.results.entries|);
    forall j: Item ensures OwnerOk(s', j) {
      assert OwnerOk(s, j);
    }
    forall j: Item ensures EndedOk(s', j) {
      assert EndedOk(s, j) && OwnerOk(s, j);
    }
  }

  lemma AddForKeeps(s: State, t: Tid, s': State)
    requires Inv(s) && Next(s, AddFor(t)) == Some(s')
    ensures Inv(s')
  {
    H.NextKeepsInv(s.results, H.Add(s.pending[t]), s'.results);
    AddForPendings(s, t, s');
    AddForOwners(s, t, s');
  }

  lemma NextKeepsInv(s: State, e: Event, s': State)
    requires Inv(s) && Next(s, e) == Some(s')
    ensures Inv(s')
  {
    match e
    case OfResults(e) => OfResultsKeeps(s, e, s');
    case OfStmts(e) => OfStmtsKeeps(s, e, s');
    case UseResult(t) => UseResultKeeps(s, t, s');
    case AddFor(t) => AddForKeeps(s, t, s');
  }

  lemma {:induction false} RunKeepsInv(s: State, es: seq<Event>, s': State)
    requires Inv(s) && Run(s, es) == Some(s')
    ensures Inv(s')
    decreases |es|
  {
    if es != [] {
      var s1 := Next(s, es[0]).value;
      NextKeepsInv(s, es[0], s1);
      RunKeepsInv(s1, es[1..], s');
    }
  }

  lemma InitInv(count: nat)
    ensures Inv(Init(count))
  {
    H.ReachedInv(count, [], H.Init(count));
    H.ReachedInv(0, [], H.Init(0));
  }

  lemma ReachedInv(count: nat, es: seq<Event>, s: State)
    requires Reached(count, es, s)
    ensures Inv(s)
  {
    InitInv(count);
    RunKeepsInv(Init(count), es, s);
  }

  // ---------- What driver calls see ----------

  /**
    A driver call on a listed result sees a native result that the driver still has if and only if the holder owns the
    result or the statement it was made by is still open.
  */
  lemma DriverCallSeesNativeIff(count: nat, es: seq<Event>, s: State, t: Tid)
    requires Reached(count, es, s) && Next(s, OfResults(H.DriverCall(t))).Some?
    ensures H.LockedItem(s.results.threads[t]).Some?
    ensures var j := H.LockedItem(s.results.threads[t]).value;
            && j in s.results.results && j < |s.results.entries| && s.results.entries[j].live
            && (j in s.owner <==> !s.results.entries[j].owned) && (j in s.owner ==> s.owner[j] < |s.stmts.entries|)
            && (j !in s.ended <==> s.results.entries[j].owned || s.stmts.entries[s.owner[j]].live)
  {
    ReachedInv(count, es, s);
    assert H.ThreadOk(s.results, t);
    var j := H.LockedItem(s.results.threads[t]).value;
    assert H.EntryOk(s.results, j) && OwnerOk(s, j) && EndedOk(s, j);
    if j in s.owner {
      assert H.EntryOk(s.stmts, s.owner[j]);
    }
  }

  /** A driver call on a statement, the one that makes a result included, sees an open statement. */
  lemma StmtCallsSeeOpenStatements(count: nat, es: seq<Event>, s: State, t: Tid)
    requires Reached(count, es, s) && (Next(s, OfStmts(H.DriverCall(t))).Some? || Next(s, UseResult(t)).Some?)
    ensures s.stmts.threads[t].InItem?
    ensures var i := s.stmts.threads[t].i;
            i < |s.stmts.entries| && s.stmts.entries[i].live && i in s.stmts.results && i !in s.stmts.released
  {
    ReachedInv(count, es, s);
    assert StmtPlace(s.stmts.threads[t]);
    assert H.ThreadOk(s.stmts, t) && H.EntryOk(s.stmts, s.stmts.threads[t].i);
  }

  // ---------- The order of the locks ----------

  /** The lock of a list, or of one of its items. */
  datatype Part = TheList | TheItem(i: Item)

  datatype Lock = Stmts(part: Part) | Results(part: Part)

  function Level(l: Lock): nat
  {
    match l
    case Stmts(TheList) => 0
    case Stmts(TheItem(_)) => 1
    case Results(TheList) => 2
    case Results(TheItem(_)) => 3
  }

  /** A goroutine: a statement request with the addition it makes, or a request at the result holder. */
  datatype Goroutine = StmtRequest(t: Tid) | ResultRequest(r: Tid)

  /** What a request waits for at a holder. */
  function WantedAt(h: H.State, pc: H.PC): Option<Part>
  {
    match pc
    case WantGet(_, _, _) | WantAdd(_, _, _) | WantFree(_, _, _) | WantFreeAll => Some(TheList)
    case Got(i, _) => Some(TheItem(i))
    case Freeing(_, _) | FreeingAll => if H.FreesNext(h, pc).Some? then Some(TheItem(H.FreesNext(h, pc).value)) else None
    case _ => None
  }

  predicate WaitsAt(h: H.State, t: Tid, p: Part)
  {
    t in h.threads && WantedAt(h, h.threads[t]) == Some(p)
  }

  predicate HoldsAt(h: H.State, t: Tid, p: Part)
  {
    match p
    case TheList => h.holderLock == Some(t)
    case TheItem(i) => i < |h.entries| && h.entries[i].lock == Some(t)
  }

  predicate WaitsFor(s: State, g: Goroutine, l: Lock)
  {
    match g
    case StmtRequest(t) =>
      if t in s.pending then l.Results? && WaitsAt(s.results, s.pending[t], l.part)
      else l.Stmts? && WaitsAt(s.stmts, t, l.part)
    case ResultRequest(r) => l.Results? && WaitsAt(s.results, r, l.part)
  }

  predicate Holds(s: State, g: Goroutine, l: Lock)
  {
    match g
    case StmtRequest(t) =>
      if l.Stmts? then HoldsAt(s.stmts, t, l.part) else t in s.pending && HoldsAt(s.results, s.pending[t], l.part)
    case ResultRequest(r) => l.Results? && HoldsAt(s.results, r, l.part)
  }

  /** A request that waits at a holder holds at most the lock of its list, and that only while it waits for an item. */
  lemma OrderedAt(h: H.State, t: Tid, wanted: Part, held: Part)
    requires H.Inv(h) && WaitsAt(h, t, wanted) && HoldsAt(h, t, held)
    ensures held.TheList? && wanted.TheItem?
  {
    assert H.ThreadOk(h, t);
    assert held.TheItem? ==> H.EntryOk(h, held.i);
  }

  /**
    Every goroutine takes locks in one order: the list of statements, a statement, the list of results, a result.
    Whoever waits for a lock holds only locks that come before it.
  */
  lemma LocksAreOrdered(count: nat, es: seq<Event>, s: State, g: Goroutine, wanted: Lock, held: Lock)
    requires Reached(count, es, s) && WaitsFor(s, g, wanted) && Holds(s, g, held)
    ensures Level(held) < Level(wanted)
  {
    ReachedInv(count, es, s);
    match g
    case StmtRequest(t) =>
      if t in s.pending {
        assert PendingOk(s, t);
        if held.Results? {
          OrderedAt(s.results, s.pending[t], wanted.part, held.part);
        }
      } else {
        OrderedAt(s.stmts, t, wanted.part, held.part);
      }
    case ResultRequest(r) => OrderedAt(s.results, r, wanted.part, held.part);
  }

  /** The use of a result is what holds a statement while it waits for the list of results. */
  lemma UseHoldsStatement(count: nat, es: seq<Event>, s: State, t: Tid)
    requires Reached(count, es, s) && t in s.pending
    ensures t in s.stmts.threads && s.stmts.threads[t].InItem?
    ensures WaitsFor(s, StmtRequest(t), Results(TheList))
    ensures Holds(s, StmtRequest(t), Stmts(TheItem(s.stmts.threads[t].i)))
  {
    ReachedInv(count, es, s);
    assert PendingOk(s, t) && H.ThreadOk(s.stmts, t);
  }

  // ---------- A fetch from a closed statement ----------

  ghost predicate Leads(s: State, s': State)
  {
    exists es :: Run(s, es) == Some(s')
  }

  lemma LeadsOn(s: State, e: Event, s1: State, s': State)
    requires Next(s, e) == Some(s1) && Leads(s1, s')
    ensures Leads(s, s')
  {
    var es :| Run(s1, es) == Some(s');
    assert ([e] + es)[0] == e && ([e] + es)[1..] == es;
    assert Run(s, [e] + es) == Run(s1, es);
  }

  lemma LeadsNowhere(s: State)
    ensures Leads(s, s)
  {
    assert Run(s, []) == Some(s);
  }

  lemma LeadsFurther(s: State, s1: State, s2: State)
    requires Leads(s, s1) && Leads(s1, s2)
    ensures Leads(s, s2)
  {
    var first :| Run(s, first) == Some(s1);
    var rest :| Run(s1, rest) == Some(s2);
    Machine.RunAppend(Next, s, first, rest);
    assert Run(s, first + rest) == Some(s2);
  }

  /** A statement holder with one statement, open or closed. */
  function OneStmt(open: bool, spawned: nat, lock: Option<Tid>, threads: map<Tid, H.PC>): H.State
  {
    H.Init(0).(entries := [H.Entry(open, true, false, lock)], results := if open then [0] else [], spawned := spawned,
               threads := threads, released := if open then [] else [0])
  }

  /** A result holder with one result that belongs to a statement. */
  function OneResult(count: nat, spawned: nat, lock: Option<Tid>, threads: map<Tid, H.PC>): H.State
  {
    H.Init(count).(entries := [H.Entry(true, false, false, lock)], results := [0], spawned := spawned, threads := threads)
  }

  lemma OpensStmt(count: nat)
    ensures Leads(Init(count), Init(count).(stmts := OneStmt(true, 1, None, map[])))
  {
    var s0 := Init(count);
    var s' := s0.(stmts := OneStmt(true, 1, None, map[]));
    var s1 := Next(s0, OfStmts(H.StartAdd(true, false))).value;
    var s2 := Next(s1, OfStmts(H.Add(0))).value;
    assert s2.stmts.threads == map[] && s2.stmts.entries == [H.Entry(true, true, false, None)];
    assert s2 == s';
    LeadsNowhere(s2);
    LeadsOn(s1, OfStmts(H.Add(0)), s2, s');
    LeadsOn(s0, OfStmts(H.StartAdd(true, false)), s1, s');
  }

  lemma LocksStmt(count: nat)
    ensures Leads(Init(count).(stmts := OneStmt(true, 1, None, map[])),
                  Init(count).(stmts := OneStmt(true, 2, Some(1), map[1 := H.InItem(0)])))
  {
    var s0 := Init(count).(stmts := OneStmt(true, 1, None, map[]));
    var s' := Init(count).(stmts := OneStmt(true, 2, Some(1), map[1 := H.InItem(0)]));
    var e1, e2, e3 := OfStmts(H.StartGet(1, Some(false), false)), OfStmts(H.LookUp(1)), OfStmts(H.LockItem(1));
    var s1 := Next(s0, e1).value;
    var s2 := Next(s1, e2).value;
    var s3 := Next(s2, e3).value;
    assert s3.stmts.threads == map[1 := H.InItem(0)];
    assert s3.stmts.entries == [H.Entry(true, true, false, Some(1))];
    assert s3 == s';
    LeadsNowhere(s3);
    LeadsOn(s2, e3, s3, s');
    LeadsOn(s1, e2, s2, s');
    LeadsOn(s0, e1, s1, s');
  }

  /** One open statement and the result that was made from it. */
  function Used(count: nat): State
  {
    State(OneResult(count, 1, None, map[]), OneStmt(true, 2, None, map[]), map[0 := 0], map[], {})
  }

  /** The same while the request that used the statement still holds it. */
  function Using(count: nat): State
  {
    Used(count).(stmts := OneStmt(true, 2, Some(1), map[1 := H.InItem(0)]))
  }

  lemma UsesResult(count: nat)
    ensures Leads(Init(count).(stmts := OneStmt(true, 2, Some(1), map[1 := H.InItem(0)])), Using(count))
  {
    var s0 := Init(count).(stmts := OneStmt(true, 2, Some(1), map[1 := H.InItem(0)]));
    var s1 := Next(s0, UseResult(1)).value;
    var s2 := Next(s1, AddFor(1)).value;
    assert s2.results.threads == map[] && s2.results.entries == [H.Entry(true, false, false, None)];
    assert s2.pending == map[] && s2.owner == map[0 := 0];
    assert s2.results == OneResult(count, 1, None, map[]);
    LeadsNowhere(s2);
    LeadsOn(s1, AddFor(1), s2, s2);
    LeadsOn(s0, UseResult(1), s1, s2);
  }

  lemma UnlocksStmt(count: nat)
    ensures Leads(Using(count), Used(count))
  {
    var e := OfStmts(H.UnlockItem(1, false));
    var s1 := Next(Using(count), e).value;
    assert s1.stmts.threads == map[] && s1.stmts.entries == [H.Entry(true, true, false, None)];
    assert s1.stmts == Used(count).stmts && s1.ended == {};
    LeadsNowhere(s1);
    LeadsOn(Using(count), e, s1, s1);
  }

  lemma UsedIsReachable(count: nat)
    ensures Leads(Init(count), Used(count))
  {
    var s1 := Init(count).(stmts := OneStmt(true, 1, None, map[]));
    var s2 := Init(count).(stmts := OneStmt(true, 2, Some(1), map[1 := H.InItem(0)]));
    OpensStmt(count);
    LocksStmt(count);
    LeadsFurther(Init(count), s1, s2);
    UsesResult(count);
    LeadsFurther(Init(count), s2, Using(count));
    UnlocksStmt(count);
    LeadsFurther(Init(count), Using(count), Used(count));
  }

  lemma AsksToClose(s: State) returns (s': State)
    requires s.stmts == OneStmt(true, 2, None, map[]) && s.pending == map[]
    ensures Leads(s, s') && s' == s.(stmts := s'.stmts) && s'.stmts.released == []
    ensures s'.stmts.entries == s.stmts.entries && s'.stmts.results == [0] && s'.stmts.threads == map[2 := H.Freeing(0, false)]
  {
    var e1, e2 := OfStmts(H.StartFree(1, Some(false))), OfStmts(H.LockHolder(2));
    var s1 := Next(s, e1).value;
    s' := Next(s1, e2).value;
    assert s1.ended == s.ended && s'.ended == s.ended;
    assert s'.stmts.threads == map[2 := H.Freeing(0, false)];
    LeadsNowhere(s');
    LeadsOn(s1, e2, s', s');
    LeadsOn(s, e1, s1, s');
  }

  /** Closing the statement ends the result, whatever requests at the result holder do with it. */
  lemma ClosesStmt(s: State) returns (s': State)
    requires s.stmts == OneStmt(true, 2, None, map[]) && s.owner == map[0 := 0] && s.pending == map[]
    ensures Leads(s, s') && s'.results == s.results && 0 in s'.ended
    ensures |s'.stmts.entries| == 1 && !s'.stmts.entries[0].live
  {
    var s1 := AsksToClose(s);
    var e := OfStmts(H.FreeItem(2));
    s' := Next(s1, e).value;
    assert s'.stmts.released == [0];
    LeadsNowhere(s');
    LeadsOn(s1, e, s', s');
    LeadsFurther(s, s1, s');
  }

  /** A fetch of the result, up to the point where it has a handler and calls the driver. */
  lemma Fetches(s: State, count: nat) returns (s': State)
    requires s.results == OneResult(count, 1, None, map[]) && count > 0
    ensures Leads(s, s') && s'.stmts == s.stmts && s'.owner == s.owner && s'.pending == s.pending && s'.ended == s.ended
    ensures 1 in s'.results.threads && s'.results.threads[1] == H.Fetching(Some(0))
  {
    var e1, e2, e3, e4 :=
      OfResults(H.StartGet(1, None, true)), OfResults(H.LookUp(1)), OfResults(H.LockItem(1)), OfResults(H.TakeHandler(1));
    var s1 := Next(s, e1).value;
    var s2 := Next(s1, e2).value;
    var s3 := Next(s2, e3).value;
    s' := Next(s3, e4).value;
    LeadsNowhere(s');
    LeadsOn(s3, e4, s', s');
    LeadsOn(s2, e3, s3, s');
    LeadsOn(s1, e2, s2, s');
    LeadsOn(s, e1, s1, s');
  }

  lemma FetchesEnded(count: nat) returns (s: State)
    requires count > 0
    ensures Leads(Init(count), s) && 0 in s.ended
    ensures 1 in s.results.threads && s.results.threads[1] == H.Fetching(Some(0))
  {
    UsedIsReachable(count);
    var s1 := ClosesStmt(Used(count));
    LeadsFurther(Init(count), Used(count), s1);
    s := Fetches(s1, count);
    LeadsFurther(Init(count), s1, s);
  }

  /** A fetch that starts when the statement is closed calls the driver on a result that the driver has ended. */
  lemma EndedFetchIsReachable(count: nat) returns (es: seq<Event>, s: State)
    requires count > 0
    ensures Reached(count, es, s) && Next(s, OfResults(H.DriverCall(1))).Some?
    ensures H.LockedItem(s.results.threads[1]) == Some(0) && 0 in s.ended
  {
    s := FetchesEnded(count);
    es :| Run(Init(count), es) == Some(s);
  }

  lemma FetchesOpen(count: nat) returns (s: State)
    requires count > 0
    ensures Leads(Init(count), s) && s.stmts == Used(count).stmts && s.owner == map[0 := 0] && s.pending == map[]
    ensures 1 in s.results.threads && s.results.threads[1] == H.Fetching(Some(0)) && s.ended == {}
  {
    UsedIsReachable(count);
    s := Fetches(Used(count), count);
    LeadsFurther(Init(count), Used(count), s);
  }

  /** And a fetch whose driver call is under way does not keep the statement from being closed. */
  lemma CloseOvertakesFetch(count: nat) returns (es: seq<Event>, s: State, more: seq<Event>, s': State)
    requires count > 0
    ensures Reached(count, es, s) && Next(s, OfResults(H.DriverCall(1))).Some?
    ensures H.LockedItem(s.results.threads[1]) == Some(0) && 0 !in s.ended
    ensures Run(s, more) == Some(s') && s'.results == s.results && 0 in s'.ended
  {
    s := FetchesOpen(count);
    es :| Run(Init(count), es) == Some(s);
    s' := ClosesStmt(s);
    more :| Run(s, more) == Some(s');
  }
}
