/**
  When the requests of a session wait for each other.  What `HolderDeadlock` proves of the result holder with the handler
  pool holds in the session with both holders, and a statement request can only be stopped behind it: by the result
  holder, while it adds the result of its statement.
*/
module SessionDeadlock {
  import opened Wrappers
  import Machine
  import opened Sequences
  import H = Holders
  import D = HolderDeadlock
  import opened SessionHolders

  // ---------- Runs of the session and of its result holder ----------

  /** A step of a request that is under way. */
  predicate Moves(c: Event)
  {
    match c
    case OfResults(e) => D.Moves(e)
    case OfStmts(e) => D.Moves(e)
    case UseResult(_) | AddFor(_) => true
  }

  /** Each step of the result holder is a step of the session. */
  lemma LiftStep(s: State, e: H.Event) returns (c: Event)
    requires Inv(s) && H.ForResults(e) && H.Next(s.results, e).Some?
    ensures Next(s, c).Some? && Next(s, c).value.results == H.Next(s.results, e).value
    ensures D.Moves(e) ==> Moves(c)
  {
    if e.Add? && AddsForStmt(s.results.threads[e.t]) {
      assert AdderOk(s, e.t);
      var t :| t in s.pending && s.pending[t] == e.t;
      assert PendingOk(s, t);
      c := AddFor(t);
    } else {
      c := OfResults(e);
    }
  }

  lemma {:induction false} Lift(s: State, es: seq<H.Event>) returns (cs: seq<Event>)
    requires Inv(s) && D.AllForResults(es) && H.Run(s.results, es).Some?
    ensures Run(s, cs).Some? && Run(s, cs).value.results == H.Run(s.results, es).value
    decreases |es|
  {
    if es == [] {
      cs := [];
    } else {
      var c := LiftStep(s, es[0]);
      var s1 := Next(s, c).value;
      NextKeepsInv(s, c, s1);
      assert D.AllForResults(es[1..]);
      var more := Lift(s1, es[1..]);
      cs := [c] + more;
      assert cs[0] == c && cs[1..] == more;
    }
  }

  /** What the result holder does in a step of the session. */
  function ResultSteps(s: State, c: Event): seq<H.Event>
  {
    match c
    case OfResults(e) => [e]
    case OfStmts(_) => []
    case UseResult(_) => [H.StartAdd(false, false)]
    case AddFor(t) => if t in s.pending then [H.Add(s.pending[t])] else []
  }

  lemma ProjectStep(s: State, c: Event, s': State)
    requires Next(s, c) == Some(s')
    ensures H.Run(s.results, ResultSteps(s, c)) == Some(s'.results)
  {
    var es := ResultSteps(s, c);
    if es != [] {
      Machine.RunOne(H.Next, s.results, es[0]);
      assert es == [es[0]];
    }
  }

  /** In each run of the session the result holder makes a run of its own. */
  lemma {:induction false} Project(s: State, cs: seq<Event>, s': State) returns (es: seq<H.Event>)
    requires Run(s, cs) == Some(s')
    ensures H.Run(s.results, es) == Some(s'.results)
    decreases |cs|
  {
    if cs == [] {
      es := [];
    } else {
      var s1 := Next(s, cs[0]).value;
      ProjectStep(s, cs[0], s1);
      var more := Project(s1, cs[1..], s');
      Machine.RunAppend(H.Next, s.results, ResultSteps(s, cs[0]), more);
      es := ResultSteps(s, cs[0]) + more;
    }
  }

  // ---------- Handlers ----------

  /** Some continuation of the session gives the request a handler. */
  ghost predicate CanBeServed(s: State, r: Tid)
  {
    exists cs :: Run(s, cs).Some? && D.Served(Run(s, cs).value.results, r)
  }

  /** A request that waits for a handler can still get one if and only if the result holder is not doomed. */
  lemma HandlerComesIff(count: nat, cs: seq<Event>, s: State, r: Tid)
    requires Reached(count, cs, s) && D.Waits(s.results, r)
    ensures CanBeServed(s, r) <==> !D.Doomed(s.results)
  {
    ReachedInv(count, cs, s);
    if D.Doomed(s.results) {
      forall more | Run(s, more).Some? ensures !D.Served(Run(s, more).value.results, r) {
        var es := Project(s, more, Run(s, more).value);
        D.DoomedForEver(s.results, es, Run(s, more).value.results);
      }
    } else {
      D.NotDoomedServes(s.results, r);
      var es :| D.AllForResults(es) && H.Run(s.results, es).Some? && D.Served(H.Run(s.results, es).value, r);
      var more := Lift(s, es);
    }
  }

  /** For every number of handlers a session gets there. */
  lemma DoomIsReachable(count: nat) returns (cs: seq<Event>, s: State, r: Tid)
    ensures Reached(count, cs, s) && D.Doomed(s.results) && D.Waits(s.results, r)
  {
    var es, h, c := D.DoomIsReachable(count);
    InitInv(count);
    cs := Lift(Init(count), es);
    s := Run(Init(count), cs).value;
    r := c;
  }

  // ---------- When no request can move ----------

  ghost predicate NobodyMoves(s: State)
  {
    forall c :: Moves(c) ==> Next(s, c).None?
  }

  /** The statement is locked by a request that adds its result, and so waits for the result holder. */
  predicate StuckStmt(s: State, i: Item)
  {
    i < |s.stmts.entries| && s.stmts.entries[i].lock.Some? && s.stmts.entries[i].lock.value in s.pending
  }

  /** The next statement of the owner of the list is locked in this way. */
  predicate StmtListStands(s: State)
  {
    && s.stmts.holderLock.Some? && s.stmts.holderLock.value in s.stmts.threads
    && var next := H.FreesNext(s.stmts, s.stmts.threads[s.stmts.holderLock.value]);
    next.Some? && StuckStmt(s, next.value)
  }

  predicate StmtStands(s: State, t: Tid)
    requires t in s.stmts.threads
  {
    var pc := s.stmts.threads[t];
    || t in s.pending || (pc.Got? && StuckStmt(s, pc.i))
    || ((D.WantsHolder(pc) || H.OwnsHolder(pc)) && StmtListStands(s))
  }

  ghost predicate AllStand(s: State)
  {
    && (forall r :: r in s.results.threads ==> D.Stands(s.results, s.results.threads[r]))
    && (forall t :: t in s.stmts.threads ==> StmtStands(s, t))
  }

  lemma StandingStmtCannotMove(s: State, e: H.Event)
    requires Inv(s) && AllStand(s) && D.Moves(e)
    ensures NextOfStmts(s, e).None?
  {
    if e.t in s.stmts.threads {
      assert StmtStands(s, e.t) && StmtPlace(s.stmts.threads[e.t]);
      assert H.ThreadOk(s.stmts, e.t);
    }
  }

  lemma StandingCannotMove(s: State, c: Event)
    requires Inv(s) && AllStand(s) && Moves(c)
    ensures Next(s, c).None?
  {
    match c
    case OfResults(e) => D.StandingCannotMove(s.results, e);
    case OfStmts(e) => StandingStmtCannotMove(s, e);
    case UseResult(t) =>
      if t in s.stmts.threads {
        assert StmtStands(s, t);
        assert H.ThreadOk(s.stmts, t);
      }
    case AddFor(t) =>
      if t in s.pending {
        assert PendingOk(s, t);
        D.StandingCannotMove(s.results, H.Add(s.pending[t]));
      }
  }

  lemma ResultsStandStill(s: State)
    requires Inv(s) && NobodyMoves(s)
    ensures D.NobodyMoves(s.results)
  {
    forall e | D.Moves(e) ensures H.Next(s.results, e).None? {
      if H.Next(s.results, e).Some? {
        var c := LiftStep(s, if e.Answer? then H.Answer(e.t, false, false) else e);
        assert Moves(c) && Next(s, c).Some?;
      }
    }
  }

  lemma LockedIsStuck(s: State, i: Item)
    requires Inv(s) && NobodyMoves(s) && i < |s.stmts.entries| && s.stmts.entries[i].lock.Some?
    ensures StuckStmt(s, i)
  {
    assert H.EntryOk(s.stmts, i);
    var x := s.stmts.entries[i].lock.value;
    assert StmtPlace(s.stmts.threads[x]);
    assert Next(s, OfStmts(H.UnlockItem(x, false))).None?;
  }

  lemma StmtListOwnerStands(s: State)
    requires Inv(s) && NobodyMoves(s) && s.stmts.holderLock.Some?
    ensures StmtListStands(s)
  {
    var b := s.stmts.holderLock.value;
    D.OwnerNextIsListed(s.stmts, b);
    assert PendingOk(s, b);
    assert Next(s, OfStmts(H.FreeItem(b))).None?;
    LockedIsStuck(s, H.FreesNext(s.stmts, s.stmts.threads[b]).value);
  }

  lemma ImmobileStmtStands(s: State, t: Tid)
    requires Inv(s) && NobodyMoves(s) && t in s.stmts.threads
    ensures StmtStands(s, t)
  {
    var pc := s.stmts.threads[t];
    assert H.ThreadOk(s.stmts, t) && StmtPlace(pc);
    if t !in s.pending {
      assert Next(s, OfStmts(H.UnlockItem(t, false))).None?;
      assert Next(s, OfStmts(H.LookUp(t))).None? && Next(s, OfStmts(H.Add(t))).None?;
      assert Next(s, OfStmts(H.LockHolder(t))).None? && Next(s, OfStmts(H.LockItem(t))).None?;
      if pc.Got? {
        LockedIsStuck(s, pc.i);
      } else {
        StmtListOwnerStands(s);
      }
    }
  }

  /** Somebody at the result holder is behind every standstill. */
  lemma StandingResult(s: State, t: Tid) returns (r: Tid)
    requires Inv(s) && t in s.stmts.threads && StmtStands(s, t)
    ensures r in s.results.threads
  {
    var pc := s.stmts.threads[t];
    var u := if t in s.pending then t
      else if pc.Got? then s.stmts.entries[pc.i].lock.value
      else s.stmts.entries[H.FreesNext(s.stmts, s.stmts.threads[s.stmts.holderLock.value]).value].lock.value;
    assert PendingOk(s, u);
    r := s.pending[u];
  }

  lemma StandstillIsDoom(s: State, r: Tid)
    requires Inv(s) && NobodyMoves(s) && r in s.results.threads
    ensures s.results.queue != [] && (s.results.idle > 0 || D.Doomed(s.results))
  {
    ResultsStandStill(s);
    D.SomebodyQueued(s.results, r);
    forall x | x in s.results.threads ensures D.Stands(s.results, s.results.threads[x]) {
      D.ImmobileStands(s.results, x);
    }
    if s.results.idle == 0 {
      D.StandingIsDoomed(s.results);
    }
  }

  lemma ImmobileAllStand(s: State)
    requires Inv(s) && NobodyMoves(s)
    ensures AllStand(s)
  {
    ResultsStandStill(s);
    forall r | r in s.results.threads ensures D.Stands(s.results, s.results.threads[r]) {
      D.ImmobileStands(s.results, r);
    }
    forall t | t in s.stmts.threads ensures StmtStands(s, t) {
      ImmobileStmtStands(s, t);
    }
  }

  /**
    While requests are under way, one of them can take its next step, unless each at the result holder stands and each
    at the statement holder waits for the result holder while it holds its statement, for a statement held in this way,
    or for the list of statements whose owner waits for one.  Then some request is in the queue of the handler pool, and
    either handlers are idle or the result holder is doomed.
  */
  lemma NobodyMovesIff(count: nat, cs: seq<Event>, s: State)
    requires Reached(count, cs, s) && (s.results.threads != map[] || s.stmts.threads != map[])
    ensures NobodyMoves(s) <==> AllStand(s)
    ensures NobodyMoves(s) ==> s.results.queue != [] && (s.results.idle > 0 || D.Doomed(s.results))
  {
    ReachedInv(count, cs, s);
    if NobodyMoves(s) {
      ImmobileAllStand(s);
      var r;
      if s.results.threads != map[] {
        r :| r in s.results.threads;
      } else {
        var t :| t in s.stmts.threads;
        r := StandingResult(s, t);
      }
      StandstillIsDoom(s, r);
    }
    if AllStand(s) {
      forall c | Moves(c) ensures Next(s, c).None? {
        StandingCannotMove(s, c);
      }
    }
  }
}
