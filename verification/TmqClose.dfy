/**
  When `Close` of controller/ws/tmq/tmq.go completes.  It waits for the handlers in the wait group while it holds the
  session lock, which a subscribe or unsubscribe handler in the wait group may be waiting for.  It then shuts the worker
  of db/asynctmq/tmq.go down by a signal sent without the thread lock, which the worker misses between its test and its
  wait.  A wait ends only by a signal: spurious wake-ups are not part of the model.
*/
module TmqClose {
  import opened Wrappers
  import Machine
  import opened TmqSession

  // ---------- A handler that waits for the session lock ----------

  /** `Close` waits, with the session lock, for a handler that waits for the session lock. */
  ghost predicate Deadlocked(s: State, closer: Tid, handler: Tid)
  {
    && s.sessionLock == Some(closer) && closer in s.threads && s.threads[closer].CloseWait?
    && handler in s.wg && handler in s.threads
    && (s.threads[handler] == WantSession(SSubscribe) || s.threads[handler] == WantSession(SUnsubscribe))
  }

  /** Neither of the two can move. */
  lemma BothBlocked(s: State, e: Event, closer: Tid, handler: Tid)
    requires Deadlocked(s, closer, handler) && Next(s, e).Some?
    requires !(e.Arrive? || e.StartClose? || WorkerStep(e))
    ensures e.t != closer && e.t != handler && !e.Waited?
  {
  }

  lemma DeadlockedStep(s: State, e: Event, s': State, closer: Tid, handler: Tid)
    requires Inv(s) && Deadlocked(s, closer, handler) && Next(s, e) == Some(s')
    ensures Deadlocked(s', closer, handler)
  {
    assert ThreadOk(s, closer);
    if e.Arrive? || e.StartClose? {
      assert ThreadOk(s, s.spawned);
    } else if WorkerStep(e) {
      WorkerFrame(s, e, s');
    } else {
      BothBlocked(s, e, closer, handler);
      assert ThreadOk(s, e.t);
      if PlainMove(s, e) {
        PlainMoves(s, e, s');
      }
    }
  }

  /** No continuation of such a run completes `Close`. */
  lemma {:induction false} DeadlockedForEver(s: State, es: seq<Event>, s': State, closer: Tid, handler: Tid)
    requires Inv(s) && Deadlocked(s, closer, handler) && Run(s, es) == Some(s')
    ensures Deadlocked(s', closer, handler) && !s'.mail.destroyed
    decreases |es|
  {
    if es == [] {
      assert ThreadOk(s, closer);
    } else {
      var s1 := Next(s, es[0]).value;
      DeadlockedStep(s, es[0], s1, closer, handler);
      NextKeepsInv(s, es[0], s1);
      DeadlockedForEver(s1, es[1..], s', closer, handler);
    }
  }

  /** A subscribe request that enters just before the connection is closed is enough. */
  lemma DeadlockIsReachable() returns (es: seq<Event>, s: State)
    ensures Reached(es, s) && Deadlocked(s, 1, 0)
  {
    es := [];
    Machine.RunSnoc(Next, Init(), es, Arrive);
    es := es + [Arrive];
    Machine.RunSnoc(Next, Init(), es, Count(0));
    es := es + [Count(0)];
    Machine.RunSnoc(Next, Init(), es, Enter(0, SubscribeReq));
    es := es + [Enter(0, SubscribeReq)];
    Machine.RunSnoc(Next, Init(), es, StartClose);
    es := es + [StartClose];
    Machine.RunSnoc(Next, Init(), es, SessionLock(1, true));
    es := es + [SessionLock(1, true)];
    s := Run(Init(), es).value;
  }

  // ---------- The exact condition ----------

  predicate WantsSession(pc: PC)
  {
    pc == WantSession(SSubscribe) || pc == WantSession(SUnsubscribe)
  }

  /** No handler waits for the session lock. */
  ghost predicate NobodyWaits(s: State)
  {
    forall t :: t in s.threads ==> !WantsSession(s.threads[t])
  }

  /** `Close` has set `closed` and not returned. */
  ghost predicate Closing(s: State, closer: Tid)
  {
    s.closed && !s.mail.destroyed && s.sessionLock == Some(closer)
  }

  lemma CloserIs(s: State, closer: Tid)
    requires Locks(s) && Closing(s, closer)
    ensures closer in s.threads && Closer(s.threads[closer])
  {
    assert ThreadOk(s, closer);
  }

  lemma OnlyOneCloser(s: State, closer: Tid, t: Tid)
    requires Locks(s) && Closing(s, closer) && t in s.threads && HoldsSession(s.threads[t])
    ensures t == closer
  {
    assert ThreadOk(s, t);
  }

  /** Once `closed` is set no handler starts to wait for the session lock. */
  lemma NoWaiterArises(s: State, e: Event, s': State)
    requires Inv(s) && s.closed && NobodyWaits(s) && Next(s, e) == Some(s')
    ensures s'.closed && NobodyWaits(s')
  {
    if e.Arrive? || e.StartClose? {
    } else if WorkerStep(e) {
      WorkerFrame(s, e, s');
    } else {
      StepDoesNotWait(s, e, s');
    }
  }

  lemma StepDoesNotWait(s: State, e: Event, s': State)
    requires Inv(s) && s.closed && NobodyWaits(s) && Next(s, e) == Some(s')
    requires !(e.Arrive? || e.StartClose? || WorkerStep(e))
    ensures s'.closed && NobodyWaits(s')
  {
    assert ThreadOk(s, e.t);
    if PlainMove(s, e) {
      PlainMoves(s, e, s');
      MovedPlace(s, e, s');
    }
  }

  lemma AsyncLockPlace(s: State, t: Tid, s': State)
    requires NextHandler(s, AsyncLock(t)) == Some(s')
    ensures t in s'.threads ==> !WantsSession(s'.threads[t])
  {
  }

  lemma ReceivePlace(s: State, t: Tid, choice: bool, s': State)
    requires NextHandler(s, Receive(t, choice)) == Some(s')
    ensures t in s'.threads ==> !WantsSession(s'.threads[t])
  {
  }

  lemma MsgLocksPlace(s: State, t: Tid, u: MsgUse)
    ensures var r := MsgLocks(s, t, u); t in r.threads ==> !WantsSession(r.threads[t])
  {
    match u
    case MStore(_) =>
    case MFetch(_, _) =>
    case MUnsub =>
    case MClose =>
  }

  lemma MsgLockPlace(s: State, t: Tid, s': State)
    requires NextHandler(s, MsgLock(t)) == Some(s')
    ensures t in s'.threads ==> !WantsSession(s'.threads[t])
  {
    MsgLocksPlace(s, t, s.threads[t].u);
  }

  lemma SessionLockPlace(s: State, t: Tid, confOk: bool, s': State)
    requires NextHandler(s, SessionLock(t, confOk)) == Some(s')
    ensures t in s'.threads ==> !WantsSession(s'.threads[t])
  {
  }

  lemma OtherPlace(s: State, e: Event, s': State)
    requires e.Count? || e.Enter? || e.Submit? || e.Store? || e.Read? || e.SyncLock? || e.List?
    requires s.closed && NextHandler(s, e) == Some(s')
    ensures e.t in s'.threads ==> !WantsSession(s'.threads[e.t])
  {
  }

  /** No handler goes to wait for the session lock once the session is closed. */
  lemma MovedPlace(s: State, e: Event, s': State)
    requires PlainMove(s, e) && s.closed && Next(s, e) == Some(s')
    ensures e.t in s'.threads ==> !WantsSession(s'.threads[e.t])
  {
    if e.AsyncLock? {
      AsyncLockPlace(s, e.t, s');
    } else if e.Receive? {
      ReceivePlace(s, e.t, e.choice, s');
    } else if e.MsgLock? {
      MsgLockPlace(s, e.t, s');
    } else if e.SessionLock? {
      SessionLockPlace(s, e.t, e.confOk, s');
    } else {
      OtherPlace(s, e, s');
    }
  }

  lemma {:induction false} NoWaiterEver(s: State, es: seq<Event>, s': State)
    requires Inv(s) && s.closed && NobodyWaits(s) && Run(s, es) == Some(s')
    ensures s'.closed && NobodyWaits(s')
    decreases |es|
  {
    if es != [] {
      var s1 := Next(s, es[0]).value;
      NoWaiterArises(s, es[0], s1);
      NextKeepsInv(s, es[0], s1);
      NoWaiterEver(s1, es[1..], s');
    }
  }

  // ---------- Handlers leave ----------

  /** Some continuation completes `Close`. */
  ghost predicate CanComplete(s: State)
  {
    exists es :: Run(s, es).Some? && Run(s, es).value.mail.destroyed
  }

  lemma CompletesAfter(s: State, e: Event, s1: State)
    requires Next(s, e) == Some(s1) && CanComplete(s1)
    ensures CanComplete(s)
  {
    var es :| Run(s1, es).Some? && Run(s1, es).value.mail.destroyed;
    assert ([e] + es)[0] == e && ([e] + es)[1..] == es;
    assert Run(s, [e] + es) == Run(s1, es);
  }

  predicate Replied(m: Mail, pc: PC)
  {
    pc.Waiting? && ReplyOn(OpOf(pc.k)) in m.replies
  }

  /** How far the holder of asyncLocker is from releasing it. */
  function CallRank(m: Mail, pc: PC): nat
  {
    if pc.Locked? then (if HasThreadLock(m.worker) then 4 else 3) else if Replied(m, pc) then 1 else 2
  }

  /** The step that brings the holder of asyncLocker nearer to its release. */
  function CallStep(m: Mail, t: Tid, pc: PC): Event
  {
    if pc.Locked? then (if m.worker.Ran? then WorkerFree else if m.worker.Checked? then WorkerWait else Submit(t))
    else if Replied(m, pc) then Receive(t, false) else WorkerRun(true, TMQ_RES_INVALID)
  }

  lemma CallStepEnabled(s: State, t: Tid)
    requires Inv(s) && s.asyncLock == Some(t) && t in s.threads && InCall(s.threads[t])
    ensures Next(s, CallStep(s.mail, t, s.threads[t])).Some?
  {
    assert ThreadOk(s, t);
  }

  /** Nothing changes but the call of `t`. */
  ghost predicate OnlyTheCall(s: State, s': State, t: Tid)
  {
    && s'.asyncLock == Some(t) && t in s'.threads
    && s'.wg == s.wg && s'.closed == s.closed && s'.drained == s.drained && s'.sessionLock == s.sessionLock
    && s'.mail.destroyed == s.mail.destroyed
    && forall x :: x != t ==> (x in s'.threads <==> x in s.threads) && (x in s.threads ==> s'.threads[x] == s.threads[x])
  }

  lemma WorkerCallStep(s: State, t: Tid, s': State)
    requires Inv(s) && s.asyncLock == Some(t) && t in s.threads && InCall(s.threads[t]) && !Replied(s.mail, s.threads[t])
    requires WorkerStep(CallStep(s.mail, t, s.threads[t])) && NextWorker(s, CallStep(s.mail, t, s.threads[t])) == Some(s')
    ensures OnlyTheCall(s, s', t) && s'.threads[t] == s.threads[t]
    ensures CallRank(s'.mail, s'.threads[t]) < CallRank(s.mail, s.threads[t])
  {
    WorkerFrame(s, CallStep(s.mail, t, s.threads[t]), s');
    assert ThreadOk(s, t);
  }

  lemma SubmitCallStep(s: State, t: Tid, s': State)
    requires Inv(s) && s.asyncLock == Some(t) && t in s.threads && s.threads[t].Locked? && !HasThreadLock(s.mail.worker)
    requires NextHandler(s, Submit(t)) == Some(s')
    ensures OnlyTheCall(s, s', t) && InCall(s'.threads[t]) && s'.threads[t].k == s.threads[t].k
    ensures CallRank(s'.mail, s'.threads[t]) < CallRank(s.mail, s.threads[t])
  {
  }

  /** A step inside a call, before its answer is received, changes nothing but the call. */
  lemma CallStepInside(s: State, t: Tid, s': State)
    requires Inv(s) && s.asyncLock == Some(t) && t in s.threads && InCall(s.threads[t]) && !Replied(s.mail, s.threads[t])
    requires Next(s, CallStep(s.mail, t, s.threads[t])) == Some(s')
    ensures Inv(s') && OnlyTheCall(s, s', t) && InCall(s'.threads[t]) && s'.threads[t].k == s.threads[t].k
    ensures CallRank(s'.mail, s'.threads[t]) < CallRank(s.mail, s.threads[t])
  {
    assert ThreadOk(s, t);
    NextKeepsInv(s, CallStep(s.mail, t, s.threads[t]), s');
    if WorkerStep(CallStep(s.mail, t, s.threads[t])) {
      WorkerCallStep(s, t, s');
    } else {
      SubmitCallStep(s, t, s');
    }
  }

  /** `Close` waits for the wait group, and no handler in it waits for the session lock. */
  ghost predicate Draining(s: State, closer: Tid)
  {
    Inv(s) && Closing(s, closer) && closer in s.threads && s.threads[closer].CloseWait? && NobodyWaits(s)
  }

  lemma HandlerHoldsNoSession(s: State, closer: Tid, t: Tid)
    requires Draining(s, closer) && t in s.threads && t != closer
    ensures !HoldsSession(s.threads[t]) && !Closer(s.threads[t])
  {
    assert ThreadOk(s, t);
  }

  /** A step of a handler leaves `Close` where it is. */
  lemma StepsWhileDraining(s: State, e: Event, s': State, closer: Tid)
    requires Draining(s, closer) && PlainMove(s, e) && Next(s, e) == Some(s') && e.t != closer
    ensures Draining(s', closer)
    ensures s'.wg == if e.t in s'.threads then (if s.threads[e.t].Arrived? then s.wg + {e.t} else s.wg) else s.wg - {e.t}
  {
    PlainMoves(s, e, s');
    HandlerHoldsNoSession(s, closer, e.t);
    NoWaiterArises(s, e, s');
    NextKeepsInv(s, e, s');
  }

  /** How far the next handler is from leaving. */
  function Rank(s: State): nat
  {
    if s.asyncLock.Some? && s.asyncLock.value in s.threads then 2 + CallRank(s.mail, s.threads[s.asyncLock.value])
    else if s.msgLock.Some? then 1 else 2
  }

  ghost predicate Nearer(s: State, s': State)
  {
    |s'.wg| < |s.wg| || (|s'.wg| == |s.wg| && Rank(s') < Rank(s))
  }

  lemma LeavesGroup(s: State, s': State, t: Tid)
    requires t in s.wg && s'.wg == s.wg - {t}
    ensures Nearer(s, s')
  {
  }

  lemma AsyncHolder(s: State, closer: Tid, h: Tid)
    requires Draining(s, closer) && s.asyncLock == Some(h)
    ensures h in s.threads && h != closer && InCall(s.threads[h]) && !s.threads[h].Call? && h in s.wg
    ensures var k := s.threads[h].k; k.KSimple? || k.KAutoCommit? || k.KPoll? || k.KFreeOld? || k.KFetch?
  {
    assert ThreadOk(s, h);
    HandlerHoldsNoSession(s, closer, h);
  }

  /** The handler that waits for the answer goes on without retrying. */
  lemma ReceiveEnds(s: State, h: Tid, s': State)
    requires Inv(s) && NextHandler(s, Receive(h, false)) == Some(s') && s.threads[h].Waiting?
    requires var k := s.threads[h].k; k.KSimple? || k.KAutoCommit? || k.KPoll? || k.KFreeOld? || k.KFetch?
    ensures s'.asyncLock.None?
  {
  }

  lemma AsyncHeldStep(s: State, closer: Tid) returns (e: Event, s': State)
    requires Draining(s, closer) && s.asyncLock.Some?
    ensures Next(s, e) == Some(s') && Draining(s', closer) && Nearer(s, s')
  {
    var h := s.asyncLock.value;
    AsyncHolder(s, closer, h);
    CallStepEnabled(s, h);
    e := CallStep(s.mail, h, s.threads[h]);
    s' := Next(s, e).value;
    if Replied(s.mail, s.threads[h]) {
      StepsWhileDraining(s, e, s', closer);
      ReceiveEnds(s, h, s');
      if h !in s'.threads {
        LeavesGroup(s, s', h);
      }
    } else {
      CallStepInside(s, h, s');
      NoWaiterArises(s, e, s');
    }
  }

  lemma MsgHeldStep(s: State, closer: Tid) returns (e: Event, s': State)
    requires Draining(s, closer) && s.asyncLock.None? && s.msgLock.Some?
    ensures Next(s, e) == Some(s') && Draining(s', closer) && Nearer(s, s')
  {
    var h := s.msgLock.value;
    assert ThreadOk(s, h);
    HandlerHoldsNoSession(s, closer, h);
    var pc := s.threads[h];
    e := if pc.Storing? then Store(h) else if pc.Reading? then Read(h) else AsyncLock(h);
    s' := Next(s, e).value;
    StepsWhileDraining(s, e, s', closer);
    LeavesGroup(s, s', h);
  }

  lemma SessionUses(pc: PC)
    ensures pc.WantSession? ==> WantsSession(pc) || pc == WantSession(SClose)
  {
    if pc.WantSession? {
      match pc.x
      case SSubscribe =>
      case SUnsubscribe =>
      case SClose =>
    }
  }

  lemma FreeStep(s: State, closer: Tid, t: Tid) returns (e: Event, s': State)
    requires Draining(s, closer) && s.asyncLock.None? && s.msgLock.None? && t in s.wg
    ensures Next(s, e) == Some(s') && Draining(s', closer) && Nearer(s, s')
  {
    assert ThreadOk(s, t);
    var pc := s.threads[t];
    HandlerHoldsNoSession(s, closer, t);
    assert !WantsSession(s.threads[t]);
    SessionUses(pc);
    assert pc.Counted? || pc.WantMsg? || pc.Call? || pc.WantSync? || pc.Listing?;
    e := if pc.Counted? then Enter(t, SubscribeReq) else if pc.WantMsg? then MsgLock(t)
      else if pc.Call? then AsyncLock(t) else if pc.WantSync? then SyncLock(t) else List(t);
    s' := Next(s, e).value;
    StepsWhileDraining(s, e, s', closer);
    if t !in s'.threads {
      LeavesGroup(s, s', t);
    }
  }

  lemma DrainStep(s: State, closer: Tid) returns (e: Event, s': State)
    requires Draining(s, closer) && s.wg != {}
    ensures Next(s, e) == Some(s') && Draining(s', closer) && Nearer(s, s')
  {
    if s.asyncLock.Some? {
      e, s' := AsyncHeldStep(s, closer);
    } else if s.msgLock.Some? {
      e, s' := MsgHeldStep(s, closer);
    } else {
      var t :| t in s.wg;
      e, s' := FreeStep(s, closer, t);
    }
  }

  // ---------- `Close` goes on by itself ----------

  /** The worker will wait, or waits, for a signal that was not sent yet. */
  predicate NeedsSignal(w: Worker)
  {
    w.Checked? || w == Asleep(false)
  }

  /** Past the wait group, and the shutdown signal, if it was sent, did reach the worker. */
  ghost predicate ClosingDown(s: State, closer: Tid)
  {
    && Inv(s) && Closing(s, closer) && closer in s.threads && !s.threads[closer].CloseWait?
    && (s.threads[closer].Joining? ==> !NeedsSignal(s.mail.worker))
  }

  function ContRank(k: Cont): nat
  {
    if k.KCloseFree? then 20 else if k.KCloseUnsub? then 15 else 10
  }

  function DownRank(m: Mail, pc: PC): nat
  {
    if pc.WantMsg? then 30
    else if pc.Call? then ContRank(pc.k) + 5
    else if InCall(pc) then ContRank(pc.k) + CallRank(m, pc)
    else if pc.WantDestroy? then (if m.worker.Checked? then 5 else 4)
    else if m.worker.Ran? then 3 else if WillLook(m.worker) then 2 else 1
  }

  /** After the drain only `Close` holds locks. */
  lemma LocksAreFree(s: State, closer: Tid)
    requires ClosingDown(s, closer)
    ensures s.msgLock.Some? ==> s.msgLock.value == closer
    ensures s.asyncLock.Some? ==> s.asyncLock.value == closer
    ensures Closer(s.threads[closer])
  {
    CloserIs(s, closer);
    assert ThreadOk(s, closer);
    if s.msgLock.Some? {
      assert ThreadOk(s, s.msgLock.value);
    }
    if s.asyncLock.Some? {
      assert ThreadOk(s, s.asyncLock.value);
    }
  }

  function DownStep(m: Mail, t: Tid, pc: PC): Event
  {
    if pc.WantMsg? then MsgLock(t)
    else if pc.Call? then AsyncLock(t)
    else if InCall(pc) then CallStep(m, t, pc)
    else if pc.WantDestroy? then (if m.worker.Checked? then WorkerWait else Shutdown(t))
    else if m.worker.Ran? then WorkerFree else if WillLook(m.worker) then WorkerExit else Join(t)
  }

  /** The steps that wait for nobody. */
  lemma DownLockStep(s: State, closer: Tid, s': State)
    requires ClosingDown(s, closer) && (s.threads[closer].WantMsg? || s.threads[closer].Call?)
    requires Next(s, DownStep(s.mail, closer, s.threads[closer])) == Some(s')
    ensures ClosingDown(s', closer) && DownRank(s'.mail, s'.threads[closer]) < DownRank(s.mail, s.threads[closer])
  {
    LocksAreFree(s, closer);
    assert ThreadOk(s, closer);
    NextKeepsInv(s, DownStep(s.mail, closer, s.threads[closer]), s');
  }

  lemma DownReceiveStep(s: State, closer: Tid, s': State)
    requires ClosingDown(s, closer) && Replied(s.mail, s.threads[closer])
    requires NextHandler(s, Receive(closer, false)) == Some(s')
    ensures ClosingDown(s', closer) && DownRank(s'.mail, s'.threads[closer]) < DownRank(s.mail, s.threads[closer])
  {
    LocksAreFree(s, closer);
    assert ThreadOk(s, closer);
    NextKeepsInv(s, Receive(closer, false), s');
  }

  lemma DownCallStep(s: State, closer: Tid, s': State)
    requires ClosingDown(s, closer) && InCall(s.threads[closer]) && !s.threads[closer].Call?
    requires Next(s, DownStep(s.mail, closer, s.threads[closer])) == Some(s')
    ensures ClosingDown(s', closer) && DownRank(s'.mail, s'.threads[closer]) < DownRank(s.mail, s.threads[closer])
  {
    assert ThreadOk(s, closer);
    if Replied(s.mail, s.threads[closer]) {
      DownReceiveStep(s, closer, s');
    } else {
      CallStepInside(s, closer, s');
    }
  }

  /** The last steps: the worker is told to end, ends, and is joined. */
  lemma DownEndStep(s: State, closer: Tid, s': State)
    requires ClosingDown(s, closer) && (s.threads[closer].WantDestroy? || s.threads[closer].Joining?)
    requires Next(s, DownStep(s.mail, closer, s.threads[closer])) == Some(s')
    ensures s'.mail.destroyed
            || (ClosingDown(s', closer) && DownRank(s'.mail, s'.threads[closer]) < DownRank(s.mail, s.threads[closer]))
  {
    LocksAreFree(s, closer);
    assert ThreadOk(s, closer);
    NextKeepsInv(s, DownStep(s.mail, closer, s.threads[closer]), s');
  }

  lemma DownStepEnabled(s: State, closer: Tid)
    requires ClosingDown(s, closer)
    ensures Next(s, DownStep(s.mail, closer, s.threads[closer])).Some?
  {
    LocksAreFree(s, closer);
    assert ThreadOk(s, closer);
    if InCall(s.threads[closer]) && !s.threads[closer].Call? {
      CallStepEnabled(s, closer);
    }
  }

  lemma {:induction false} ClosesDown(s: State, closer: Tid)
    requires ClosingDown(s, closer)
    ensures CanComplete(s)
    decreases DownRank(s.mail, s.threads[closer])
  {
    LocksAreFree(s, closer);
    DownStepEnabled(s, closer);
    var pc := s.threads[closer];
    var e := DownStep(s.mail, closer, pc);
    var s1 := Next(s, e).value;
    if pc.WantMsg? || pc.Call? {
      DownLockStep(s, closer, s1);
      ClosesDown(s1, closer);
    } else if InCall(pc) {
      DownCallStep(s, closer, s1);
      ClosesDown(s1, closer);
    } else {
      DownEndStep(s, closer, s1);
      if s1.mail.destroyed {
        assert Run(s1, []) == Some(s1);
      } else {
        ClosesDown(s1, closer);
      }
    }
    CompletesAfter(s, e, s1);
  }

  lemma {:induction false} Drains(s: State, closer: Tid)
    requires Draining(s, closer)
    ensures CanComplete(s)
    decreases |s.wg|, Rank(s)
  {
    if s.wg == {} {
      var s1 := Next(s, Waited(closer)).value;
      NextKeepsInv(s, Waited(closer), s1);
      ClosesDown(s1, closer);
      CompletesAfter(s, Waited(closer), s1);
    } else {
      var e, s1 := DrainStep(s, closer);
      Drains(s1, closer);
      CompletesAfter(s, e, s1);
    }
  }

  // ---------- The lost signal ----------

  /** The worker was told to end between its test and its wait. */
  predicate Lost(s: State)
  {
    s.mail.shutdown && !s.mail.destroyed && NeedsSignal(s.mail.worker)
  }

  predicate HandlerStep(e: Event)
  {
    !(e.Arrive? || e.StartClose? || WorkerStep(e))
  }

  lemma OnlyTwoSignal(s: State, e: Event, s': State)
    requires HandlerStep(e) && !e.Submit? && !e.Shutdown? && NextHandler(s, e) == Some(s')
    ensures s'.mail.worker == s.mail.worker
  {
  }

  lemma LostStep(s: State, e: Event, s': State)
    requires Inv(s) && Lost(s) && Next(s, e) == Some(s')
    ensures Lost(s')
  {
    if HandlerStep(e) {
      assert ThreadOk(s, e.t);
      assert ThreadOk(s, s.asyncLock.value);
      assert !e.Submit? && !e.Shutdown?;
      OnlyTwoSignal(s, e, s');
      if PlainMove(s, e) {
        PlainMoves(s, e, s');
      }
    }
  }

  /** No continuation of such a run completes `Close`. */
  lemma {:induction false} LostForEver(s: State, es: seq<Event>, s': State)
    requires Inv(s) && Lost(s) && Run(s, es) == Some(s')
    ensures Lost(s') && !s'.mail.destroyed
    decreases |es|
  {
    if es != [] {
      var s1 := Next(s, es[0]).value;
      LostStep(s, es[0], s1);
      NextKeepsInv(s, es[0], s1);
      LostForEver(s1, es[1..], s');
    }
  }

  /** A session that got no request, while goroutine 0 closes it. */
  function Unused(drained: bool, pc: PC): State
  {
    At(Init().(spawned := 1, sessionLock := Some(0), closed := true, drained := drained), 0, pc)
  }

  lemma UnusedStarts() returns (es: seq<Event>)
    ensures Reached(es, Unused(false, CloseWait))
  {
    var s1 := Next(Init(), StartClose).value;
    Machine.RunSnoc(Next, Init(), [], StartClose);
    Machine.RunSnoc(Next, Init(), [] + [StartClose], SessionLock(0, true));
    es := [] + [StartClose] + [SessionLock(0, true)];
    assert Next(s1, SessionLock(0, true)).value.threads == Unused(false, CloseWait).threads;
  }

  lemma UnusedWaits() returns (es: seq<Event>)
    ensures Reached(es, Unused(true, WantMsg(MClose)))
  {
    var first := UnusedStarts();
    Machine.RunSnoc(Next, Init(), first, Waited(0));
    es := first + [Waited(0)];
    assert Next(Unused(false, CloseWait), Waited(0)).value.threads == Unused(true, WantMsg(MClose)).threads;
  }

  lemma UnusedGoesOn() returns (es: seq<Event>)
    ensures Reached(es, Unused(true, WantDestroy))
  {
    var first := UnusedWaits();
    Machine.RunSnoc(Next, Init(), first, MsgLock(0));
    es := first + [MsgLock(0)];
    assert Next(Unused(true, WantMsg(MClose)), MsgLock(0)).value.threads == Unused(true, WantDestroy).threads;
  }

  /** A connection that is closed before any request is enough. */
  lemma LostSignalIsReachable() returns (es: seq<Event>, s: State)
    ensures Reached(es, s) && Lost(s) && NobodyWaits(s)
  {
    var first := UnusedGoesOn();
    var s2 := Next(Unused(true, WantDestroy), WorkerCheck).value;
    s := Next(s2, Shutdown(0)).value;
    Machine.RunSnoc(Next, Init(), first, WorkerCheck);
    es := first + [WorkerCheck];
    Machine.RunSnoc(Next, Init(), es, Shutdown(0));
    es := es + [Shutdown(0)];
  }

  // ---------- The exact condition, while `Close` is under way ----------

  lemma ShutDownIsJoining(s: State, closer: Tid)
    requires Inv(s) && Closing(s, closer) && closer in s.threads
    ensures s.mail.shutdown <==> s.threads[closer].Joining?
    ensures s.mail.shutdown ==> NobodyWaits(s)
  {
    assert ThreadOk(s, closer);
    if s.mail.shutdown {
      assert ThreadOk(s, s.asyncLock.value);
      forall t | t in s.threads ensures !WantsSession(s.threads[t]) {
        assert ThreadOk(s, t);
      }
    }
  }

  lemma CannotComplete(s: State, closer: Tid)
    requires Inv(s) && Closing(s, closer) && closer in s.threads && Closer(s.threads[closer])
    requires !NobodyWaits(s) || Lost(s)
    ensures !CanComplete(s)
  {
    assert ThreadOk(s, closer);
    if Lost(s) {
      forall more | Run(s, more).Some? ensures !Run(s, more).value.mail.destroyed {
        LostForEver(s, more, Run(s, more).value);
      }
    } else {
      var t :| t in s.threads && WantsSession(s.threads[t]);
      assert ThreadOk(s, t);
      forall more | Run(s, more).Some? ensures !Run(s, more).value.mail.destroyed {
        DeadlockedForEver(s, more, Run(s, more).value, closer, t);
      }
    }
  }

  /**
    While `Close` is under way, some continuation completes it if and only if no handler waits for the session lock and
    the shutdown signal is not lost.  Before the signal is sent only the first can fail, after it only the second.
  */
  lemma CloseCompletesIff(es: seq<Event>, s: State)
    requires Reached(es, s) && s.closed && !s.mail.destroyed
    ensures CanComplete(s) <==> NobodyWaits(s) && !Lost(s)
    ensures s.mail.shutdown ==> NobodyWaits(s)
    ensures !s.mail.shutdown ==> !Lost(s)
  {
    ReachedInv(es, s);
    var closer := s.sessionLock.value;
    CloserIs(s, closer);
    ShutDownIsJoining(s, closer);
    if !NobodyWaits(s) || Lost(s) {
      CannotComplete(s, closer);
    } else if s.threads[closer].CloseWait? {
      Drains(s, closer);
    } else {
      ClosesDown(s, closer);
    }
  }

  lemma SetsClosed(s: State, t: Tid, confOk: bool, s': State)
    requires Inv(s) && !s.closed && NextHandler(s, SessionLock(t, confOk)) == Some(s') && s'.closed
    ensures !s'.mail.destroyed && !s'.mail.shutdown && (NobodyWaits(s') <==> NobodyWaits(s))
  {
    assert s.threads[t].x.SClose?;
    assert !WantsSession(s.threads[t]) && s'.threads[t] == CloseWait;
    forall x | x in s.threads ensures x in s'.threads && (WantsSession(s'.threads[x]) <==> WantsSession(s.threads[x])) {
    }
  }

  /**
    The handlers are decided at the moment at which `Close` takes the session lock: it can still complete exactly when
    at that moment no subscribe or unsubscribe handler waits for the lock, and then none will wait for it later.
  */
  lemma HandlersDecidedWhenClosedIsSet(es: seq<Event>, s: State, t: Tid, confOk: bool, s': State)
    requires Reached(es, s) && !s.closed && Next(s, SessionLock(t, confOk)) == Some(s') && s'.closed
    ensures CanComplete(s') <==> NobodyWaits(s)
    ensures NobodyWaits(s) ==> forall more :: Run(s', more).Some? ==> NobodyWaits(Run(s', more).value)
  {
    ReachedInv(es, s);
    NextKeepsInv(s, SessionLock(t, confOk), s');
    Machine.RunSnoc(Next, Init(), es, SessionLock(t, confOk));
    SetsClosed(s, t, confOk, s');
    CloseCompletesIff(es + [SessionLock(t, confOk)], s');
    if NobodyWaits(s) {
      forall more | Run(s', more).Some? ensures NobodyWaits(Run(s', more).value) {
        NoWaiterEver(s', more, Run(s', more).value);
      }
    }
  }

  /** The rest is decided when the shutdown signal is sent: by whether the worker is then between its test and its wait. */
  lemma DecidedAtShutdown(es: seq<Event>, s: State, t: Tid, s': State)
    requires Reached(es, s) && Next(s, Shutdown(t)) == Some(s')
    ensures CanComplete(s') <==> !s.mail.worker.Checked?
  {
    ReachedInv(es, s);
    assert ThreadOk(s, t);
    NextKeepsInv(s, Shutdown(t), s');
    Machine.RunSnoc(Next, Init(), es, Shutdown(t));
    CloseCompletesIff(es + [Shutdown(t)], s');
  }
}
