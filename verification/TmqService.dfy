/**
  What a TMQ session does for its clients (controller/ws/tmq/tmq.go): the types of the messages it keeps and reads, and
  which requests reach the worker.
*/
module TmqService {
  import opened Wrappers
  import Machine
  import opened Sequences
  import opened TmqSession
  import TmqClose
  import TmqConsumers

  // ---------- Every message is used as its type allows ----------

  /** The message a goroutine is about to make the current one. */
  function Stores(pc: PC): Option<Msg>
  {
    if pc.WantMsg? && pc.u.MStore? then Some(pc.u.m)
    else if InCall(pc) && pc.k.KFreeOld? then Some(pc.k.m)
    else if pc.Storing? then Some(pc.m)
    else None
  }

  ghost predicate TypedAt(types: seq<int>, curType: int, pc: PC)
  {
    && (Stores(pc).Some? ==> Stores(pc).value < |types| && IsValidType(types[Stores(pc).value]))
    && (InCall(pc) && pc.k.KFetch? && pc.k.op.FETCH_RAW_BLOCK? ==> CanGetData(curType))
  }

  /** The record has the type of its message, one that a poll keeps; so has every message on its way there. */
  ghost predicate Typed(s: State)
  {
    && |s.types| == |s.poller|
    && (s.cur.Some? ==>
          s.cur.value < |s.types| && s.curType == s.types[s.cur.value] && IsValidType(s.types[s.cur.value]))
    && (forall t :: t in s.threads ==> TypedAt(s.types, s.curType, s.threads[t]))
  }

  ghost predicate OthersStay(s: State, s': State, t: Tid)
  {
    forall x: Tid :: x != t ==> Place(s', x) == Place(s, x)
  }

  /** Goroutine `t` moves, and no type changes. */
  lemma MoveKeepsTypes(s: State, s': State, t: Tid)
    requires Typed(s) && OthersStay(s, s', t)
    requires s'.types == s.types && s'.poller == s.poller && s'.curType == s.curType
    requires s'.cur.Some? ==> s'.cur == s.cur
    requires t in s'.threads ==> TypedAt(s.types, s.curType, s'.threads[t])
    ensures Typed(s')
  {
    forall x | x in s'.threads ensures TypedAt(s'.types, s'.curType, s'.threads[x]) {
      if x != t {
        assert Place(s', x) == Place(s, x);
      }
    }
  }

  lemma StoreKeepsTypes(s: State, t: Tid, s': State)
    requires Locks(s) && Typed(s) && Next(s, Store(t)) == Some(s')
    ensures Typed(s')
  {
    assert ThreadOk(s, t);
    forall x | x in s'.threads ensures TypedAt(s'.types, s'.curType, s'.threads[x]) {
      assert ThreadOk(s, x);
    }
  }

  /** No type changes, and no goroutine but `t` moves. */
  ghost predicate Carries(s: State, s': State, t: Tid)
  {
    && s'.types == s.types && s'.poller == s.poller && s'.curType == s.curType
    && (s'.cur.Some? ==> s'.cur == s.cur)
    && OthersStay(s, s', t)
  }

  lemma ResumesCarries(s: State, t: Tid, k: Cont, value: Option<nat>, choice: bool)
    ensures Carries(s, Resumes(s, t, k, value, choice), t)
  {
  }

  lemma ResumesTyped(s: State, t: Tid, k: Cont, value: Option<nat>, choice: bool)
    requires k.KPoll? && value.Some? ==> value.value < |s.types|
    requires k.KFreeOld? ==> k.m < |s.types| && IsValidType(s.types[k.m])
    ensures var r := Resumes(s, t, k, value, choice); t in r.threads ==> TypedAt(s.types, s.curType, r.threads[t])
  {
  }

  lemma PolledIsKnown(s: State, t: Tid)
    requires Messages(s) && Typed(s) && t in s.threads && s.threads[t].Waiting? && s.threads[t].k.KPoll?
    requires PollResult in s.mail.replies && s.mail.replies[PollResult].value.Some?
    ensures s.mail.replies[PollResult].value.value < |s.types|
  {
    assert HoldOk(s, t);
  }

  lemma ReceiveKeepsTypes(s: State, t: Tid, choice: bool, s': State)
    requires Messages(s) && Typed(s) && Next(s, Receive(t, choice)) == Some(s')
    ensures Typed(s') && s'.types == s.types
  {
    ReceiveIs(s, t, choice, s');
    var c, k := ReplyOn(OpOf(s.threads[t].k)), s.threads[t].k;
    var value, s1 := s.mail.replies[c].value, s.(mail := s.mail.(replies := s.mail.replies - {c}), asyncLock := None);
    assert TypedAt(s.types, s.curType, s.threads[t]);
    if k.KPoll? && value.Some? {
      PolledIsKnown(s, t);
    }
    ResumesTyped(s1, t, k, value, choice);
    ResumesCarries(s1, t, k, value, choice);
    MoveKeepsTypes(s, s', t);
  }

  /** The steps that only take a goroutine on. */
  predicate Onward(e: Event)
  {
    e.Count? || e.Enter? || e.AsyncLock? || e.Submit? || e.MsgLock? || e.Read? || e.SyncLock? || e.List?
    || e.SessionLock? || e.Waited? || e.Shutdown? || e.Join?
  }

  lemma WhenClosedCarries(s: State, t: Tid, k: Cont)
    ensures var r := WhenClosed(s, t, k);
            Carries(s, r, t) && (t in r.threads ==> TypedAt(s.types, s.curType, r.threads[t]))
  {
  }

  lemma OpenLocksCarries(s: State, t: Tid, k: Cont)
    requires !(Guarded(k) && s.closed) && TypedAt(s.types, s.curType, Call(k))
    ensures var r := AsyncLocks(s, t, k);
            Carries(s, r, t) && (t in r.threads ==> TypedAt(s.types, s.curType, r.threads[t]))
  {
  }

  lemma AsyncLockCarries(s: State, t: Tid, s': State)
    requires NextHandler(s, AsyncLock(t)) == Some(s') && TypedAt(s.types, s.curType, s.threads[t])
    ensures Carries(s, s', t) && (t in s'.threads ==> TypedAt(s.types, s.curType, s'.threads[t]))
  {
    var k := s.threads[t].k;
    if Guarded(k) && s.closed {
      WhenClosedCarries(s, t, k);
    } else {
      OpenLocksCarries(s, t, k);
    }
  }

  lemma EnterCarries(s: State, t: Tid, req: Request, s': State)
    requires NextHandler(s, Enter(t, req)) == Some(s')
    ensures Carries(s, s', t) && (t in s'.threads ==> TypedAt(s.types, s.curType, s'.threads[t]))
  {
  }

  lemma CloseStageCarries(s: State, t: Tid)
    ensures var r := CloseConsumerStage(s, t);
            Carries(s, r, t) && (t in r.threads ==> TypedAt(s.types, s.curType, r.threads[t]))
  {
  }

  lemma CloseLocksCarries(s: State, t: Tid)
    ensures var r := MsgLocks(s, t, MClose);
            Carries(s, r, t) && (t in r.threads ==> TypedAt(s.types, s.curType, r.threads[t]))
  {
    CloseStageCarries(s, t);
  }

  lemma MsgLocksCarries(s: State, t: Tid, u: MsgUse)
    requires !u.MClose?
    ensures Carries(s, MsgLocks(s, t, u), t)
  {
  }

  lemma FetchLocksTyped(s: State, t: Tid, op: Op, id: nat)
    ensures var r := MsgLocks(s, t, MFetch(op, id)); t in r.threads ==> TypedAt(s.types, s.curType, r.threads[t])
  {
  }

  lemma MsgLocksTyped(s: State, t: Tid, u: MsgUse)
    requires (u.MStore? || u.MUnsub?) && TypedAt(s.types, s.curType, WantMsg(u))
    ensures var r := MsgLocks(s, t, u); t in r.threads ==> TypedAt(s.types, s.curType, r.threads[t])
  {
  }

  lemma MsgLockCarries(s: State, t: Tid, s': State)
    requires NextHandler(s, MsgLock(t)) == Some(s') && TypedAt(s.types, s.curType, s.threads[t])
    ensures Carries(s, s', t) && (t in s'.threads ==> TypedAt(s.types, s.curType, s'.threads[t]))
  {
    var u := s.threads[t].u;
    if u.MClose? {
      CloseLocksCarries(s, t);
    } else {
      MsgLocksCarries(s, t, u);
      if u.MFetch? {
        FetchLocksTyped(s, t, u.op, u.id);
      } else {
        MsgLocksTyped(s, t, u);
      }
    }
  }

  lemma SessionLocksCarries(s: State, t: Tid, x: SessionUse, confOk: bool)
    ensures Carries(s, SessionLocks(s, t, x, confOk), t)
  {
  }

  lemma SessionLockCarries(s: State, t: Tid, confOk: bool, s': State)
    requires NextHandler(s, SessionLock(t, confOk)) == Some(s')
    ensures Carries(s, s', t) && (t in s'.threads ==> TypedAt(s.types, s.curType, s'.threads[t]))
  {
    SessionLocksCarries(s, t, s.threads[t].x, confOk);
  }

  lemma OtherCarries(s: State, e: Event, s': State)
    requires Onward(e) && !e.AsyncLock? && !e.Enter? && !e.MsgLock? && !e.SessionLock?
    requires NextHandler(s, e) == Some(s') && TypedAt(s.types, s.curType, s.threads[e.t])
    ensures Carries(s, s', e.t) && (e.t in s'.threads ==> TypedAt(s.types, s.curType, s'.threads[e.t]))
  {
  }

  lemma OnwardKeepsTypes(s: State, e: Event, s': State)
    requires Typed(s) && Onward(e) && Next(s, e) == Some(s')
    ensures Typed(s') && s'.types == s.types
  {
    assert TypedAt(s.types, s.curType, s.threads[e.t]);
    match e {
      case AsyncLock(t) => AsyncLockCarries(s, t, s');
      case Enter(t, req) => EnterCarries(s, t, req, s');
      case MsgLock(t) => MsgLockCarries(s, t, s');
      case SessionLock(t, confOk) => SessionLockCarries(s, t, confOk, s');
      case _ => OtherCarries(s, e, s');
    }
    MoveKeepsTypes(s, s', e.t);
  }

  lemma SpawnKeepsTypes(s: State, e: Event, s': State)
    requires Typed(s) && (e.Arrive? || e.StartClose?) && Next(s, e) == Some(s')
    ensures Typed(s')
  {
    MoveKeepsTypes(s, s', s.spawned);
  }

  /** The worker adds a message with its type, or none. */
  lemma WorkerTypes(s: State, e: Event, s': State)
    requires WorkerStep(e) && NextWorker(s, e) == Some(s')
    ensures s'.curType == s.curType && s'.consumer == s.consumer && s'.unsubscribed == s.unsubscribed
    ensures s.types <= s'.types && |s'.types| - |s.types| == |s'.poller| - |s.poller|
  {
  }

  lemma LongerTypes(types: seq<int>, types': seq<int>, curType: int, pc: PC)
    requires types <= types' && TypedAt(types, curType, pc)
    ensures TypedAt(types', curType, pc)
  {
  }

  lemma WorkerKeepsTypes(s: State, e: Event, s': State)
    requires Typed(s) && WorkerStep(e) && NextWorker(s, e) == Some(s')
    ensures Typed(s') && s.types <= s'.types
  {
    WorkerFrame(s, e, s');
    WorkerTypes(s, e, s');
    forall x | x in s'.threads ensures TypedAt(s'.types, s'.curType, s'.threads[x]) {
      LongerTypes(s.types, s'.types, s.curType, s.threads[x]);
    }
  }

  lemma NextKeepsTypes(s: State, e: Event, s': State)
    requires Inv(s) && Typed(s) && Next(s, e) == Some(s')
    ensures Typed(s') && s.types <= s'.types
  {
    if e.Arrive? || e.StartClose? {
      SpawnKeepsTypes(s, e, s');
    } else if WorkerStep(e) {
      WorkerKeepsTypes(s, e, s');
    } else if e.Store? {
      StoreKeepsTypes(s, e.t, s');
    } else if e.Receive? {
      ReceiveKeepsTypes(s, e.t, e.choice, s');
    } else {
      OnwardKeepsTypes(s, e, s');
    }
  }

  lemma {:induction false} RunKeepsTypes(s: State, es: seq<Event>, s': State)
    requires Inv(s) && Typed(s) && Run(s, es) == Some(s')
    ensures Inv(s') && Typed(s') && s.types <= s'.types
    decreases |es|
  {
    if es != [] {
      var s1 := Next(s, es[0]).value;
      NextKeepsInv(s, es[0], s1);
      NextKeepsTypes(s, es[0], s1);
      RunKeepsTypes(s1, es[1..], s');
    }
  }

  lemma ReachedTyped(es: seq<Event>, s: State)
    requires Reached(es, s)
    ensures Inv(s) && Typed(s)
  {
    ReachedInv([], Init());
    RunKeepsTypes(Init(), es, s);
  }

  /**
    In every run the current message has one of the types that a poll keeps, its record carries that type, and each
    FETCH_RAW_BLOCK task that the worker runs names a message that has data.
  */
  lemma EveryFetchHasData(es: seq<Event>, s: State, e: Event)
    requires Reached(es, s) && Next(s, e).Some?
    ensures |s.types| == |s.poller|
    ensures s.cur.Some? ==>
              && s.cur.value < |s.types| && s.curType == s.types[s.cur.value]
              && s.curType in {TMQ_RES_DATA, TMQ_RES_TABLE_META, TMQ_RES_METADATA}
    ensures e.WorkerRun? && s.mail.task.value.op.FETCH_RAW_BLOCK? ==>
              && s.cur == Some(s.mail.task.value.target) && s.mail.task.value.target < |s.types|
              && s.types[s.mail.task.value.target] in {TMQ_RES_DATA, TMQ_RES_METADATA}
  {
    ReachedTyped(es, s);
    if e.WorkerRun? && s.mail.task.value.op.FETCH_RAW_BLOCK? {
      var t, k := RunnerIs(s);
      assert TypedAt(s.types, s.curType, s.threads[t]);
    }
  }

  // ---------- Which requests reach the worker ----------

  /** The worker is about to run a task of this kind on this object. */
  predicate AboutToRun(s: State, op: Op, target: nat)
  {
    && Next(s, WorkerRun(true, TMQ_RES_DATA)).Some?
    && s.mail.task.Some? && s.mail.task.value.op == op && s.mail.task.value.target == target
  }

  /** In some continuation the worker runs such a task. */
  ghost predicate CanRun(s: State, op: Op, target: nat)
  {
    exists es :: Run(s, es).Some? && AboutToRun(Run(s, es).value, op, target)
  }

  lemma RunsNow(s: State, op: Op, target: nat)
    requires AboutToRun(s, op, target)
    ensures CanRun(s, op, target)
  {
    assert Run(s, []) == Some(s);
  }

  lemma RunsAfter(s: State, e: Event, s1: State, op: Op, target: nat)
    requires Next(s, e) == Some(s1) && CanRun(s1, op, target)
    ensures CanRun(s, op, target)
  {
    var es :| Run(s1, es).Some? && AboutToRun(Run(s1, es).value, op, target);
    assert ([e] + es)[0] == e && ([e] + es)[1..] == es;
    assert Run(s, [e] + es) == Run(s1, es);
  }

  /** `t` has asyncLocker and finds nobody with the thread lock. */
  lemma SubmitterRuns(s: State, t: Tid, k: Cont)
    requires Inv(s) && t in s.threads && s.threads[t] == Locked(k) && !HasThreadLock(s.mail.worker)
    ensures CanRun(s, OpOf(k), Target(s, k))
  {
    assert ThreadOk(s, t);
    var s1 := Next(s, Submit(t)).value;
    NextKeepsInv(s, Submit(t), s1);
    assert ThreadOk(s1, t);
    RunsNow(s1, OpOf(k), Target(s, k));
    RunsAfter(s, Submit(t), s1, OpOf(k), Target(s, k));
  }

  lemma WorkerLetsGo(s: State) returns (e: Event, s1: State)
    requires Inv(s) && HasThreadLock(s.mail.worker)
    ensures Next(s, e) == Some(s1) && Inv(s1) && !HasThreadLock(s1.mail.worker)
    ensures WorkerStep(e) && s1 == s.(mail := s1.mail) && s1.mail.submitted == s.mail.submitted
  {
    e := if s.mail.worker.Ran? then WorkerFree else WorkerWait;
    s1 := NextWorker(s, e).value;
    NextKeepsInv(s, e, s1);
  }

  /** A goroutine that has asyncLocker gets its task run. */
  lemma LockedRuns(s: State, t: Tid, k: Cont)
    requires Inv(s) && t in s.threads && s.threads[t] == Locked(k)
    ensures CanRun(s, OpOf(k), Target(s, k))
  {
    if HasThreadLock(s.mail.worker) {
      var e, s1 := WorkerLetsGo(s);
      SubmitterRuns(s1, t, k);
      RunsAfter(s, e, s1, OpOf(k), Target(s, k));
    } else {
      SubmitterRuns(s, t, k);
    }
  }

  /** A goroutine whose call comes when asyncLocker is free and the session open gets its task run. */
  lemma CallRuns(s: State, t: Tid, k: Cont)
    requires Inv(s) && t in s.threads && s.threads[t] == Call(k) && s.asyncLock.None? && !s.closed
    ensures CanRun(s, OpOf(k), Target(s, k))
  {
    assert ThreadOk(s, t);
    var s1 := Next(s, AsyncLock(t)).value;
    NextKeepsInv(s, AsyncLock(t), s1);
    LockedRuns(s1, t, k);
    RunsAfter(s, AsyncLock(t), s1, OpOf(k), Target(s, k));
  }

  /**
    The first task of a request and the object it names, by what the session has when the request comes: a consumer,
    a current message and its type.  `None` is a request that is refused, or needs no task.
  */
  function FirstTask(s: State, req: Request): Option<(Op, nat)>
  {
    match req
    case Simple(op) => if s.consumer.Some? then Some((op, s.consumer.value)) else None
    case PollReq(commitFirst) =>
      if s.consumer.Some? then Some((if commitFirst then COMMIT else POLL, s.consumer.value)) else None
    case FetchReq(op, id) =>
      if s.consumer.Some? && s.cur.Some? && id == s.index
         && (op.FETCH_RAW_BLOCK? ==> TypeOf(s, s.cur.value) in {TMQ_RES_DATA, TMQ_RES_METADATA})
      then Some((op, s.cur.value)) else None
    case SubscribeReq =>
      if s.consumer.None? then Some((NEW_CONSUMER, 0))
      else if s.unsubscribed then Some((SUBSCRIBE, s.consumer.value)) else None
    case UnsubscribeReq => if s.consumer.Some? then Some((UNSUBSCRIBE, s.consumer.value)) else None
    case ListReq => None
  }

  /** The lock that the request takes before its first task is free. */
  predicate Unhindered(s: State, req: Request)
  {
    (req.FetchReq? ==> s.msgLock.None?) && (req.SubscribeReq? || req.UnsubscribeReq? ==> s.sessionLock.None?)
  }

  // ---------- A call in progress ends ----------

  /** What a request depends on. */
  ghost predicate SameFor(s: State, s': State, req: Request)
  {
    s'.closed == s.closed && Unhindered(s', req) && FirstTask(s', req) == FirstTask(s, req)
  }

  lemma WorkerSpares(s: State, e: Event, s': State, req: Request)
    requires Typed(s) && WorkerStep(e) && NextWorker(s, e) == Some(s') && Unhindered(s, req)
    ensures SameFor(s, s', req)
  {
    WorkerFrame(s, e, s');
    WorkerTypes(s, e, s');
  }

  lemma SubmitSpares(s: State, t: Tid, s': State, req: Request)
    requires NextHandler(s, Submit(t)) == Some(s') && Unhindered(s, req)
    ensures SameFor(s, s', req)
  {
  }

  /** The answer to a call changes only what the caller has locked. */
  lemma ResumesSpares(s: State, t: Tid, k: Cont, value: Option<nat>)
    ensures var r := Resumes(s, t, k, value, false);
            && r.closed == s.closed && r.types == s.types && r.index == s.index
            && (!MsgCont(k) ==> r.cur == s.cur && r.msgLock == s.msgLock)
            && (!SessionCont(k) ==> r.consumer == s.consumer && r.unsubscribed == s.unsubscribed
                                    && r.sessionLock == s.sessionLock)
            && (!TmqConsumers.NewCont(k) ==> r.consumer == s.consumer)
            && (s.consumer.Some? ==> r.consumer.Some?)
  {
  }

  lemma ReceiveSpares(s: State, t: Tid, s': State, req: Request)
    requires Locks(s) && TmqConsumers.Stages(s) && NextHandler(s, Receive(t, false)) == Some(s')
    requires Unhindered(s, req) && FirstTask(s, req).Some?
    ensures SameFor(s, s', req)
  {
    ReceiveIs(s, t, false, s');
    var c, k := ReplyOn(OpOf(s.threads[t].k)), s.threads[t].k;
    var s1 := s.(mail := s.mail.(replies := s.mail.replies - {c}), asyncLock := None);
    ResumesSpares(s1, t, k, s.mail.replies[c].value);
    assert ThreadOk(s, t) && TmqConsumers.StageOk(s, t);
  }

  // ---------- A request that finds its locks free ----------

  lemma FetchRuns(s: State, t: Tid, op: Op, id: nat)
    requires Inv(s) && Typed(s) && t in s.threads && s.threads[t] == WantMsg(MFetch(op, id))
    requires s.asyncLock.None? && s.msgLock.None? && !s.closed && FirstTask(s, FetchReq(op, id)).Some?
    ensures CanRun(s, op, s.cur.value)
  {
    var s1 := NextHandler(s, MsgLock(t)).value;
    NextKeepsInv(s, MsgLock(t), s1);
    assert s1.threads[t] == Call(KFetch(op, id)) && Target(s1, KFetch(op, id)) == s.cur.value;
    CallRuns(s1, t, KFetch(op, id));
    RunsAfter(s, MsgLock(t), s1, op, s.cur.value);
  }

  lemma SubscribeRuns(s: State, t: Tid, x: SessionUse, k: Cont)
    requires Inv(s) && t in s.threads && s.threads[t] == WantSession(x)
    requires s.asyncLock.None? && s.sessionLock.None? && !s.closed
    requires if x.SUnsubscribe? then s.consumer.Some? && k.KUnsub?
             else x.SSubscribe? && if s.consumer.None? then k.KNew? else s.unsubscribed && k.KResubscribe?
    ensures CanRun(s, OpOf(k), Target(s, k))
  {
    var s1 := NextHandler(s, SessionLock(t, true)).value;
    NextKeepsInv(s, SessionLock(t, true), s1);
    CallRuns(s1, t, k);
    RunsAfter(s, SessionLock(t, true), s1, OpOf(k), Target(s, k));
  }

  /** Where a request that is not refused goes first. */
  function Entered(req: Request): PC
  {
    match req
    case Simple(op) => Call(KSimple(op))
    case PollReq(commitFirst) => Call(if commitFirst then KAutoCommit else KPoll)
    case FetchReq(op, id) => WantMsg(MFetch(op, id))
    case SubscribeReq => WantSession(SSubscribe)
    case UnsubscribeReq => WantSession(SUnsubscribe)
    case ListReq => WantSync
  }

  lemma EnteredCallRuns(s: State, t: Tid, req: Request)
    requires Inv(s) && t in s.threads && s.threads[t] == Entered(req) && !s.closed && s.asyncLock.None?
    requires FirstTask(s, req).Some? && (req.Simple? || req.PollReq?)
    ensures CanRun(s, FirstTask(s, req).value.0, FirstTask(s, req).value.1)
  {
    CallRuns(s, t, Entered(req).k);
  }

  lemma EnteredSessionRuns(s: State, t: Tid, req: Request)
    requires Inv(s) && t in s.threads && s.threads[t] == Entered(req) && !s.closed && s.asyncLock.None?
    requires FirstTask(s, req).Some? && (req.SubscribeReq? || req.UnsubscribeReq?) && s.sessionLock.None?
    ensures CanRun(s, FirstTask(s, req).value.0, FirstTask(s, req).value.1)
  {
    if req.UnsubscribeReq? {
      SubscribeRuns(s, t, SUnsubscribe, KUnsub);
    } else {
      SubscribeRuns(s, t, SSubscribe, if s.consumer.None? then KNew else KResubscribe);
    }
  }

  lemma EnteredRuns(s: State, t: Tid, req: Request)
    requires Inv(s) && Typed(s) && t in s.threads && s.threads[t] == Entered(req) && !s.closed && s.asyncLock.None?
    requires Unhindered(s, req) && FirstTask(s, req).Some?
    ensures CanRun(s, FirstTask(s, req).value.0, FirstTask(s, req).value.1)
  {
    match req
    case Simple(_) | PollReq(_) => EnteredCallRuns(s, t, req);
    case FetchReq(op, id) => FetchRuns(s, t, op, id);
    case SubscribeReq | UnsubscribeReq => EnteredSessionRuns(s, t, req);
  }

  lemma EnterRuns(s: State, t: Tid, req: Request)
    requires Inv(s) && Typed(s) && t in s.threads && s.threads[t].Counted? && ProperRequest(req)
    requires !s.closed && s.asyncLock.None? && Unhindered(s, req) && FirstTask(s, req).Some?
    ensures CanRun(s, FirstTask(s, req).value.0, FirstTask(s, req).value.1)
  {
    var s1 := NextHandler(s, Enter(t, req)).value;
    NextKeepsInv(s, Enter(t, req), s1);
    NextKeepsTypes(s, Enter(t, req), s1);
    EnteredRuns(s1, t, req);
    RunsAfter(s, Enter(t, req), s1, FirstTask(s, req).value.0, FirstTask(s, req).value.1);
  }

  lemma IdleRuns(s: State, req: Request)
    requires Inv(s) && Typed(s) && ProperRequest(req)
    requires !s.closed && s.asyncLock.None? && Unhindered(s, req) && FirstTask(s, req).Some?
    ensures CanRun(s, FirstTask(s, req).value.0, FirstTask(s, req).value.1)
  {
    var t := s.spawned;
    var s1 := Next(s, Arrive).value;
    NextKeepsInv(s, Arrive, s1);
    NextKeepsTypes(s, Arrive, s1);
    var s2 := NextHandler(s1, Count(t)).value;
    NextKeepsInv(s1, Count(t), s2);
    NextKeepsTypes(s1, Count(t), s2);
    EnterRuns(s2, t, req);
    RunsAfter(s1, Count(t), s2, FirstTask(s, req).value.0, FirstTask(s, req).value.1);
    RunsAfter(s, Arrive, s1, FirstTask(s, req).value.0, FirstTask(s, req).value.1);
  }

  // ---------- Any request ----------

  /** The holder of asyncLocker in an open session is inside a call. */
  lemma HolderCalls(s: State)
    requires Inv(s) && !s.closed && s.asyncLock.Some?
    ensures s.asyncLock.value in s.threads && InCall(s.threads[s.asyncLock.value])
  {
    assert ThreadOk(s, s.asyncLock.value);
  }

  lemma CallStepSpares(s: State, h: Tid, s': State, req: Request)
    requires Inv(s) && Typed(s) && TmqConsumers.Stages(s) && s.asyncLock == Some(h)
    requires h in s.threads && InCall(s.threads[h]) && Unhindered(s, req) && FirstTask(s, req).Some?
    requires Next(s, TmqClose.CallStep(s.mail, h, s.threads[h])) == Some(s')
    ensures SameFor(s, s', req)
  {
    var e := TmqClose.CallStep(s.mail, h, s.threads[h]);
    if WorkerStep(e) {
      WorkerSpares(s, e, s', req);
    } else if e.Submit? {
      SubmitSpares(s, h, s', req);
    } else {
      ReceiveSpares(s, h, s', req);
    }
  }

  lemma {:induction false} RequestRuns(es: seq<Event>, s: State, req: Request, rank: nat)
    requires Reached(es, s) && ProperRequest(req)
    requires !s.closed && Unhindered(s, req) && FirstTask(s, req).Some?
    requires s.asyncLock.Some? && s.asyncLock.value in s.threads ==>
               TmqClose.CallRank(s.mail, s.threads[s.asyncLock.value]) <= rank
    ensures CanRun(s, FirstTask(s, req).value.0, FirstTask(s, req).value.1)
    decreases rank
  {
    ReachedTyped(es, s);
    if s.asyncLock.None? {
      IdleRuns(s, req);
    } else {
      TmqConsumers.ReachedConsumers(es, s);
      HolderCalls(s);
      var h := s.asyncLock.value;
      TmqClose.CallStepEnabled(s, h);
      var e := TmqClose.CallStep(s.mail, h, s.threads[h]);
      var s1 := Next(s, e).value;
      CallStepSpares(s, h, s1, req);
      Machine.RunSnoc(Next, Init(), es, e);
      if TmqClose.Replied(s.mail, s.threads[h]) {
        ReceiveReleases(s, h, s1);
      } else {
        TmqClose.CallStepInside(s, h, s1);
      }
      RequestRuns(es + [e], s1, req, rank - 1);
      RunsAfter(s, e, s1, FirstTask(s, req).value.0, FirstTask(s, req).value.1);
    }
  }

  lemma ReceiveReleases(s: State, t: Tid, s': State)
    requires NextHandler(s, Receive(t, false)) == Some(s')
    ensures s'.asyncLock.None?
  {
    ReceiveIs(s, t, false, s');
  }

  /**
    From every state an open session can reach, a request whose first lock is free has its first task run by the
    worker in some continuation, on the consumer or the message the session has: a fetch for the id handed out last
    reaches the current message, if that has data or the fetch does not ask for it.
  */
  lemma RequestIsServed(es: seq<Event>, s: State, req: Request)
    requires Reached(es, s) && ProperRequest(req) && !s.closed && Unhindered(s, req) && FirstTask(s, req).Some?
    ensures CanRun(s, FirstTask(s, req).value.0, FirstTask(s, req).value.1)
  {
    RequestRuns(es, s, req, 4);
  }

  lemma FetchedHasData(s: State, more: seq<Event>, s': State, m: Msg)
    requires Inv(s) && Typed(s) && m < |s.types| && Run(s, more) == Some(s') && AboutToRun(s', FETCH_RAW_BLOCK, m)
    ensures CanGetData(s.types[m])
  {
    RunKeepsTypes(s, more, s');
    var t, k := RunnerIs(s');
    assert TypedAt(s'.types, s'.curType, s'.threads[t]);
  }

  /** Blocks of the current message can be fetched exactly when its type has data. */
  lemma CanFetchIff(es: seq<Event>, s: State)
    requires Reached(es, s) && !s.closed && s.msgLock.None? && s.consumer.Some? && s.cur.Some?
    ensures s.cur.value < |s.types|
    ensures CanRun(s, FETCH_RAW_BLOCK, s.cur.value) <==> s.types[s.cur.value] in {TMQ_RES_DATA, TMQ_RES_METADATA}
  {
    ReachedTyped(es, s);
    var m := s.cur.value;
    if CanGetData(s.types[m]) {
      RequestIsServed(es, s, FetchReq(FETCH_RAW_BLOCK, s.index));
    }
    if CanRun(s, FETCH_RAW_BLOCK, m) {
      var more :| Run(s, more).Some? && AboutToRun(Run(s, more).value, FETCH_RAW_BLOCK, m);
      FetchedHasData(s, more, Run(s, more).value, m);
    }
  }

  // ---------- Requests that are refused ----------

  /** The steps of a request that comes to nothing: it is refused before, or with, the first lock that it takes. */
  function Refusal(s: State, req: Request): seq<Event>
  {
    var t := s.spawned;
    if req.FetchReq? && s.consumer.Some? then [Arrive, Count(t), Enter(t, req), MsgLock(t)]
    else if req.SubscribeReq? || req.UnsubscribeReq? then [Arrive, Count(t), Enter(t, req), SessionLock(t, true)]
    else [Arrive, Count(t), Enter(t, req)]
  }

  /** The session with a new goroutine, counted in the wait group. */
  function With(s: State, pc: PC): State
  {
    s.(threads := s.threads[s.spawned := pc], wg := s.wg + {s.spawned}, spawned := s.spawned + 1)
  }

  lemma Comes(s: State, rest: seq<Event>)
    requires !s.closed
    ensures Run(s, [Arrive, Count(s.spawned)] + rest) == Run(With(s, Counted), rest)
  {
    var t, es := s.spawned, [Arrive, Count(s.spawned)] + rest;
    var s1 := At(s, t, Arrived).(spawned := s.spawned + 1);
    assert es[1..][1..] == rest;
    assert s.threads[t := Arrived][t := Counted] == s.threads[t := Counted];
    assert Next(s, es[0]) == Some(s1) && Next(s1, es[1..][0]) == Some(With(s, Counted));
    assert Run(s, es) == Run(s1, es[1..]);
    assert Run(s1, es[1..]) == Run(With(s, Counted), es[1..][1..]);
  }

  /** It returns, and the session is as before. */
  lemma Leaves(s: State, pc: PC)
    requires s.spawned !in s.threads && s.spawned !in s.wg
    ensures Finish(With(s, pc), s.spawned) == s.(spawned := s.spawned + 1)
  {
    assert s.threads[s.spawned := pc] - {s.spawned} == s.threads;
    assert s.wg + {s.spawned} - {s.spawned} == s.wg;
  }

  lemma EnterRefuses(s: State, req: Request)
    requires ProperRequest(req) && !s.closed && s.consumer.None? && !req.SubscribeReq? && !req.UnsubscribeReq?
    ensures NextHandler(With(s, Counted), Enter(s.spawned, req)) == Some(Finish(With(s, Counted), s.spawned))
  {
  }

  lemma FetchRefuses(s: State, op: Op, id: nat)
    requires FetchOp(op) && Typed(s) && !s.closed && s.consumer.Some? && s.msgLock.None?
    requires FirstTask(s, FetchReq(op, id)).None?
    ensures var t, s1 := s.spawned, With(s, WantMsg(MFetch(op, id)));
            && NextHandler(With(s, Counted), Enter(t, FetchReq(op, id))) == Some(s1)
            && NextHandler(s1, MsgLock(t)) == Some(Finish(s1, t))
  {
    assert s.threads[s.spawned := Counted][s.spawned := WantMsg(MFetch(op, id))]
        == s.threads[s.spawned := WantMsg(MFetch(op, id))];
  }

  lemma SessionRefuses(s: State, req: Request, x: SessionUse)
    requires !s.closed && s.sessionLock.None? && FirstTask(s, req).None?
    requires (req.SubscribeReq? && x.SSubscribe?) || (req.UnsubscribeReq? && x.SUnsubscribe?)
    ensures var t, s1 := s.spawned, With(s, WantSession(x));
            && NextHandler(With(s, Counted), Enter(t, req)) == Some(s1)
            && NextHandler(s1, SessionLock(t, true)) == Some(Finish(s1, t))
  {
    assert s.threads[s.spawned := Counted][s.spawned := WantSession(x)] == s.threads[s.spawned := WantSession(x)];
  }

  lemma TwoSteps(s: State, e: Event, s1: State, e1: Event, s2: State)
    requires Next(s, e) == Some(s1) && Next(s1, e1) == Some(s2)
    ensures Run(s, [e, e1]) == Some(s2)
  {
    assert [e, e1][1..] == [e1];
    Machine.RunOne(Next, s1, e1);
  }

  /** What is left of a refusal once the goroutine is counted. */
  lemma RefusalEnds(s: State, req: Request)
    requires Typed(s) && s.spawned !in s.threads && s.spawned !in s.wg
    requires ProperRequest(req) && !s.closed && Unhindered(s, req) && FirstTask(s, req).None? && !req.ListReq?
    ensures Run(With(s, Counted), Refusal(s, req)[2..]) == Some(s.(spawned := s.spawned + 1))
  {
    var t, s1 := s.spawned, With(s, Counted);
    if req.SubscribeReq? || req.UnsubscribeReq? {
      var x := if req.SubscribeReq? then SSubscribe else SUnsubscribe;
      SessionRefuses(s, req, x);
      Leaves(s, WantSession(x));
      TwoSteps(s1, Enter(t, req), With(s, WantSession(x)), SessionLock(t, true), s.(spawned := t + 1));
      assert Refusal(s, req)[2..] == [Enter(t, req), SessionLock(t, true)];
    } else if s.consumer.None? {
      EnterRefuses(s, req);
      Leaves(s, Counted);
      assert Refusal(s, req)[2..] == [Enter(t, req)];
      Machine.RunOne(Next, s1, Enter(t, req));
    } else {
      var pc := WantMsg(MFetch(req.op, req.id));
      FetchRefuses(s, req.op, req.id);
      Leaves(s, pc);
      TwoSteps(s1, Enter(t, req), With(s, pc), MsgLock(t), s.(spawned := t + 1));
      assert Refusal(s, req)[2..] == [Enter(t, req), MsgLock(t)];
    }
  }

  /** A request without a first task ends there: nothing of the session changes, and every lock is as it was. */
  lemma RequestIsRefused(es: seq<Event>, s: State, req: Request)
    requires Reached(es, s) && ProperRequest(req) && !s.closed && Unhindered(s, req)
    requires FirstTask(s, req).None? && !req.ListReq?
    ensures Run(s, Refusal(s, req)) == Some(s.(spawned := s.spawned + 1))
  {
    ReachedTyped(es, s);
    assert ThreadOk(s, s.spawned);
    Comes(s, Refusal(s, req)[2..]);
    assert Refusal(s, req) == [Arrive, Count(s.spawned)] + Refusal(s, req)[2..];
    RefusalEnds(s, req);
  }
}
