/**
  The consumers of a TMQ session: who is responsible for each of them, and that the driver closes each once.
  The list of closed consumers is a history of the run, not part of the session.
*/
module TmqConsumers {
  import opened Wrappers
  import opened Sequences
  import opened TmqSession

  // ---------- The history ----------

  /** The consumer that a step closes. */
  function ClosedBy(s: State, e: Event): seq<Consumer>
  {
    if e.WorkerRun? && s.mail.task.Some? && s.mail.task.value.op.CONSUMER_CLOSE? then [s.mail.task.value.target] else []
  }

  /** The consumers closed along a run, in order. */
  function Closes(s: State, es: seq<Event>): seq<Consumer>
    decreases |es|
  {
    if es == [] || Next(s, es[0]).None? then [] else ClosedBy(s, es[0]) + Closes(Next(s, es[0]).value, es[1..])
  }

  // ---------- Who has a consumer ----------

  /** The goroutine that holds the session lock. */
  function SessionPC(s: State): Option<PC>
  {
    if s.sessionLock.Some? then Place(s, s.sessionLock.value) else None
  }

  /** The new consumer a subscribe handler is responsible for: in its reply channel or in a local variable. */
  function NewConsumerAt(pc: PC, ran: nat, replies: map<Channel, Reply>): Option<Consumer>
  {
    match pc
    case Waiting(_, KNew) => if NewConsumerResult in replies then replies[NewConsumerResult].value else None
    case Call(KSubscribe(c)) => Some(c)
    case Locked(KSubscribe(c)) => Some(c)
    case Waiting(_, KSubscribe(c)) => Some(c)
    case Call(KDrop(c)) => Some(c)
    case Locked(KDrop(c)) => Some(c)
    case Waiting(job, KDrop(c)) => if job < ran then None else Some(c)
    case _ => None
  }

  function Held(s: State): Option<Consumer>
  {
    if SessionPC(s).Some? then NewConsumerAt(SessionPC(s).value, |s.mail.executed|, s.mail.replies) else None
  }

  /** `Close` has closed the consumer of the session, if there was one. */
  predicate SpentAt(pc: PC, ran: nat)
  {
    pc.WantDestroy? || pc.Joining? || (pc.Waiting? && pc.k.KCloseConsumer? && pc.job < ran)
  }

  predicate Spent(s: State)
  {
    s.mail.destroyed || (SessionPC(s).Some? && SpentAt(SessionPC(s).value, |s.mail.executed|))
  }

  /** The consumer of the session, until it is closed. */
  function Open(s: State): Option<Consumer>
  {
    if Spent(s) then None else s.consumer
  }

  /** Every consumer is closed once, or in one hand. */
  ghost predicate Account(made: nat, held: Option<Consumer>, open: Option<Consumer>, closed: seq<Consumer>)
  {
    && NoDup(closed) && (forall c :: c in closed ==> c < made)
    && (held.Some? ==> held.value < made && held.value !in closed)
    && (open.Some? ==> open.value < made && open.value !in closed)
    && (held.None? || open.None?)
    && (forall c: Consumer :: c < made ==> c in closed || held == Some(c) || open == Some(c))
  }

  predicate NewCont(k: Cont)
  {
    k.KNew? || k.KSubscribe? || k.KDrop?
  }

  /** The calls that name the consumer of the session. */
  predicate NeedsConsumer(k: Cont)
  {
    k.KSimple? || k.KAutoCommit? || k.KPoll? || k.KUnsub? || k.KResubscribe? || k.KCloseUnsub? || k.KCloseConsumer?
  }

  predicate StageOf(consumer: Option<Consumer>, pc: PC)
  {
    && (InCall(pc) ==> (NewCont(pc.k) ==> consumer.None?) && (NeedsConsumer(pc.k) ==> consumer.Some?))
    && (pc.WantSync? || pc.Listing? ==> consumer.Some?)
  }

  ghost predicate StageOk(s: State, t: Tid)
  {
    t in s.threads ==> StageOf(s.consumer, s.threads[t])
  }

  /** The job in the cell names the consumer its submitter meant. */
  predicate TaskOf(consumer: Option<Consumer>, target: nat, k: Cont)
  {
    && (k.KSubscribe? ==> target == k.c) && (k.KDrop? ==> target == k.c)
    && (NeedsConsumer(k) ==> consumer == Some(target))
  }

  ghost predicate TaskOk(s: State)
  {
    |s.mail.executed| < s.mail.submitted ==>
      && Holder(s).Some? && Holder(s).value.Waiting? && s.mail.task.Some?
      && TaskOf(s.consumer, s.mail.task.value.target, Holder(s).value.k)
  }

  ghost predicate Stages(s: State)
  {
    TaskOk(s) && forall t: Tid :: StageOk(s, t)
  }

  ghost predicate Consumers(s: State, closed: seq<Consumer>)
  {
    Stages(s) && Account(s.consumers, Held(s), Open(s), closed)
  }

  // ---------- Steps of one goroutine ----------

  /** The hands stay as they are. */
  predicate SameHands(s: State, s': State)
  {
    s'.consumers == s.consumers && Held(s') == Held(s) && Open(s') == Open(s)
  }

  /** The new consumer becomes the consumer of the session. */
  predicate Adopts(s: State, s': State)
  {
    s'.consumers == s.consumers && Held(s).Some? && Held(s').None? && Open(s).None? && Open(s') == Held(s)
  }

  lemma HandsKeepAccount(s: State, s': State, closed: seq<Consumer>)
    requires Account(s.consumers, Held(s), Open(s), closed) && (SameHands(s, s') || Adopts(s, s'))
    ensures Account(s'.consumers, Held(s'), Open(s'), closed)
  {
  }

  lemma SessionPCIs(s: State, t: Tid)
    requires ThreadOk(s, t) && t in s.threads && HoldsSession(s.threads[t])
    ensures s.sessionLock == Some(t) && SessionPC(s) == Some(s.threads[t])
  {
  }

  lemma MoveKeepsStages(s: State, s': State, t: Tid)
    requires Locks(s) && Stages(s) && Moves(s, s', t, Place(s', t)) && StageOk(s', t) && TaskOk(s')
    requires s'.consumer == s.consumer || (s.consumer.None? && s.sessionLock == Some(t))
    ensures Stages(s')
  {
    forall x: Tid ensures StageOk(s', x) {
      assert StageOk(s, x);
      assert ThreadOk(s, x);
    }
  }

  /** While a job is in the cell, its submitter waits and nobody else changes the consumer. */
  lemma MoveKeepsTask(s: State, s': State, t: Tid)
    requires Locks(s) && Mailbox(s) && TaskOk(s) && Moves(s, s', t, Place(s', t))
    requires s'.mail.task == s.mail.task && s'.mail.executed == s.mail.executed && s'.mail.submitted == s.mail.submitted
    requires |s.mail.executed| < s.mail.submitted ==>
               t != s.asyncLock.value && s'.asyncLock == s.asyncLock && s'.consumer == s.consumer
    ensures TaskOk(s')
  {
  }

  /** A goroutine that has nothing to do with the session lock. */
  lemma OtherKeepsHands(s: State, s': State, t: Tid)
    requires Locks(s) && Moves(s, s', t, Place(s', t)) && !HoldsSession(s.threads[t])
    requires t in s'.threads ==> !HoldsSession(s'.threads[t])
    requires s'.mail.executed == s.mail.executed && s'.consumer == s.consumer && s'.consumers == s.consumers
    requires s'.mail.replies == s.mail.replies || HoldsAsync(s.threads[t])
    ensures SameHands(s, s')
  {
    assert ThreadOk(s, t);
    if s.sessionLock.Some? {
      assert ThreadOk(s, s.sessionLock.value);
    }
  }

  lemma CountKeepsHands(s: State, e: Event, s': State)
    requires e.Count? || e.Store? || e.Read? || e.SyncLock? || e.List?
    requires Locks(s) && Stages(s) && NextHandler(s, e) == Some(s')
    requires Moves(s, s', e.t, Place(s', e.t))
    ensures SameHands(s, s') && StageOk(s', e.t)
  {
    assert StageOk(s, e.t);
    OtherKeepsHands(s, s', e.t);
  }

  lemma EnterKeepsHands(s: State, t: Tid, req: Request, s': State)
    requires Locks(s) && Stages(s) && NextHandler(s, Enter(t, req)) == Some(s') && Moves(s, s', t, Place(s', t))
    ensures SameHands(s, s') && StageOk(s', t)
  {
    OtherKeepsHands(s, s', t);
  }

  lemma AsyncLockKeepsHands(s: State, t: Tid, s': State)
    requires Locks(s) && Stages(s) && NextHandler(s, AsyncLock(t)) == Some(s') && Moves(s, s', t, Place(s', t))
    ensures SameHands(s, s') && StageOk(s', t)
  {
    assert ThreadOk(s, t) && StageOk(s, t);
    if HoldsSession(s.threads[t]) {
      SessionPCIs(s, t);
    } else {
      OtherKeepsHands(s, s', t);
    }
  }

  lemma SubmitKeepsHands(s: State, t: Tid, s': State)
    requires Locks(s) && Mailbox(s) && Stages(s) && NextHandler(s, Submit(t)) == Some(s') && Moves(s, s', t, Place(s', t))
    ensures SameHands(s, s') && StageOk(s', t) && TaskOk(s')
  {
    assert ThreadOk(s, t) && StageOk(s, t);
    assert |s.mail.executed| == s.mail.submitted && s.mail.replies == map[];
    if HoldsSession(s.threads[t]) {
      SessionPCIs(s, t);
    } else {
      OtherKeepsHands(s, s', t);
    }
  }

  lemma SessionMsgLockKeepsHands(s: State, t: Tid, s': State)
    requires Locks(s) && Stages(s) && NextHandler(s, MsgLock(t)) == Some(s') && HoldsSession(s.threads[t])
    ensures SameHands(s, s') && StageOk(s', t)
  {
    assert ThreadOk(s, t) && StageOk(s, t);
    SessionPCIs(s, t);
  }

  lemma OtherMsgLockKeepsHands(s: State, t: Tid, s': State)
    requires Locks(s) && NextHandler(s, MsgLock(t)) == Some(s') && Moves(s, s', t, Place(s', t))
    requires !HoldsSession(s.threads[t])
    ensures SameHands(s, s') && StageOk(s', t)
  {
    OtherKeepsHands(s, s', t);
  }

  lemma MsgLockKeepsHands(s: State, t: Tid, s': State)
    requires Locks(s) && Stages(s) && NextHandler(s, MsgLock(t)) == Some(s') && Moves(s, s', t, Place(s', t))
    ensures SameHands(s, s') && StageOk(s', t)
  {
    if HoldsSession(s.threads[t]) {
      SessionMsgLockKeepsHands(s, t, s');
    } else {
      OtherMsgLockKeepsHands(s, t, s');
    }
  }

  lemma SessionTaken(s: State, t: Tid, s': State, pc: PC)
    requires s.sessionLock.None? && s'.sessionLock == Some(t) && s'.threads == s.threads[t := pc]
    requires s'.mail == s.mail && s'.consumer == s.consumer && s'.consumers == s.consumers
    requires pc.CloseWait? || pc == Call(KNew) || pc == Call(KResubscribe) || pc == Call(KUnsub)
    ensures SameHands(s, s')
  {
  }

  lemma SessionMissed(s: State, t: Tid, s': State)
    requires s.sessionLock.None? && s' == Finish(s, t)
    ensures SameHands(s, s')
  {
  }

  lemma SessionLockKeepsHands(s: State, t: Tid, confOk: bool, s': State)
    requires Locks(s) && Stages(s) && NextHandler(s, SessionLock(t, confOk)) == Some(s')
    ensures SameHands(s, s') && StageOk(s', t)
  {
    if t in s'.threads {
      SessionTaken(s, t, s', s'.threads[t]);
    } else {
      SessionMissed(s, t, s');
    }
  }

  // ---------- An answer arrives ----------

  lemma AnswerIsThere(s: State, t: Tid, choice: bool)
    requires Locks(s) && Mailbox(s) && NextHandler(s, Receive(t, choice)).Some?
    ensures s.asyncLock == Some(t) && s.threads[t].job < |s.mail.executed| == s.mail.submitted
  {
    assert ThreadOk(s, t);
  }

  lemma NewReceiveKeepsHands(s: State, t: Tid, choice: bool, s': State)
    requires Locks(s) && Mailbox(s) && Stages(s) && NextHandler(s, Receive(t, choice)) == Some(s')
    requires NewCont(s.threads[t].k)
    ensures (SameHands(s, s') || Adopts(s, s')) && StageOk(s', t)
    ensures s'.consumer == s.consumer || (s.consumer.None? && s.sessionLock == Some(t))
  {
    assert ThreadOk(s, t) && StageOk(s, t);
    AnswerIsThere(s, t, choice);
    SessionPCIs(s, t);
  }

  lemma UnsubReceiveKeepsHands(s: State, t: Tid, choice: bool, s': State)
    requires Locks(s) && Mailbox(s) && Stages(s) && NextHandler(s, Receive(t, choice)) == Some(s')
    requires s.threads[t].k.KUnsub? || s.threads[t].k.KUnsubFree? || s.threads[t].k.KResubscribe?
    ensures SameHands(s, s') && StageOk(s', t) && s'.consumer == s.consumer
  {
    assert ThreadOk(s, t) && StageOk(s, t);
    SessionPCIs(s, t);
  }

  lemma CloseReceiveKeepsHands(s: State, t: Tid, choice: bool, s': State)
    requires Locks(s) && Mailbox(s) && Stages(s) && NextHandler(s, Receive(t, choice)) == Some(s')
    requires CloseCont(s.threads[t].k)
    ensures SameHands(s, s') && StageOk(s', t) && s'.consumer == s.consumer
  {
    assert ThreadOk(s, t) && StageOk(s, t);
    AnswerIsThere(s, t, choice);
    SessionPCIs(s, t);
  }

  lemma SessionReceiveKeepsHands(s: State, t: Tid, choice: bool, s': State)
    requires Locks(s) && Mailbox(s) && Stages(s) && NextHandler(s, Receive(t, choice)) == Some(s')
    requires SessionCont(s.threads[t].k) && !NewCont(s.threads[t].k)
    ensures SameHands(s, s') && StageOk(s', t) && s'.consumer == s.consumer
  {
    if CloseCont(s.threads[t].k) {
      CloseReceiveKeepsHands(s, t, choice, s');
    } else {
      UnsubReceiveKeepsHands(s, t, choice, s');
    }
  }

  lemma HandlerReceiveStage(s: State, t: Tid, choice: bool, s': State)
    requires ThreadOk(s, t) && StageOk(s, t) && NextHandler(s, Receive(t, choice)) == Some(s')
    requires s.threads[t].k.KSimple? || s.threads[t].k.KAutoCommit?
    ensures StageOk(s', t) && s'.consumer == s.consumer && s'.consumers == s.consumers
    ensures s'.mail.executed == s.mail.executed && (t in s'.threads ==> !HoldsSession(s'.threads[t]))
  {
  }

  lemma MessageReceiveStage(s: State, t: Tid, choice: bool, s': State)
    requires ThreadOk(s, t) && StageOk(s, t) && NextHandler(s, Receive(t, choice)) == Some(s')
    requires s.threads[t].k.KPoll? || s.threads[t].k.KFreeOld? || s.threads[t].k.KFetch?
    ensures StageOk(s', t) && s'.consumer == s.consumer && s'.consumers == s.consumers
    ensures s'.mail.executed == s.mail.executed && (t in s'.threads ==> !HoldsSession(s'.threads[t]))
  {
    if s.threads[t].k.KPoll? {
      PollAnswerIs(s, t, choice, s');
    } else {
      ReceiveIs(s, t, choice, s');
    }
  }

  lemma OtherReceiveKeepsHands(s: State, t: Tid, choice: bool, s': State)
    requires Locks(s) && Mailbox(s) && Stages(s) && NextHandler(s, Receive(t, choice)) == Some(s')
    requires !SessionCont(s.threads[t].k) && Moves(s, s', t, Place(s', t))
    ensures SameHands(s, s') && StageOk(s', t) && s'.consumer == s.consumer
  {
    assert ThreadOk(s, t) && StageOk(s, t);
    if s.threads[t].k.KSimple? || s.threads[t].k.KAutoCommit? {
      HandlerReceiveStage(s, t, choice, s');
    } else {
      MessageReceiveStage(s, t, choice, s');
    }
    OtherKeepsHands(s, s', t);
  }

  lemma ReceiveKeepsConsumers(s: State, t: Tid, choice: bool, s': State, closed: seq<Consumer>)
    requires Locks(s) && Mailbox(s) && Consumers(s, closed) && Next(s, Receive(t, choice)) == Some(s')
    ensures Consumers(s', closed)
  {
    assert ThreadOk(s, t);
    PlainMoves(s, Receive(t, choice), s');
    AnswerIsThere(s, t, choice);
    if NewCont(s.threads[t].k) {
      NewReceiveKeepsHands(s, t, choice, s');
    } else if SessionCont(s.threads[t].k) {
      SessionReceiveKeepsHands(s, t, choice, s');
    } else {
      OtherReceiveKeepsHands(s, t, choice, s');
    }
    HandsKeepAccount(s, s', closed);
    assert TaskOk(s');
    MoveKeepsStages(s, s', t);
  }

  // ---------- The other moves ----------

  lemma MoveKeepsHands(s: State, e: Event, s': State)
    requires Locks(s) && Mailbox(s) && Stages(s) && PlainMove(s, e) && !e.Receive? && Next(s, e) == Some(s')
    requires Moves(s, s', e.t, Place(s', e.t))
    ensures SameHands(s, s') && StageOk(s', e.t)
  {
    match e
    case Count(_) | Store(_) | Read(_) | SyncLock(_) | List(_) => CountKeepsHands(s, e, s');
    case Enter(t, req) => EnterKeepsHands(s, t, req, s');
    case AsyncLock(t) => AsyncLockKeepsHands(s, t, s');
    case Submit(t) => SubmitKeepsHands(s, t, s');
    case MsgLock(t) => MsgLockKeepsHands(s, t, s');
    case SessionLock(t, confOk) => SessionLockKeepsHands(s, t, confOk, s');
  }

  lemma AsyncLockConsumer(s: State, t: Tid, s': State)
    requires NextHandler(s, AsyncLock(t)) == Some(s')
    ensures s'.mail == s.mail && s'.consumer == s.consumer
  {
  }

  lemma MsgLockConsumer(s: State, t: Tid, s': State)
    requires NextHandler(s, MsgLock(t)) == Some(s')
    ensures s'.mail == s.mail && s'.consumer == s.consumer
  {
  }

  lemma EnterConsumer(s: State, e: Event, s': State)
    requires (e.Enter? || e.SessionLock?) && NextHandler(s, e) == Some(s')
    ensures s'.mail == s.mail && s'.consumer == s.consumer
  {
  }

  lemma QuietConsumer(s: State, e: Event, s': State)
    requires PlainMove(s, e) && !e.Receive? && !e.Submit? && NextHandler(s, e) == Some(s')
    ensures s'.mail == s.mail && s'.consumer == s.consumer
  {
    match e
    case AsyncLock(t) => AsyncLockConsumer(s, t, s');
    case MsgLock(t) => MsgLockConsumer(s, t, s');
    case Enter(_, _) | SessionLock(_, _) => EnterConsumer(s, e, s');
    case Count(_) | Store(_) | Read(_) | SyncLock(_) | List(_) =>
  }

  lemma QuietLock(s: State, e: Event, s': State)
    requires Locks(s) && Mailbox(s) && PlainMove(s, e) && !e.Receive? && !e.Submit? && NextHandler(s, e) == Some(s')
    requires |s.mail.executed| < s.mail.submitted
    ensures e.t != s.asyncLock.value && s'.asyncLock == s.asyncLock
  {
    assert ThreadOk(s, e.t);
  }

  lemma MoveKeepsConsumers(s: State, e: Event, s': State, closed: seq<Consumer>)
    requires Locks(s) && Mailbox(s) && Consumers(s, closed) && PlainMove(s, e) && !e.Receive? && Next(s, e) == Some(s')
    ensures Consumers(s', closed)
  {
    PlainMoves(s, e, s');
    MoveKeepsHands(s, e, s');
    if e.Submit? {
      SubmitKeepsHands(s, e.t, s');
    } else {
      QuietConsumer(s, e, s');
      if |s.mail.executed| < s.mail.submitted {
        QuietLock(s, e, s');
      }
      MoveKeepsTask(s, s', e.t);
    }
    HandsKeepAccount(s, s', closed);
    MoveKeepsStages(s, s', e.t);
  }

  lemma SpawnKeepsConsumers(s: State, e: Event, s': State, closed: seq<Consumer>)
    requires Locks(s) && Mailbox(s) && Consumers(s, closed) && (e.Arrive? || e.StartClose?) && Next(s, e) == Some(s')
    ensures Consumers(s', closed)
  {
    assert ThreadOk(s, s.spawned);
    forall x: Tid ensures StageOk(s', x) {
      assert StageOk(s, x);
    }
    assert SameHands(s, s');
    HandsKeepAccount(s, s', closed);
  }

  lemma ClosePhaseKeepsConsumers(s: State, e: Event, s': State, closed: seq<Consumer>)
    requires Locks(s) && Mailbox(s) && Consumers(s, closed)
    requires e.SessionLock? || e.Waited? || e.Shutdown? || e.Join?
    requires !PlainMove(s, e) && Next(s, e) == Some(s')
    ensures Consumers(s', closed)
  {
    assert ThreadOk(s, e.t);
    if s.asyncLock.Some? {
      assert ThreadOk(s, s.asyncLock.value);
    }
    forall x: Tid ensures StageOk(s', x) {
      assert StageOk(s, x);
    }
    assert SameHands(s, s');
    HandsKeepAccount(s, s', closed);
  }

  // ---------- The worker ----------

  lemma WorkerIdleKeepsConsumers(s: State, e: Event, s': State, closed: seq<Consumer>)
    requires Consumers(s, closed) && Mailbox(s) && WorkerStep(e) && !e.WorkerRun? && Next(s, e) == Some(s')
    ensures Consumers(s', closed)
  {
    WorkerFrame(s, e, s');
    forall x: Tid ensures StageOk(s', x) {
      assert StageOk(s, x);
    }
    assert SameHands(s, s');
    HandsKeepAccount(s, s', closed);
  }

  lemma RunStages(s: State, ok: bool, kind: int, s': State)
    requires Locks(s) && Mailbox(s) && Stages(s) && NextWorker(s, WorkerRun(ok, kind)) == Some(s')
    ensures Stages(s')
  {
    WorkerFrame(s, WorkerRun(ok, kind), s');
    forall x: Tid ensures StageOk(s', x) {
      assert StageOk(s, x);
    }
  }

  /** The runner of a job that only a session-lock holder submits is that holder. */
  lemma SessionRunner(s: State) returns (t: Tid, k: Cont)
    requires Locks(s) && Mailbox(s) && Stages(s) && !s.mail.worker.Ran? && s.mail.task.Some?
    ensures s.asyncLock == Some(t) && t in s.threads && s.threads[t] == Waiting(|s.mail.executed|, k)
    ensures OpOf(k) == s.mail.task.value.op && TaskOf(s.consumer, s.mail.task.value.target, k) && s.mail.replies == map[]
    ensures SessionCont(k) ==> SessionPC(s) == Some(s.threads[t])
    ensures !SessionCont(k) && SessionPC(s).Some? ==> !SessionPC(s).value.Waiting?
    ensures StageOf(s.consumer, s.threads[t]) && ProperCont(k)
  {
    t, k := RunnerIs(s);
    assert ThreadOk(s, t) && StageOk(s, t);
    if s.sessionLock.Some? {
      assert ThreadOk(s, s.sessionLock.value);
    }
  }

  lemma RunNewKeepsConsumers(s: State, ok: bool, kind: int, s': State, closed: seq<Consumer>)
    requires Locks(s) && Mailbox(s) && Consumers(s, closed) && NextWorker(s, WorkerRun(ok, kind)) == Some(s')
    requires s.mail.task.value.op.NEW_CONSUMER?
    ensures Account(s'.consumers, Held(s'), Open(s'), closed)
  {
    var t, k := SessionRunner(s);
    WorkerFrame(s, WorkerRun(ok, kind), s');
    assert k.KNew? && Held(s).None? && Open(s).None?;
    assert Open(s').None?;
    assert Held(s') == if ok then Some(s.consumers) else None;
  }

  lemma CloseKeepsAccount(made: nat, held: Option<Consumer>, open: Option<Consumer>, closed: seq<Consumer>, c: Consumer)
    requires Account(made, held, open, closed) && (held == Some(c) || open == Some(c))
    ensures Account(made, None, None, closed + [c]) && c !in closed
  {
    NoDupAppend(closed, c);
  }

  lemma RunCloseKeepsConsumers(s: State, ok: bool, kind: int, s': State, closed: seq<Consumer>)
    requires Locks(s) && Mailbox(s) && Consumers(s, closed) && NextWorker(s, WorkerRun(ok, kind)) == Some(s')
    requires s.mail.task.value.op.CONSUMER_CLOSE?
    ensures Account(s'.consumers, Held(s'), Open(s'), closed + [s.mail.task.value.target])
    ensures s.mail.task.value.target !in closed
  {
    var t, k := SessionRunner(s);
    WorkerFrame(s, WorkerRun(ok, kind), s');
    assert k.KDrop? || k.KCloseConsumer?;
    CloseKeepsAccount(s.consumers, Held(s), Open(s), closed, s.mail.task.value.target);
    assert Held(s').None? && Open(s').None?;
  }

  lemma RunOtherKeepsConsumers(s: State, ok: bool, kind: int, s': State, closed: seq<Consumer>)
    requires Locks(s) && Mailbox(s) && Consumers(s, closed) && NextWorker(s, WorkerRun(ok, kind)) == Some(s')
    requires !s.mail.task.value.op.NEW_CONSUMER? && !s.mail.task.value.op.CONSUMER_CLOSE?
    ensures Account(s'.consumers, Held(s'), Open(s'), closed)
  {
    var t, k := SessionRunner(s);
    WorkerFrame(s, WorkerRun(ok, kind), s');
    assert SameHands(s, s');
    HandsKeepAccount(s, s', closed);
  }

  // ---------- All runs ----------

  lemma NextKeepsConsumers(s: State, e: Event, s': State, closed: seq<Consumer>)
    requires Inv(s) && Consumers(s, closed) && Next(s, e) == Some(s')
    ensures Consumers(s', closed + ClosedBy(s, e))
  {
    if e.WorkerRun? {
      RunStages(s, e.ok, e.kind, s');
      if s.mail.task.value.op.NEW_CONSUMER? {
        RunNewKeepsConsumers(s, e.ok, e.kind, s', closed);
      } else if s.mail.task.value.op.CONSUMER_CLOSE? {
        RunCloseKeepsConsumers(s, e.ok, e.kind, s', closed);
      } else {
        RunOtherKeepsConsumers(s, e.ok, e.kind, s', closed);
      }
    } else if WorkerStep(e) {
      WorkerIdleKeepsConsumers(s, e, s', closed);
    } else if e.Arrive? || e.StartClose? {
      SpawnKeepsConsumers(s, e, s', closed);
    } else if e.Receive? {
      ReceiveKeepsConsumers(s, e.t, e.choice, s', closed);
    } else if PlainMove(s, e) {
      MoveKeepsConsumers(s, e, s', closed);
    } else {
      ClosePhaseKeepsConsumers(s, e, s', closed);
    }
    assert closed + ClosedBy(s, e) == if ClosedBy(s, e) == [] then closed else closed + [s.mail.task.value.target];
  }

  lemma {:induction false} ClosesStep(s: State, es: seq<Event>, s1: State, closed: seq<Consumer>)
    requires es != [] && Next(s, es[0]) == Some(s1)
    ensures closed + ClosedBy(s, es[0]) + Closes(s1, es[1..]) == closed + Closes(s, es)
  {
  }

  lemma StepKeepsConsumers(s: State, e: Event, s': State, closed: seq<Consumer>)
    requires Inv(s) && Consumers(s, closed) && Next(s, e) == Some(s')
    ensures Inv(s') && Consumers(s', closed + ClosedBy(s, e))
  {
    NextKeepsInv(s, e, s');
    NextKeepsConsumers(s, e, s', closed);
  }

  lemma {:induction false} RunKeepsConsumers(s: State, es: seq<Event>, s': State, closed: seq<Consumer>)
    requires Inv(s) && Consumers(s, closed) && Run(s, es) == Some(s')
    ensures Consumers(s', closed + Closes(s, es))
    decreases |es|
  {
    if es == [] {
      assert closed + [] == closed;
    } else {
      var s1 := Next(s, es[0]).value;
      StepKeepsConsumers(s, es[0], s1, closed);
      RunKeepsConsumers(s1, es[1..], s', closed + ClosedBy(s, es[0]));
      ClosesStep(s, es, s1, closed);
    }
  }

  lemma ReachedConsumers(es: seq<Event>, s: State)
    requires Reached(es, s)
    ensures Inv(s) && Consumers(s, Closes(Init(), es))
  {
    ReachedInv([], Init());
    ReachedInv(es, s);
    assert Consumers(Init(), []);
    RunKeepsConsumers(Init(), es, s, []);
    assert [] + Closes(Init(), es) == Closes(Init(), es);
  }

  lemma SessionHolderOk(s: State)
    requires Locks(s)
    ensures SessionPC(s).Some? ==> HoldsSession(SessionPC(s).value) && PCOk(s, SessionPC(s).value)
  {
    if s.sessionLock.Some? {
      assert ThreadOk(s, s.sessionLock.value);
    }
  }

  /**
    The driver closes each consumer at most once, and once `Close` has completed exactly once.  Until then a consumer
    is closed, the consumer of the session, or in the hands of the subscribe handler that holds the session lock.
  */
  lemma ConsumersClosedOnce(es: seq<Event>, s: State)
    requires Reached(es, s)
    ensures var closed := Closes(Init(), es);
            && NoDup(closed) && (forall c :: c in closed ==> c < s.consumers)
            && (forall c: Consumer :: c < s.consumers ==> c in closed || s.consumer == Some(c) || Held(s) == Some(c))
            && (s.mail.destroyed ==> forall c: Consumer :: c < s.consumers ==> c in closed)
  {
    ReachedConsumers(es, s);
    SessionHolderOk(s);
  }

  /** The consumer a step hands to the driver: in a task of the worker, or directly by listTopics. */
  function Names(s: State, e: Event): Option<Consumer>
  {
    if e.WorkerRun? && s.mail.task.Some? then
      var op := s.mail.task.value.op;
      if op.FREE? || FetchOp(op) || op.NEW_CONSUMER? then None else Some(s.mail.task.value.target)
    else if e.List? then Some(if s.consumer.Some? then s.consumer.value else 0)
    else None
  }

  lemma TaskNamesLive(s: State, ok: bool, kind: int, closed: seq<Consumer>)
    requires Inv(s) && Consumers(s, closed) && Next(s, WorkerRun(ok, kind)).Some? && Names(s, WorkerRun(ok, kind)).Some?
    ensures Names(s, WorkerRun(ok, kind)).value < s.consumers && Names(s, WorkerRun(ok, kind)).value !in closed
  {
    var t, k := SessionRunner(s);
    assert ThreadOk(s, t);
    if s.sessionLock.Some? {
      assert ThreadOk(s, s.sessionLock.value);
    }
  }

  lemma ListNamesLive(s: State, t: Tid, closed: seq<Consumer>)
    requires Inv(s) && Consumers(s, closed) && Next(s, List(t)).Some?
    ensures s.consumer.Some? && s.consumer.value < s.consumers && s.consumer.value !in closed
  {
    assert StageOk(s, t) && ThreadOk(s, t);
    SessionHolderOk(s);
  }

  /** A driver call that names a consumer names one that exists and is not closed. */
  lemma ConsumerCallsAreLive(es: seq<Event>, s: State, e: Event)
    requires Reached(es, s) && Next(s, e).Some? && Names(s, e).Some?
    ensures Names(s, e).value < s.consumers && Names(s, e).value !in Closes(Init(), es)
  {
    ReachedConsumers(es, s);
    if e.WorkerRun? {
      TaskNamesLive(s, e.ok, e.kind, Closes(Init(), es));
    } else {
      ListNamesLive(s, e.t, Closes(Init(), es));
    }
  }
}
