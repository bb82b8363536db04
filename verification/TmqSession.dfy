/**
  One TMQ websocket session: the handlers of controller/ws/tmq/tmq.go with their four locks and wait group,
  the C worker of db/asynctmq/tmq.go with its one-cell mailbox, and the driver objects they pass around.

  Every interleaving of handler goroutines, `Close` calls and the worker thread is a run of `Next`.
*/
module TmqSession {
  import opened Wrappers
  import Machine
  import opened Sequences

  type Tid = nat
  type Msg = nat
  type Consumer = nat

  // ---------- The mailbox ----------

  /** The events of the worker, in the order of its enumeration. */
  datatype Op =
    | POLL | FREE | COMMIT | FETCH_RAW_BLOCK | NEW_CONSUMER | SUBSCRIBE | UNSUBSCRIBE | CONSUMER_CLOSE
    | GET_RAW | GET_JSON_META | GET_TOPIC_ASSIGNMENT | OFFSET_SEEK | COMMIT_OFFSET | COMMITTED | POSITION

  /** The reply channels of a TMQCaller, each of capacity one. */
  datatype Channel =
    | PollResult | FreeResult | CommitResult | FetchRawBlockResult | NewConsumerResult | SubscribeResult
    | UnsubscribeResult | ConsumerCloseResult | GetRawResult | GetJsonMetaResult | GetTopicAssignmentResult
    | OffsetSeekResult | CommittedResult | PositionResult

  /** The channel a callback sends on; the two commits share one. */
  function ReplyOn(op: Op): Channel
  {
    match op
    case POLL => PollResult
    case FREE => FreeResult
    case COMMIT => CommitResult
    case FETCH_RAW_BLOCK => FetchRawBlockResult
    case NEW_CONSUMER => NewConsumerResult
    case SUBSCRIBE => SubscribeResult
    case UNSUBSCRIBE => UnsubscribeResult
    case CONSUMER_CLOSE => ConsumerCloseResult
    case GET_RAW => GetRawResult
    case GET_JSON_META => GetJsonMetaResult
    case GET_TOPIC_ASSIGNMENT => GetTopicAssignmentResult
    case OFFSET_SEEK => OffsetSeekResult
    case COMMIT_OFFSET => CommitResult
    case COMMITTED => CommittedResult
    case POSITION => PositionResult
  }

  /** A task in the mailbox: the n-th submission, by goroutine `who`, naming a message or a consumer. */
  datatype Job = Job(id: nat, who: Tid, op: Op, target: nat)

  /** The answer to job `id`; `value` is missing for a null pointer or an error code. */
  datatype Reply = Reply(id: nat, value: Option<nat>)

  /**
    The worker: about to take the thread lock; with the lock, having found neither task nor shutdown, about to wait;
    waiting, perhaps already signalled; with the lock, between its callback and the unlock; gone.
  */
  datatype Worker = Ready | Checked | Asleep(woken: bool) | Ran | Exited

  predicate HasThreadLock(w: Worker)
  {
    w.Checked? || w.Ran?
  }

  /** The worker takes the thread lock next and looks at the cell and at the shutdown flag. */
  predicate WillLook(w: Worker)
  {
    w.Ready? || w == Asleep(true)
  }

  /** A signal reaches the worker only while it waits. */
  function Signalled(w: Worker): Worker
  {
    if w.Asleep? then Asleep(true) else w
  }

  datatype Mail = Mail(
    task: Option<Job>,
    worker: Worker,
    shutdown: bool,
    destroyed: bool,
    replies: map<Channel, Reply>,
    submitted: nat,
    executed: seq<nat>,
    tasksFreed: seq<nat>)

  // ---------- The handlers ----------

  datatype Request =
    | Simple(op: Op)
    | PollReq(commitFirst: bool)
    | FetchReq(op: Op, id: nat)
    | SubscribeReq
    | UnsubscribeReq
    | ListReq

  /** What a goroutine does with the answer to a call made under `asyncLocker`. */
  datatype Cont =
    | KSimple(op: Op)
    | KAutoCommit
    | KPoll
    | KFreeOld(m: Msg)
    | KFetch(op: Op, id: nat)
    | KUnsub
    | KUnsubFree
    | KNew
    | KSubscribe(c: Consumer)
    | KResubscribe
    | KDrop(c: Consumer)
    | KCloseFree
    | KCloseUnsub
    | KCloseConsumer

  function OpOf(k: Cont): Op
  {
    match k
    case KSimple(op) => op
    case KAutoCommit => COMMIT
    case KPoll => POLL
    case KFreeOld(_) | KUnsubFree | KCloseFree => FREE
    case KFetch(op, _) => op
    case KUnsub | KCloseUnsub => UNSUBSCRIBE
    case KNew => NEW_CONSUMER
    case KSubscribe(_) | KResubscribe => SUBSCRIBE
    case KDrop(_) | KCloseConsumer => CONSUMER_CLOSE
  }

  /** The wrappers that look at `closed` once they hold `asyncLocker`. */
  predicate Guarded(k: Cont)
  {
    !(k.KNew? || k.KSubscribe? || k.KResubscribe? || k.KDrop? || k.KCloseFree? || k.KCloseConsumer?)
  }

  datatype MsgUse = MStore(m: Msg) | MFetch(op: Op, id: nat) | MUnsub | MClose

  datatype SessionUse = SSubscribe | SUnsubscribe | SClose

  datatype PC =
    | Arrived                               // passed the check before wg.Add
    | Counted                               // in the wait group, before the second check
    | Call(k: Cont)                         // wants asyncLocker
    | Locked(k: Cont)                       // holds asyncLocker, about to fill the mailbox
    | Waiting(job: nat, k: Cont)            // holds asyncLocker, receives from the reply channel
    | WantMsg(u: MsgUse)                    // wants the message lock
    | Storing(m: Msg)                       // holds the message lock, about to overwrite the pointer
    | Reading(id: nat)                      // holds the message lock, calls the driver on the message
    | WantSession(x: SessionUse)            // wants the session lock
    | WantSync                              // listTopics: wants the process-wide thread lock
    | Listing                               // listTopics: found the session open, about to call the driver
    | CloseWait                             // Close: closed is set, waits for the wait group
    | WantDestroy                           // Close: wants asyncLocker for the last time
    | Joining                               // Close: shutdown is set, joins the worker

  // ---------- Message types ----------

  const TMQ_RES_INVALID := -1
  const TMQ_RES_DATA := 1
  const TMQ_RES_TABLE_META := 2
  const TMQ_RES_METADATA := 3

  /** `messageTypeIsValid`: the types that a poll keeps. */
  predicate IsValidType(kind: int)
  {
    kind == TMQ_RES_DATA || kind == TMQ_RES_TABLE_META || kind == TMQ_RES_METADATA
  }

  /** `canGetData`: the types that have blocks to fetch. */
  predicate CanGetData(kind: int)
  {
    kind == TMQ_RES_DATA || kind == TMQ_RES_METADATA
  }

  /**
    `poller` and `types` are, for each message the driver has returned, the goroutine that polled it and its type;
    `cur`, `curType` and `index` are the message record.
  */
  datatype State = State(
    mail: Mail,
    threads: map<Tid, PC>,
    spawned: nat,
    wg: set<Tid>,
    sessionLock: Option<Tid>,
    msgLock: Option<Tid>,
    asyncLock: Option<Tid>,
    closed: bool,
    drained: bool,
    consumer: Option<Consumer>,
    unsubscribed: bool,
    cur: Option<Msg>,
    index: nat,
    ids: seq<nat>,
    consumers: nat,
    poller: seq<Tid>,
    freed: seq<Msg>,
    types: seq<int>,
    curType: int)

  datatype Event =
    | Arrive
    | Count(t: Tid)
    | Enter(t: Tid, req: Request)
    | AsyncLock(t: Tid)
    | Submit(t: Tid)
    | WorkerCheck
    | WorkerWait
    | WorkerRun(ok: bool, kind: int)
    | WorkerFree
    | WorkerExit
    | Receive(t: Tid, choice: bool)
    | MsgLock(t: Tid)
    | Store(t: Tid)
    | Read(t: Tid)
    | SyncLock(t: Tid)
    | List(t: Tid)
    | StartClose
    | SessionLock(t: Tid, confOk: bool)
    | Waited(t: Tid)
    | Shutdown(t: Tid)
    | Join(t: Tid)

  predicate WorkerStep(e: Event)
  {
    e.WorkerCheck? || e.WorkerWait? || e.WorkerRun? || e.WorkerFree? || e.WorkerExit?
  }

  function At(s: State, t: Tid, pc: PC): State
  {
    s.(threads := s.threads[t := pc])
  }

  /** The type the driver gives for a message. */
  function TypeOf(s: State, m: Msg): int
  {
    if m < |s.types| then s.types[m] else TMQ_RES_INVALID
  }

  /** The goroutine returns; a handler leaves the wait group. */
  function Finish(s: State, t: Tid): State
  {
    s.(threads := s.threads - {t}, wg := s.wg - {t})
  }

  function Enters(s: State, t: Tid, req: Request): (r: State)
    ensures r.mail == s.mail && r.asyncLock == s.asyncLock && r.poller == s.poller && r.spawned == s.spawned
    ensures t in r.threads ==> !HoldsAsync(r.threads[t])
  {
    if s.closed then Finish(s, t)
    else
      match req
      case SubscribeReq => At(s, t, WantSession(SSubscribe))
      case UnsubscribeReq => At(s, t, WantSession(SUnsubscribe))
      case ListReq => if s.consumer.None? then Finish(s, t) else At(s, t, WantSync)
      case Simple(op) =>
        if s.consumer.None? then Finish(s, t) else At(s, t, Call(KSimple(op)))
      case PollReq(commitFirst) =>
        if s.consumer.None? then Finish(s, t) else At(s, t, Call(if commitFirst then KAutoCommit else KPoll))
      case FetchReq(op, id) =>
        if s.consumer.None? then Finish(s, t) else At(s, t, WantMsg(MFetch(op, id)))
  }

  /** The part of `Close` after the message is gone. */
  function CloseConsumerStage(s: State, t: Tid): (r: State)
    ensures r.mail == s.mail && r.asyncLock == s.asyncLock && r.poller == s.poller && r.spawned == s.spawned
    ensures t in r.threads ==> !HoldsAsync(r.threads[t])
  {
    if s.consumer.None? then At(s, t, WantDestroy)
    else if !s.unsubscribed then At(s, t, Call(KCloseUnsub))
    else At(s, t, Call(KCloseConsumer))
  }

  /** A guarded call found the session closed: asyncLocker is released and the caller goes on without an answer. */
  function WhenClosed(s: State, t: Tid, k: Cont): (r: State)
    ensures r.mail == s.mail && r.asyncLock == s.asyncLock && r.poller == s.poller && r.spawned == s.spawned
  {
    match k
    case KFreeOld(m) => Finish(s.(freed := s.freed + [m], msgLock := None), t)
    case KFetch(_, _) => Finish(s.(msgLock := None), t)
    case KUnsub => Finish(s.(sessionLock := None), t)
    case KUnsubFree => Finish(s.(msgLock := None, unsubscribed := true, sessionLock := None), t)
    case KCloseUnsub => At(s, t, Call(KCloseConsumer))
    case _ => Finish(s, t)
  }

  function AsyncLocks(s: State, t: Tid, k: Cont): State
  {
    if Guarded(k) && s.closed then WhenClosed(s, t, k)
    // wrapperFreeResult returns here without releasing asyncLocker
    else if k.KFreeOld? && s.cur.None? then At(s.(asyncLock := Some(t)), t, Storing(k.m))
    else At(s.(asyncLock := Some(t)), t, Locked(k))
  }

  /** The object the task names, read when the task is filled in. */
  function Target(s: State, k: Cont): nat
  {
    match k
    case KFreeOld(_) | KUnsubFree | KCloseFree | KFetch(_, _) => if s.cur.Some? then s.cur.value else 0
    case KSubscribe(c) => c
    case KDrop(c) => c
    case _ => if s.consumer.Some? then s.consumer.value else 0
  }

  /** `adapter_tmq_*_a`, with the thread lock: the cell is overwritten whatever it holds, and the worker signalled. */
  function Submits(s: State, t: Tid, k: Cont): State
  {
    var job := Job(s.mail.submitted, t, OpOf(k), Target(s, k));
    At(s.(mail := s.mail.(task := Some(job), submitted := s.mail.submitted + 1, worker := Signalled(s.mail.worker))),
       t, Waiting(job.id, k))
  }

  /** The driver call, with its effect on messages and consumers, and the callback. */
  function Runs(s: State, job: Job, ok: bool, kind: int): (r: State)
    ensures r == s.(mail := r.mail, freed := r.freed, poller := r.poller, types := r.types, consumers := r.consumers)
    ensures r.mail == s.mail.(worker := Ran, executed := r.mail.executed, replies := r.mail.replies)
  {
    var value :=
      if !ok then None
      else if job.op.POLL? then Some(|s.poller|)
      else if job.op.NEW_CONSUMER? then Some(s.consumers)
      else Some(0);
    var s1 :=
      if job.op.FREE? then s.(freed := s.freed + [job.target])
      else if ok && job.op.POLL? then s.(poller := s.poller + [job.who], types := s.types + [kind])
      else if ok && job.op.NEW_CONSUMER? then s.(consumers := s.consumers + 1)
      else s;
    s1.(mail := s1.mail.(
          worker := Ran,
          executed := s1.mail.executed + [job.id],
          replies := s1.mail.replies[ReplyOn(job.op) := Reply(job.id, value)]))
  }

  /** What the caller does with its answer; asyncLocker is already released. */
  function Resumes(s: State, t: Tid, k: Cont, value: Option<nat>, choice: bool): (r: State)
    ensures r.mail == s.mail && r.asyncLock == s.asyncLock && r.poller == s.poller && r.spawned == s.spawned
    ensures r.ids == s.ids && r.index == s.index
    ensures !k.KPoll? ==> r.freed == s.freed
    ensures !k.KUnsubFree? && !k.KCloseFree? ==> r.cur == s.cur
    ensures t in r.threads && !k.KPoll? && !k.KFreeOld? ==>
              r.threads[t].Reading? || r.threads[t].WantDestroy? || (r.threads[t].Call? && !MsgCont(r.threads[t].k))
              || r.threads[t] == WantMsg(MUnsub)
  {
    match k
    case KSimple(_) => if choice && value.Some? then At(s, t, Call(k)) else Finish(s, t)
    case KAutoCommit => At(s, t, Call(KPoll))
    case KPoll =>
      if value.None? then Finish(s, t)
      else if IsValidType(TypeOf(s, value.value)) then At(s, t, WantMsg(MStore(value.value)))
      else Finish(s.(freed := s.freed + [value.value]), t)
    case KFreeOld(m) => At(s, t, Storing(m))
    case KFetch(_, id) => At(s, t, Reading(id))
    case KUnsub => if value.Some? then At(s, t, WantMsg(MUnsub)) else Finish(s.(sessionLock := None), t)
    case KUnsubFree => Finish(s.(cur := None, msgLock := None, unsubscribed := true, sessionLock := None), t)
    case KNew =>
      if value.None? then Finish(s.(sessionLock := None), t)
      else At(s, t, Call(if choice then KSubscribe(value.value) else KDrop(value.value)))
    case KSubscribe(c) =>
      if value.Some? && choice then Finish(s.(consumer := Some(c), sessionLock := None), t)
      else At(s, t, Call(KDrop(c)))
    case KResubscribe =>
      Finish(s.(unsubscribed := if value.Some? then false else s.unsubscribed, sessionLock := None), t)
    case KDrop(_) => Finish(s.(sessionLock := None), t)
    case KCloseFree => CloseConsumerStage(s.(cur := None, msgLock := None), t)
    case KCloseUnsub => At(s, t, Call(KCloseConsumer))
    case KCloseConsumer => At(s, t, WantDestroy)
  }

  function MsgLocks(s: State, t: Tid, u: MsgUse): (r: State)
    ensures r.mail == s.mail && r.asyncLock == s.asyncLock && r.poller == s.poller && r.spawned == s.spawned
    ensures t in r.threads ==> !HoldsAsync(r.threads[t])
  {
    var h := s.(msgLock := Some(t));
    match u
    case MStore(m) => if s.cur.Some? then At(h, t, Call(KFreeOld(m))) else At(h, t, Storing(m))
    case MFetch(op, id) =>
      if s.cur.None? || s.index != id || (op.FETCH_RAW_BLOCK? && !CanGetData(s.curType)) then Finish(s, t)
      else At(h, t, Call(KFetch(op, id)))
    case MUnsub =>
      if s.cur.Some? then At(h, t, Call(KUnsubFree)) else Finish(s.(unsubscribed := true, sessionLock := None), t)
    case MClose => if s.cur.Some? then At(h, t, Call(KCloseFree)) else CloseConsumerStage(s, t)
  }

  function SessionLocks(s: State, t: Tid, x: SessionUse, confOk: bool): (r: State)
    ensures r.mail == s.mail && (t in r.threads ==> !HoldsAsync(r.threads[t]))
    ensures r.freed == s.freed && r.cur == s.cur && r.poller == s.poller && r.ids == s.ids && r.index == s.index
    ensures t in r.threads ==> r.threads[t].CloseWait? || (r.threads[t].Call? && !r.threads[t].k.KFreeOld?)
  {
    var h := s.(sessionLock := Some(t));
    if s.closed then Finish(s, t)
    else
      match x
      case SSubscribe =>
        if s.consumer.None? then (if confOk then At(h, t, Call(KNew)) else Finish(s, t))
        else if s.unsubscribed && confOk then At(h, t, Call(KResubscribe))
        else Finish(s, t)
      case SUnsubscribe => if s.consumer.None? then Finish(s, t) else At(h, t, Call(KUnsub))
      case SClose => At(h.(closed := true), t, CloseWait)
  }

  predicate SimpleOp(op: Op)
  {
    op.COMMIT? || op.GET_TOPIC_ASSIGNMENT? || op.OFFSET_SEEK? || op.COMMIT_OFFSET? || op.COMMITTED? || op.POSITION?
  }

  /** Driver calls that read a message. */
  predicate FetchOp(op: Op)
  {
    op.FETCH_RAW_BLOCK? || op.GET_RAW? || op.GET_JSON_META?
  }

  predicate ProperRequest(req: Request)
  {
    (req.Simple? ==> SimpleOp(req.op)) && (req.FetchReq? ==> FetchOp(req.op))
  }

  function NextHandler(s: State, e: Event): Option<State>
    requires e.Count? || e.Enter? || e.AsyncLock? || e.Submit? || e.Receive? || e.MsgLock? || e.Store? || e.Read?
             || e.SyncLock? || e.List? || e.SessionLock? || e.Waited? || e.Shutdown? || e.Join?
  {
    if e.t !in s.threads then None
    else
      var t, pc := e.t, s.threads[e.t];
      match e
      case Count(_) =>
        if pc.Arrived? then Some(At(s.(wg := s.wg + {t}), t, Counted)) else None
      case Enter(_, req) =>
        if pc.Counted? && ProperRequest(req) then Some(Enters(s, t, req)) else None
      case AsyncLock(_) =>
        if pc.Call? && s.asyncLock.None? then Some(AsyncLocks(s, t, pc.k)) else None
      case Submit(_) =>
        if pc.Locked? && !HasThreadLock(s.mail.worker) then Some(Submits(s, t, pc.k)) else None
      case Receive(_, choice) =>
        if pc.Waiting? && ReplyOn(OpOf(pc.k)) in s.mail.replies then
          var c := ReplyOn(OpOf(pc.k));
          var value := s.mail.replies[c].value;
          Some(Resumes(s.(mail := s.mail.(replies := s.mail.replies - {c}), asyncLock := None), t, pc.k, value, choice))
        else None
      case MsgLock(_) =>
        if pc.WantMsg? && s.msgLock.None? then Some(MsgLocks(s, t, pc.u)) else None
      case Store(_) =>
        if pc.Storing? then
          Some(Finish(s.(cur := Some(pc.m), curType := TypeOf(s, pc.m), index := s.index + 1,
                         ids := s.ids + [s.index + 1], msgLock := None), t))
        else None
      case Read(_) =>
        if pc.Reading? then Some(Finish(s.(msgLock := None), t)) else None
      case SyncLock(_) =>
        if pc.WantSync? then Some(if s.closed then Finish(s, t) else At(s, t, Listing)) else None
      case List(_) =>
        if pc.Listing? then Some(Finish(s, t)) else None
      case SessionLock(_, confOk) =>
        if pc.WantSession? && s.sessionLock.None? then Some(SessionLocks(s, t, pc.x, confOk)) else None
      case Waited(_) =>
        if pc.CloseWait? && s.wg == {} then Some(At(s.(drained := true), t, WantMsg(MClose))) else None
      case Shutdown(_) =>
        // destroy_tmq_thread sets the flag and signals without the thread lock
        if pc.WantDestroy? && s.asyncLock.None? then
          var mail := s.mail.(shutdown := true, worker := Signalled(s.mail.worker));
          Some(At(s.(asyncLock := Some(t), mail := mail), t, Joining))
        else None
      case Join(_) =>
        if pc.Joining? && s.mail.worker.Exited? then
          Some(Finish(s.(mail := s.mail.(destroyed := true), asyncLock := None, sessionLock := None), t))
        else None
  }

  function NextWorker(s: State, e: Event): Option<State>
    requires WorkerStep(e)
  {
    match e
    case WorkerCheck =>
      if WillLook(s.mail.worker) && s.mail.task.None? && !s.mail.shutdown then
        Some(s.(mail := s.mail.(worker := Checked)))
      else None
    case WorkerWait =>
      if s.mail.worker.Checked? then Some(s.(mail := s.mail.(worker := Asleep(false)))) else None
    case WorkerRun(ok, kind) =>
      if WillLook(s.mail.worker) && s.mail.task.Some? && !s.mail.shutdown then
        // the callback blocks, with the thread lock held, on a full channel
        if ReplyOn(s.mail.task.value.op) in s.mail.replies then None else Some(Runs(s, s.mail.task.value, ok, kind))
      else None
    case WorkerFree =>
      if s.mail.worker.Ran? && s.mail.task.Some? then
        Some(s.(mail := s.mail.(task := None, worker := Ready, tasksFreed := s.mail.tasksFreed + [s.mail.task.value.id])))
      else None
    case WorkerExit =>
      if WillLook(s.mail.worker) && s.mail.shutdown then Some(s.(mail := s.mail.(worker := Exited))) else None
  }

  function Next(s: State, e: Event): Option<State>
  {
    match e
    case Arrive => if s.closed then None else Some(At(s, s.spawned, Arrived).(spawned := s.spawned + 1))
    case StartClose => Some(At(s, s.spawned, WantSession(SClose)).(spawned := s.spawned + 1))
    case WorkerCheck | WorkerWait | WorkerRun(_, _) | WorkerFree | WorkerExit => NextWorker(s, e)
    case _ => NextHandler(s, e)
  }

  function Run(s: State, es: seq<Event>): Option<State>
  {
    Machine.Run(Next, s, es)
  }

  function Init(): State
  {
    State(Mail(None, Ready, false, false, map[], 0, [], []),
          map[], 0, {}, None, None, None, false, false, None, false, None, 0, [], 0, [], [], [], TMQ_RES_INVALID)
  }

  // ---------- Who holds what ----------

  predicate InCall(pc: PC)
  {
    pc.Call? || pc.Locked? || pc.Waiting?
  }

  predicate CloseCont(k: Cont)
  {
    k.KCloseFree? || k.KCloseUnsub? || k.KCloseConsumer?
  }

  predicate SessionCont(k: Cont)
  {
    k.KUnsub? || k.KUnsubFree? || k.KNew? || k.KSubscribe? || k.KResubscribe? || k.KDrop? || CloseCont(k)
  }

  predicate MsgCont(k: Cont)
  {
    k.KFreeOld? || k.KFetch? || k.KUnsubFree? || k.KCloseFree?
  }

  /** A `Close` that has set `closed`. */
  predicate Closer(pc: PC)
  {
    (InCall(pc) && CloseCont(pc.k)) || (pc.WantMsg? && pc.u.MClose?) || pc.CloseWait? || pc.WantDestroy? || pc.Joining?
  }

  predicate HoldsSession(pc: PC)
  {
    Closer(pc) || (InCall(pc) && SessionCont(pc.k)) || (pc.WantMsg? && pc.u.MUnsub?)
  }

  predicate HoldsMsg(pc: PC)
  {
    (InCall(pc) && MsgCont(pc.k)) || pc.Storing? || pc.Reading?
  }

  predicate HoldsAsync(pc: PC)
  {
    pc.Locked? || pc.Waiting? || pc.Joining?
  }

  /** Handlers in the wait group, and those of them that passed the second check. */
  predicate Counts(pc: PC)
  {
    !pc.Arrived? && !Closer(pc) && pc != WantSession(SClose)
  }

  predicate Active(pc: PC)
  {
    Counts(pc) && !pc.Counted?
  }

  /** `Close` after the message is gone. */
  predicate AfterFree(pc: PC)
  {
    (InCall(pc) && (pc.k.KCloseUnsub? || pc.k.KCloseConsumer?)) || pc.WantDestroy? || pc.Joining?
  }

  predicate ProperCont(k: Cont)
  {
    (k.KSimple? ==> SimpleOp(k.op)) && (k.KFetch? ==> FetchOp(k.op))
  }

  ghost predicate PCOk(s: State, pc: PC)
  {
    && (Active(pc) ==> !s.drained)
    && (HoldsSession(pc) && !Closer(pc) ==> !s.closed)
    && (Closer(pc) ==> s.closed && !s.mail.destroyed && (s.drained <==> !pc.CloseWait?))
    && (AfterFree(pc) ==> s.cur.None?)
    && (pc.Joining? ==> s.mail.shutdown)
    && (InCall(pc) ==> ProperCont(pc.k))
    && (InCall(pc) && MsgCont(pc.k) ==> s.cur.Some?)
    && (InCall(pc) && !pc.Call? ==> !pc.k.KCloseUnsub?)
    && (pc.WantMsg? && pc.u.MFetch? ==> FetchOp(pc.u.op))
    && (pc.Reading? ==> s.cur.Some? && pc.id == s.index)
    && (InCall(pc) && pc.k.KFetch? ==> pc.k.id == s.index)
  }

  ghost predicate ThreadOk(s: State, t: Tid)
  {
    && (s.sessionLock == Some(t) <==> t in s.threads && HoldsSession(s.threads[t]))
    && (s.msgLock == Some(t) <==> t in s.threads && HoldsMsg(s.threads[t]))
    && (s.asyncLock == Some(t) <==> t in s.threads && HoldsAsync(s.threads[t]))
    && (t in s.wg <==> t in s.threads && Counts(s.threads[t]))
    && (t in s.threads ==> t < s.spawned && PCOk(s, s.threads[t]))
  }

  ghost predicate Shape(s: State)
  {
    && (s.closed && !s.mail.destroyed ==>
          s.sessionLock.Some? && s.sessionLock.value in s.threads && Closer(s.threads[s.sessionLock.value]))
    && (s.mail.destroyed ==> s.closed && s.drained && s.mail.shutdown && s.cur.None?)
    && (s.drained ==> s.closed)
    && (s.mail.shutdown ==> s.closed)
    && (s.mail.shutdown && !s.mail.destroyed ==>
          s.asyncLock.Some? && s.asyncLock.value in s.threads && s.threads[s.asyncLock.value].Joining?)
  }

  ghost predicate Locks(s: State)
  {
    Shape(s) && forall t: Tid :: ThreadOk(s, t)
  }

  // ---------- A step of one goroutine ----------

  predicate LockMoves(l: Option<Tid>, l': Option<Tid>, t: Tid, before: bool, after: bool)
  {
    if after then l' == Some(t) && (before || l.None?)
    else l' == if before then None else l
  }

  /** Goroutine `t` goes to `pc'` (or returns), taking and releasing locks as its places say. */
  ghost predicate Moves(s: State, s': State, t: Tid, pc': Option<PC>)
  {
    && t in s.threads
    && var pc := s.threads[t];
    && s'.threads == (if pc'.Some? then s.threads[t := pc'.value] else s.threads - {t})
    && s'.spawned == s.spawned
    && s'.wg == (if pc'.None? then s.wg - {t} else if pc.Arrived? then s.wg + {t} else s.wg)
    && (pc'.Some? ==> (Counts(pc'.value) <==> Counts(pc) || pc.Arrived?))
    && LockMoves(s.sessionLock, s'.sessionLock, t, HoldsSession(pc), pc'.Some? && HoldsSession(pc'.value))
    && LockMoves(s.msgLock, s'.msgLock, t, HoldsMsg(pc), pc'.Some? && HoldsMsg(pc'.value))
    && LockMoves(s.asyncLock, s'.asyncLock, t, HoldsAsync(pc), pc'.Some? && HoldsAsync(pc'.value))
    && (pc'.Some? ==> PCOk(s', pc'.value))
    && (Closer(pc) ==> pc'.Some? && Closer(pc'.value))
    && !pc.Joining?
    && s'.closed == s.closed && s'.drained == s.drained
    && s'.mail.shutdown == s.mail.shutdown && s'.mail.destroyed == s.mail.destroyed
    && (s'.cur != s.cur ==> HoldsMsg(pc) && (s'.cur.Some? ==> !s.drained))
    && (s'.index != s.index ==> HoldsMsg(pc))
  }

  lemma MovesKeepsLocks(s: State, s': State, t: Tid, pc': Option<PC>)
    requires Locks(s) && Moves(s, s', t, pc')
    ensures Locks(s')
  {
    assert ThreadOk(s, t);
    forall x: Tid ensures ThreadOk(s', x) {
      assert ThreadOk(s, x);
    }
  }

  /** Where `t` is after the step. */
  function Place(s: State, t: Tid): Option<PC>
  {
    if t in s.threads then Some(s.threads[t]) else None
  }

  lemma CountMoves(s: State, t: Tid, s': State)
    requires Shape(s) && ThreadOk(s, t) && NextHandler(s, Count(t)) == Some(s')
    ensures Moves(s, s', t, Place(s', t))
  {
  }

  lemma EnterSessionMoves(s: State, t: Tid, req: Request, s': State)
    requires Shape(s) && ThreadOk(s, t) && NextHandler(s, Enter(t, req)) == Some(s')
    requires s.closed || req.SubscribeReq? || req.UnsubscribeReq?
    ensures Moves(s, s', t, Place(s', t))
  {
  }

  lemma EnterMissingMoves(s: State, t: Tid, req: Request, s': State)
    requires Shape(s) && ThreadOk(s, t) && NextHandler(s, Enter(t, req)) == Some(s')
    requires !s.closed && !req.SubscribeReq? && !req.UnsubscribeReq? && s.consumer.None?
    ensures Moves(s, s', t, Place(s', t))
  {
  }

  lemma EnterCallMoves(s: State, t: Tid, req: Request, s': State)
    requires Shape(s) && ThreadOk(s, t) && NextHandler(s, Enter(t, req)) == Some(s')
    requires !s.closed && !req.SubscribeReq? && !req.UnsubscribeReq? && s.consumer.Some?
    ensures Moves(s, s', t, Place(s', t))
  {
  }

  lemma EnterMoves(s: State, t: Tid, req: Request, s': State)
    requires Shape(s) && ThreadOk(s, t) && NextHandler(s, Enter(t, req)) == Some(s')
    ensures Moves(s, s', t, Place(s', t))
  {
    if s.closed || req.SubscribeReq? || req.UnsubscribeReq? {
      EnterSessionMoves(s, t, req, s');
    } else if s.consumer.None? {
      EnterMissingMoves(s, t, req, s');
    } else {
      EnterCallMoves(s, t, req, s');
    }
  }

  lemma AsyncLockOpenMoves(s: State, t: Tid, s': State)
    requires ThreadOk(s, t) && NextHandler(s, AsyncLock(t)) == Some(s') && !s.closed
    ensures Moves(s, s', t, Place(s', t))
  {
  }

  lemma AsyncLockMessageMoves(s: State, t: Tid, s': State)
    requires ThreadOk(s, t) && NextHandler(s, AsyncLock(t)) == Some(s') && s.closed
    requires s.threads[t].k.KFreeOld? || s.threads[t].k.KFetch? || s.threads[t].k.KUnsubFree?
    ensures Moves(s, s', t, Place(s', t))
  {
  }

  lemma AsyncLockGuardedMoves(s: State, t: Tid, s': State)
    requires ThreadOk(s, t) && NextHandler(s, AsyncLock(t)) == Some(s') && s.closed && Guarded(s.threads[t].k)
    requires !MsgCont(s.threads[t].k)
    ensures Moves(s, s', t, Place(s', t))
  {
  }

  lemma AsyncLockClosedMoves(s: State, t: Tid, s': State)
    requires ThreadOk(s, t) && NextHandler(s, AsyncLock(t)) == Some(s') && s.closed && !Guarded(s.threads[t].k)
    ensures Moves(s, s', t, Place(s', t))
  {
  }

  lemma AsyncLockMoves(s: State, t: Tid, s': State)
    requires ThreadOk(s, t) && NextHandler(s, AsyncLock(t)) == Some(s')
    ensures Moves(s, s', t, Place(s', t))
  {
    if !s.closed {
      AsyncLockOpenMoves(s, t, s');
    } else if Guarded(s.threads[t].k) && MsgCont(s.threads[t].k) {
      AsyncLockMessageMoves(s, t, s');
    } else if Guarded(s.threads[t].k) {
      AsyncLockGuardedMoves(s, t, s');
    } else {
      AsyncLockClosedMoves(s, t, s');
    }
  }

  lemma SimpleReceiveMoves(s: State, t: Tid, choice: bool, s': State)
    requires ThreadOk(s, t) && NextHandler(s, Receive(t, choice)) == Some(s') && s.threads[t].k.KSimple?
    ensures Moves(s, s', t, Place(s', t))
  {
  }

  lemma CommitReceiveMoves(s: State, t: Tid, choice: bool, s': State)
    requires ThreadOk(s, t) && NextHandler(s, Receive(t, choice)) == Some(s') && s.threads[t].k.KAutoCommit?
    ensures Moves(s, s', t, Place(s', t))
  {
  }

  /** What a received answer makes of the session. */
  lemma ReceiveIs(s: State, t: Tid, choice: bool, s': State)
    requires NextHandler(s, Receive(t, choice)) == Some(s')
    ensures t in s.threads && s.threads[t].Waiting? && ReplyOn(OpOf(s.threads[t].k)) in s.mail.replies
    ensures var c, k := ReplyOn(OpOf(s.threads[t].k)), s.threads[t].k;
            s' == Resumes(s.(mail := s.mail.(replies := s.mail.replies - {c}), asyncLock := None), t, k,
                          s.mail.replies[c].value, choice)
  {
  }

  /** A poll brought a message or nothing: the goroutine goes on to store it, or returns. */
  lemma PollAnswerIs(s: State, t: Tid, choice: bool, s': State)
    requires NextHandler(s, Receive(t, choice)) == Some(s') && s.threads[t].k.KPoll?
    ensures var s1 := s.(mail := s'.mail, asyncLock := None, freed := s'.freed);
            s' == Finish(s1, t) || (Place(s', t).Some? && Place(s', t).value.WantMsg? && Place(s', t).value.u.MStore?
                                    && s' == At(s1, t, Place(s', t).value))
    ensures s'.mail == s.mail.(replies := s'.mail.replies)
  {
    ReceiveIs(s, t, choice, s');
  }

  lemma PollReceiveMoves(s: State, t: Tid, choice: bool, s': State)
    requires Shape(s) && ThreadOk(s, t) && NextHandler(s, Receive(t, choice)) == Some(s') && s.threads[t].k.KPoll?
    ensures Moves(s, s', t, Place(s', t))
  {
    PollAnswerIs(s, t, choice, s');
  }

  lemma MessageReceiveMoves(s: State, t: Tid, choice: bool, s': State)
    requires Shape(s) && ThreadOk(s, t) && NextHandler(s, Receive(t, choice)) == Some(s')
    requires var k := s.threads[t].k; k.KFreeOld? || k.KFetch?
    ensures Moves(s, s', t, Place(s', t))
  {
  }

  lemma NewReceiveMoves(s: State, t: Tid, choice: bool, s': State)
    requires Shape(s) && ThreadOk(s, t) && NextHandler(s, Receive(t, choice)) == Some(s')
    requires var k := s.threads[t].k; k.KNew? || k.KSubscribe?
    ensures Moves(s, s', t, Place(s', t))
  {
  }

  lemma UnsubscribeReceiveMoves(s: State, t: Tid, choice: bool, s': State)
    requires Shape(s) && ThreadOk(s, t) && NextHandler(s, Receive(t, choice)) == Some(s')
    requires var k := s.threads[t].k; k.KUnsub? || k.KUnsubFree? || k.KResubscribe? || k.KDrop?
    ensures Moves(s, s', t, Place(s', t))
  {
  }

  lemma CloseReceiveMoves(s: State, t: Tid, choice: bool, s': State)
    requires Shape(s) && ThreadOk(s, t) && NextHandler(s, Receive(t, choice)) == Some(s') && CloseCont(s.threads[t].k)
    ensures Moves(s, s', t, Place(s', t))
  {
  }

  lemma ReceiveMoves(s: State, t: Tid, choice: bool, s': State)
    requires Shape(s) && ThreadOk(s, t) && NextHandler(s, Receive(t, choice)) == Some(s')
    ensures Moves(s, s', t, Place(s', t))
  {
    var k := s.threads[t].k;
    match k
    case KSimple(_) => SimpleReceiveMoves(s, t, choice, s');
    case KAutoCommit => CommitReceiveMoves(s, t, choice, s');
    case KPoll => PollReceiveMoves(s, t, choice, s');
    case KFreeOld(_) | KFetch(_, _) => MessageReceiveMoves(s, t, choice, s');
    case KNew | KSubscribe(_) => NewReceiveMoves(s, t, choice, s');
    case KUnsub | KUnsubFree | KResubscribe | KDrop(_) => UnsubscribeReceiveMoves(s, t, choice, s');
    case KCloseFree | KCloseUnsub | KCloseConsumer => CloseReceiveMoves(s, t, choice, s');
  }

  lemma StoreFirstMoves(s: State, t: Tid, s': State)
    requires ThreadOk(s, t) && NextHandler(s, MsgLock(t)) == Some(s')
    requires s.threads[t].u.MStore? && s.cur.None?
    ensures Moves(s, s', t, Place(s', t))
  {
  }

  lemma StoreNextMoves(s: State, t: Tid, s': State)
    requires ThreadOk(s, t) && NextHandler(s, MsgLock(t)) == Some(s')
    requires s.threads[t].u.MStore? && s.cur.Some?
    ensures Moves(s, s', t, Place(s', t))
  {
  }

  lemma FetchMsgLockMoves(s: State, t: Tid, s': State)
    requires Shape(s) && ThreadOk(s, t) && NextHandler(s, MsgLock(t)) == Some(s') && s.threads[t].u.MFetch?
    ensures Moves(s, s', t, Place(s', t))
  {
  }

  lemma UnsubMsgLockMoves(s: State, t: Tid, s': State)
    requires Shape(s) && ThreadOk(s, t) && NextHandler(s, MsgLock(t)) == Some(s') && s.threads[t].u.MUnsub?
    ensures Moves(s, s', t, Place(s', t))
  {
  }

  lemma CloseMsgLockMoves(s: State, t: Tid, s': State)
    requires Shape(s) && ThreadOk(s, t) && NextHandler(s, MsgLock(t)) == Some(s') && s.threads[t].u.MClose?
    ensures Moves(s, s', t, Place(s', t))
  {
  }

  lemma MsgLockMoves(s: State, t: Tid, s': State)
    requires Shape(s) && ThreadOk(s, t) && NextHandler(s, MsgLock(t)) == Some(s')
    ensures Moves(s, s', t, Place(s', t))
  {
    match s.threads[t].u
    case MStore(_) =>
      if s.cur.None? {
        StoreFirstMoves(s, t, s');
      } else {
        StoreNextMoves(s, t, s');
      }
    case MFetch(_, _) => FetchMsgLockMoves(s, t, s');
    case MUnsub => UnsubMsgLockMoves(s, t, s');
    case MClose => CloseMsgLockMoves(s, t, s');
  }

  lemma SubmitMoves(s: State, t: Tid, s': State)
    requires Shape(s) && ThreadOk(s, t) && NextHandler(s, Submit(t)) == Some(s')
    ensures Moves(s, s', t, Place(s', t))
  {
  }

  lemma StoreMoves(s: State, t: Tid, s': State)
    requires Shape(s) && ThreadOk(s, t) && NextHandler(s, Store(t)) == Some(s')
    ensures Moves(s, s', t, Place(s', t))
  {
  }

  lemma ReadMoves(s: State, t: Tid, s': State)
    requires Shape(s) && ThreadOk(s, t) && NextHandler(s, Read(t)) == Some(s')
    ensures Moves(s, s', t, Place(s', t))
  {
  }

  lemma ListMoves(s: State, e: Event, s': State)
    requires (e.SyncLock? || e.List?) && ThreadOk(s, e.t) && NextHandler(s, e) == Some(s')
    ensures Moves(s, s', e.t, Place(s', e.t))
  {
  }

  lemma SubscribeLockMoves(s: State, t: Tid, confOk: bool, s': State)
    requires Shape(s) && ThreadOk(s, t) && NextHandler(s, SessionLock(t, confOk)) == Some(s') && s.threads[t].x.SSubscribe?
    ensures Moves(s, s', t, Place(s', t))
  {
  }

  lemma SessionLockMoves(s: State, t: Tid, confOk: bool, s': State)
    requires Shape(s) && ThreadOk(s, t) && NextHandler(s, SessionLock(t, confOk)) == Some(s') && s'.closed == s.closed
    ensures Moves(s, s', t, Place(s', t))
  {
    if s.threads[t].x.SSubscribe? {
      SubscribeLockMoves(s, t, confOk, s');
    }
  }

  // ---------- The steps of `Close` that change the phase, and the worker ----------

  lemma SpawnKeepsLocks(s: State, e: Event, s': State)
    requires Locks(s) && (e.Arrive? || e.StartClose?) && Next(s, e) == Some(s')
    ensures Locks(s')
  {
    assert ThreadOk(s, s.spawned);
    forall x: Tid ensures ThreadOk(s', x) {
      assert ThreadOk(s, x);
    }
  }

  lemma SetClosedIs(s: State, t: Tid, confOk: bool, s': State)
    requires NextHandler(s, SessionLock(t, confOk)) == Some(s') && s'.closed != s.closed
    ensures t in s.threads && s.threads[t] == WantSession(SClose) && s.sessionLock.None? && !s.closed
    ensures s' == At(s.(sessionLock := Some(t), closed := true), t, CloseWait)
  {
  }

  lemma SetClosedThread(s: State, t: Tid, s': State, x: Tid)
    requires Locks(s) && t in s.threads && s.threads[t] == WantSession(SClose) && s.sessionLock.None? && !s.closed
    requires s' == At(s.(sessionLock := Some(t), closed := true), t, CloseWait)
    ensures ThreadOk(s', x)
  {
    assert ThreadOk(s, t);
    assert ThreadOk(s, x);
  }

  lemma SetClosedKeepsLocks(s: State, t: Tid, confOk: bool, s': State)
    requires Locks(s) && NextHandler(s, SessionLock(t, confOk)) == Some(s') && s'.closed != s.closed
    ensures Locks(s')
  {
    SetClosedIs(s, t, confOk, s');
    forall x: Tid ensures ThreadOk(s', x) {
      SetClosedThread(s, t, s', x);
    }
  }

  lemma WaitedKeepsLocks(s: State, t: Tid, s': State)
    requires Locks(s) && Next(s, Waited(t)) == Some(s')
    ensures Locks(s')
  {
    assert ThreadOk(s, t);
    forall x: Tid ensures ThreadOk(s', x) {
      assert ThreadOk(s, x);
    }
  }

  lemma ShutdownKeepsLocks(s: State, t: Tid, s': State)
    requires Locks(s) && Next(s, Shutdown(t)) == Some(s')
    ensures Locks(s')
  {
    assert ThreadOk(s, t);
    forall x: Tid ensures ThreadOk(s', x) {
      assert ThreadOk(s, x);
    }
  }

  lemma JoinKeepsLocks(s: State, t: Tid, s': State)
    requires Locks(s) && Next(s, Join(t)) == Some(s')
    ensures Locks(s')
  {
    assert ThreadOk(s, t);
    forall x: Tid ensures ThreadOk(s', x) {
      assert ThreadOk(s, x);
    }
  }

  /** Nothing the locking discipline looks at changes. */
  lemma FrameKeepsLocks(s: State, s': State)
    requires Locks(s)
    requires s'.threads == s.threads && s'.spawned == s.spawned && s'.wg == s.wg
    requires s'.sessionLock == s.sessionLock && s'.msgLock == s.msgLock && s'.asyncLock == s.asyncLock
    requires s'.closed == s.closed && s'.drained == s.drained && s'.cur == s.cur && s'.index == s.index
    requires s'.mail.shutdown == s.mail.shutdown && s'.mail.destroyed == s.mail.destroyed
    ensures Locks(s')
  {
    forall x: Tid ensures ThreadOk(s', x) {
      assert ThreadOk(s, x);
    }
  }

  lemma WorkerFrame(s: State, e: Event, s': State)
    requires WorkerStep(e) && NextWorker(s, e) == Some(s')
    ensures s'.threads == s.threads && s'.spawned == s.spawned && s'.wg == s.wg
    ensures s'.sessionLock == s.sessionLock && s'.msgLock == s.msgLock && s'.asyncLock == s.asyncLock
    ensures s'.closed == s.closed && s'.drained == s.drained && s'.cur == s.cur
    ensures s'.mail.shutdown == s.mail.shutdown && s'.mail.destroyed == s.mail.destroyed
    ensures s'.ids == s.ids && s'.index == s.index
  {
  }

  lemma WorkerKeepsLocks(s: State, e: Event, s': State)
    requires Locks(s) && WorkerStep(e) && Next(s, e) == Some(s')
    ensures Locks(s')
  {
    WorkerFrame(s, e, s');
    FrameKeepsLocks(s, s');
  }

  /** Steps that only move one goroutine. */
  predicate PlainMove(s: State, e: Event)
  {
    e.Count? || e.Enter? || e.AsyncLock? || e.Submit? || e.Receive? || e.MsgLock? || e.Store? || e.Read?
    || e.SyncLock? || e.List? || (e.SessionLock? && (s.closed || !(e.t in s.threads && s.threads[e.t] == WantSession(SClose))))
  }

  lemma PlainMoves(s: State, e: Event, s': State)
    requires Locks(s) && PlainMove(s, e) && Next(s, e) == Some(s')
    ensures Moves(s, s', e.t, Place(s', e.t))
  {
    assert ThreadOk(s, e.t);
    match e
    case Count(t) => CountMoves(s, t, s');
    case Enter(t, req) => EnterMoves(s, t, req, s');
    case AsyncLock(t) => AsyncLockMoves(s, t, s');
    case Submit(t) => SubmitMoves(s, t, s');
    case Receive(t, choice) => ReceiveMoves(s, t, choice, s');
    case MsgLock(t) => MsgLockMoves(s, t, s');
    case Store(t) => StoreMoves(s, t, s');
    case Read(t) => ReadMoves(s, t, s');
    case SyncLock(_) | List(_) => ListMoves(s, e, s');
    case SessionLock(t, confOk) => SessionLockMoves(s, t, confOk, s');
  }

  lemma NextKeepsLocks(s: State, e: Event, s': State)
    requires Locks(s) && Next(s, e) == Some(s')
    ensures Locks(s')
  {
    if PlainMove(s, e) {
      PlainMoves(s, e, s');
      MovesKeepsLocks(s, s', e.t, Place(s', e.t));
    } else {
      match e
      case Arrive | StartClose => SpawnKeepsLocks(s, e, s');
      case SessionLock(t, confOk) => SetClosedKeepsLocks(s, t, confOk, s');
      case Waited(t) => WaitedKeepsLocks(s, t, s');
      case Shutdown(t) => ShutdownKeepsLocks(s, t, s');
      case Join(t) => JoinKeepsLocks(s, t, s');
      case WorkerCheck | WorkerWait | WorkerRun(_, _) | WorkerFree | WorkerExit => WorkerKeepsLocks(s, e, s');
    }
  }

  // ---------- The mailbox ----------

  function UpTo(n: nat): (r: seq<nat>)
    ensures |r| == n
  {
    seq(n, i => i)
  }

  /** The goroutine that holds asyncLocker. */
  function Holder(s: State): Option<PC>
  {
    if s.asyncLock.Some? && s.asyncLock.value in s.threads then Some(s.threads[s.asyncLock.value]) else None
  }

  ghost predicate Counters(m: Mail)
  {
    && m.executed == UpTo(|m.executed|)
    && m.tasksFreed == UpTo(|m.tasksFreed|)
    && |m.tasksFreed| <= |m.executed| <= m.submitted <= |m.tasksFreed| + 1
    && (m.task.Some? <==> |m.tasksFreed| < m.submitted)
    && (m.task.Some? ==> m.task.value.id + 1 == m.submitted)
    && (m.task.Some? ==> m.worker.Ran? || WillLook(m.worker))
    && (m.worker.Ran? <==> |m.tasksFreed| < |m.executed|)
    && (m.shutdown ==> |m.executed| == m.submitted)
    && (m.worker.Exited? ==> m.shutdown && m.task.None?)
    && (m.destroyed ==> m.worker.Exited?)
  }

  /** The job in the cell is the one its submitter, the holder of asyncLocker, waits for. */
  ghost predicate Pending(m: Mail, who: Option<Tid>, h: Option<PC>, cur: Option<Msg>)
  {
    && m.task.Some?
    && who == Some(m.task.value.who)
    && h.Some? && h.value.Waiting?
    && OpOf(h.value.k) == m.task.value.op
    && (MsgCont(h.value.k) ==> cur == Some(m.task.value.target))
  }

  ghost predicate MailOk(m: Mail, who: Option<Tid>, h: Option<PC>, cur: Option<Msg>)
  {
    && Counters(m)
    && (|m.executed| < m.submitted ==> Pending(m, who, h, cur))
    && (h.Some? && h.value.Waiting? ==> h.value.job + 1 == m.submitted)
    && (if h.Some? && h.value.Waiting? && |m.executed| == m.submitted then
          m.replies.Keys == {ReplyOn(OpOf(h.value.k))} && m.replies[ReplyOn(OpOf(h.value.k))].id == h.value.job
        else m.replies == map[])
  }

  ghost predicate Mailbox(s: State)
  {
    MailOk(s.mail, s.asyncLock, Holder(s), s.cur)
  }

  lemma SubmitKeepsMail(s: State, t: Tid, s': State)
    requires Locks(s) && Mailbox(s) && Next(s, Submit(t)) == Some(s')
    ensures Mailbox(s')
    ensures s.mail.task.None? && s.mail.replies == map[] && !s.mail.shutdown && !s.mail.destroyed
  {
    assert ThreadOk(s, t);
  }

  lemma WorkerRunKeepsMail(s: State, ok: bool, kind: int, s': State)
    requires Locks(s) && Mailbox(s) && Next(s, WorkerRun(ok, kind)) == Some(s')
    ensures Mailbox(s')
  {
    var m, m' := s.mail, s'.mail;
    assert UpTo(|m.executed|) + [|m.executed|] == UpTo(|m.executed| + 1);
    WorkerFrame(s, WorkerRun(ok, kind), s');
    assert m'.replies.Keys == {ReplyOn(m.task.value.op)};
  }

  lemma WorkerFreeKeepsMail(s: State, s': State)
    requires Mailbox(s) && Next(s, WorkerFree) == Some(s')
    ensures Mailbox(s')
  {
    assert UpTo(|s.mail.tasksFreed|) + [|s.mail.tasksFreed|] == UpTo(|s.mail.tasksFreed| + 1);
  }

  lemma WorkerIdleKeepsMail(s: State, e: Event, s': State)
    requires Mailbox(s) && (e.WorkerCheck? || e.WorkerWait? || e.WorkerExit?) && NextWorker(s, e) == Some(s')
    ensures Mailbox(s')
  {
  }

  lemma AsyncLockKeepsMail(s: State, t: Tid, s': State)
    requires Locks(s) && Mailbox(s) && Next(s, AsyncLock(t)) == Some(s')
    ensures Mailbox(s')
  {
    assert ThreadOk(s, t);
    assert Holder(s).None?;
    AsyncLockMoves(s, t, s');
  }

  lemma ReceiveKeepsMail(s: State, t: Tid, choice: bool, s': State)
    requires Locks(s) && Mailbox(s) && Next(s, Receive(t, choice)) == Some(s')
    ensures Mailbox(s')
    ensures s.mail.replies[ReplyOn(OpOf(s.threads[t].k))].id == s.threads[t].job
  {
    assert ThreadOk(s, t);
    assert Holder(s) == Some(s.threads[t]);
    var c := ReplyOn(OpOf(s.threads[t].k));
    assert s.mail.replies - {c} == map[];
    assert s'.mail == s.mail.(replies := map[]);
    assert Holder(s').None?;
  }

  /** A goroutine without asyncLocker moves: the mailbox and its holder stay as they are. */
  lemma OthersKeepMail(s: State, s': State)
    requires Locks(s) && Mailbox(s)
    requires s'.mail == s.mail && s'.asyncLock == s.asyncLock && Holder(s') == Holder(s)
    requires s'.cur != s.cur ==> Holder(s).None? || !HoldsMsg(Holder(s).value)
    ensures Mailbox(s')
  {
  }

  /** A goroutine that neither has nor takes asyncLocker moves. */
  lemma MovesKeepsMail(s: State, s': State, t: Tid, pc': Option<PC>)
    requires Locks(s) && Mailbox(s) && Moves(s, s', t, pc')
    requires !HoldsAsync(s.threads[t]) && (pc'.Some? ==> !HoldsAsync(pc'.value)) && s'.mail == s.mail
    ensures Mailbox(s')
  {
    assert ThreadOk(s, t);
    if s.asyncLock.Some? {
      assert ThreadOk(s, s.asyncLock.value);
    }
    OthersKeepMail(s, s');
  }

  lemma SpawnKeepsMail(s: State, e: Event, s': State)
    requires Locks(s) && Mailbox(s) && (e.Arrive? || e.StartClose?) && Next(s, e) == Some(s')
    ensures Mailbox(s')
  {
    assert ThreadOk(s, s.spawned);
    if s.asyncLock.Some? {
      assert ThreadOk(s, s.asyncLock.value);
    }
  }

  lemma ClosePhaseKeepsMail(s: State, e: Event, s': State)
    requires Locks(s) && Mailbox(s) && (e.SessionLock? || e.Waited? || e.Shutdown? || e.Join?)
    requires !PlainMove(s, e) && NextHandler(s, e) == Some(s')
    ensures Mailbox(s')
  {
    assert ThreadOk(s, e.t);
    if s.asyncLock.Some? {
      assert ThreadOk(s, s.asyncLock.value);
    }
  }

  lemma NextKeepsMail(s: State, e: Event, s': State)
    requires Locks(s) && Mailbox(s) && Next(s, e) == Some(s')
    ensures Mailbox(s')
  {
    if e.Arrive? || e.StartClose? {
      SpawnKeepsMail(s, e, s');
    } else if e.AsyncLock? {
      AsyncLockKeepsMail(s, e.t, s');
    } else if e.Submit? {
      SubmitKeepsMail(s, e.t, s');
    } else if e.Receive? {
      ReceiveKeepsMail(s, e.t, e.choice, s');
    } else if e.WorkerRun? {
      WorkerRunKeepsMail(s, e.ok, e.kind, s');
    } else if e.WorkerFree? {
      WorkerFreeKeepsMail(s, s');
    } else if e.WorkerCheck? || e.WorkerWait? || e.WorkerExit? {
      WorkerIdleKeepsMail(s, e, s');
    } else if PlainMove(s, e) {
      PlainMoves(s, e, s');
      QuietMove(s, e, s');
      MovesKeepsMail(s, s', e.t, Place(s', e.t));
    } else {
      ClosePhaseKeepsMail(s, e, s');
    }
  }

  /** The moves that stay away from asyncLocker. */
  lemma QuietMove(s: State, e: Event, s': State)
    requires e.Count? || e.Enter? || e.MsgLock? || e.Store? || e.Read? || e.SyncLock? || e.List? || e.SessionLock?
    requires NextHandler(s, e) == Some(s')
    ensures s'.mail == s.mail
    ensures !HoldsAsync(s.threads[e.t]) && (e.t in s'.threads ==> !HoldsAsync(s'.threads[e.t]))
  {
  }

  // ---------- Messages ----------

  /** The message a goroutine is responsible for: in its reply channel or in a local variable. */
  function HeldAt(pc: PC, replies: map<Channel, Reply>): Option<Msg>
  {
    match pc
    case WantMsg(MStore(m)) => Some(m)
    case Call(KFreeOld(m)) => Some(m)
    case Locked(KFreeOld(m)) => Some(m)
    case Waiting(_, KFreeOld(m)) => Some(m)
    case Storing(m) => Some(m)
    case Waiting(_, KPoll) => if PollResult in replies then replies[PollResult].value else None
    case _ => None
  }

  function Holding(s: State, t: Tid): Option<Msg>
  {
    if t in s.threads then HeldAt(s.threads[t], s.mail.replies) else None
  }

  /** The pointer in the message record outlives its message only while the lock holder is replacing it. */
  predicate DanglingAt(pc: PC, ran: nat)
  {
    pc.Storing? || (pc.Waiting? && OpOf(pc.k).FREE? && pc.job < ran)
  }

  predicate Dangling(s: State)
  {
    s.msgLock.Some? && s.msgLock.value in s.threads && DanglingAt(s.threads[s.msgLock.value], |s.mail.executed|)
  }

  ghost predicate HoldOk(s: State, t: Tid)
  {
    Holding(s, t).Some? ==>
      var m := Holding(s, t).value;
      m < |s.poller| && s.poller[m] == t && m !in s.freed && s.cur != Some(m)
  }

  /** Every message is freed, current, or with the goroutine that polled it. */
  ghost predicate MsgOk(s: State, m: Msg)
    requires m < |s.poller|
  {
    m in s.freed || s.cur == Some(m) || Holding(s, s.poller[m]) == Some(m)
  }

  ghost predicate Messages(s: State)
  {
    && NoDup(s.freed)
    && (forall m :: m in s.freed ==> m < |s.poller|)
    && (s.cur.Some? ==> s.cur.value < |s.poller| && (s.cur.value in s.freed <==> Dangling(s)))
    && (forall t: Tid :: HoldOk(s, t))
    && (forall m: Msg :: m < |s.poller| ==> MsgOk(s, m))
    && |s.ids| == s.index
    && (forall i :: 0 <= i < |s.ids| ==> s.ids[i] == i + 1)
  }

  /** Nothing about messages changes. */
  lemma NeutralKeepsMessages(s: State, s': State)
    requires Messages(s)
    requires s'.freed == s.freed && s'.cur == s.cur && s'.poller == s.poller && s'.ids == s.ids && s'.index == s.index
    requires forall t: Tid :: Holding(s', t) == Holding(s, t)
    requires s.cur.Some? ==> Dangling(s') == Dangling(s)
    ensures Messages(s')
  {
    forall t: Tid ensures HoldOk(s', t) {
      assert HoldOk(s, t);
    }
    forall m: Msg | m < |s'.poller| ensures MsgOk(s', m) {
      assert MsgOk(s, m);
    }
  }

  /** `t` moves and leaves alone everything the account of messages depends on. */
  ghost predicate Untouched(s: State, s': State, t: Tid)
  {
    && s'.poller == s.poller
    && s'.mail.executed == s.mail.executed
    && (s'.mail.replies == s.mail.replies || (t in s.threads && HoldsAsync(s.threads[t])))
  }

  predicate SameDangling(s: State, s': State, t: Tid)
  {
    (t in s.threads && DanglingAt(s.threads[t], |s.mail.executed|))
    == (t in s'.threads && DanglingAt(s'.threads[t], |s'.mail.executed|))
  }

  lemma OthersHold(s: State, s': State, t: Tid, x: Tid)
    requires Locks(s) && Moves(s, s', t, Place(s', t)) && Untouched(s, s', t) && x != t
    ensures Holding(s', x) == Holding(s, x)
  {
    assert ThreadOk(s, x);
    assert ThreadOk(s, t);
  }

  lemma DanglingMoves(s: State, s': State, t: Tid)
    requires Locks(s) && Moves(s, s', t, Place(s', t)) && Untouched(s, s', t)
    requires SameDangling(s, s', t)
    ensures Dangling(s') == Dangling(s)
  {
    assert ThreadOk(s, t);
    if s.msgLock.Some? {
      assert ThreadOk(s, s.msgLock.value);
    }
  }

  lemma MoveKeepsMessages(s: State, s': State, t: Tid)
    requires Locks(s) && Messages(s) && Moves(s, s', t, Place(s', t)) && Untouched(s, s', t)
    requires s'.freed == s.freed && s'.cur == s.cur && s'.ids == s.ids && s'.index == s.index
    requires Holding(s', t) == Holding(s, t)
    requires s.cur.Some? ==> SameDangling(s, s', t)
    ensures Messages(s')
  {
    forall x: Tid ensures Holding(s', x) == Holding(s, x) {
      if x != t {
        OthersHold(s, s', t, x);
      }
    }
    if s.cur.Some? {
      DanglingMoves(s, s', t);
    }
    NeutralKeepsMessages(s, s');
  }

  /** A handler frees the message it holds without the worker. */
  lemma DirectFreeKeepsMessages(s: State, s': State, t: Tid, m: Msg)
    requires Locks(s) && Messages(s) && Moves(s, s', t, Place(s', t)) && Untouched(s, s', t)
    requires s'.freed == s.freed + [m] && s'.cur == s.cur && s'.ids == s.ids && s'.index == s.index
    requires Holding(s, t) == Some(m) && Holding(s', t).None? && SameDangling(s, s', t)
    ensures Messages(s')
  {
    DanglingMoves(s, s', t);
    assert HoldOk(s, t);
    forall x: Tid ensures HoldOk(s', x) {
      assert HoldOk(s, x);
      if x != t {
        OthersHold(s, s', t, x);
      }
    }
    forall n: Msg | n < |s'.poller| ensures MsgOk(s', n) {
      assert MsgOk(s, n);
      if s.poller[n] != t {
        OthersHold(s, s', t, s.poller[n]);
      }
    }
  }

  /** The record's pointer is cleared after its message was freed. */
  lemma ClearKeepsMessages(s: State, s': State, t: Tid)
    requires Locks(s) && Messages(s) && Moves(s, s', t, Place(s', t)) && Untouched(s, s', t)
    requires s'.freed == s.freed && s'.cur.None? && s'.ids == s.ids && s'.index == s.index
    requires s.cur.Some? ==> Dangling(s)
    requires Holding(s, t).None? && Holding(s', t).None?
    ensures Messages(s')
  {
    forall x: Tid ensures HoldOk(s', x) {
      assert HoldOk(s, x);
      if x != t {
        OthersHold(s, s', t, x);
      }
    }
    forall n: Msg | n < |s'.poller| ensures MsgOk(s', n) {
      assert MsgOk(s, n);
      if s.poller[n] != t {
        OthersHold(s, s', t, s.poller[n]);
      }
    }
  }

  lemma StoreKeepsMessages(s: State, t: Tid, s': State)
    requires Locks(s) && Messages(s) && Next(s, Store(t)) == Some(s')
    ensures Messages(s')
  {
    assert ThreadOk(s, t);
    StoreMoves(s, t, s');
    assert HoldOk(s, t);
    assert s.msgLock == Some(t) && Dangling(s);
    forall x: Tid ensures HoldOk(s', x) {
      assert HoldOk(s, x);
      if x != t {
        OthersHold(s, s', t, x);
      }
    }
    forall n: Msg | n < |s'.poller| ensures MsgOk(s', n) {
      assert MsgOk(s, n);
      if s.poller[n] != t {
        OthersHold(s, s', t, s.poller[n]);
      }
    }
  }

  lemma SpawnKeepsMessages(s: State, e: Event, s': State)
    requires Locks(s) && Messages(s) && (e.Arrive? || e.StartClose?) && Next(s, e) == Some(s')
    ensures Messages(s')
  {
    assert ThreadOk(s, s.spawned);
    if s.msgLock.Some? {
      assert ThreadOk(s, s.msgLock.value);
    }
    NeutralKeepsMessages(s, s');
  }

  lemma ClosePhaseKeepsMessages(s: State, e: Event, s': State)
    requires Locks(s) && Messages(s) && (e.SessionLock? || e.Waited? || e.Shutdown? || e.Join?)
    requires !PlainMove(s, e) && NextHandler(s, e) == Some(s')
    ensures Messages(s')
  {
    assert ThreadOk(s, e.t);
    if s.msgLock.Some? {
      assert ThreadOk(s, s.msgLock.value);
    }
    NeutralKeepsMessages(s, s');
  }

  lemma CountKeepsMessages(s: State, e: Event, s': State)
    requires Locks(s) && Messages(s) && (e.Count? || e.Read? || e.SyncLock? || e.List?) && Next(s, e) == Some(s')
    ensures Messages(s')
  {
    assert ThreadOk(s, e.t);
    PlainMoves(s, e, s');
    MoveKeepsMessages(s, s', e.t);
  }

  lemma EnterKeepsMessages(s: State, t: Tid, req: Request, s': State)
    requires Locks(s) && Messages(s) && Next(s, Enter(t, req)) == Some(s')
    ensures Messages(s')
  {
    assert ThreadOk(s, t);
    EnterMoves(s, t, req, s');
    MoveKeepsMessages(s, s', t);
  }

  lemma SessionLockKeepsMessages(s: State, t: Tid, confOk: bool, s': State)
    requires Locks(s) && Messages(s) && Next(s, SessionLock(t, confOk)) == Some(s') && s'.closed == s.closed
    ensures Messages(s')
  {
    assert ThreadOk(s, t);
    SessionLockMoves(s, t, confOk, s');
    MoveKeepsMessages(s, s', t);
  }

  lemma MsgLockKeepsMessages(s: State, t: Tid, s': State)
    requires Locks(s) && Messages(s) && Next(s, MsgLock(t)) == Some(s')
    ensures Messages(s')
  {
    assert ThreadOk(s, t);
    MsgLockMoves(s, t, s');
    MoveKeepsMessages(s, s', t);
  }

  lemma SubmitKeepsMessages(s: State, t: Tid, s': State)
    requires Locks(s) && Mailbox(s) && Messages(s) && Next(s, Submit(t)) == Some(s')
    ensures Messages(s')
  {
    assert ThreadOk(s, t);
    SubmitMoves(s, t, s');
    MoveKeepsMessages(s, s', t);
  }

  lemma AsyncLockKeepsMessages(s: State, t: Tid, s': State)
    requires Locks(s) && Messages(s) && Next(s, AsyncLock(t)) == Some(s')
    ensures Messages(s')
  {
    assert ThreadOk(s, t);
    AsyncLockMoves(s, t, s');
    if s.closed && s.threads[t].k.KFreeOld? {
      DirectFreeKeepsMessages(s, s', t, s.threads[t].k.m);
    } else {
      MoveKeepsMessages(s, s', t);
    }
  }

  lemma PollReceiveKeepsMessages(s: State, t: Tid, choice: bool, s': State)
    requires Locks(s) && Mailbox(s) && Messages(s) && NextHandler(s, Receive(t, choice)) == Some(s')
    requires s.threads[t].k.KPoll?
    ensures Messages(s')
  {
    assert ThreadOk(s, t);
    PollReceiveMoves(s, t, choice, s');
    assert Holder(s) == Some(s.threads[t]);
    if s.mail.replies[PollResult].value.Some? && !IsValidType(TypeOf(s, s.mail.replies[PollResult].value.value)) {
      DirectFreeKeepsMessages(s, s', t, s.mail.replies[PollResult].value.value);
    } else {
      MoveKeepsMessages(s, s', t);
    }
  }

  lemma ClearReceiveKeepsMessages(s: State, t: Tid, choice: bool, s': State)
    requires Locks(s) && Mailbox(s) && Messages(s) && NextHandler(s, Receive(t, choice)) == Some(s')
    requires s.threads[t].k.KUnsubFree? || s.threads[t].k.KCloseFree?
    ensures Messages(s')
  {
    assert ThreadOk(s, t);
    ReceiveMoves(s, t, choice, s');
    assert Holder(s) == Some(s.threads[t]);
    ClearKeepsMessages(s, s', t);
  }

  lemma MessageReceiveKeepsMessages(s: State, t: Tid, choice: bool, s': State)
    requires Locks(s) && Mailbox(s) && Messages(s) && NextHandler(s, Receive(t, choice)) == Some(s')
    requires s.threads[t].k.KFreeOld? || s.threads[t].k.KFetch?
    ensures Messages(s')
  {
    assert ThreadOk(s, t);
    MessageReceiveMoves(s, t, choice, s');
    assert Holder(s) == Some(s.threads[t]);
    MoveKeepsMessages(s, s', t);
  }

  /** The other answers do not concern messages. */
  lemma OtherReceive(s: State, t: Tid, choice: bool, s': State)
    requires NextHandler(s, Receive(t, choice)) == Some(s')
    requires var k := s.threads[t].k; !(k.KPoll? || k.KUnsubFree? || k.KCloseFree? || k.KFreeOld? || k.KFetch?)
    ensures s'.freed == s.freed && s'.cur == s.cur && s'.poller == s.poller && s'.ids == s.ids && s'.index == s.index
    ensures Holding(s', t).None?
    ensures t in s'.threads ==> !s'.threads[t].Storing? && !s'.threads[t].Waiting?
    ensures s'.mail.executed == s.mail.executed
  {
  }

  lemma OtherReceiveKeepsMessages(s: State, t: Tid, choice: bool, s': State)
    requires Locks(s) && Mailbox(s) && Messages(s) && NextHandler(s, Receive(t, choice)) == Some(s')
    requires var k := s.threads[t].k; !(k.KPoll? || k.KUnsubFree? || k.KCloseFree? || k.KFreeOld? || k.KFetch?)
    ensures Messages(s')
  {
    OtherReceive(s, t, choice, s');
    assert ThreadOk(s, t) && ProperCont(s.threads[t].k);
    ReceiveMoves(s, t, choice, s');
    MoveKeepsMessages(s, s', t);
  }

  lemma ReceiveKeepsMessages(s: State, t: Tid, choice: bool, s': State)
    requires Locks(s) && Mailbox(s) && Messages(s) && NextHandler(s, Receive(t, choice)) == Some(s')
    ensures Messages(s')
  {
    var k := s.threads[t].k;
    if k.KPoll? {
      PollReceiveKeepsMessages(s, t, choice, s');
    } else if k.KUnsubFree? || k.KCloseFree? {
      ClearReceiveKeepsMessages(s, t, choice, s');
    } else if k.KFreeOld? || k.KFetch? {
      MessageReceiveKeepsMessages(s, t, choice, s');
    } else {
      OtherReceiveKeepsMessages(s, t, choice, s');
    }
  }

  lemma WorkerIdleKeepsMessages(s: State, e: Event, s': State)
    requires Messages(s) && WorkerStep(e) && !e.WorkerRun? && NextWorker(s, e) == Some(s')
    ensures Messages(s')
  {
    NeutralKeepsMessages(s, s');
  }

  /** The goroutine whose job is about to run, and what it will do with the answer. */
  lemma RunnerIs(s: State) returns (t: Tid, k: Cont)
    requires Locks(s) && Mailbox(s) && !s.mail.worker.Ran? && s.mail.task.Some?
    ensures s.asyncLock == Some(t) && t in s.threads && s.threads[t] == Waiting(|s.mail.executed|, k)
    ensures s.mail.task.value.id == |s.mail.executed| && s.mail.task.value.who == t && s.mail.replies == map[]
    ensures OpOf(k) == s.mail.task.value.op && ProperCont(k)
    ensures MsgCont(k) ==> s.cur == Some(s.mail.task.value.target) && s.msgLock == Some(t)
  {
    t := s.mail.task.value.who;
    k := s.threads[t].k;
    assert ThreadOk(s, t);
  }

  lemma RunFreeKeepsMessages(s: State, ok: bool, kind: int, s': State)
    requires Locks(s) && Mailbox(s) && Messages(s) && NextWorker(s, WorkerRun(ok, kind)) == Some(s')
    requires s.mail.task.value.op.FREE?
    ensures Messages(s')
    ensures s.mail.task.value.target !in s.freed
  {
    var t, k := RunnerIs(s);
    WorkerFrame(s, WorkerRun(ok, kind), s');
    assert Dangling(s') && !Dangling(s);
    forall x: Tid ensures HoldOk(s', x) {
      assert HoldOk(s, x);
      assert ThreadOk(s, x);
      assert Holding(s', x) == Holding(s, x);
    }
    forall n: Msg | n < |s'.poller| ensures MsgOk(s', n) {
      assert MsgOk(s, n);
      assert ThreadOk(s, s.poller[n]);
    }
  }

  lemma RunPollKeepsMessages(s: State, kind: int, s': State)
    requires Locks(s) && Mailbox(s) && Messages(s) && NextWorker(s, WorkerRun(true, kind)) == Some(s')
    requires s.mail.task.value.op.POLL?
    ensures Messages(s')
  {
    var t, k := RunnerIs(s);
    WorkerFrame(s, WorkerRun(true, kind), s');
    if s.msgLock.Some? {
      assert ThreadOk(s, s.msgLock.value);
    }
    forall x: Tid ensures HoldOk(s', x) {
      assert HoldOk(s, x);
      assert ThreadOk(s, x);
      assert x != t ==> Holding(s', x) == Holding(s, x);
    }
    forall n: Msg | n < |s'.poller| ensures MsgOk(s', n) {
      if n < |s.poller| {
        assert MsgOk(s, n);
        assert ThreadOk(s, s.poller[n]);
      }
    }
  }

  lemma RunOtherKeepsMessages(s: State, ok: bool, kind: int, s': State)
    requires Locks(s) && Mailbox(s) && Messages(s) && NextWorker(s, WorkerRun(ok, kind)) == Some(s')
    requires !s.mail.task.value.op.FREE? && !(ok && s.mail.task.value.op.POLL?)
    ensures Messages(s')
  {
    var t, k := RunnerIs(s);
    WorkerFrame(s, WorkerRun(ok, kind), s');
    if s.msgLock.Some? {
      assert ThreadOk(s, s.msgLock.value);
    }
    forall x: Tid ensures Holding(s', x) == Holding(s, x) {
      assert ThreadOk(s, x);
    }
    NeutralKeepsMessages(s, s');
  }

  lemma NextKeepsMessages(s: State, e: Event, s': State)
    requires Locks(s) && Mailbox(s) && Messages(s) && Next(s, e) == Some(s')
    ensures Messages(s')
  {
    if e.Arrive? || e.StartClose? {
      SpawnKeepsMessages(s, e, s');
    } else if e.Count? || e.Read? || e.SyncLock? || e.List? {
      CountKeepsMessages(s, e, s');
    } else if e.Enter? {
      EnterKeepsMessages(s, e.t, e.req, s');
    } else if e.AsyncLock? {
      AsyncLockKeepsMessages(s, e.t, s');
    } else if e.Submit? {
      SubmitKeepsMessages(s, e.t, s');
    } else if e.WorkerRun? {
      if s.mail.task.value.op.FREE? {
        RunFreeKeepsMessages(s, e.ok, e.kind, s');
      } else if e.ok && s.mail.task.value.op.POLL? {
        RunPollKeepsMessages(s, e.kind, s');
      } else {
        RunOtherKeepsMessages(s, e.ok, e.kind, s');
      }
    } else if WorkerStep(e) {
      WorkerIdleKeepsMessages(s, e, s');
    } else if e.Receive? {
      ReceiveKeepsMessages(s, e.t, e.choice, s');
    } else if e.MsgLock? {
      MsgLockKeepsMessages(s, e.t, s');
    } else if e.Store? {
      StoreKeepsMessages(s, e.t, s');
    } else if e.SessionLock? && s'.closed == s.closed {
      SessionLockKeepsMessages(s, e.t, e.confOk, s');
    } else {
      ClosePhaseKeepsMessages(s, e, s');
    }
  }

  // ---------- All runs ----------

  ghost predicate Inv(s: State)
  {
    Locks(s) && Mailbox(s) && Messages(s)
  }

  lemma NextKeepsInv(s: State, e: Event, s': State)
    requires Inv(s) && Next(s, e) == Some(s')
    ensures Inv(s')
  {
    NextKeepsLocks(s, e, s');
    NextKeepsMail(s, e, s');
    NextKeepsMessages(s, e, s');
  }

  lemma {:induction false} RunKeepsInv(s: State, es: seq<Event>, s': State)
    requires Inv(s) && Run(s, es) == Some(s')
    ensures Inv(s')
    decreases |es|
  {
    if es != [] {
      var s1 := Next(s, es[0]).value;
      NextKeepsInv(s, es[0], s1);
      RunKeepsInv(s1, es[1..], s');
    }
  }

  lemma ReachedInv(es: seq<Event>, s: State)
    requires Run(Init(), es) == Some(s)
    ensures Inv(s)
  {
    assert Inv(Init()) by {
      forall t: Tid ensures ThreadOk(Init(), t) {}
      forall t: Tid ensures HoldOk(Init(), t) {}
    }
    RunKeepsInv(Init(), es, s);
  }

  // ---------- What every run guarantees ----------

  /** The session was reached by some interleaving from a new connection. */
  ghost predicate Reached(es: seq<Event>, s: State)
  {
    Run(Init(), es) == Some(s)
  }

  /**
    Every message the worker returned is freed at most once, and exactly once when `Close` has completed; message ids
    are handed out as 1, 2, 3, ...
  */
  lemma MessagesFreedOnce(es: seq<Event>, s: State)
    requires Reached(es, s)
    ensures NoDup(s.freed)
    ensures forall m :: m in s.freed ==> m < |s.poller|
    ensures s.mail.destroyed ==> forall m: Msg :: m < |s.poller| ==> m in s.freed
    ensures |s.ids| == s.index && forall i :: 0 <= i < |s.ids| ==> s.ids[i] == i + 1
  {
    ReachedInv(es, s);
    if s.mail.destroyed {
      forall m: Msg | m < |s.poller| ensures m in s.freed {
        assert MsgOk(s, m);
        assert ThreadOk(s, s.poller[m]);
      }
    }
  }

  /** The message a handler frees itself: one it polled and will not store. */
  function FreesDirectly(s: State, e: Event): Option<Msg>
  {
    if e.Receive? && e.t in s.threads && s.threads[e.t].Waiting? && s.threads[e.t].k.KPoll?
       && PollResult in s.mail.replies && s.mail.replies[PollResult].value.Some?
       && !IsValidType(TypeOf(s, s.mail.replies[PollResult].value.value))
    then s.mail.replies[PollResult].value
    else if e.AsyncLock? && e.t in s.threads && s.threads[e.t].Call? && s.threads[e.t].k.KFreeOld? && s.closed
    then Some(s.threads[e.t].k.m)
    else None
  }

  /** The message that a handler has polled and hands to the driver itself: to read it, or to free it unread. */
  function UsesPolled(s: State, e: Event): Option<Msg>
  {
    if e.Receive? && e.t in s.threads && s.threads[e.t].Waiting? && s.threads[e.t].k.KPoll?
       && PollResult in s.mail.replies
    then s.mail.replies[PollResult].value
    else if e.Store? && e.t in s.threads && s.threads[e.t].Storing? then Some(s.threads[e.t].m)
    else FreesDirectly(s, e)
  }

  /** The message a step hands to the driver. */
  function Touches(s: State, e: Event): Option<Msg>
  {
    if e.WorkerRun? && s.mail.task.Some? && (s.mail.task.value.op.FREE? || FetchOp(s.mail.task.value.op)) then
      Some(s.mail.task.value.target)
    else if e.Read? then s.cur
    else UsesPolled(s, e)
  }

  lemma UsedIsHeld(s: State, e: Event)
    requires UsesPolled(s, e).Some?
    ensures Holding(s, e.t) == UsesPolled(s, e)
  {
  }

  /** A handler reads and frees by itself only a message that it polled and that is not the current one. */
  lemma PolledIsItsOwn(es: seq<Event>, s: State, e: Event)
    requires Reached(es, s) && Next(s, e).Some? && UsesPolled(s, e).Some?
    ensures var m := UsesPolled(s, e).value;
            m < |s.poller| && s.poller[m] == e.t && m !in s.freed && s.cur != Some(m)
  {
    ReachedInv(es, s);
    UsedIsHeld(s, e);
    assert HoldOk(s, e.t);
  }

  /**
    No driver call touches a freed message.  The worker and the readers touch the current message only, a handler on
    its own only one that it polled and that is not current yet; and a fetch is always for the id handed out last.
  */
  lemma OnlyTheLatestIsTouched(es: seq<Event>, s: State, e: Event)
    requires Reached(es, s) && Next(s, e).Some?
    ensures Touches(s, e).Some? ==> Touches(s, e).value < |s.poller| && Touches(s, e).value !in s.freed
    ensures Touches(s, e).Some? && (e.WorkerRun? || e.Read?) ==> Touches(s, e) == s.cur
    ensures Touches(s, e).Some? && !(e.WorkerRun? || e.Read?) ==>
              e.t in s.threads && s.poller[Touches(s, e).value] == e.t && Touches(s, e) != s.cur
    ensures e.Read? ==> s.cur.Some? && s.threads[e.t].id == s.index
    ensures e.Submit? && s.threads[e.t].k.KFetch? ==> s.threads[e.t].k.id == s.index
  {
    ReachedInv(es, s);
    if e.WorkerRun? && Touches(s, e).Some? {
      var t, k := RunnerIs(s);
    } else if e.Read? || e.Submit? {
      assert ThreadOk(s, e.t);
    } else if UsesPolled(s, e).Some? {
      PolledIsItsOwn(es, s, e);
    }
  }

  lemma ReceiveFrees(s: State, t: Tid, choice: bool, s': State)
    requires NextHandler(s, Receive(t, choice)) == Some(s')
    ensures s'.freed == s.freed || (FreesDirectly(s, Receive(t, choice)).Some?
                                    && s'.freed == s.freed + [FreesDirectly(s, Receive(t, choice)).value])
  {
  }

  lemma AsyncLockFrees(s: State, t: Tid, s': State)
    requires NextHandler(s, AsyncLock(t)) == Some(s')
    ensures s'.freed == s.freed || (FreesDirectly(s, AsyncLock(t)).Some?
                                    && s'.freed == s.freed + [FreesDirectly(s, AsyncLock(t)).value])
  {
  }

  lemma HandlerFreesNothing(s: State, e: Event, s': State)
    requires (e.MsgLock? || e.Enter? || e.SessionLock?) && NextHandler(s, e) == Some(s')
    ensures s'.freed == s.freed
  {
  }

  /** Nothing is freed that `Touches` does not name. */
  lemma FreedIsTouched(s: State, e: Event, s': State)
    requires Next(s, e) == Some(s')
    ensures s'.freed == s.freed || (Touches(s, e).Some? && s'.freed == s.freed + [Touches(s, e).value])
  {
    match e
    case Receive(t, choice) => ReceiveFrees(s, t, choice, s');
    case AsyncLock(t) => AsyncLockFrees(s, t, s');
    case MsgLock(_) | Enter(_, _) | SessionLock(_, _) => HandlerFreesNothing(s, e, s');
    case _ =>
  }

  /**
    The one-cell mailbox loses nothing.  Whenever a submitter that holds asyncLocker can enter the thread lock the cell
    is empty, the reply channels are empty and the worker is alive; the worker never sleeps while a task is in the cell;
    jobs run in the order of submission, each once, and each task is freed once; a callback never blocks; a caller
    receives the answer to its own job.
  */
  lemma MailboxLosesNothing(es: seq<Event>, s: State)
    requires Reached(es, s)
    ensures forall t :: t in s.threads && s.threads[t].Locked? && !HasThreadLock(s.mail.worker) ==>
              s.mail.task.None? && s.mail.replies == map[] && !s.mail.shutdown && !s.mail.destroyed
              && (s.mail.worker.Ready? || s.mail.worker.Asleep?)
    ensures s.mail.executed == UpTo(|s.mail.executed|) && |s.mail.executed| <= s.mail.submitted <= |s.mail.executed| + 1
    ensures s.mail.tasksFreed == UpTo(|s.mail.tasksFreed|)
    ensures |s.mail.tasksFreed| <= |s.mail.executed| <= |s.mail.tasksFreed| + 1
    ensures !s.mail.worker.Ran? && s.mail.task.Some? ==> forall ok, kind :: Next(s, WorkerRun(ok, kind)).Some?
    ensures forall t :: t in s.threads && s.threads[t].Waiting? && ReplyOn(OpOf(s.threads[t].k)) in s.mail.replies ==>
              s.mail.replies[ReplyOn(OpOf(s.threads[t].k))].id == s.threads[t].job
    ensures s.mail.destroyed ==> s.mail.task.None? && s.mail.submitted == |s.mail.executed| == |s.mail.tasksFreed|
  {
    ReachedInv(es, s);
    forall t | t in s.threads
      ensures s.threads[t].Locked? && !HasThreadLock(s.mail.worker) ==>
                s.mail.task.None? && s.mail.replies == map[] && !s.mail.shutdown && !s.mail.destroyed
                && (s.mail.worker.Ready? || s.mail.worker.Asleep?)
      ensures s.threads[t].Waiting? && ReplyOn(OpOf(s.threads[t].k)) in s.mail.replies ==>
                s.mail.replies[ReplyOn(OpOf(s.threads[t].k))].id == s.threads[t].job
    {
      assert ThreadOk(s, t);
    }
    if !s.mail.worker.Ran? && s.mail.task.Some? {
      var t, k := RunnerIs(s);
    }
  }

  /**
    A lock is held exactly by the live goroutine whose place in the code is inside its section: no goroutine returns
    with a lock.  In particular the return of wrapperFreeResult that keeps asyncLocker is unreachable.
  */
  lemma NoLockLeaks(es: seq<Event>, s: State, t: Tid)
    requires Reached(es, s)
    ensures s.asyncLock == Some(t) <==> t in s.threads && HoldsAsync(s.threads[t])
    ensures s.msgLock == Some(t) <==> t in s.threads && HoldsMsg(s.threads[t])
    ensures s.sessionLock == Some(t) <==> t in s.threads && HoldsSession(s.threads[t])
    ensures t in s.threads && s.threads[t].Call? && s.threads[t].k.KFreeOld? ==> s.cur.Some?
  {
    ReachedInv(es, s);
    assert ThreadOk(s, t);
  }

  /**
    `Close` never unsubscribes: its call of wrapperUnsubscribe finds `closed`, which `Close` itself has set, so the
    only tasks submitted after `closed` is set by the closing goroutine free the message and close the consumer.
  */
  lemma CloseNeverUnsubscribes(es: seq<Event>, s: State, t: Tid)
    requires Reached(es, s) && Next(s, Submit(t)).Some? && Closer(s.threads[t])
    ensures s.threads[t].k.KCloseFree? || s.threads[t].k.KCloseConsumer?
    ensures OpOf(s.threads[t].k) == FREE || OpOf(s.threads[t].k) == CONSUMER_CLOSE
  {
    ReachedInv(es, s);
    assert ThreadOk(s, t);
  }
}
