/**
  What the handlers of a TMQ session (controller/ws/tmq/tmq.go) do from beginning to end: for each request, from every
  state in which the locks are free, a run of its handler and of the worker, and the session it leaves.  Other
  goroutines may be anywhere outside the locks.
*/
module TmqHandlers {
  import opened Wrappers
  import Machine
  import opened TmqSession
  import opened TmqService

  /** No lock is held and the session is open. */
  ghost predicate Quiet(s: State)
  {
    && Inv(s) && Typed(s) && !s.closed
    && s.asyncLock.None? && s.msgLock.None? && s.sessionLock.None?
    && s.spawned !in s.threads && s.spawned !in s.wg
  }

  /** Every open session that a run reaches is so while nobody is inside a lock. */
  lemma QuietIff(es: seq<Event>, s: State)
    requires Reached(es, s)
    ensures Quiet(s) <==> !s.closed && s.asyncLock.None? && s.msgLock.None? && s.sessionLock.None?
  {
    ReachedTyped(es, s);
    assert ThreadOk(s, s.spawned);
  }

  // ---------- One call of the worker ----------

  /** What the driver answers. */
  function ValueOf(s: State, k: Cont, ok: bool): Option<nat>
  {
    if !ok then None
    else if k.KPoll? then Some(|s.poller|)
    else if k.KNew? then Some(s.consumers)
    else Some(0)
  }

  /** What the driver does: a poll adds a message, a free ends one, a new consumer is counted. */
  function Driven(s: State, k: Cont, t: Tid, ok: bool, kind: int): State
  {
    if OpOf(k).FREE? then s.(freed := s.freed + [Target(s, k)])
    else if ok && k.KPoll? then s.(poller := s.poller + [t], types := s.types + [kind])
    else if ok && k.KNew? then s.(consumers := s.consumers + 1)
    else s
  }

  /** The answer to the call of `t` is in its channel, and nothing else has happened. */
  ghost predicate Answered(s: State, s': State, t: Tid, k: Cont, ok: bool, kind: int)
  {
    && Place(s', t) == Some(Waiting(s.mail.submitted, k))
    && s'.mail.submitted == s.mail.submitted + 1
    && ReplyOn(OpOf(k)) in s'.mail.replies && s'.mail.replies[ReplyOn(OpOf(k))].value == ValueOf(s, k, ok)
    && s' == Driven(s, k, t, ok, kind).(
               mail := s'.mail, asyncLock := Some(t), threads := s.threads[t := Waiting(s.mail.submitted, k)])
  }

  /** The driver runs the task of `t`. */
  lemma RunsIs(s: State, id: nat, t: Tid, k: Cont, ok: bool, kind: int)
    requires ProperCont(k) && s.mail.replies == map[]
    ensures var s2 := Runs(s, Job(id, t, OpOf(k), Target(s, k)), ok, kind);
            && s2.mail.submitted == s.mail.submitted
            && s2.mail.replies == map[ReplyOn(OpOf(k)) := Reply(id, ValueOf(s, k, ok))]
            && s2 == Driven(s, k, t, ok, kind).(mail := s2.mail)
  {
  }

  lemma SubmitIs(s: State, t: Tid, k: Cont, s1: State)
    requires Inv(s) && t in s.threads && s.threads[t] == Locked(k) && NextHandler(s, Submit(t)) == Some(s1)
    ensures s1.mail.task == Some(Job(s.mail.submitted, t, OpOf(k), Target(s, k))) && s1.mail.replies == map[]
    ensures s1 == s.(mail := s1.mail, threads := s.threads[t := Waiting(s.mail.submitted, k)])
    ensures s1.mail.submitted == s.mail.submitted + 1
    ensures WillLook(s1.mail.worker) && !s1.mail.shutdown && ProperCont(k)
  {
    assert ThreadOk(s, t);
  }

  /** The driver looks at nothing but its objects. */
  lemma DrivenBy(s: State, s1: State, k: Cont, t: Tid, ok: bool, kind: int)
    requires s1 == s.(mail := s1.mail, threads := s1.threads)
    ensures Driven(s1, k, t, ok, kind) == Driven(s, k, t, ok, kind).(mail := s1.mail, threads := s1.threads)
    ensures ValueOf(s1, k, ok) == ValueOf(s, k, ok) && Target(s1, k) == Target(s, k)
  {
  }

  lemma WorkerAnswers(s: State, t: Tid, k: Cont, ok: bool, kind: int, s1: State)
    requires Inv(s) && t in s.threads && s.threads[t] == Locked(k) && NextHandler(s, Submit(t)) == Some(s1)
    ensures NextWorker(s1, WorkerRun(ok, kind)).Some?
    ensures var s2 := NextWorker(s1, WorkerRun(ok, kind)).value;
            && s2.mail.submitted == s.mail.submitted + 1
            && s2.mail.replies == map[ReplyOn(OpOf(k)) := Reply(s.mail.submitted, ValueOf(s, k, ok))]
            && s2 == Driven(s, k, t, ok, kind).(mail := s2.mail, threads := s.threads[t := Waiting(s.mail.submitted, k)])
  {
    SubmitIs(s, t, k, s1);
    RunsIs(s1, s.mail.submitted, t, k, ok, kind);
    DrivenBy(s, s1, k, t, ok, kind);
  }

  lemma AnsweredFrom(s: State, s1: State, s': State, t: Tid, k: Cont, ok: bool, kind: int)
    requires s1 == s.(mail := s1.mail) && s1.mail.submitted == s.mail.submitted && Answered(s1, s', t, k, ok, kind)
    ensures Answered(s, s', t, k, ok, kind)
  {
  }

  /** A call that finds asyncLocker free is answered. */
  lemma CallIsAnswered(s0: State, es0: seq<Event>, s: State, t: Tid, k: Cont, ok: bool, kind: int)
    returns (es: seq<Event>, s': State)
    requires Run(s0, es0) == Some(s) && Inv(s) && t in s.threads && s.threads[t] == Locked(k)
    ensures Run(s0, es) == Some(s') && Inv(s') && Answered(s, s', t, k, ok, kind)
  {
    if HasThreadLock(s.mail.worker) {
      var e, s1 := WorkerLetsGo(s);
      Machine.RunOn(Next, s0, es0, s, e, s1);
      es, s' := SubmitIsAnswered(s0, es0 + [e], s1, t, k, ok, kind);
      AnsweredFrom(s, s1, s', t, k, ok, kind);
    } else {
      es, s' := SubmitIsAnswered(s0, es0, s, t, k, ok, kind);
    }
  }

  lemma SubmitIsAnswered(s0: State, es0: seq<Event>, s: State, t: Tid, k: Cont, ok: bool, kind: int)
    returns (es: seq<Event>, s': State)
    requires Run(s0, es0) == Some(s) && Inv(s) && t in s.threads && s.threads[t] == Locked(k)
    requires !HasThreadLock(s.mail.worker)
    ensures Run(s0, es) == Some(s') && Inv(s') && Answered(s, s', t, k, ok, kind)
  {
    assert ThreadOk(s, t);
    var s1 := NextHandler(s, Submit(t)).value;
    Machine.RunOn(Next, s0, es0, s, Submit(t), s1);
    NextKeepsInv(s, Submit(t), s1);
    WorkerAnswers(s, t, k, ok, kind, s1);
    var s2 := NextWorker(s1, WorkerRun(ok, kind)).value;
    Machine.RunOn(Next, s0, es0 + [Submit(t)], s1, WorkerRun(ok, kind), s2);
    NextKeepsInv(s1, WorkerRun(ok, kind), s2);
    es, s' := es0 + [Submit(t)] + [WorkerRun(ok, kind)], s2;
  }

  lemma AtForgets(s: State, t: Tid, pc: PC)
    requires t in s.threads
    ensures var s1 := s.(threads := s.threads[t := pc]);
            && s1.threads - {t} == s.threads - {t}
            && forall pc' {:trigger s.threads[t := pc']} :: s1.threads[t := pc'] == s.threads[t := pc']
  {
  }

  /** The goroutine's place before the answer does not matter. */
  lemma ResumesForgets(s: State, t: Tid, pc: PC, k: Cont, value: Option<nat>, choice: bool)
    requires t in s.threads
    ensures Resumes(s.(threads := s.threads[t := pc]), t, k, value, choice) == Resumes(s, t, k, value, choice)
  {
    AtForgets(s, t, pc);
  }

  /** The goroutine after its call, the driver having done its part. */
  ghost predicate Returns(s: State, s': State, t: Tid, k: Cont, ok: bool, kind: int, choice: bool)
  {
    && Inv(s') && s'.asyncLock.None? && s'.mail.submitted == s.mail.submitted + 1
    && s' == Resumes(Driven(s, k, t, ok, kind).(mail := s'.mail), t, k, ValueOf(s, k, ok), choice)
  }

  lemma AnsweredIs(s: State, s1: State, t: Tid, k: Cont, ok: bool, kind: int, mail: Mail)
    requires s.asyncLock.None? && t in s.threads && Answered(s.(asyncLock := Some(t)), s1, t, k, ok, kind)
    ensures var d := Driven(s, k, t, ok, kind).(mail := mail);
            && t in d.threads
            && s1.(mail := mail, asyncLock := None) == d.(threads := d.threads[t := Waiting(s.mail.submitted, k)])
  {
  }

  lemma AnswerIs(s: State, s1: State, t: Tid, k: Cont, ok: bool, kind: int, choice: bool)
    requires s.asyncLock.None? && t in s.threads && Answered(s.(asyncLock := Some(t)), s1, t, k, ok, kind)
    ensures NextHandler(s1, Receive(t, choice)).Some?
    ensures var s2 := NextHandler(s1, Receive(t, choice)).value;
            && s2.mail.submitted == s.mail.submitted + 1
            && s2 == Resumes(Driven(s, k, t, ok, kind).(mail := s2.mail), t, k, ValueOf(s, k, ok), choice)
  {
    var mail := s1.mail.(replies := s1.mail.replies - {ReplyOn(OpOf(k))});
    ReceiveIs(s1, t, choice, NextHandler(s1, Receive(t, choice)).value);
    AnsweredIs(s, s1, t, k, ok, kind, mail);
    ResumesForgets(Driven(s, k, t, ok, kind).(mail := mail), t, Waiting(s.mail.submitted, k), k, ValueOf(s, k, ok), choice);
  }

  lemma AnswerReturns(s: State, s1: State, t: Tid, k: Cont, ok: bool, kind: int, choice: bool)
    requires s.asyncLock.None? && t in s.threads && Inv(s1) && Answered(s.(asyncLock := Some(t)), s1, t, k, ok, kind)
    ensures Next(s1, Receive(t, choice)).Some?
    ensures Returns(s, Next(s1, Receive(t, choice)).value, t, k, ok, kind, choice)
  {
    AnswerIs(s, s1, t, k, ok, kind, choice);
    NextKeepsInv(s1, Receive(t, choice), Next(s1, Receive(t, choice)).value);
  }

  /** A call that finds asyncLocker free and the session open takes it. */
  lemma CallLocks(s: State, t: Tid, k: Cont)
    requires Inv(s) && t in s.threads && s.threads[t] == Call(k)
    requires s.asyncLock.None? && !s.closed && (k.KFreeOld? ==> s.cur.Some?)
    ensures Next(s, AsyncLock(t)) == Some(At(s.(asyncLock := Some(t)), t, Locked(k)))
    ensures Inv(At(s.(asyncLock := Some(t)), t, Locked(k)))
  {
    NextKeepsInv(s, AsyncLock(t), NextHandler(s, AsyncLock(t)).value);
  }

  lemma AnsweredForgets(s: State, s1: State, t: Tid, k: Cont, ok: bool, kind: int)
    requires t in s.threads && Answered(At(s, t, Locked(k)), s1, t, k, ok, kind)
    ensures Answered(s, s1, t, k, ok, kind)
  {
    var pc := Waiting(s.mail.submitted, k);
    assert s.threads[t := Locked(k)][t := pc] == s.threads[t := pc];
  }

  lemma CallReturns(s0: State, es0: seq<Event>, s: State, t: Tid, k: Cont, ok: bool, kind: int, choice: bool)
    returns (es: seq<Event>, s': State)
    requires Run(s0, es0) == Some(s) && Inv(s) && t in s.threads && s.threads[t] == Call(k)
    requires s.asyncLock.None? && !s.closed && (k.KFreeOld? ==> s.cur.Some?)
    ensures Run(s0, es) == Some(s') && Returns(s, s', t, k, ok, kind, choice)
  {
    var s1 := At(s.(asyncLock := Some(t)), t, Locked(k));
    CallLocks(s, t, k);
    Machine.RunOn(Next, s0, es0, s, AsyncLock(t), s1);
    var es1, s2 := CallIsAnswered(s0, es0 + [AsyncLock(t)], s1, t, k, ok, kind);
    AnsweredForgets(s.(asyncLock := Some(t)), s2, t, k, ok, kind);
    AnswerReturns(s, s2, t, k, ok, kind, choice);
    s' := Next(s2, Receive(t, choice)).value;
    Machine.RunOn(Next, s0, es1, s2, Receive(t, choice), s');
    es := es1 + [Receive(t, choice)];
  }

  // ---------- The handlers ----------

  lemma IsCounted(s: State) returns (es: seq<Event>, s': State)
    requires Quiet(s)
    ensures Run(s, es) == Some(s') && Inv(s') && s' == With(s, Counted)
  {
    var t := s.spawned;
    var s1 := At(s, t, Arrived).(spawned := s.spawned + 1);
    Machine.RunOn(Next, s, [], s, Arrive, s1);
    NextKeepsInv(s, Arrive, s1);
    s' := With(s, Counted);
    assert s.threads[t := Arrived][t := Counted] == s.threads[t := Counted];
    Machine.RunOn(Next, s, [] + [Arrive], s1, Count(t), s');
    NextKeepsInv(s1, Count(t), s');
    es := [] + [Arrive] + [Count(t)];
  }

  lemma EntersAt(s: State, req: Request)
    requires ProperRequest(req) && !s.closed && (s.consumer.Some? || req.SubscribeReq? || req.UnsubscribeReq?)
    ensures NextHandler(With(s, Counted), Enter(s.spawned, req)) == Some(With(s, Entered(req)))
  {
    assert s.threads[s.spawned := Counted][s.spawned := Entered(req)] == s.threads[s.spawned := Entered(req)];
  }

  /** A request that passes its first tests. */
  lemma Begins(s: State, req: Request) returns (es: seq<Event>, s': State)
    requires Quiet(s) && ProperRequest(req) && (s.consumer.Some? || req.SubscribeReq? || req.UnsubscribeReq?)
    ensures Run(s, es) == Some(s') && Inv(s') && s' == With(s, Entered(req))
  {
    var es1, s1 := IsCounted(s);
    s' := With(s, Entered(req));
    EntersAt(s, req);
    Machine.RunOn(Next, s, es1, s1, Enter(s.spawned, req), s');
    NextKeepsInv(s1, Enter(s.spawned, req), s');
    es := es1 + [Enter(s.spawned, req)];
  }

  /** The messages that a new one replaces. */
  function Replaced(s: State): seq<Msg>
  {
    if s.cur.Some? then [s.cur.value] else []
  }

  /** The polled message becomes the current one, with its type and the next id; the old one is freed. */
  function Stored(s: State, m: Msg, mail: Mail): State
  {
    s.(mail := mail, freed := s.freed + Replaced(s), cur := Some(m), curType := TypeOf(s, m),
       index := s.index + 1, ids := s.ids + [s.index + 1])
  }

  lemma StoreEnds(s0: State, es0: seq<Event>, s: State, t: Tid, m: Msg) returns (es: seq<Event>, s': State)
    requires Run(s0, es0) == Some(s) && Inv(s) && t in s.threads && s.threads[t] == PC.Storing(m) && s.msgLock == Some(t)
    ensures Run(s0, es) == Some(s') && Inv(s')
    ensures s' == Finish(s.(msgLock := None, cur := Some(m), curType := TypeOf(s, m), index := s.index + 1,
                            ids := s.ids + [s.index + 1]), t)
  {
    s' := NextHandler(s, Store(t)).value;
    Machine.RunOn(Next, s0, es0, s, Store(t), s');
    NextKeepsInv(s, Store(t), s');
    es := es0 + [Store(t)];
  }

  /** The message lock is taken; the record has a message or not. */
  lemma StoreMayLock(s: State, t: Tid, m: Msg)
    requires Inv(s) && t in s.threads && s.threads[t] == WantMsg(MStore(m)) && s.msgLock.None?
    ensures var s1 := At(s.(msgLock := Some(t)), t, if s.cur.Some? then Call(KFreeOld(m)) else PC.Storing(m));
            Next(s, MsgLock(t)) == Some(s1) && Inv(s1)
  {
    NextKeepsInv(s, MsgLock(t), NextHandler(s, MsgLock(t)).value);
  }

  lemma StoreLocks(s0: State, es0: seq<Event>, s: State, t: Tid, m: Msg) returns (es: seq<Event>, s': State)
    requires Run(s0, es0) == Some(s) && Inv(s) && t in s.threads && s.threads[t] == WantMsg(MStore(m))
    requires s.asyncLock.None? && s.msgLock.None? && !s.closed
    ensures Run(s0, es) == Some(s') && Inv(s')
    ensures s' == At(s.(mail := s'.mail, msgLock := Some(t), freed := s.freed + Replaced(s)), t, PC.Storing(m))
    ensures s'.mail.submitted == s.mail.submitted + |Replaced(s)|
  {
    StoreMayLock(s, t, m);
    es, s' := es0 + [MsgLock(t)], Next(s, MsgLock(t)).value;
    Machine.RunOn(Next, s0, es0, s, MsgLock(t), s');
    if s.cur.Some? {
      var s1 := s';
      es, s' := CallReturns(s0, es, s1, t, KFreeOld(m), true, 0, false);
      assert s1.threads[t := PC.Storing(m)] == s.threads[t := PC.Storing(m)];
    }
  }

  lemma StoreCompletes(s0: State, es0: seq<Event>, s: State, t: Tid, m: Msg) returns (es: seq<Event>, s': State)
    requires Run(s0, es0) == Some(s) && Inv(s) && t in s.threads && s.threads[t] == WantMsg(MStore(m))
    requires s.asyncLock.None? && s.msgLock.None? && !s.closed
    ensures Run(s0, es) == Some(s') && Inv(s') && s' == Finish(Stored(s, m, s'.mail), t)
    ensures s'.mail.submitted == s.mail.submitted + |Replaced(s)|
  {
    var es1, s1 := StoreLocks(s0, es0, s, t, m);
    es, s' := StoreEnds(s0, es1, s1, t, m);
    assert s.threads[t := PC.Storing(m)] - {t} == s.threads - {t};
  }

  // ---------- Poll ----------

  /** What a poll leaves: nothing, a message freed because of its type, or a new current message. */
  function Polled(s: State, t: Tid, ok: bool, kind: int, mail: Mail): State
  {
    var d := s.(mail := mail, poller := s.poller + [t], types := s.types + [kind]);
    if !ok then s.(mail := mail)
    else if kind !in {TMQ_RES_DATA, TMQ_RES_TABLE_META, TMQ_RES_METADATA} then d.(freed := d.freed + [|s.poller|])
    else Stored(d, |s.poller|, mail)
  }

  /** The number of tasks of a poll. */
  function PollTasks(s: State, ok: bool, kind: int): nat
  {
    1 + if ok && IsValidType(kind) then |Replaced(s)| else 0
  }

  lemma PollCompletes(s0: State, es0: seq<Event>, s: State, t: Tid, ok: bool, kind: int)
    returns (es: seq<Event>, s': State)
    requires Run(s0, es0) == Some(s) && Inv(s) && t in s.threads && s.threads[t] == Call(KPoll)
    requires s.asyncLock.None? && s.msgLock.None? && !s.closed && |s.types| == |s.poller|
    ensures Run(s0, es) == Some(s') && s' == Finish(Polled(s, t, ok, kind, s'.mail), t)
    ensures s'.mail.submitted == s.mail.submitted + PollTasks(s, ok, kind)
  {
    es, s' := CallReturns(s0, es0, s, t, KPoll, ok, kind, false);
    if ok && IsValidType(kind) {
      var m, s1 := |s.poller|, s';
      assert TypeOf(Driven(s, KPoll, t, ok, kind), m) == kind;
      es, s' := StoreCompletes(s0, es, s1, t, m);
      assert s.threads[t := WantMsg(MStore(m))] - {t} == s.threads - {t};
    }
  }

  /** A poll that has committed, if it does so first. */
  lemma PollBegins(s: State, commitFirst: bool, ok: bool) returns (es: seq<Event>, s': State)
    requires Quiet(s) && s.consumer.Some?
    ensures Run(s, es) == Some(s') && Inv(s') && s' == With(s, Call(KPoll)).(mail := s'.mail)
    ensures s'.mail.submitted == s.mail.submitted + if commitFirst then 1 else 0
  {
    es, s' := Begins(s, PollReq(commitFirst));
    if commitFirst {
      var s1 := s';
      es, s' := CallReturns(s, es, s1, s.spawned, KAutoCommit, ok, 0, false);
      assert s.threads[s.spawned := Call(KAutoCommit)][s.spawned := Call(KPoll)] == s.threads[s.spawned := Call(KPoll)];
    }
  }

  lemma PolledWith(s: State, mail: Mail, ok: bool, kind: int, mail': Mail)
    requires Quiet(s)
    ensures Finish(Polled(With(s, Call(KPoll)).(mail := mail), s.spawned, ok, kind, mail'), s.spawned)
         == Polled(s, s.spawned, ok, kind, mail').(spawned := s.spawned + 1)
  {
    Leaves(s, Call(KPoll));
  }

  /** Poll, after a commit or at once, whether or not the driver has a message, and whatever its type. */
  lemma PollDoes(s: State, commitFirst: bool, commits: bool, ok: bool, kind: int) returns (es: seq<Event>, s': State)
    requires Quiet(s) && s.consumer.Some?
    ensures Run(s, es) == Some(s')
    ensures s' == Polled(s, s.spawned, ok, kind, s'.mail).(spawned := s.spawned + 1)
    ensures s'.mail.submitted == s.mail.submitted + PollTasks(s, ok, kind) + if commitFirst then 1 else 0
  {
    var es1, s1 := PollBegins(s, commitFirst, commits);
    es, s' := PollCompletes(s, es1, s1, s.spawned, ok, kind);
    PolledWith(s, s1.mail, ok, kind, s'.mail);
  }

  // ---------- Requests that only ask ----------

  /** Commit, assignment, seek, committed and position: one task, and the session is as before. */
  lemma SimpleDoes(s: State, op: Op, ok: bool) returns (es: seq<Event>, s': State)
    requires Quiet(s) && s.consumer.Some? && SimpleOp(op)
    ensures Run(s, es) == Some(s') && s' == s.(mail := s'.mail, spawned := s.spawned + 1)
    ensures s'.mail.submitted == s.mail.submitted + 1
  {
    var es1, s1 := Begins(s, Simple(op));
    es, s' := CallReturns(s, es1, s1, s.spawned, KSimple(op), ok, 0, false);
    Leaves(s, Call(KSimple(op)));
  }

  lemma FetchBegins(s: State, op: Op) returns (es: seq<Event>, s': State)
    requires Quiet(s) && FetchOp(op) && FirstTask(s, FetchReq(op, s.index)).Some?
    ensures Run(s, es) == Some(s') && Inv(s')
    ensures s' == With(s, Call(KFetch(op, s.index))).(msgLock := Some(s.spawned))
  {
    var t, pc := s.spawned, Call(KFetch(op, s.index));
    var es1, s1 := Begins(s, FetchReq(op, s.index));
    s' := With(s, pc).(msgLock := Some(t));
    assert s.threads[t := WantMsg(MFetch(op, s.index))][t := pc] == s.threads[t := pc];
    assert NextHandler(s1, MsgLock(t)) == Some(s');
    Machine.RunOn(Next, s, es1, s1, MsgLock(t), s');
    NextKeepsInv(s1, MsgLock(t), s');
    es := es1 + [MsgLock(t)];
  }

  /** A fetch for the current message: one task and a read, and the session is as before. */
  lemma FetchDoes(s: State, op: Op, ok: bool) returns (es: seq<Event>, s': State)
    requires Quiet(s) && FetchOp(op) && FirstTask(s, FetchReq(op, s.index)).Some?
    ensures Run(s, es) == Some(s') && s' == s.(mail := s'.mail, spawned := s.spawned + 1)
    ensures s'.mail.submitted == s.mail.submitted + 1
  {
    var t, k := s.spawned, KFetch(op, s.index);
    var es1, s1 := FetchBegins(s, op);
    var es2, s2 := CallReturns(s, es1, s1, t, k, ok, 0, false);
    assert s.threads[t := Call(k)][t := Reading(s.index)] == s.threads[t := Reading(s.index)];
    s' := Finish(s2.(msgLock := None), t);
    Machine.RunOn(Next, s, es2, s2, Read(t), s');
    Leaves(s, Reading(s.index));
    es := es2 + [Read(t)];
  }

  // ---------- Subscriptions ----------

  lemma SessionBegins(s: State, req: Request, k: Cont) returns (es: seq<Event>, s': State)
    requires Quiet(s)
    requires if req.UnsubscribeReq? then s.consumer.Some? && k.KUnsub?
             else req.SubscribeReq? && if s.consumer.None? then k.KNew? else s.unsubscribed && k.KResubscribe?
    ensures Run(s, es) == Some(s') && Inv(s') && s' == With(s, Call(k)).(sessionLock := Some(s.spawned))
  {
    var t := s.spawned;
    var es1, s1 := Begins(s, req);
    s' := With(s, Call(k)).(sessionLock := Some(t));
    assert s.threads[t := Entered(req)][t := Call(k)] == s.threads[t := Call(k)];
    assert NextHandler(s1, SessionLock(t, true)) == Some(s');
    Machine.RunOn(Next, s, es1, s1, SessionLock(t, true), s');
    NextKeepsInv(s1, SessionLock(t, true), s');
    es := es1 + [SessionLock(t, true)];
  }

  /** The first subscribe: a new consumer, subscribed, is the consumer of the session. */
  lemma SubscribeDoes(s: State) returns (es: seq<Event>, s': State)
    requires Quiet(s) && s.consumer.None?
    ensures Run(s, es) == Some(s')
    ensures s' == s.(mail := s'.mail, spawned := s.spawned + 1, consumers := s.consumers + 1,
                     consumer := Some(s.consumers))
    ensures s'.mail.submitted == s.mail.submitted + 2
  {
    var t, c := s.spawned, s.consumers;
    var es1, s1 := SessionBegins(s, SubscribeReq, KNew);
    var es2, s2 := CallReturns(s, es1, s1, t, KNew, true, 0, true);
    assert s.threads[t := Call(KNew)][t := Call(KSubscribe(c))] == s.threads[t := Call(KSubscribe(c))];
    es, s' := CallReturns(s, es2, s2, t, KSubscribe(c), true, 0, true);
    Leaves(s, Call(KSubscribe(c)));
  }

  /** A subscribe after an unsubscribe: the consumer is subscribed again, if the driver agrees. */
  lemma ResubscribeDoes(s: State, ok: bool) returns (es: seq<Event>, s': State)
    requires Quiet(s) && s.consumer.Some? && s.unsubscribed
    ensures Run(s, es) == Some(s') && s' == s.(mail := s'.mail, spawned := s.spawned + 1, unsubscribed := !ok)
    ensures s'.mail.submitted == s.mail.submitted + 1
  {
    var es1, s1 := SessionBegins(s, SubscribeReq, KResubscribe);
    es, s' := CallReturns(s, es1, s1, s.spawned, KResubscribe, ok, 0, false);
    Leaves(s, Call(KResubscribe));
  }

  lemma UnsubscribeLocks(s: State, t: Tid)
    requires Inv(s) && t in s.threads && s.threads[t] == WantMsg(MUnsub) && s.msgLock.None?
    ensures var s1 := if s.cur.Some? then At(s.(msgLock := Some(t)), t, Call(KUnsubFree))
                      else Finish(s.(unsubscribed := true, sessionLock := None), t);
            Next(s, MsgLock(t)) == Some(s1) && Inv(s1)
  {
    NextKeepsInv(s, MsgLock(t), NextHandler(s, MsgLock(t)).value);
  }

  lemma UnsubscribeFrees(s0: State, es0: seq<Event>, s: State, t: Tid) returns (es: seq<Event>, s': State)
    requires Run(s0, es0) == Some(s) && Inv(s) && t in s.threads && s.threads[t] == WantMsg(MUnsub)
    requires s.asyncLock.None? && s.msgLock.None? && !s.closed
    ensures Run(s0, es) == Some(s')
    ensures s' == Finish(s.(mail := s'.mail, freed := s.freed + Replaced(s), cur := None, unsubscribed := true,
                            sessionLock := None), t)
    ensures s'.mail.submitted == s.mail.submitted + |Replaced(s)|
  {
    UnsubscribeLocks(s, t);
    es, s' := es0 + [MsgLock(t)], Next(s, MsgLock(t)).value;
    Machine.RunOn(Next, s0, es0, s, MsgLock(t), s');
    if s.cur.Some? {
      var s1 := s';
      es, s' := CallReturns(s0, es, s1, t, KUnsubFree, true, 0, false);
      assert s1.threads - {t} == s.threads - {t};
    }
  }

  /** Unsubscribe: the driver is told, the current message is freed, and the session knows. */
  lemma UnsubscribeDoes(s: State) returns (es: seq<Event>, s': State)
    requires Quiet(s) && s.consumer.Some?
    ensures Run(s, es) == Some(s')
    ensures s' == s.(mail := s'.mail, spawned := s.spawned + 1, freed := s.freed + Replaced(s), cur := None,
                     unsubscribed := true)
    ensures s'.mail.submitted == s.mail.submitted + 1 + |Replaced(s)|
  {
    var t := s.spawned;
    var es1, s1 := SessionBegins(s, UnsubscribeReq, KUnsub);
    var es2, s2 := CallReturns(s, es1, s1, t, KUnsub, true, 0, false);
    assert s.threads[t := Call(KUnsub)][t := WantMsg(MUnsub)] == s.threads[t := WantMsg(MUnsub)];
    es, s' := UnsubscribeFrees(s, es2, s2, t);
    Leaves(s, WantMsg(MUnsub));
  }
}
