/**
  What each call of the pool of tools/connectpool/pool.go comes to in a state that a run can reach, told by the
  connections, the queue and the answers there are: when it takes an idle connection, makes a new one, queues or is
  refused, and where a connection goes that is put back.
*/
module ConnectPoolCalls {
  import opened Wrappers
  import Machine
  import opened Sequences
  import opened ConnectPool
  import ConnectPoolObject

  /** The call returns this answer; connections, waiters and the queue stay as they are. */
  predicate Refuses(s: State, s': State, reply: GetReply)
  {
    && s'.replies == s.replies + [reply]
    && s'.pool == s.pool && s'.held == s.held && s'.waiters == s.waiters && s'.delivered == s.delivered
  }

  /** The answer tells which of two refusals it is. */
  lemma RefusesOnce(s: State, s': State, a: GetReply, b: GetReply)
    requires Refuses(s, s', a) && Refuses(s, s', b)
    ensures a == b
  {
    assert s'.replies[|s.replies|] == a;
  }

  lemma OneRefusal(s: State, s': State, a: GetReply)
    requires Refuses(s, s', a)
    ensures forall b :: Refuses(s, s', b) ==> b == a
  {
    forall b | Refuses(s, s', b) ensures b == a {
      RefusesOnce(s, s', a, b);
    }
  }

  // ---------- The calls of GetWithContext ----------

  /** A call on a released pool is refused, any other one goes on to look for an idle connection. */
  lemma CallLooksIff(s: State)
    ensures Next(s, GetConns).Some? <==> !s.releasing
    ensures !s.releasing ==>
              var s' := Next(s, GetConns).value;
              && (Refuses(s, s', ErrClosed) <==> s.pool.released)
              && (s'.fast == s.fast + 1 <==> !s.pool.released)
  {
  }

  /**
    It takes the connection that has been idle longest, exactly when there is one; else it is refused when the pool
    was released meanwhile, and goes on to the locked section when not.
  */
  lemma IdleIsTakenIff(maxActive: nat, maxWait: int, initial: nat, es: seq<Event>, s: State)
    requires Reached(maxActive, maxWait, initial, es, s)
    ensures Next(s, Select).Some? <==> s.fast > 0
    ensures s.fast > 0 ==>
              var s' := Next(s, Select).value;
              && (|s'.held| > |s.held| <==> s.pool.conns != [])
              && (s.pool.conns != [] ==>
                    var c := s.pool.conns[0];
                    && c !in s.held && s'.held == s.held[c := InUse] && s'.pool == s.pool.(conns := s.pool.conns[1..])
                    && s'.replies == s.replies + [Take(c)] && s'.waiters == s.waiters)
              && (Refuses(s, s', ErrClosed) <==> s.pool.conns == [] && s.pool.released)
              && (s'.slow == s.slow + 1 <==> s.pool.conns == [] && !s.pool.released)
  {
    ReachedInv(maxActive, maxWait, initial, es, s);
    var p := s.pool;
    if s.fast > 0 && p.conns != [] {
      OnlyThere(p.conns, s.held.Keys, p.slots, p.closed, p.made, p.conns[0]);
    }
  }

  /**
    The locked section gives one of five answers, each exactly under its own condition: the pool is released; it may
    open no more connections and the queue is full, or has room; it may, and the factory fails, or succeeds.
  */
  lemma LockedAnswersIff(maxActive: nat, maxWait: int, initial: nat, es: seq<Event>, s: State, ok: bool)
    requires Reached(maxActive, maxWait, initial, es, s)
    ensures Next(s, Locked(ok)).Some? <==> s.slow > 0 && !s.releasing
    ensures s.slow > 0 && !s.releasing ==>
              var s', room := Next(s, Locked(ok)).value, s.pool.made - |s.pool.closed| < s.pool.maxActive;
              && (Refuses(s, s', ErrClosed) <==> s.pool.released)
              && (Refuses(s, s', ErrMaxWait) <==>
                    !s.pool.released && !room && 0 < s.pool.maxWait == |s.pool.connReqs|)
              && (|s'.waiters| > |s.waiters| <==>
                    !s.pool.released && !room && !(0 < s.pool.maxWait == |s.pool.connReqs|))
              && (Refuses(s, s', ErrFactory) <==> !s.pool.released && room && !ok)
              && (s'.pool.made > s.pool.made <==> !s.pool.released && room && ok)
  {
    ReachedInv(maxActive, maxWait, initial, es, s);
    if s.slow > 0 && !s.releasing {
      var s', p := Next(s, Locked(ok)).value, s.pool;
      if p.released {
        OneRefusal(s, s', ErrClosed);
      } else if p.openingConns < p.maxActive {
        if !ok {
          OneRefusal(s, s', ErrFactory);
        }
      } else if QueueFull(s) {
        OneRefusal(s, s', ErrMaxWait);
      }
    }
  }

  /** A call that queues is the last in the queue, with an empty channel of its own. */
  lemma QueuesLast(s: State, ok: bool, s': State)
    requires Inv(s) && Next(s, Locked(ok)) == Some(s') && |s'.waiters| > |s.waiters|
    ensures s'.waiters == s.waiters + [Waiting] && s'.pool.connReqs == s.pool.connReqs + [|s.waiters|]
    ensures s'.pool.slots == s.pool.slots + [Empty]
    ensures s' == s.(pool := s.pool.(connReqs := s'.pool.connReqs, slots := s'.pool.slots), waiters := s'.waiters,
                     slow := s.slow - 1)
  {
  }

  // ---------- Limits ----------

  lemma StepKeepsLimits(s: State, e: Event, s': State)
    requires Next(s, e) == Some(s')
    ensures s'.pool.maxActive == s.pool.maxActive && s'.pool.maxWait == s.pool.maxWait
  {
  }

  lemma {:induction false} RunKeepsLimits(s: State, es: seq<Event>, s': State)
    requires Run(s, es) == Some(s')
    ensures s'.pool.maxActive == s.pool.maxActive && s'.pool.maxWait == s.pool.maxWait
    decreases |es|
  {
    if es != [] {
      StepKeepsLimits(s, es[0], Next(s, es[0]).value);
      RunKeepsLimits(Next(s, es[0]).value, es[1..], s');
    }
  }

  lemma NewIsNotHeld(s: State)
    requires Conserved(s)
    ensures s.pool.made !in s.held
  {
    OnlyThere(s.pool.conns, s.held.Keys, s.pool.slots, s.pool.closed, s.pool.made, s.pool.made);
  }

  /** With fewer than `maxActive` connections open and a working factory, the call has a new connection for its own. */
  lemma RoomMeansNewConnection(maxActive: nat, maxWait: int, initial: nat, es: seq<Event>, s: State)
    requires Reached(maxActive, maxWait, initial, es, s) && s.slow > 0 && !s.pool.released
    requires s.pool.made - |s.pool.closed| < maxActive
    ensures s.pool.made !in s.held
    ensures Next(s, Locked(true)) ==
            Some(s.(pool := s.pool.(made := s.pool.made + 1, openingConns := s.pool.openingConns + 1),
                    held := s.held[s.pool.made := InUse], replies := s.replies + [Take(s.pool.made)],
                    slow := s.slow - 1))
  {
    RunKeepsLimits(Init(maxActive, maxWait, initial), es, s);
    ReachedInv(maxActive, maxWait, initial, es, s);
    NewIsNotHeld(s);
  }

  /** Nothing but the locked section makes a call wait, and only while `maxActive` connections are open. */
  lemma QueuesOnlyWhenSaturated(maxActive: nat, maxWait: int, initial: nat, es: seq<Event>, s: State, e: Event,
                                s': State)
    requires Reached(maxActive, maxWait, initial, es, s) && Next(s, e) == Some(s') && |s'.waiters| > |s.waiters|
    ensures e.Locked? && !s.pool.released && s.pool.made - |s.pool.closed| == maxActive
    ensures 0 < maxWait ==> |s.pool.connReqs| < maxWait
  {
    RunKeepsLimits(Init(maxActive, maxWait, initial), es, s);
    ReachedInv(maxActive, maxWait, initial, es, s);
    if e.Locked? {
      LockedAnswersIff(maxActive, maxWait, initial, es, s, e.ok);
    }
  }

  // ---------- Every call is accounted for ----------

  /** The number of calls of `GetWithContext` that the events start. */
  function Calls(es: seq<Event>): nat
  {
    if es == [] then 0 else Calls(es[1..]) + if es[0].GetConns? then 1 else 0
  }

  function Known(s: State): nat
  {
    |s.replies| + |s.waiters| + s.fast + s.slow
  }

  lemma StepKnows(s: State, e: Event, s': State)
    requires Next(s, e) == Some(s')
    ensures Known(s') == Known(s) + if e.GetConns? then 1 else 0
  {
  }

  lemma {:induction false} RunKnows(s: State, es: seq<Event>, s': State)
    requires Run(s, es) == Some(s')
    ensures Known(s') == Known(s) + Calls(es)
    decreases |es|
  {
    if es != [] {
      var s1 := Next(s, es[0]).value;
      StepKnows(s, es[0], s1);
      RunKnows(s1, es[1..], s');
    }
  }

  /** Each call has its answer, has queued, or is still before one of its two tests: none is lost or answered twice. */
  lemma EveryCallIsAccounted(maxActive: nat, maxWait: int, initial: nat, es: seq<Event>, s: State)
    requires Reached(maxActive, maxWait, initial, es, s)
    ensures |s.replies| + |s.waiters| + s.fast + s.slow == Calls(es)
  {
    RunKnows(Init(maxActive, maxWait, initial), es, s);
  }

  // ---------- Waiting beside room ----------

  ghost predicate QueuedMeansSaturated(s: State)
  {
    s.pool.connReqs != [] ==> Saturated(s)
  }

  lemma LockedSaturates(s: State, e: Event, s': State)
    requires Inv(s) && QueuedMeansSaturated(s) && Next(s, e) == Some(s') && e.Locked?
    ensures QueuedMeansSaturated(s')
  {
  }

  lemma PutSaturates(s: State, e: Event, s': State)
    requires Inv(s) && QueuedMeansSaturated(s) && Next(s, e) == Some(s') && (e.Put? || e.PutClose?)
    ensures QueuedMeansSaturated(s')
  {
  }

  lemma CloseSaturatesIff(s: State, e: Event, s': State)
    requires Inv(s) && QueuedMeansSaturated(s) && Next(s, e) == Some(s') && e.CloseHeld?
    ensures QueuedMeansSaturated(s') <==> s.pool.connReqs == []
  {
  }

  lemma ElsewhereSaturates(s: State, e: Event, s': State)
    requires Inv(s) && QueuedMeansSaturated(s) && Next(s, e) == Some(s')
    requires !e.Locked? && !e.Put? && !e.PutClose? && !e.CloseHeld?
    ensures QueuedMeansSaturated(s')
  {
  }

  /**
    A call waits beside room for one more connection after exactly one kind of step: a caller closes its connection
    instead of putting it back, while somebody is queued.
  */
  lemma QueuedMeansSaturatedIff(s: State, e: Event, s': State)
    requires Inv(s) && QueuedMeansSaturated(s) && Next(s, e) == Some(s')
    ensures QueuedMeansSaturated(s') <==> !(e.CloseHeld? && s.pool.connReqs != [])
  {
    if e.Locked? {
      LockedSaturates(s, e, s');
    } else if e.Put? || e.PutClose? {
      PutSaturates(s, e, s');
    } else if e.CloseHeld? {
      CloseSaturatesIff(s, e, s');
    } else {
      ElsewhereSaturates(s, e, s');
    }
  }

  /** One connection, one call that waits for it, and the connection is closed: the call waits on. */
  lemma WaiterBesideRoomIsReachable() returns (es: seq<Event>, s: State)
    ensures Reached(1, 0, 0, es, s)
    ensures s.pool.connReqs == [0] && s.waiters == [Waiting] && s.pool.made - |s.pool.closed| == 0 < s.pool.maxActive
  {
    var first, s1 := OneInUse();
    var second, s2 := OneWaits(s1);
    Machine.RunAppend(Next, Init(1, 0, 0), first, second);
    s := Next(s2, CloseHeld(0)).value;
    Machine.RunOn(Next, Init(1, 0, 0), first + second, s2, CloseHeld(0), s);
    es := first + second + [CloseHeld(0)];
  }

  // ---------- Where a connection goes ----------

  /**
    A connection that is put back goes to the channel of the request that has queued longest, to the idle ones when
    nobody is queued, and back to its caller to be closed exactly when the pool is released.
  */
  lemma PutGoesIff(maxActive: nat, maxWait: int, initial: nat, es: seq<Event>, s: State, c: Conn)
    requires Reached(maxActive, maxWait, initial, es, s)
    ensures Next(s, Put(c)).Some? <==> !s.releasing && c in s.held && s.held[c] == InUse
    ensures Next(s, Put(c)).Some? ==>
              var s', p := Next(s, Put(c)).value, s.pool;
              if p.released then s' == s.(held := s.held[c := Closing(true)])
              else if p.connReqs != [] then
                && p.connReqs[0] < |p.slots|
                && s' == s.(pool := p.(connReqs := p.connReqs[1..], slots := p.slots[p.connReqs[0] := Slot.Full(c)]),
                            held := s.held - {c}, delivered := s.delivered + [p.connReqs[0]])
              else s' == s.(pool := p.(conns := p.conns + [c]), held := s.held - {c})
  {
    ReachedInv(maxActive, maxWait, initial, es, s);
    if c in s.held {
      RoomForHeld(s, c);
      if s.pool.connReqs != [] {
        assert s.pool.connReqs[0] in s.pool.connReqs;
        assert Accounted(s, s.pool.connReqs[0]);
      }
    }
  }

  /** A connection that its caller closes, or must close, is closed at once. */
  lemma CloseGoesIff(maxActive: nat, maxWait: int, initial: nat, es: seq<Event>, s: State, c: Conn)
    requires Reached(maxActive, maxWait, initial, es, s)
    ensures Next(s, CloseHeld(c)).Some? <==> !s.releasing && c in s.held && s.held[c] == InUse
    ensures Next(s, PutClose(c)).Some? <==> c in s.held && s.held[c].Closing?
    ensures forall e, s' :: (e == CloseHeld(c) || e == PutClose(c)) && Next(s, e) == Some(s') ==>
              && s'.pool.closed == s.pool.closed + [c] && s'.held == s.held - {c}
              && s'.pool.openingConns == s.pool.openingConns - 1
              && s'.tails == s.tails + if e.PutClose? then 1 else 0
  {
    ReachedInv(maxActive, maxWait, initial, es, s);
    if c in s.held {
      RoomForHeld(s, c);
    }
  }

  /** The sections of one `Put`, with no other call between them. */
  function PutEvents(s: State, c: Conn): seq<Event>
  {
    if !s.pool.released then [Put(c)]
    else if s.pool.made - |s.pool.closed| == 1 then [Put(c), PutClose(c), TailCheck, TailNil]
    else [Put(c), PutClose(c), TailCheck]
  }

  lemma RunsOn(s: State, e: Event, es: seq<Event>)
    requires Next(s, e).Some?
    ensures Run(s, [e] + es) == Run(Next(s, e).value, es)
  {
    assert ([e] + es)[1..] == es;
  }

  lemma ClosingRuns(s: State, c: Conn)
    requires Inv(s) && !s.releasing && c in s.held && s.held[c] == InUse && s.pool.released
    ensures var last, s' := s.pool.made - |s.pool.closed| == 1, Run(s, PutEvents(s, c));
            s' == Some(s.(pool := CloseSection(s.pool, c).(hasClose := !last), held := s.held - {c}))
  {
    RoomForHeld(s, c);
    var s1 := Next(s, Put(c)).value;
    assert s1.held - {c} == s.held - {c};
    var s2 := Next(s1, PutClose(c)).value;
    var s3 := Next(s2, TailCheck).value;
    if s.pool.made - |s.pool.closed| == 1 {
      Machine.RunOne(Next, s3, TailNil);
      RunsOn(s2, TailCheck, [TailNil]);
      RunsOn(s1, PutClose(c), [TailCheck] + [TailNil]);
      RunsOn(s, Put(c), [PutClose(c)] + ([TailCheck] + [TailNil]));
      assert PutEvents(s, c) == [Put(c)] + ([PutClose(c)] + ([TailCheck] + [TailNil]));
    } else {
      Machine.RunOne(Next, s2, TailCheck);
      RunsOn(s1, PutClose(c), [TailCheck]);
      RunsOn(s, Put(c), [PutClose(c)] + [TailCheck]);
      assert PutEvents(s, c) == [Put(c)] + ([PutClose(c)] + [TailCheck]);
    }
  }

  /**
    The object's `Put` is a run of these sections: it leaves the pool as they do.  In a released pool the one that
    closes the last connection drops the close function, and no other does.
  */
  lemma PutAloneRuns(maxActive: nat, maxWait: int, initial: nat, es: seq<Event>, s: State, c: Conn)
    requires Reached(maxActive, maxWait, initial, es, s)
    requires !s.releasing && c in s.held && s.held[c] == InUse
    ensures Run(s, PutEvents(s, c)).Some?
    ensures var s' := Run(s, PutEvents(s, c)).value;
            && s'.pool == ConnectPoolObject.PutAlone(s.pool, c) && s'.held == s.held - {c}
            && s'.tails == s.tails && s'.nils == s.nils
            && (s'.pool.hasClose <==> !(s.pool.released && s.pool.made - |s.pool.closed| == 1))
  {
    PutGoesIff(maxActive, maxWait, initial, es, s, c);
    ReachedInv(maxActive, maxWait, initial, es, s);
    RoomForHeld(s, c);
    if s.pool.released {
      ClosingRuns(s, c);
    } else {
      Machine.RunOne(Next, s, Put(c));
    }
  }
}
