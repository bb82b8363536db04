/**
  The connection pool of tools/connectpool/pool.go.

  The locked sections of the pool are functions on its fields.  The steps that run without the mutex
  (receiving from a channel, a timeout firing, the tail of `Put` after release) are interleaved with them in
  a transition system whose every run is covered by the theorems below.
*/
module ConnectPool {
  import opened Wrappers
  import Machine
  import opened Sequences

  /** Connections are named by the order in which the factory made them. */
  type Conn = nat

  /** Waiter channels are named by the order in which `GetWithContext` made them. */
  type Req = nat

  /** A channel of capacity one: empty, holding a connection, or closed. */
  datatype Slot = Empty | Full(conn: Conn) | Shut

  /** The fields of the pool, the channels it made and the calls it made to `factory` and `close`. */
  datatype Pool = Pool(
    maxActive: nat,
    maxWait: int,
    conns: seq<Conn>,
    connsShut: bool,
    connReqs: seq<Req>,
    slots: seq<Slot>,
    openingConns: int,
    released: bool,
    hasClose: bool,
    made: nat,
    closed: seq<Conn>)

  // ---------- Sections that run under the mutex ----------

  datatype GetReply = Take(conn: Conn) | Wait(req: Req) | ErrMaxWait | ErrClosed | ErrFactory

  /** The section of `GetWithContext` behind `default`; `ok` says whether the factory succeeds. */
  function GetSection(p: Pool, ok: bool): (Pool, GetReply)
  {
    if p.released then (p, ErrClosed)
    else if p.openingConns >= p.maxActive then
      if p.maxWait > 0 && |p.connReqs| >= p.maxWait then (p, ErrMaxWait)
      else (p.(connReqs := p.connReqs + [|p.slots|], slots := p.slots + [Empty]), Wait(|p.slots|))
    else if !ok then (p, ErrFactory)
    else (p.(openingConns := p.openingConns + 1, made := p.made + 1), Take(p.made))
  }

  /** `Stuck` is a send that blocks with the mutex held or panics on a closed channel. */
  datatype PutReply = Delivered(req: Req) | Stored | MustClose(tail: bool) | Stuck

  function PutSection(p: Pool, c: Conn): (Pool, PutReply)
  {
    if p.released then (p, MustClose(true))
    else if |p.connReqs| > 0 then
      var r := p.connReqs[0];
      if r < |p.slots| && p.slots[r].Empty? then
        (p.(connReqs := p.connReqs[1..], slots := p.slots[r := Full(c)]), Delivered(r))
      else (p, Stuck)
    else if p.connsShut then (p, Stuck)
    else if |p.conns| < p.maxActive then (p.(conns := p.conns + [c]), Stored)
    else (p, MustClose(false))
  }

  /** `Close`: does nothing once the close function has been dropped. */
  function CloseSection(p: Pool, c: Conn): Pool
  {
    if !p.hasClose then p
    else p.(openingConns := p.openingConns - 1, closed := p.closed + [c])
  }

  datatype TimeoutReply = Removed | NotQueued | PoolReleased

  /** The section a waiter enters when its context is done. */
  function TimeoutSection(p: Pool, r: Req): (Pool, TimeoutReply)
  {
    if p.released then (p, PoolReleased)
    else if r in p.connReqs then (p.(connReqs := Without(p.connReqs, r)), Removed)
    else (p, NotQueued)
  }

  function ShutAll(slots: seq<Slot>, reqs: seq<Req>): (r: seq<Slot>)
    ensures |r| == |slots|
  {
    seq(|slots|, i requires 0 <= i < |slots| => if i in reqs then Shut else slots[i])
  }

  /** `Release` up to and including `close(c.conns)`. */
  function ReleaseSection(p: Pool): Pool
  {
    p.(released := true, slots := ShutAll(p.slots, p.connReqs), connReqs := [], connsShut := true)
  }

  /** One turn of the loop that drains the closed channel. */
  function DrainSection(p: Pool): Pool
    requires p.conns != []
  {
    p.(conns := p.conns[1..], openingConns := p.openingConns - 1, closed := p.closed + [p.conns[0]])
  }

  // ---------- The transition system ----------

  datatype Outcome = Got(conn: Conn) | TimedOutErr | ClosedErr

  /** Where a queued call of `GetWithContext` is. */
  datatype Waiter = Waiting | Expired | Draining | Returned(out: Outcome)

  /** A connection in a caller's hands: in use, or given to a `Put` that must close it. */
  datatype Use = InUse | Closing(tail: bool)

  /**
    `releasing` is the mutex being held by `Release` while it drains.  `fast` and `slow` count calls of
    `GetWithContext` before and after the `default` branch was chosen.  `tails` and `nils` count the calls
    of `Put` that still have to read `openingConns`, and to drop `close`, without the mutex.  `replies` are the answers
    of the calls of `GetWithContext` that did not queue.
  */
  datatype State = State(
    pool: Pool,
    releasing: bool,
    waiters: seq<Waiter>,
    held: map<Conn, Use>,
    fast: nat,
    slow: nat,
    tails: nat,
    nils: nat,
    delivered: seq<Req>,
    replies: seq<GetReply>)

  datatype Event =
    | GetConns
    | Select
    | Locked(ok: bool)
    | Receive(r: Req)
    | Expire(r: Req)
    | ExpiredLocked(r: Req)
    | Put(c: Conn)
    | PutClose(c: Conn)
    | TailCheck
    | TailNil
    | CloseHeld(c: Conn)
    | Release
    | Drain
    | ReleaseDone

  function Replies(s: State, reply: GetReply): State
  {
    s.(replies := s.replies + [reply])
  }

  function NextGet(s: State, e: Event): Option<State>
    requires e.GetConns? || e.Select? || e.Locked?
  {
    match e
    case GetConns =>
      if s.releasing then None
      else if s.pool.released then Some(Replies(s, ErrClosed))
      else Some(s.(fast := s.fast + 1))
    case Select =>
      if s.fast == 0 then None
      else if s.pool.conns != [] then
        var c := s.pool.conns[0];
        var s1 := s.(fast := s.fast - 1, pool := s.pool.(conns := s.pool.conns[1..]), held := s.held[c := InUse]);
        Some(Replies(s1, Take(c)))
      else if s.pool.connsShut then Some(Replies(s.(fast := s.fast - 1), ErrClosed))
      else Some(s.(fast := s.fast - 1, slow := s.slow + 1))
    case Locked(ok) =>
      if s.slow == 0 || s.releasing then None
      else
        var (p, reply) := GetSection(s.pool, ok);
        var s1 := s.(slow := s.slow - 1, pool := p);
        match reply
        case Take(c) => Some(Replies(s1.(held := s1.held[c := InUse]), reply))
        case Wait(_) => Some(s1.(waiters := s1.waiters + [Waiting]))
        case _ => Some(Replies(s1, reply))
  }

  /** A waiter takes what its channel holds, or learns that the channel was closed. */
  function TakeSlot(s: State, r: Req): Option<State>
    requires r < |s.waiters| && r < |s.pool.slots|
  {
    match s.pool.slots[r]
    case Empty => None
    case Full(c) =>
      Some(s.(pool := s.pool.(slots := s.pool.slots[r := Empty]),
              held := s.held[c := InUse],
              waiters := s.waiters[r := Returned(Got(c))]))
    case Shut => Some(s.(waiters := s.waiters[r := Returned(ClosedErr)]))
  }

  function NextWait(s: State, e: Event): Option<State>
    requires e.Receive? || e.Expire? || e.ExpiredLocked?
  {
    if !(e.r < |s.waiters| && e.r < |s.pool.slots|) then None else
    match e
    case Receive(r) => if s.waiters[r].Waiting? || s.waiters[r].Draining? then TakeSlot(s, r) else None
    case Expire(r) => if s.waiters[r].Waiting? then Some(s.(waiters := s.waiters[r := Expired])) else None
    case ExpiredLocked(r) =>
      if s.releasing || !s.waiters[r].Expired? then None
      else
        var (p, reply) := TimeoutSection(s.pool, r);
        var w := match reply
          case Removed => Returned(TimedOutErr)
          case PoolReleased => Returned(ClosedErr)
          case NotQueued => Draining;
        Some(s.(pool := p, waiters := s.waiters[r := w]))
  }

  function NextPut(s: State, e: Event): Option<State>
    requires e.Put? || e.PutClose? || e.TailCheck? || e.TailNil? || e.CloseHeld?
  {
    match e
    case Put(c) =>
      if s.releasing || c !in s.held || s.held[c] != InUse then None
      else
        var (p, reply) := PutSection(s.pool, c);
        (match reply
         case Delivered(r) => Some(s.(pool := p, held := s.held - {c}, delivered := s.delivered + [r]))
         case Stored => Some(s.(pool := p, held := s.held - {c}))
         case MustClose(tail) => Some(s.(held := s.held[c := Closing(tail)]))
         case Stuck => None)
    case PutClose(c) =>
      if s.releasing || c !in s.held || !s.held[c].Closing? then None
      else Some(s.(pool := CloseSection(s.pool, c), held := s.held - {c},
                   tails := if s.held[c].tail then s.tails + 1 else s.tails))
    case CloseHeld(c) =>
      if s.releasing || c !in s.held || s.held[c] != InUse then None
      else Some(s.(pool := CloseSection(s.pool, c), held := s.held - {c}))
    case TailCheck =>
      if s.tails == 0 then None
      else Some(s.(tails := s.tails - 1, nils := if s.pool.openingConns == 0 then s.nils + 1 else s.nils))
    case TailNil =>
      if s.nils == 0 then None
      else Some(s.(nils := s.nils - 1, pool := s.pool.(hasClose := false)))
  }

  function NextRelease(s: State, e: Event): Option<State>
    requires e.Release? || e.Drain? || e.ReleaseDone?
  {
    match e
    case Release =>
      if s.releasing then None
      else if s.pool.released then Some(s)
      else Some(s.(pool := ReleaseSection(s.pool), releasing := true))
    case Drain =>
      if s.releasing && s.pool.conns != [] && s.pool.hasClose then Some(s.(pool := DrainSection(s.pool))) else None
    case ReleaseDone =>
      if s.releasing && s.pool.conns == [] then Some(s.(releasing := false)) else None
  }

  function Next(s: State, e: Event): Option<State>
  {
    match e
    case GetConns | Select | Locked(_) => NextGet(s, e)
    case Receive(_) | Expire(_) | ExpiredLocked(_) => NextWait(s, e)
    case Put(_) | PutClose(_) | TailCheck | TailNil | CloseHeld(_) => NextPut(s, e)
    case Release | Drain | ReleaseDone => NextRelease(s, e)
  }

  function Run(s: State, es: seq<Event>): Option<State>
  {
    Machine.Run(Next, s, es)
  }

  /** A pool as `NewConnectPool` leaves it: `initial` connections idle. */
  function Fresh(maxActive: nat, maxWait: int, initial: nat): Pool
  {
    Pool(maxActive, maxWait, seq(initial, i => i), false, [], [], initial, false, true, initial, [])
  }

  function Init(maxActive: nat, maxWait: int, initial: nat): State
  {
    State(Fresh(maxActive, maxWait, initial), false, [], map[], 0, 0, 0, 0, [], [])
  }

  // ---------- Where every connection is ----------

  /** What one slot holds. */
  function Content(x: Slot): multiset<Conn>
  {
    if x.Full? then multiset{x.conn} else multiset{}
  }

  /** Connections sitting in waiter channels. */
  function InSlots(slots: seq<Slot>): multiset<Conn>
  {
    if slots == [] then multiset{} else InSlots(slots[..|slots| - 1]) + Content(slots[|slots| - 1])
  }

  /** Every place a connection can be, with multiplicity: idle, with a caller, in a waiter's slot, closed. */
  function Places(conns: seq<Conn>, held: set<Conn>, slots: seq<Slot>, closed: seq<Conn>): multiset<Conn>
  {
    multiset(conns) + multiset(held) + InSlots(slots) + multiset(closed)
  }

  /** Each of the first `made` connections is in exactly one place, and no other connection exists. */
  ghost predicate OnePlace(conns: seq<Conn>, held: set<Conn>, slots: seq<Slot>, closed: seq<Conn>, made: nat)
  {
    Places(conns, held, slots, closed) == All(made)
  }

  /** The connections 0 .. n-1, each once. */
  function All(n: nat): multiset<Conn>
  {
    if n == 0 then multiset{} else All(n - 1) + multiset{n - 1}
  }

  lemma {:induction false} AllCounts(n: nat)
    ensures |All(n)| == n
    ensures forall c: Conn :: All(n)[c] == if c < n then 1 else 0
  {
    if n > 0 {
      AllCounts(n - 1);
    }
  }

  lemma AddToBoth(a: multiset<Conn>, p: multiset<Conn>, b: multiset<Conn>, q: multiset<Conn>, z: multiset<Conn>)
    requires a + p == b + q
    ensures (a + z) + p == (b + z) + q
  {
    assert (a + z) + p == (a + p) + z;
  }

  lemma {:induction false} InSlotsUpdate(slots: seq<Slot>, r: Req, x: Slot)
    requires r < |slots|
    ensures InSlots(slots[r := x]) + Content(slots[r]) == InSlots(slots) + Content(x)
  {
    var n := |slots| - 1;
    var u := slots[r := x];
    if r == n {
      assert u[..n] == slots[..n];
    } else {
      assert u[..n] == slots[..n][r := x] && u[n] == slots[n];
      InSlotsUpdate(slots[..n], r, x);
      AddToBoth(InSlots(u[..n]), Content(slots[r]), InSlots(slots[..n]), Content(x), Content(slots[n]));
    }
  }

  lemma {:induction false} InSlotsShutAll(slots: seq<Slot>, reqs: seq<Req>)
    requires forall i :: 0 <= i < |slots| && i in reqs ==> slots[i].Empty?
    ensures InSlots(ShutAll(slots, reqs)) == InSlots(slots)
  {
    if slots != [] {
      var n := |slots| - 1;
      assert ShutAll(slots, reqs)[..n] == ShutAll(slots[..n], reqs);
      InSlotsShutAll(slots[..n], reqs);
    }
  }

  lemma {:induction false} InSlotsMember(slots: seq<Slot>, r: Req)
    requires r < |slots| && slots[r].Full?
    ensures slots[r].conn in InSlots(slots)
  {
    var n := |slots| - 1;
    if r < n {
      assert slots[..n][r] == slots[r];
      InSlotsMember(slots[..n], r);
    }
  }

  lemma {:induction false} InSlotsEmpty(slots: seq<Slot>)
    requires forall r :: 0 <= r < |slots| ==> !slots[r].Full?
    ensures InSlots(slots) == multiset{}
  {
    if slots != [] {
      InSlotsEmpty(slots[..|slots| - 1]);
    }
  }

  // ---------- The invariant ----------

  ghost predicate Conserved(s: State)
  {
    && OnePlace(s.pool.conns, s.held.Keys, s.pool.slots, s.pool.closed, s.pool.made)
    && s.pool.openingConns == s.pool.made - |s.pool.closed|
    && s.pool.openingConns <= s.pool.maxActive
  }

  ghost predicate Phases(s: State)
  {
    var p := s.pool;
    && p.connsShut == p.released
    && (s.releasing ==> p.released && p.hasClose && s.tails == s.nils == 0)
    && (p.released ==> p.connReqs == [])
    && (p.released && !s.releasing ==> p.conns == [])
    && (s.tails > 0 ==> p.released)
    && (s.nils > 0 ==> p.released && p.openingConns == 0)
    && (!p.hasClose ==> p.released && p.openingConns == 0)
    && (forall c :: c in s.held && s.held[c].Closing? ==> p.released && !s.releasing && s.held[c].tail)
  }

  /** What a request is: queued, given a connection, timed out, or cut off by `Release`. */
  ghost predicate Accounted(s: State, r: Req)
    requires r < |s.waiters| == |s.pool.slots|
  {
    var slot, w := s.pool.slots[r], s.waiters[r];
    && (r in s.pool.connReqs ==> slot.Empty? && (w.Waiting? || w.Expired?))
    && (r in s.delivered <==> slot.Full? || (w.Returned? && w.out.Got?))
    && (slot.Full? ==> w.Returned? ==> w.out.ClosedErr? && s.pool.released)
    && (slot.Shut? ==> s.pool.released && !w.Draining?)
    && (w.Draining? ==> slot.Full?)
    && (w.Returned? && !w.out.ClosedErr? ==> slot.Empty?)
    && (w.Returned? && w.out.ClosedErr? ==> s.pool.released && !slot.Empty?)
    && (r in s.pool.connReqs || r in s.delivered || slot.Shut? || w == Returned(TimedOutErr))
  }

  ghost predicate Queued(s: State)
  {
    && |s.waiters| == |s.pool.slots|
    && Increasing(s.pool.connReqs)
    && Increasing(s.delivered)
    && (forall r :: r in s.pool.connReqs ==> r < |s.waiters|)
    && (forall r :: r in s.delivered ==> r < |s.waiters|)
    && (forall d, q :: d in s.delivered && q in s.pool.connReqs ==> d < q)
    && (forall d, r: Req :: d in s.delivered && r < |s.waiters| && s.pool.slots[r].Shut? ==> d < r)
    && (forall r: Req :: r < |s.waiters| ==> Accounted(s, r))
    && (s.pool.maxWait > 0 ==> |s.pool.connReqs| <= s.pool.maxWait)
  }

  ghost predicate Inv(s: State)
  {
    Conserved(s) && Phases(s) && Queued(s)
  }

  // ---------- Every step keeps every connection in one place ----------

  /** A connection found in one place is in no other. */
  lemma OnlyThere(conns: seq<Conn>, held: set<Conn>, slots: seq<Slot>, closed: seq<Conn>, made: nat, c: Conn)
    requires OnePlace(conns, held, slots, closed, made)
    ensures c in held || c in conns || c in closed || c in InSlots(slots) ==> c < made
    ensures c in conns || c in closed || c in InSlots(slots) || c == made ==> c !in held
  {
    AllCounts(made);
    assert Places(conns, held, slots, closed)[c] == All(made)[c];
  }

  lemma IdleToCaller(conns: seq<Conn>, held: set<Conn>, slots: seq<Slot>, closed: seq<Conn>, made: nat)
    requires OnePlace(conns, held, slots, closed, made) && conns != []
    ensures OnePlace(conns[1..], held + {conns[0]}, slots, closed, made)
  {
    var c := conns[0];
    OnlyThere(conns, held, slots, closed, made, c);
    assert conns == [c] + conns[1..];
    assert multiset(held + {c}) == multiset(held) + multiset{c};
  }

  lemma IdleToClosed(conns: seq<Conn>, held: set<Conn>, slots: seq<Slot>, closed: seq<Conn>, made: nat)
    requires OnePlace(conns, held, slots, closed, made) && conns != []
    ensures OnePlace(conns[1..], held, slots, closed + [conns[0]], made)
  {
    assert conns == [conns[0]] + conns[1..];
  }

  lemma FactoryToCaller(conns: seq<Conn>, held: set<Conn>, slots: seq<Slot>, closed: seq<Conn>, made: nat)
    requires OnePlace(conns, held, slots, closed, made)
    ensures OnePlace(conns, held + {made}, slots, closed, made + 1)
  {
    OnlyThere(conns, held, slots, closed, made, made);
    assert multiset(held + {made}) == multiset(held) + multiset{made};
  }

  lemma SlotToCaller(conns: seq<Conn>, held: set<Conn>, slots: seq<Slot>, closed: seq<Conn>, made: nat, r: Req)
    requires OnePlace(conns, held, slots, closed, made) && r < |slots| && slots[r].Full?
    ensures OnePlace(conns, held + {slots[r].conn}, slots[r := Empty], closed, made)
  {
    var c := slots[r].conn;
    InSlotsMember(slots, r);
    OnlyThere(conns, held, slots, closed, made, c);
    InSlotsUpdate(slots, r, Empty);
    assert InSlots(slots) == InSlots(slots[r := Empty]) + multiset{c};
    assert multiset(held + {c}) == multiset(held) + multiset{c};
  }

  lemma CallerToSlot(conns: seq<Conn>, held: set<Conn>, slots: seq<Slot>, closed: seq<Conn>, made: nat, c: Conn, r: Req)
    requires OnePlace(conns, held, slots, closed, made) && c in held && r < |slots| && slots[r].Empty?
    ensures OnePlace(conns, held - {c}, slots[r := Full(c)], closed, made)
  {
    InSlotsUpdate(slots, r, Full(c));
    assert InSlots(slots[r := Full(c)]) == InSlots(slots) + multiset{c};
    assert multiset(held) == multiset(held - {c}) + multiset{c};
  }

  lemma CallerAway(conns: seq<Conn>, held: set<Conn>, slots: seq<Slot>, closed: seq<Conn>, made: nat, c: Conn)
    requires OnePlace(conns, held, slots, closed, made) && c in held
    ensures OnePlace(conns + [c], held - {c}, slots, closed, made)
    ensures OnePlace(conns, held - {c}, slots, closed + [c], made)
  {
    assert multiset(held) == multiset(held - {c}) + multiset{c};
  }

  lemma SlotAdded(conns: seq<Conn>, held: set<Conn>, slots: seq<Slot>, closed: seq<Conn>, made: nat)
    requires OnePlace(conns, held, slots, closed, made)
    ensures OnePlace(conns, held, slots + [Empty], closed, made)
  {
    assert (slots + [Empty])[..|slots|] == slots;
  }


  /** While a caller holds a connection the idle channel has room for it. */
  lemma RoomForHeld(s: State, c: Conn)
    requires Conserved(s) && c in s.held
    ensures |s.pool.conns| < s.pool.maxActive
    ensures s.pool.openingConns > 0
  {
    AllCounts(s.pool.made);
    var held := s.held.Keys;
    assert multiset(held) == multiset(held - {c}) + multiset{c};
    assert |multiset(s.pool.conns) + multiset(held) + InSlots(s.pool.slots) + multiset(s.pool.closed)|
        == |s.pool.conns| + (|multiset(held - {c})| + 1) + |InSlots(s.pool.slots)| + |s.pool.closed|;
  }

  // ---------- Every step keeps the invariant ----------

  lemma GetConnsKeeps(s: State, s': State)
    requires Inv(s) && NextGet(s, GetConns) == Some(s')
    ensures Inv(s')
  {
    forall x: Req | x < |s'.waiters| ensures Accounted(s', x) {
      assert Accounted(s, x);
    }
  }

  lemma SelectKeeps(s: State, s': State)
    requires Inv(s) && NextGet(s, Select) == Some(s')
    ensures Inv(s')
  {
    var p := s.pool;
    if p.conns != [] {
      IdleToCaller(p.conns, s.held.Keys, p.slots, p.closed, p.made);
      assert s'.held.Keys == s.held.Keys + {p.conns[0]};
    }
    forall x: Req | x < |s'.waiters| ensures Accounted(s', x) {
      assert Accounted(s, x);
    }
  }

  lemma WaitQueues(s: State, s': State)
    requires Queued(s) && !s.pool.released && (s.pool.maxWait > 0 ==> |s.pool.connReqs| < s.pool.maxWait)
    requires s'.waiters == s.waiters + [Waiting] && s'.delivered == s.delivered
    requires s'.pool == s.pool.(connReqs := s.pool.connReqs + [|s.pool.slots|], slots := s.pool.slots + [Empty])
    ensures Queued(s')
  {
    IncreasingAppend(s.pool.connReqs, |s.pool.slots|);
    forall x: Req | x < |s'.waiters| ensures Accounted(s', x) {
      if x < |s.waiters| {
        assert Accounted(s, x);
      }
    }
  }

  /** The section ends with the call queued. */
  lemma LockedWaitKeeps(s: State, ok: bool, s': State)
    requires Inv(s) && NextGet(s, Locked(ok)) == Some(s') && GetSection(s.pool, ok).1.Wait?
    ensures Inv(s')
  {
    var p := s.pool;
    SlotAdded(p.conns, s.held.Keys, p.slots, p.closed, p.made);
    WaitQueues(s, s');
  }

  lemma SameQueue(s: State, s': State)
    requires Queued(s) && s'.waiters == s.waiters && s'.delivered == s.delivered
    requires s'.pool.slots == s.pool.slots && s'.pool.connReqs == s.pool.connReqs
    requires s'.pool.maxWait == s.pool.maxWait && s'.pool.released == s.pool.released
    ensures Queued(s')
  {
    forall x: Req | x < |s'.waiters| ensures Accounted(s', x) {
      assert Accounted(s, x);
    }
  }

  lemma TakeConserves(s: State, s': State)
    requires Conserved(s) && s.pool.openingConns < s.pool.maxActive && s'.held == s.held[s.pool.made := InUse]
    requires s'.pool == s.pool.(openingConns := s.pool.openingConns + 1, made := s.pool.made + 1)
    ensures Conserved(s')
  {
    var p := s.pool;
    FactoryToCaller(p.conns, s.held.Keys, p.slots, p.closed, p.made);
    assert s.held[p.made := InUse].Keys == s.held.Keys + {p.made};
  }

  /** The section ends with a new connection for the caller. */
  lemma LockedTakeKeeps(s: State, ok: bool, s': State)
    requires Inv(s) && NextGet(s, Locked(ok)) == Some(s') && GetSection(s.pool, ok).1.Take?
    ensures Inv(s')
  {
    TakeConserves(s, s');
    SameQueue(s, s');
  }

  lemma LockedKeeps(s: State, ok: bool, s': State)
    requires Inv(s) && NextGet(s, Locked(ok)) == Some(s')
    ensures Inv(s')
  {
    var p := s.pool;
    if GetSection(p, ok).1.Wait? {
      LockedWaitKeeps(s, ok, s');
    } else if GetSection(p, ok).1.Take? {
      LockedTakeKeeps(s, ok, s');
    } else {
      assert s' == s.(slow := s.slow - 1, replies := s'.replies);
      forall x: Req | x < |s'.waiters| ensures Accounted(s', x) {
        assert Accounted(s, x);
      }
    }
  }

  lemma ReceiveKeepsQueue(s: State, r: Req, s': State)
    requires Inv(s) && NextWait(s, Receive(r)) == Some(s')
    ensures Queued(s')
  {
    assert Accounted(s, r);
    forall x: Req | x < |s'.waiters| ensures Accounted(s', x) {
      assert Accounted(s, x);
    }
  }

  lemma ReceiveKeeps(s: State, r: Req, s': State)
    requires Inv(s) && NextWait(s, Receive(r)) == Some(s')
    ensures Inv(s')
  {
    var p := s.pool;
    ReceiveKeepsQueue(s, r, s');
    if p.slots[r].Full? {
      SlotToCaller(p.conns, s.held.Keys, p.slots, p.closed, p.made, r);
      assert s'.held.Keys == s.held.Keys + {p.slots[r].conn};
    }
  }

  lemma ExpireKeeps(s: State, r: Req, s': State)
    requires Inv(s) && NextWait(s, Expire(r)) == Some(s')
    ensures Inv(s')
  {
    forall x: Req | x < |s'.waiters| ensures Accounted(s', x) {
      assert Accounted(s, x);
    }
  }

  lemma ExpiredLockedKeeps(s: State, r: Req, s': State)
    requires Inv(s) && NextWait(s, ExpiredLocked(r)) == Some(s')
    ensures Inv(s')
  {
    WithoutIncreasing(s.pool.connReqs, r);
    forall x: Req | x < |s'.waiters| ensures Accounted(s', x) {
      assert Accounted(s, x);
    }
  }

  lemma DeliveryAccounts(s: State, c: Conn, s': State)
    requires Inv(s) && NextPut(s, Put(c)) == Some(s') && !s.pool.released && s.pool.connReqs != []
    ensures forall x: Req :: x < |s'.waiters| ==> Accounted(s', x) && !s'.pool.slots[x].Shut?
  {
    HeadOfIncreasing(s.pool.connReqs);
    forall x: Req | x < |s'.waiters| ensures Accounted(s', x) && !s'.pool.slots[x].Shut? {
      assert Accounted(s, x);
    }
  }

  lemma DeliveryConserves(s: State, c: Conn, s': State)
    requires Inv(s) && NextPut(s, Put(c)) == Some(s') && !s.pool.released && s.pool.connReqs != []
    ensures Conserved(s')
  {
    var p := s.pool;
    var r := p.connReqs[0];
    assert Accounted(s, r);
    CallerToSlot(p.conns, s.held.Keys, p.slots, p.closed, p.made, c, r);
    assert (s.held - {c}).Keys == s.held.Keys - {c};
  }

  lemma DeliveryKeepsOrder(s: State, c: Conn, s': State)
    requires Inv(s) && NextPut(s, Put(c)) == Some(s') && !s.pool.released && s.pool.connReqs != []
    ensures Queued(s')
  {
    HeadOfIncreasing(s.pool.connReqs);
    assert s.pool.connReqs[0] in s.pool.connReqs;
    IncreasingAppend(s.delivered, s.pool.connReqs[0]);
    DeliveryAccounts(s, c, s');
  }

  /** The connection goes to the head of the queue. */
  lemma PutDeliversKeeps(s: State, c: Conn, s': State)
    requires Inv(s) && NextPut(s, Put(c)) == Some(s') && !s.pool.released && s.pool.connReqs != []
    ensures Inv(s')
  {
    DeliveryConserves(s, c, s');
    DeliveryKeepsOrder(s, c, s');
  }

  lemma PutKeeps(s: State, c: Conn, s': State)
    requires Inv(s) && NextPut(s, Put(c)) == Some(s')
    ensures Inv(s')
  {
    var p := s.pool;
    if !p.released && p.connReqs != [] {
      PutDeliversKeeps(s, c, s');
    } else {
      RoomForHeld(s, c);
      CallerAway(p.conns, s.held.Keys, p.slots, p.closed, p.made, c);
      assert (s.held - {c}).Keys == s.held.Keys - {c};
      assert p.released ==> s'.held.Keys == s.held.Keys;
      forall x: Req | x < |s'.waiters| ensures Accounted(s', x) {
        assert Accounted(s, x);
      }
    }
  }

  lemma CloseKeeps(s: State, c: Conn, tails: nat, s': State)
    requires Inv(s) && c in s.held && !s.releasing && (tails > s.tails ==> s.pool.released)
    requires s' == s.(pool := CloseSection(s.pool, c), held := s.held - {c}, tails := tails)
    ensures Inv(s')
    ensures s'.pool.closed == s.pool.closed + [c]
  {
    var p := s.pool;
    RoomForHeld(s, c);
    CallerAway(p.conns, s.held.Keys, p.slots, p.closed, p.made, c);
    assert (s.held - {c}).Keys == s.held.Keys - {c};
    forall x: Req | x < |s'.waiters| ensures Accounted(s', x) {
      assert Accounted(s, x);
    }
  }

  lemma TailKeeps(s: State, e: Event, s': State)
    requires Inv(s) && (e.TailCheck? || e.TailNil?) && NextPut(s, e) == Some(s')
    ensures Inv(s')
  {
    forall x: Req | x < |s'.waiters| ensures Accounted(s', x) {
      assert Accounted(s, x);
    }
  }

  lemma ReleaseKeeps(s: State, s': State)
    requires Inv(s) && NextRelease(s, Release) == Some(s')
    ensures Inv(s')
  {
    forall r: Req | r < |s.pool.slots| && r in s.pool.connReqs ensures s.pool.slots[r].Empty? {
      assert Accounted(s, r);
    }
    InSlotsShutAll(s.pool.slots, s.pool.connReqs);
    forall x: Req | x < |s'.waiters| ensures Accounted(s', x) {
      assert Accounted(s, x);
    }
  }

  lemma DrainKeeps(s: State, s': State)
    requires Inv(s) && NextRelease(s, Drain) == Some(s')
    ensures Inv(s')
  {
    var p := s.pool;
    IdleToClosed(p.conns, s.held.Keys, p.slots, p.closed, p.made);
    forall x: Req | x < |s'.waiters| ensures Accounted(s', x) {
      assert Accounted(s, x);
    }
  }

  lemma ReleaseDoneKeeps(s: State, s': State)
    requires Inv(s) && NextRelease(s, ReleaseDone) == Some(s')
    ensures Inv(s')
  {
    forall x: Req | x < |s'.waiters| ensures Accounted(s', x) {
      assert Accounted(s, x);
    }
  }

  lemma NextKeepsInv(s: State, e: Event, s': State)
    requires Inv(s) && Next(s, e) == Some(s')
    ensures Inv(s')
  {
    match e
    case GetConns => GetConnsKeeps(s, s');
    case Select => SelectKeeps(s, s');
    case Locked(ok) => LockedKeeps(s, ok, s');
    case Receive(r) => ReceiveKeeps(s, r, s');
    case Expire(r) => ExpireKeeps(s, r, s');
    case ExpiredLocked(r) => ExpiredLockedKeeps(s, r, s');
    case Put(c) => PutKeeps(s, c, s');
    case PutClose(c) => CloseKeeps(s, c, s'.tails, s');
    case CloseHeld(c) => CloseKeeps(s, c, s.tails, s');
    case TailCheck | TailNil => TailKeeps(s, e, s');
    case Release => ReleaseKeeps(s, s');
    case Drain => DrainKeeps(s, s');
    case ReleaseDone => ReleaseDoneKeeps(s, s');
  }

  lemma {:induction false} RunKeepsInv(s: State, es: seq<Event>, s': State)
    requires Inv(s) && Run(s, es) == Some(s')
    ensures Inv(s')
    decreases |es|
  {
    if es != [] {
      var s1 := Next(s, es[0]).value;
      NextKeepsInv(s, es[0], s1);
      RunKeepsInv(s1, es[1..], s');
    }
  }

  lemma {:induction false} FreshIdle(n: nat)
    ensures multiset(seq(n, i => i)) == All(n)
  {
    if n > 0 {
      FreshIdle(n - 1);
      assert seq(n, i => i) == seq(n - 1, i => i) + [n - 1];
    }
  }

  lemma InitInv(maxActive: nat, maxWait: int, initial: nat)
    requires initial <= maxActive
    ensures Inv(Init(maxActive, maxWait, initial))
  {
    FreshIdle(initial);
  }

  // ---------- What every run guarantees ----------

  /** `s` is what some interleaving of calls can make of a new pool. */
  ghost predicate Reached(maxActive: nat, maxWait: int, initial: nat, es: seq<Event>, s: State)
  {
    initial <= maxActive && Run(Init(maxActive, maxWait, initial), es) == Some(s)
  }

  lemma ReachedInv(maxActive: nat, maxWait: int, initial: nat, es: seq<Event>, s: State)
    requires Reached(maxActive, maxWait, initial, es, s)
    ensures Inv(s)
  {
    InitInv(maxActive, maxWait, initial);
    RunKeepsInv(Init(maxActive, maxWait, initial), es, s);
  }

  /**
    In every interleaving each connection the factory made is in exactly one place, `openingConns` is the number
    that are not closed, it never exceeds `maxActive`, and `close` is dropped only when that number is 0.
  */
  lemma EveryConnectionInOnePlace(maxActive: nat, maxWait: int, initial: nat, es: seq<Event>, s: State)
    requires Reached(maxActive, maxWait, initial, es, s)
    ensures forall c: Conn ::
              multiset(s.pool.conns)[c] + multiset(s.held.Keys)[c] + InSlots(s.pool.slots)[c] + multiset(s.pool.closed)[c]
              == if c < s.pool.made then 1 else 0
    ensures 0 <= s.pool.openingConns == s.pool.made - |s.pool.closed|
    ensures s.pool.openingConns <= s.pool.maxActive
    ensures !s.pool.hasClose ==> s.pool.openingConns == 0
  {
    ReachedInv(maxActive, maxWait, initial, es, s);
    var p := s.pool;
    AllCounts(p.made);
    forall c: Conn
      ensures multiset(p.conns)[c] + multiset(s.held.Keys)[c] + InSlots(p.slots)[c] + multiset(p.closed)[c]
           == if c < p.made then 1 else 0
    {
      assert Places(p.conns, s.held.Keys, p.slots, p.closed)[c] == All(p.made)[c];
    }
    assert |multiset(p.conns) + multiset(s.held.Keys) + InSlots(p.slots) + multiset(p.closed)|
        == |p.conns| + |s.held.Keys| + |InSlots(p.slots)| + |p.closed|;
  }

  /**
    Connections are handed to waiters in the order they queued, passing over only those that timed out; a waiter
    that returns the timeout error was never given a connection; the queue respects a positive `maxWait`.
  */
  lemma WaitersServedInOrder(maxActive: nat, maxWait: int, initial: nat, es: seq<Event>, s: State)
    requires Reached(maxActive, maxWait, initial, es, s)
    ensures |s.waiters| == |s.pool.slots|
    ensures Increasing(s.delivered)
    ensures forall a: Req, b :: b in s.delivered && a < b ==>
              a in s.delivered || (a < |s.waiters| && s.waiters[a] == Returned(TimedOutErr))
    ensures forall r: Req :: r < |s.waiters| && s.waiters[r] == Returned(TimedOutErr) ==>
              r !in s.delivered && s.pool.slots[r].Empty?
    ensures forall r: Req :: r < |s.waiters| && s.waiters[r].Returned? && s.waiters[r].out.Got? ==> r in s.delivered
    ensures s.pool.maxWait > 0 ==> |s.pool.connReqs| <= s.pool.maxWait
  {
    ReachedInv(maxActive, maxWait, initial, es, s);
    forall a: Req, b | b in s.delivered && a < b
      ensures a in s.delivered || (a < |s.waiters| && s.waiters[a] == Returned(TimedOutErr))
    {
      assert Accounted(s, a);
    }
    forall r: Req | r < |s.waiters|
      ensures s.waiters[r] == Returned(TimedOutErr) ==> r !in s.delivered && s.pool.slots[r].Empty?
      ensures s.waiters[r].Returned? && s.waiters[r].out.Got? ==> r in s.delivered
    {
      assert Accounted(s, r);
    }
  }

  /**
    A `Put` that holds the mutex never blocks and never sends on a closed channel, and never finds the idle
    channel full: the fallback that closes the connection is dead.  The draining loop always has a close function,
    and the channels `Release` closes are open and empty.
  */
  lemma SendsNeverBlock(maxActive: nat, maxWait: int, initial: nat, es: seq<Event>, s: State, c: Conn)
    requires Reached(maxActive, maxWait, initial, es, s)
    ensures c in s.held && s.held[c] == InUse && !s.releasing ==>
              var reply := PutSection(s.pool, c).1;
              reply != Stuck && reply != MustClose(false)
    ensures s.releasing && s.pool.conns != [] ==> Next(s, Drain).Some?
    ensures forall r :: r in s.pool.connReqs ==> r < |s.pool.slots| && s.pool.slots[r].Empty?
  {
    ReachedInv(maxActive, maxWait, initial, es, s);
    forall r | r in s.pool.connReqs ensures r < |s.pool.slots| && s.pool.slots[r].Empty? {
      assert Accounted(s, r);
    }
    if c in s.held {
      RoomForHeld(s, c);
      assert s.pool.connReqs != [] ==> s.pool.connReqs[0] in s.pool.connReqs;
    }
  }

  // ---------- Connections lost to a timeout that fires after release ----------

  /** The waiter returned the closed error with a connection left in its channel. */
  ghost predicate Abandoned(s: State, r: Req)
  {
    r < |s.waiters| && r < |s.pool.slots| && s.pool.slots[r].Full? && s.waiters[r] == Returned(ClosedErr)
  }

  /** The step is a timeout taken after `Release` on a channel that holds a connection. */
  ghost predicate Abandons(s: State, e: Event)
  {
    e.ExpiredLocked? && e.r < |s.pool.slots| && s.pool.released && s.pool.slots[e.r].Full?
  }

  ghost predicate SomeStepAbandons(s: State, es: seq<Event>)
    decreases |es|
  {
    es != [] && Next(s, es[0]).Some? &&
    (Abandons(s, es[0]) || SomeStepAbandons(Next(s, es[0]).value, es[1..]))
  }

  lemma AbandonedWait(s: State, e: Event, s': State, r: Req)
    requires Inv(s) && (e.Receive? || e.Expire? || e.ExpiredLocked?) && NextWait(s, e) == Some(s')
    ensures Abandoned(s', r) <==> Abandoned(s, r) || (Abandons(s, e) && e.r == r)
  {
    assert Accounted(s, e.r);
  }

  lemma AbandonedPut(s: State, c: Conn, s': State, r: Req)
    requires Inv(s) && Next(s, Put(c)) == Some(s')
    ensures Abandoned(s', r) <==> Abandoned(s, r)
  {
    if r < |s.waiters| {
      assert Accounted(s, r);
    }
    if !s.pool.released && s.pool.connReqs != [] {
      var q := s.pool.connReqs[0];
      assert q in s.pool.connReqs;
      assert Accounted(s, q);
    }
  }

  lemma AbandonedElsewhere(s: State, e: Event, s': State, r: Req)
    requires Inv(s) && Next(s, e) == Some(s') && !(e.Receive? || e.Expire? || e.ExpiredLocked? || e.Put?)
    ensures Abandoned(s', r) <==> Abandoned(s, r)
  {
    if r < |s.waiters| {
      assert Accounted(s, r);
    }
  }

  lemma AbandonedStep(s: State, e: Event, s': State, r: Req)
    requires Inv(s) && Next(s, e) == Some(s')
    ensures Abandoned(s', r) <==> Abandoned(s, r) || (Abandons(s, e) && e.r == r)
  {
    if e.Receive? || e.Expire? || e.ExpiredLocked? {
      AbandonedWait(s, e, s', r);
    } else if e.Put? {
      AbandonedPut(s, e.c, s', r);
    } else {
      AbandonedElsewhere(s, e, s', r);
    }
  }

  lemma {:induction false} AbandonedRun(s: State, es: seq<Event>, s': State)
    requires Inv(s) && Run(s, es) == Some(s')
    ensures (exists r :: Abandoned(s', r)) <==> (exists r :: Abandoned(s, r)) || SomeStepAbandons(s, es)
    decreases |es|
  {
    if es != [] {
      var s1 := Next(s, es[0]).value;
      NextKeepsInv(s, es[0], s1);
      AbandonedRun(s1, es[1..], s');
      forall r ensures Abandoned(s1, r) <==> Abandoned(s, r) || (Abandons(s, es[0]) && es[0].r == r) {
        AbandonedStep(s, es[0], s1, r);
      }
      if Abandons(s, es[0]) {
        assert Abandoned(s1, es[0].r);
      }
    }
  }

  /**
    When a released pool has come to rest (drained, nothing with callers, every waiter returned), every connection
    was closed exactly once if and only if no waiter took the timeout branch after release with a filled channel.
  */
  lemma ClosedExactlyOnceIff(maxActive: nat, maxWait: int, initial: nat, es: seq<Event>, s: State)
    requires Reached(maxActive, maxWait, initial, es, s)
    requires s.pool.released && !s.releasing && s.held == map[]
    requires forall r :: 0 <= r < |s.waiters| ==> s.waiters[r].Returned?
    ensures (forall c: Conn :: c < s.pool.made ==> multiset(s.pool.closed)[c] == 1)
       <==> !SomeStepAbandons(Init(maxActive, maxWait, initial), es)
    ensures s.pool.openingConns == 0 <==> !SomeStepAbandons(Init(maxActive, maxWait, initial), es)
  {
    var s0 := Init(maxActive, maxWait, initial);
    EveryConnectionInOnePlace(maxActive, maxWait, initial, es, s);
    InitInv(maxActive, maxWait, initial);
    RunKeepsInv(s0, es, s);
    AbandonedRun(s0, es, s);
    assert multiset(s.held.Keys) == multiset{};
    if SomeStepAbandons(s0, es) {
      var r: Req :| Abandoned(s, r);
      InSlotsMember(s.pool.slots, r);
      assert multiset(s.pool.closed)[s.pool.slots[r].conn] == 0;
    } else {
      NoSlotFull(s);
    }
    AtRestCounts(s);
  }

  lemma NoSlotFull(s: State)
    requires Inv(s) && (forall r: Req :: !Abandoned(s, r))
    requires forall r :: 0 <= r < |s.waiters| ==> s.waiters[r].Returned?
    ensures InSlots(s.pool.slots) == multiset{}
  {
    forall r: Req | r < |s.pool.slots| ensures !s.pool.slots[r].Full? {
      assert Accounted(s, r);
      assert !Abandoned(s, r);
    }
    InSlotsEmpty(s.pool.slots);
  }

  /** At rest, what was made and not closed is what stays in slots. */
  lemma AtRestCounts(s: State)
    requires Inv(s) && s.held == map[] && s.pool.released && !s.releasing
    ensures s.pool.made == |InSlots(s.pool.slots)| + |s.pool.closed|
  {
    AllCounts(s.pool.made);
    assert multiset(s.held.Keys) == multiset{};
    assert |multiset(s.pool.conns) + multiset(s.held.Keys) + InSlots(s.pool.slots) + multiset(s.pool.closed)|
        == |InSlots(s.pool.slots)| + |s.pool.closed|;
  }

  // ---------- A waiter can queue beside an idle connection ----------

  ghost predicate NoWaiterBesideIdle(s: State)
  {
    s.pool.connReqs != [] ==> s.pool.conns == []
  }

  /** Every connection that may be open is open. */
  predicate Saturated(s: State)
  {
    s.pool.made - |s.pool.closed| == s.pool.maxActive
  }

  /** The queue has as many requests as it may have. */
  predicate QueueFull(s: State)
  {
    s.pool.maxWait > 0 && |s.pool.connReqs| == s.pool.maxWait
  }

  /** When a call that found no idle connection has to wait. */
  predicate Queues(s: State)
  {
    !s.pool.released && Saturated(s) && !QueueFull(s)
  }

  lemma LockedBesideIdle(s: State, e: Event, s': State)
    requires Inv(s) && NoWaiterBesideIdle(s) && Next(s, e) == Some(s') && e.Locked?
    ensures NoWaiterBesideIdle(s') <==> !(Queues(s) && s.pool.conns != [])
  {
  }

  lemma PutBesideIdle(s: State, e: Event, s': State)
    requires Inv(s) && NoWaiterBesideIdle(s) && Next(s, e) == Some(s') && e.Put?
    ensures NoWaiterBesideIdle(s')
  {
  }

  lemma ElsewhereBesideIdle(s: State, e: Event, s': State)
    requires Inv(s) && NoWaiterBesideIdle(s) && Next(s, e) == Some(s') && !e.Put? && !e.Locked?
    ensures NoWaiterBesideIdle(s')
  {
  }

  /**
    The property is broken by exactly one kind of step: a call that chose `default` while the channel was empty
    and queues after a connection came back.
  */
  lemma NoWaiterBesideIdleIff(s: State, e: Event, s': State)
    requires Inv(s) && NoWaiterBesideIdle(s) && Next(s, e) == Some(s')
    ensures NoWaiterBesideIdle(s') <==> !(e.Locked? && Queues(s) && s.pool.conns != [])
  {
    if e.Locked? {
      LockedBesideIdle(s, e, s');
    } else if e.Put? {
      PutBesideIdle(s, e, s');
    } else {
      ElsewhereBesideIdle(s, e, s');
    }
  }

  // ---------- Both failures happen ----------

  /** One connection, in use. */
  lemma OneInUse() returns (es: seq<Event>, s: State)
    ensures Reached(1, 0, 0, es, s)
    ensures s.pool == Pool(1, 0, [], false, [], [], 1, false, true, 1, [])
    ensures s == State(s.pool, false, [], s.held, 0, 0, 0, 0, [], s.replies) && s.held == map[0 := InUse]
  {
    var s0 := Init(1, 0, 0);
    assert s0.pool.conns == [];
    var s1 := NextGet(s0, GetConns).value;
    Machine.RunOn(Next, s0, [], s0, GetConns, s1);
    var s2 := NextGet(s1, Select).value;
    Machine.RunOn(Next, s0, [] + [GetConns], s1, Select, s2);
    s := NextGet(s2, Locked(true)).value;
    Machine.RunOn(Next, s0, [] + [GetConns] + [Select], s2, Locked(true), s);
    es := [] + [GetConns] + [Select] + [Locked(true)];
    assert s.held == map[0 := InUse];
  }

  /** A second call that has looked for an idle connection, which then comes back. */
  lemma SecondCallLooks(s: State) returns (es: seq<Event>, s': State)
    requires s.pool == Pool(1, 0, [], false, [], [], 1, false, true, 1, [])
    requires s == State(s.pool, false, [], s.held, 0, 0, 0, 0, [], s.replies) && s.held == map[0 := InUse]
    ensures Run(s, es) == Some(s') && s'.pool == s.pool.(conns := [0])
    ensures s' == State(s'.pool, false, [], map[], 0, 1, 0, 0, [], s'.replies)
  {
    var s1 := NextGet(s, GetConns).value;
    Machine.RunOn(Next, s, [], s, GetConns, s1);
    var s2 := NextGet(s1, Select).value;
    Machine.RunOn(Next, s, [] + [GetConns], s1, Select, s2);
    s' := Next(s2, Put(0)).value;
    Machine.RunOn(Next, s, [] + [GetConns] + [Select], s2, Put(0), s');
    es := [] + [GetConns] + [Select] + [Put(0)];
    assert s'.held == map[];
  }

  /** One connection, two calls: the second call queues while the only connection is idle. */
  lemma WaiterBesideIdleIsReachable() returns (es: seq<Event>, s: State)
    ensures Reached(1, 0, 0, es, s)
    ensures !NoWaiterBesideIdle(s)
  {
    var first, s1 := OneInUse();
    var second, s2 := SecondCallLooks(s1);
    Machine.RunAppend(Next, Init(1, 0, 0), first, second);
    s := NextGet(s2, Locked(true)).value;
    Machine.RunOn(Next, Init(1, 0, 0), first + second, s2, Locked(true), s);
    es := first + second + [Locked(true)];
  }

  /** One more call, queued. */
  lemma OneWaits(s: State) returns (es: seq<Event>, s': State)
    requires s.pool == Pool(1, 0, [], false, [], [], 1, false, true, 1, [])
    requires s == State(s.pool, false, [], s.held, 0, 0, 0, 0, [], s.replies) && s.held == map[0 := InUse]
    ensures Run(s, es) == Some(s') && s'.pool == Pool(1, 0, [], false, [0], [Empty], 1, false, true, 1, [])
    ensures s' == State(s'.pool, false, [Waiting], s.held, 0, 0, 0, 0, [], s'.replies)
  {
    var s1 := NextGet(s, GetConns).value;
    Machine.RunOn(Next, s, [], s, GetConns, s1);
    var s2 := NextGet(s1, Select).value;
    Machine.RunOn(Next, s, [] + [GetConns], s1, Select, s2);
    s' := NextGet(s2, Locked(true)).value;
    Machine.RunOn(Next, s, [] + [GetConns] + [Select], s2, Locked(true), s');
    es := [] + [GetConns] + [Select] + [Locked(true)];
  }

  /** The time runs out, the connection is delivered, and the pool is released before the waiter looks. */
  lemma TimesOutAndReleases(s: State) returns (es: seq<Event>, s': State)
    requires s.pool == Pool(1, 0, [], false, [0], [Empty], 1, false, true, 1, [])
    requires s == State(s.pool, false, [Waiting], s.held, 0, 0, 0, 0, [], s.replies) && s.held == map[0 := InUse]
    ensures Run(s, es) == Some(s') && s'.waiters == [Expired] && s'.held == map[] && !s'.releasing
    ensures s'.pool == Pool(1, 0, [], true, [], [Full(0)], 1, true, true, 1, [])
  {
    var s1 := Next(s, Expire(0)).value;
    Machine.RunOn(Next, s, [], s, Expire(0), s1);
    var s2 := Next(s1, Put(0)).value;
    Machine.RunOn(Next, s, [] + [Expire(0)], s1, Put(0), s2);
    assert s2.held == map[] && s2.pool.slots == [Full(0)] && s2.pool.connReqs == [];
    es := [] + [Expire(0)] + [Put(0)];
    var s3 := Next(s2, Release).value;
    Machine.RunOn(Next, s, es, s2, Release, s3);
    assert s3.pool.slots == [Full(0)];
    s' := Next(s3, ReleaseDone).value;
    Machine.RunOn(Next, s, es + [Release], s3, ReleaseDone, s');
    es := es + [Release] + [ReleaseDone];
  }

  /** A released pool at rest, every waiter returned, whose one connection sits in a slot and is never closed. */
  lemma AbandonedSlotIsReachable() returns (es: seq<Event>, s: State)
    ensures Reached(1, 0, 0, es, s) && SomeStepAbandons(Init(1, 0, 0), es)
    ensures s.pool.released && !s.releasing && s.held == map[]
    ensures forall r :: 0 <= r < |s.waiters| ==> s.waiters[r].Returned?
    ensures s.pool.openingConns == 1 && s.pool.closed == [] && s.pool.slots == [Full(0)]
  {
    var s0 := Init(1, 0, 0);
    var es1, s1 := OneInUse();
    var es2, s2 := OneWaits(s1);
    Machine.RunAppend(Next, s0, es1, es2);
    var es3, s3 := TimesOutAndReleases(s2);
    Machine.RunAppend(Next, s0, es1 + es2, es3);
    s := NextWait(s3, ExpiredLocked(0)).value;
    Machine.RunOn(Next, s0, es1 + es2 + es3, s3, ExpiredLocked(0), s);
    es := es1 + es2 + es3 + [ExpiredLocked(0)];
    ClosedExactlyOnceIff(1, 0, 0, es, s);
  }

  // ---------- Release without interference ----------

  /** What the draining loop makes of the pool when no caller receives meanwhile. */
  function Drained(p: Pool): Pool
  {
    p.(conns := [], openingConns := p.openingConns - |p.conns|, closed := p.closed + p.conns)
  }

  /** The transition system reaches the same state by as many draining steps as there are idle connections. */
  lemma {:induction false} DrainRuns(s: State)
    requires s.releasing && s.pool.hasClose
    ensures Run(s, seq(|s.pool.conns|, _ => Drain)) == Some(s.(pool := Drained(s.pool)))
    decreases |s.pool.conns|
  {
    var n := |s.pool.conns|;
    if n == 0 {
      assert s.pool.closed + [] == s.pool.closed;
    } else {
      var s1 := s.(pool := DrainSection(s.pool));
      DrainRuns(s1);
      assert seq(n, _ => Drain)[1..] == seq(n - 1, _ => Drain);
      assert s1.pool.closed + s1.pool.conns == s.pool.closed + s.pool.conns;
    }
  }
}
