/** The pool of tools/connectpool/pool.go as the object it is: fields updated by methods that hold the mutex. */
module ConnectPoolObject {
  import opened Wrappers
  import opened Sequences
  import opened ConnectPool

  datatype NewReply = Ready | Refused(reason: string) | FactoryError | Blocked

  /** The number of the first factory call among the first `n` that fails, or `n`. */
  function FirstFailure(succeeds: nat -> bool, n: nat): (f: nat)
    ensures f <= n
    ensures f < n ==> !succeeds(f)
    ensures forall i :: 0 <= i < f ==> succeeds(i)
  {
    if n == 0 then 0
    else
      var f := FirstFailure(succeeds, n - 1);
      if f < n - 1 || !succeeds(n - 1) then f else n
  }

  lemma {:induction false} WithoutAt(q: seq<Req>, r: Req, i: nat)
    requires i < |q| && q[i] == r && forall k :: 0 <= k < i ==> q[k] != r
    ensures Without(q, r) == q[..i] + q[i + 1..]
    decreases i
  {
    if i > 0 {
      WithoutAt(q[1..], r, i - 1);
      assert q[..i] == [q[0]] + q[1..][..i - 1];
      assert q[1..][i..] == q[i + 1..];
    }
  }

  /** Every request in the queue has an open and empty channel. */
  ghost predicate Waits(q: seq<Req>, slots: seq<Slot>)
  {
    forall i :: 0 <= i < |q| ==> q[i] < |slots| && slots[q[i]].Empty?
  }

  lemma CutStaysQueued(q: seq<Req>, slots: seq<Slot>, r: Req)
    requires Waits(q, slots)
    ensures Waits(Without(q, r), slots)
  {
    forall i | 0 <= i < |Without(q, r)| ensures Without(q, r)[i] in q {
      assert Without(q, r)[i] in Without(q, r);
    }
  }

  class Instance {
    const maxActive: nat
    const maxWait: int
    var conns: seq<Conn>
    var connsShut: bool
    var connReqs: seq<Req>
    var slots: seq<Slot>
    var openingConns: int
    var released: bool
    var hasClose: bool
    var made: nat
    var closed: seq<Conn>

    ghost function Contents(): Pool
      reads this
    {
      Pool(maxActive, maxWait, conns, connsShut, connReqs, slots, openingConns, released, hasClose, made, closed)
    }

    /**
      Queued channels are open and empty; the idle channel is open until release; `openingConns` counts the
      connections that were made and not closed, of which there are at most `maxActive`.
    */
    ghost predicate Valid()
      reads this
    {
      && Increasing(connReqs)
      && Waits(connReqs, slots)
      && connsShut == released
      && (released ==> connReqs == [])
      && openingConns == made - |closed| <= maxActive
    }

    constructor (maxActive: nat, maxWait: int)
      ensures Contents() == Fresh(maxActive, maxWait, 0) && Valid()
    {
      this.maxActive, this.maxWait := maxActive, maxWait;
      conns, connsShut, connReqs, slots := [], false, [], [];
      openingConns, released, hasClose, made, closed := 0, false, true, 0, [];
      new;
      assert seq(0, i => i) == [];
    }

    /**
      `NewConnectPool`.  It comes back with `initialCap` idle connections, or with an error and every connection it
      had made closed, except that it never comes back when `initialCap` exceeds the channel's capacity and the
      factory does not fail first.
    */
    static method New(initialCap: int, maxCap: int, maxWait: int, hasFactory: bool, hasCloseFunc: bool,
                      succeeds: nat -> bool)
      returns (reply: NewReply, pool: Instance?)
      ensures reply.Refused? <==> maxCap <= 0 || !hasFactory || !hasCloseFunc
      ensures reply.Refused? <==> pool == null
      ensures pool != null ==> fresh(pool) && pool.Valid()
      ensures !reply.Refused? ==>
                var n := if initialCap > 0 then initialCap else 0;
                var f := FirstFailure(succeeds, n);
                && (reply.Ready? <==> f == n <= maxCap)
                && (reply.Blocked? <==> maxCap < f)
                && (reply.Ready? ==> pool.Contents() == Fresh(maxCap, maxWait, n))
                && (reply.FactoryError? ==> pool.released && pool.conns == [] && pool.openingConns == 0
                                            && pool.closed == seq(f, i => i) && pool.made == f)
    {
      pool := null;
      if maxCap <= 0 {
        return Refused("MaxCap must larger than 0"), null;
      }
      if !hasFactory {
        return Refused("invalid factory func settings"), null;
      }
      if !hasCloseFunc {
        return Refused("invalid close func settings"), null;
      }
      pool := new Instance(maxCap, maxWait);
      var n := if initialCap > 0 then initialCap else 0;
      var i := 0;
      while i < n
        invariant 0 <= i <= n && i <= maxCap
        invariant forall k :: 0 <= k < i ==> succeeds(k)
        invariant fresh(pool) && pool.Valid()
        invariant pool.Contents() == Fresh(maxCap, maxWait, i)
      {
        ghost var f := FirstFailure(succeeds, n);
        if !succeeds(i) {
          assert f == i;
          pool.Release();
          assert [] + seq(i, k => k) == seq(i, k => k);
          return FactoryError, pool;
        }
        if |pool.conns| == maxCap {
          assert i == maxCap < f;
          return Blocked, pool;
        }
        assert seq(i + 1, k => k) == seq(i, k => k) + [i];
        pool.openingConns := pool.openingConns + 1;
        pool.made := pool.made + 1;
        pool.conns := pool.conns + [i];
        i := i + 1;
      }
      reply := Ready;
    }

    /**
      The section of `GetWithContext` behind `default`: an error and nothing else, a new connection for the caller
      while fewer than `maxActive` are open, or a channel of its own at the end of the queue.
    */
    method GetLocked(ok: bool) returns (reply: GetReply)
      requires Valid()
      modifies this
      ensures Valid()
      ensures reply.ErrClosed? <==> old(released)
      ensures reply.ErrMaxWait? || reply.Wait? <==> !old(released) && old(made - |closed|) == maxActive
      ensures reply.ErrMaxWait? ==> 0 < maxWait <= old(|connReqs|)
      ensures reply.Wait? ==> !(0 < maxWait <= old(|connReqs|))
      ensures reply.ErrFactory? || reply.Take? <==> !old(released) && old(made - |closed|) < maxActive
      ensures reply.ErrFactory? ==> !ok
      ensures reply.Take? ==> ok && reply.conn == old(made) && made == old(made) + 1
      ensures reply.Wait? ==> reply.req == old(|slots|) && connReqs == old(connReqs) + [reply.req]
                              && slots == old(slots) + [Empty]
      ensures (Contents(), reply) == GetSection(old(Contents()), ok)
    {
      if released {
        return ErrClosed;
      }
      if openingConns >= maxActive {
        if maxWait > 0 && |connReqs| >= maxWait {
          return ErrMaxWait;
        }
        var req := |slots|;
        slots := slots + [Empty];
        connReqs := connReqs + [req];
        return Wait(req);
      }
      if !ok {
        return ErrFactory;
      }
      var conn := made;
      made := made + 1;
      openingConns := openingConns + 1;
      return Take(conn);
    }

    /** The section a waiter enters when its context is done: look for the request and cut it out of the queue. */
    method TimeoutLocked(req: Req) returns (reply: TimeoutReply)
      requires Valid()
      modifies this`connReqs
      ensures Valid()
      ensures (Contents(), reply) == TimeoutSection(old(Contents()), req)
    {
      if released {
        return PoolReleased;
      }
      var i := 0;
      while i < |connReqs|
        invariant 0 <= i <= |connReqs|
        invariant connReqs == old(connReqs)
        invariant forall k :: 0 <= k < i ==> connReqs[k] != req
      {
        if connReqs[i] == req {
          WithoutAt(connReqs, req, i);
          WithoutIncreasing(connReqs, req);
          CutStaysQueued(connReqs, slots, req);
          connReqs := connReqs[..i] + connReqs[i + 1..];
          return Removed;
        }
        i := i + 1;
      }
      return NotQueued;
    }

    method Close(conn: Option<Conn>) returns (rejected: bool)
      requires Valid()
      modifies this`openingConns, this`closed
      ensures Valid()
      ensures rejected <==> conn.None?
      ensures Contents() == if conn.None? then old(Contents()) else CloseSection(old(Contents()), conn.value)
    {
      if conn.None? {
        return true;
      }
      rejected := false;
      if !hasClose {
        return;
      }
      openingConns := openingConns - 1;
      closed := closed + [conn.value];
    }

    /**
      `Put` with no other thread in between its sections: the connection goes to the request that has queued longest,
      else to the idle ones, and is closed when the pool is released or there is no room; the close function is
      dropped with the last connection of a released pool.
    */
    method Put(conn: Option<Conn>) returns (rejected: bool)
      requires Valid()
      modifies this
      ensures Valid()
      ensures rejected <==> conn.None?
      ensures rejected ==> Contents() == old(Contents())
      ensures !rejected && old(released) ==> (hasClose <==> old(hasClose) && made != |closed|)
      ensures !rejected && !old(released) && old(connReqs) != [] ==>
                && old(connReqs[0] < |slots|)
                && connReqs == old(connReqs)[1..] && slots == old(slots)[old(connReqs[0]) := Full(conn.value)]
      ensures !rejected && !old(released) && old(connReqs) == [] && old(|conns|) < maxActive ==>
                conns == old(conns) + [conn.value]
      ensures closed == if !rejected && old(hasClose)
                          && (old(released) || (old(connReqs) == [] && old(|conns|) >= maxActive))
                        then old(closed) + [conn.value] else old(closed)
      ensures Contents() == if conn.None? then old(Contents()) else PutAlone(old(Contents()), conn.value)
    {
      if conn.None? {
        return true;
      }
      rejected := false;
      if released {
        var _ := Close(conn);
        if openingConns == 0 {
          hasClose := false;
        }
        return;
      }
      if |connReqs| > 0 {
        var req := connReqs[0];
        connReqs := connReqs[1..];
        slots := slots[req := Full(conn.value)];
        return;
      }
      if |conns| < maxActive {
        conns := conns + [conn.value];
      } else {
        var _ := Close(conn);
      }
    }

    /** `Release`: close the queued channels, then hand over to `doRelease`. */
    method Release()
      requires Valid()
      modifies this
      ensures Valid() && released
      ensures Contents() == if old(released) then old(Contents()) else Drained(ReleaseSection(old(Contents())))
    {
      if released {
        return;
      }
      released := true;
      var i := 0;
      while i < |connReqs|
        invariant 0 <= i <= |connReqs| && |slots| == |old(slots)|
        invariant forall k :: 0 <= k < |slots| ==> slots[k] == if k in connReqs[..i] then Shut else old(slots)[k]
        invariant Contents() == old(Contents()).(released := true, slots := slots)
      {
        assert connReqs[..i + 1] == connReqs[..i] + [connReqs[i]];
        slots := slots[connReqs[i] := Shut];
        i := i + 1;
      }
      assert connReqs[..i] == connReqs;
      assert slots == ShutAll(old(slots), old(connReqs));
      connReqs := [];
      DoRelease();
    }

    /** Close the idle channel and close every connection still in it. */
    method DoRelease()
      modifies this`connsShut, this`conns, this`closed, this`openingConns
      ensures Contents() == Drained(old(Contents()).(connsShut := true))
    {
      connsShut := true;
      ghost var all := conns;
      while conns != []
        invariant |conns| <= |all| && conns == all[|all| - |conns|..]
        invariant closed == old(closed) + all[..|all| - |conns|]
        invariant openingConns == old(openingConns) - (|all| - |conns|)
        invariant connsShut
        decreases |conns|
      {
        openingConns := openingConns - 1;
        closed := closed + [conns[0]];
        conns := conns[1..];
      }
      assert all[..|all|] == all;
    }
  }

  /** The sections of one `Put` run back to back. */
  function PutAlone(p: Pool, c: Conn): Pool
  {
    var (q, reply) := PutSection(p, c);
    match reply
    case MustClose(tail) =>
      var r := CloseSection(p, c);
      if tail && r.openingConns == 0 then r.(hasClose := false) else r
    case _ => q
  }
}
