/**
  The per-user registry of connector pools of db/commonpool/pool.go: `getConnectorPoolSafe` under `connectionLocker`,
  and the goroutine of each pool that releases it when the password changes, the user is dropped or the whitelist
  cannot be fetched.
*/
module Registry {
  import opened Wrappers
  import Machine

  type Pool = nat

  datatype Built = Built(user: string, password: string, released: bool)

  /** What the holder of `connectionLocker` still has to do. */
  datatype Section = Unlocked | Replacing(stale: Pool, made: Pool) | Storing(made: Pool)

  /** A value returned by `getConnectorPoolSafe`, with the request it answers. */
  datatype Answer = Answer(user: string, password: string, pool: Pool)

  datatype State = State(
    connectionMap: map<string, Pool>,
    pools: seq<Built>,
    section: Section,
    answers: seq<Answer>)

  datatype Event =
    | FastGet(user: string, password: string)
    | Enter(user: string, password: string, connectOk: bool)
    | ReleaseOld
    | Store
    | Signal(p: Pool)

  /** `Release`: the body runs once, and removes the entry only if it is this pool's. */
  function Releases(s: State, p: Pool): State
    requires p < |s.pools|
  {
    if s.pools[p].released then s
    else
      var user := s.pools[p].user;
      s.(pools := s.pools[p := s.pools[p].(released := true)],
         connectionMap := if user in s.connectionMap && s.connectionMap[user] == p then s.connectionMap - {user}
                          else s.connectionMap)
  }

  function Next(s: State, e: Event): Option<State>
  {
    match e
    case FastGet(user, password) =>
      // the lookup of getConnectionPool, made without the lock
      if user in s.connectionMap && s.connectionMap[user] < |s.pools|
         && s.pools[s.connectionMap[user]].password == password then
        Some(s.(answers := s.answers + [Answer(user, password, s.connectionMap[user])]))
      else None
    case Enter(user, password, connectOk) =>
      if !s.section.Unlocked? then None
      else
        var made := |s.pools|;
        var grown := s.(pools := s.pools + [Built(user, password, false)]);
        if user in s.connectionMap then
          var p := s.connectionMap[user];
          if p < |s.pools| && s.pools[p].password == password then
            Some(s.(answers := s.answers + [Answer(user, password, p)]))
          else if !connectOk then Some(s)
          else Some(grown.(section := Replacing(p, made)))
        else if !connectOk then Some(s)
        else Some(grown.(section := Storing(made)))
    case ReleaseOld =>
      if s.section.Replacing? && s.section.stale < |s.pools| then
        Some(Releases(s, s.section.stale).(section := Storing(s.section.made)))
      else None
    case Store =>
      if s.section.Storing? && s.section.made < |s.pools| then
        var p := s.section.made;
        Some(s.(connectionMap := s.connectionMap[s.pools[p].user := p],
                section := Unlocked,
                answers := s.answers + [Answer(s.pools[p].user, s.pools[p].password, p)]))
      else None
    case Signal(p) =>
      if s.section.Unlocked? && p < |s.pools| then Some(Releases(s, p)) else None
  }

  function Run(s: State, es: seq<Event>): Option<State>
  {
    Machine.Run(Next, s, es)
  }

  function Init(): State
  {
    State(map[], [], Unlocked, [])
  }

  /** The pool the current section has built and not stored. */
  predicate InHand(s: State, p: Pool)
  {
    !s.section.Unlocked? && s.section.made == p
  }

  ghost predicate Inv(s: State)
  {
    && (forall u :: u in s.connectionMap ==>
          var p := s.connectionMap[u];
          p < |s.pools| && s.pools[p].user == u && !s.pools[p].released && !InHand(s, p))
    && (forall p: Pool :: p < |s.pools| && !s.pools[p].released && !InHand(s, p) ==>
          s.pools[p].user in s.connectionMap && s.connectionMap[s.pools[p].user] == p)
    && (!s.section.Unlocked? ==> s.section.made < |s.pools| && !s.pools[s.section.made].released)
    && (s.section.Storing? ==> s.pools[s.section.made].user !in s.connectionMap)
    && (s.section.Replacing? ==>
          var user := s.pools[s.section.made].user;
          user in s.connectionMap && s.connectionMap[user] == s.section.stale)
    && (forall a :: a in s.answers ==>
          a.pool < |s.pools| && s.pools[a.pool].user == a.user && s.pools[a.pool].password == a.password)
  }

  lemma ReleasesKeepsRest(s: State, p: Pool)
    requires p < |s.pools|
    ensures |Releases(s, p).pools| == |s.pools| && Releases(s, p).pools[p].released
    ensures forall q :: 0 <= q < |s.pools| ==>
              Releases(s, p).pools[q] == s.pools[q].(released := s.pools[q].released || q == p)
  {
  }

  lemma EnterKeepsInv(s: State, user: string, password: string, connectOk: bool, s': State)
    requires Inv(s) && Next(s, Enter(user, password, connectOk)) == Some(s')
    ensures Inv(s')
  {
  }

  lemma ReleasesKeepsInv(s: State, p: Pool, s': State)
    requires Inv(s) && p < |s.pools| && !InHand(s, p) && !s.section.Storing?
    requires s.section.Replacing? ==> s.section.stale == p
    requires s' == Releases(s, p).(section := if s.section.Replacing? then Storing(s.section.made) else Unlocked)
    ensures Inv(s')
  {
    ReleasesKeepsRest(s, p);
  }

  lemma StoreKeepsInv(s: State, s': State)
    requires Inv(s) && Next(s, Store) == Some(s')
    ensures Inv(s')
  {
  }

  lemma NextKeepsInv(s: State, e: Event, s': State)
    requires Inv(s) && Next(s, e) == Some(s')
    ensures Inv(s')
  {
    match e
    case FastGet(_, _) =>
    case Enter(user, password, connectOk) => EnterKeepsInv(s, user, password, connectOk, s');
    case ReleaseOld => ReleasesKeepsInv(s, s.section.stale, s');
    case Store => StoreKeepsInv(s, s');
    case Signal(p) => ReleasesKeepsInv(s, p, s');
  }

  lemma {:induction false} RunKeepsInv(s: State, es: seq<Event>, s': State)
    requires Inv(s) && Run(s, es) == Some(s')
    ensures Inv(s')
    decreases |es|
  {
    if es != [] {
      var s1 := Next(s, es[0]).value;
      NextKeepsInv(s, es[0], s1);
      RunKeepsInv(s1, es[1..], s');
    }
  }

  /**
    Whenever the lock is free the entries are exactly the pools that were built and not released, so each user has at
    most one live pool; every answer names a pool with exactly the requested user and password.
  */
  lemma EntriesAreTheLivePools(es: seq<Event>, s: State)
    requires Run(Init(), es) == Some(s)
    ensures s.section.Unlocked? ==> forall u, p: Pool ::
              (u in s.connectionMap && s.connectionMap[u] == p) <==>
              (p < |s.pools| && s.pools[p].user == u && !s.pools[p].released)
    ensures s.section.Unlocked? ==> forall p: Pool, q: Pool ::
              (p < |s.pools| && q < |s.pools| && !s.pools[p].released && !s.pools[q].released
               && s.pools[p].user == s.pools[q].user) ==> p == q
    ensures forall a :: a in s.answers ==>
              a.pool < |s.pools| && s.pools[a.pool].user == a.user && s.pools[a.pool].password == a.password
  {
    RunKeepsInv(Init(), es, s);
  }

  /** A pool whose user's entry passed to another pool has been released. */
  lemma ReplacedPoolsAreReleased(es: seq<Event>, s: State, p: Pool)
    requires Run(Init(), es) == Some(s) && s.section.Unlocked? && p < |s.pools|
    requires s.pools[p].user in s.connectionMap && s.connectionMap[s.pools[p].user] != p
    ensures s.pools[p].released
  {
    RunKeepsInv(Init(), es, s);
  }

  /**
    Any step takes away only the entry of a pool it releases, so a late signal to a replaced pool removes no
    successor; and a released pool is never live again.
  */
  lemma EntriesLeaveOnlyByRelease(es: seq<Event>, s: State, e: Event, s': State)
    requires Run(Init(), es) == Some(s) && Next(s, e) == Some(s')
    ensures forall u :: u in s.connectionMap ==>
              || (u in s'.connectionMap && s'.connectionMap[u] == s.connectionMap[u])
              || (s.connectionMap[u] < |s'.pools| && s'.pools[s.connectionMap[u]].released)
    ensures |s.pools| <= |s'.pools| && forall p: Pool :: p < |s.pools| && s.pools[p].released ==> s'.pools[p].released
    ensures e.Signal? && s.pools[e.p].released ==> s' == s
  {
    RunKeepsInv(Init(), es, s);
    match e
    case FastGet(_, _) =>
    case Enter(_, _, _) =>
    case ReleaseOld => ReleasesKeepsRest(s, s.section.stale);
    case Store =>
    case Signal(p) => ReleasesKeepsRest(s, p);
  }

  // ---------- Reuse ----------

  predicate Live(s: State, p: Pool)
  {
    p < |s.pools| && !s.pools[p].released
  }

  /** A request with the user and password of a live pool is answered with it, by either lookup, and changes nothing. */
  lemma LivePoolIsReused(es: seq<Event>, s: State, p: Pool, connectOk: bool)
    requires Run(Init(), es) == Some(s) && s.section.Unlocked? && Live(s, p)
    ensures var user, password := s.pools[p].user, s.pools[p].password;
            && Next(s, Enter(user, password, connectOk)) == Some(s.(answers := s.answers + [Answer(user, password, p)]))
            && Next(s, FastGet(user, password)) == Some(s.(answers := s.answers + [Answer(user, password, p)]))
  {
    RunKeepsInv(Init(), es, s);
  }

  /** The lookup without the lock answers exactly when a live pool has the user and password. */
  lemma FastGetIff(es: seq<Event>, s: State, user: string, password: string)
    requires Run(Init(), es) == Some(s) && s.section.Unlocked?
    ensures Next(s, FastGet(user, password)).Some? <==>
            exists p: Pool :: Live(s, p) && s.pools[p].user == user && s.pools[p].password == password
  {
    RunKeepsInv(Init(), es, s);
    if Next(s, FastGet(user, password)).Some? {
      assert Live(s, s.connectionMap[user]);
    }
  }

  /** The rest of the locked section once a pool was built. */
  function Completed(s: State): Option<State>
  {
    var released := if s.section.Replacing? then Next(s, ReleaseOld) else Some(s);
    if released.None? then None else Next(released.value, Store)
  }

  ghost predicate NoneFor(s: State, user: string, password: string)
  {
    forall p: Pool :: Live(s, p) && s.pools[p].user == user ==> s.pools[p].password != password
  }

  /**
    Any other request fails and changes nothing when it cannot connect; else it is answered with a new live pool, and
    of the pools before it exactly the live one of the same user, if there was one, is released.
  */
  lemma OtherwiseOneIsBuilt(es: seq<Event>, s: State, user: string, password: string)
    requires Run(Init(), es) == Some(s) && s.section.Unlocked? && NoneFor(s, user, password)
    ensures Next(s, Enter(user, password, false)) == Some(s)
    ensures var s1 := Next(s, Enter(user, password, true));
            && s1.Some? && !s1.value.section.Unlocked? && Completed(s1.value).Some?
            && var s' := Completed(s1.value).value;
            && s'.section.Unlocked? && s'.answers == s.answers + [Answer(user, password, |s.pools|)]
            && |s'.pools| == |s.pools| + 1 && s'.pools[|s.pools|] == Built(user, password, false)
            && (forall p: Pool :: p < |s.pools| ==>
                  s'.pools[p] == s.pools[p].(released := s.pools[p].released || s.pools[p].user == user))
  {
    RunKeepsInv(Init(), es, s);
    assert user in s.connectionMap ==> Live(s, s.connectionMap[user]);
    var s1 := Next(s, Enter(user, password, true)).value;
    EnterKeepsInv(s, user, password, true, s1);
    if s1.section.Replacing? {
      var s2 := Next(s1, ReleaseOld).value;
      ReleasesKeepsRest(s1, s1.section.stale);
      NextKeepsInv(s1, ReleaseOld, s2);
    }
  }

  // ---------- Why a pool is released ----------

  /** A request with another password that connects, while the pool is the entry of its user. */
  predicate Supersedes(s: State, e: Event, p: Pool)
  {
    && e.Enter? && e.connectOk && s.section.Unlocked?
    && e.user in s.connectionMap && s.connectionMap[e.user] == p && p < |s.pools| && s.pools[p].password != e.password
  }

  ghost predicate SupersededIn(s: State, es: seq<Event>, p: Pool)
    decreases |es|
  {
    && es != []
    && (Supersedes(s, es[0], p) || (Next(s, es[0]).Some? && SupersededIn(Next(s, es[0]).value, es[1..], p)))
  }

  /** The request that supersedes the pool has built its successor and not released it yet. */
  predicate Awaits(s: State, p: Pool)
  {
    s.section.Replacing? && s.section.stale == p
  }

  predicate Gone(s: State, p: Pool)
  {
    p < |s.pools| && s.pools[p].released
  }

  lemma GoneStep(s: State, e: Event, s': State, p: Pool)
    requires Inv(s) && Next(s, e) == Some(s')
    ensures Gone(s', p) <==> Gone(s, p) || e == Signal(p) || (Awaits(s, p) && e.ReleaseOld?)
    ensures Awaits(s', p) <==> Supersedes(s, e, p) || (Awaits(s, p) && !e.ReleaseOld?)
  {
    match e
    case FastGet(_, _) =>
    case Enter(_, _, _) =>
    case ReleaseOld => ReleasesKeepsRest(s, s.section.stale);
    case Store =>
    case Signal(q) => ReleasesKeepsRest(s, q);
  }

  lemma NotBoth(s: State, p: Pool)
    requires Inv(s)
    ensures !(Gone(s, p) && Awaits(s, p))
  {
  }

  lemma {:induction false} GoneStays(s: State, es: seq<Event>, s': State, p: Pool)
    requires Inv(s) && Run(s, es) == Some(s') && Gone(s, p)
    ensures Gone(s', p)
    decreases |es|
  {
    if es != [] {
      var s1 := Next(s, es[0]).value;
      GoneStep(s, es[0], s1, p);
      NextKeepsInv(s, es[0], s1);
      GoneStays(s1, es[1..], s', p);
    }
  }

  lemma {:induction false} GoneIff(s: State, es: seq<Event>, s': State, p: Pool)
    requires Inv(s) && Run(s, es) == Some(s')
    ensures Gone(s', p) <==>
            Gone(s, p) || Signal(p) in es || ((Awaits(s, p) || SupersededIn(s, es, p)) && !Awaits(s', p))
    decreases |es|
  {
    RunKeepsInv(s, es, s');
    NotBoth(s', p);
    if es != [] {
      var s1 := Next(s, es[0]).value;
      GoneStep(s, es[0], s1, p);
      NextKeepsInv(s, es[0], s1);
      GoneIff(s1, es[1..], s', p);
      assert Signal(p) in es <==> es[0] == Signal(p) || Signal(p) in es[1..];
      if Gone(s1, p) {
        GoneStays(s1, es[1..], s', p);
      }
    }
  }

  /**
    In every run the pools that are released are exactly those that got a signal and those that were superseded: whose
    user was requested, while they were the entry, with another password that connects.
  */
  lemma ReleasedIff(es: seq<Event>, s: State, p: Pool)
    requires Run(Init(), es) == Some(s) && p < |s.pools|
    ensures s.pools[p].released <==> Signal(p) in es || (SupersededIn(Init(), es, p) && !Awaits(s, p))
  {
    GoneIff(Init(), es, s, p);
  }
}

/** The registry as objects: the map and the pools it points to are updated in place under the lock. */
module RegistryObjects {

  class ConnectorPool {
    const user: string
    const password: string
    var released: bool

    constructor (user: string, password: string)
      ensures this.user == user && this.password == password && !released
    {
      this.user, this.password, released := user, password, false;
    }
  }

  class Instance {
    var connectionMap: map<string, ConnectorPool>
    ghost var built: set<ConnectorPool>

    /** The entries are exactly the live pools that were built. */
    ghost predicate Valid()
      reads this, built
    {
      && (forall u :: u in connectionMap ==>
            connectionMap[u] in built && connectionMap[u].user == u && !connectionMap[u].released)
      && (forall p :: p in built && !p.released ==> p.user in connectionMap && connectionMap[p.user] == p)
    }

    constructor ()
      ensures Valid() && connectionMap == map[] && built == {}
    {
      connectionMap, built := map[], {};
    }

    method Release(p: ConnectorPool)
      requires Valid() && p in built
      modifies this`connectionMap, p
      ensures Valid() && p.released
      ensures connectionMap ==
              if !old(p.released) then old(connectionMap) - {p.user} else old(connectionMap)
    {
      if !p.released {
        p.released := true;
        if p.user in connectionMap && connectionMap[p.user] == p {
          connectionMap := connectionMap - {p.user};
        }
      }
    }

    /**
      An entry with the right password is the answer and nothing changes. Else a failed connect changes nothing, and a
      connect gives a new entry, for which exactly the replaced pool is released.
    */
    method GetConnectorPoolSafe(user: string, password: string, connectOk: bool) returns (r: ConnectorPool?)
      requires Valid()
      modifies this, built
      ensures Valid()
      ensures user in old(connectionMap) && old(connectionMap)[user].password == password ==>
                r == old(connectionMap)[user] && connectionMap == old(connectionMap) && built == old(built)
      ensures r == null <==>
                !connectOk && !(user in old(connectionMap) && old(connectionMap)[user].password == password)
      ensures r == null ==> connectionMap == old(connectionMap) && built == old(built)
      ensures r != null ==> r.user == user && r.password == password && r in built && !r.released
      ensures r != null ==> connectionMap == old(connectionMap)[user := r] && built == old(built) + {r}
      ensures r != null && !(user in old(connectionMap) && old(connectionMap)[user].password == password) ==> fresh(r)
      ensures forall p :: p in old(built) ==>
                p.released == (old(p.released) || (r != null && user in old(connectionMap)
                                                   && p == old(connectionMap)[user] && p.password != password))
    {
      if user in connectionMap {
        var pool := connectionMap[user];
        if pool.password == password {
          return pool;
        }
        if !connectOk {
          return null;
        }
        var replacement := new ConnectorPool(user, password);
        Release(pool);
        connectionMap := connectionMap[user := replacement];
        built := built + {replacement};
        return replacement;
      }
      if !connectOk {
        return null;
      }
      r := new ConnectorPool(user, password);
      connectionMap := connectionMap[user := r];
      built := built + {r};
    }
  }
}
