/** The load balancer's objects (ingress/lb.py): Backend, and LoadBalancer with registration,
    health checks, admin control, choice of a backend and the connect retry loop.  Each method is
    tied to the function of BackendPool, Routing or Rebalance that specifies it. */
module LoadBalancers {
  import opened Base
  import opened BackendPool
  import opened Routing
  import opened ClientTable
  import opened Rebalance

  class Backend {
    const host: string
    const port: int
    ghost const number: nat
    var healthy: bool
    var isDynamic: bool
    var manualDown: bool
    var registrationEpoch: int

    constructor (host: string, port: int, isDynamic: bool, epoch: int, ghost number: nat)
      ensures View() == Fields(host, port, true, isDynamic, false, epoch) && this.number == number
    {
      this.host, this.port, this.isDynamic, this.registrationEpoch := host, port, isDynamic, epoch;
      healthy, manualDown, this.number := true, false, number;
    }

    function View(): Fields
      reads this
    {
      Fields(host, port, healthy, isDynamic, manualDown, registrationEpoch)
    }
  }

  ghost function Numbers(s: seq<Backend>): (r: seq<nat>)
    ensures |r| == |s| && forall i :: 0 <= i < |r| ==> r[i] == s[i].number
  {
    seq(|s|, i requires 0 <= i < |s| => s[i].number)
  }

  lemma NumbersAppend(s: seq<Backend>, b: Backend)
    ensures Numbers(s + [b]) == Numbers(s) + [b.number]
  {
  }

  ghost function Targets(sticky: map<SessionId, Backend>): map<SessionId, nat> {
    map sid | sid in sticky :: sticky[sid].number
  }

  ghost predicate Knows(known: seq<Backend>, b: Backend) {
    b.number < |known| && known[b.number] == b
  }

  ghost predicate Numbered(known: seq<Backend>) {
    forall i :: 0 <= i < |known| ==> known[i].number == i
  }

  /** The pool `p` is what the objects and the list hold. */
  ghost predicate Stands(p: Pool, known: seq<Backend>, backends: seq<Backend>)
    reads known
  {
    && Numbered(known)
    && |p.objs| == |known| && (forall i :: 0 <= i < |known| ==> p.objs[i] == known[i].View())
    && |p.members| == |backends| && (forall i :: 0 <= i < |backends| ==> p.members[i] == backends[i].number)
    && (forall i :: 0 <= i < |backends| ==> Knows(known, backends[i]))
  }

  /** The first member under an address is the only one. */
  lemma FindIs(p: Pool, a: Address, k: nat)
    requires PoolOk(p) && k < |p.members| && p.objs[p.members[k]].Address() == a
    ensures Find(p, a) == Some(k)
  {
  }

  lemma FindEqualIs(p: Pool, f: Fields, k: nat)
    requires PoolOk(p) && k < |p.members| && p.objs[p.members[k]] == f
    ensures FindEqual(p, f, 0) == Some(k)
  {
  }

  ghost function Ids(s: set<Backend>): (r: set<nat>)
    ensures forall b :: b in s ==> b.number in r
    ensures forall o :: o in r ==> exists b :: b in s && b.number == o
  {
    set b | b in s :: b.number
  }

  ghost predicate KnowsAll(known: seq<Backend>, s: set<Backend>) {
    && (forall b :: b in s ==> Knows(known, b))
    && (forall o :: o in Ids(s) ==> o < |known| && known[o] in s)
  }

  /** `b in excluded`: identity first, then equality of the fields. */
  predicate IsIn(b: Backend, excluded: set<Backend>)
    reads b, excluded
  {
    exists e :: e in excluded && (e == b || e.View() == b.View())
  }

  /** The sticky mappings that do not point to this object. */
  function Forgotten(sticky: map<SessionId, Backend>, b: Backend): map<SessionId, Backend> {
    map sid | sid in sticky && sticky[sid] != b :: sticky[sid]
  }

  function ForgottenUnder(sticky: map<SessionId, Backend>, a: Address): map<SessionId, Backend> {
    map sid | sid in sticky && (sticky[sid].host, sticky[sid].port) != a :: sticky[sid]
  }

  class LoadBalancer {
    var backends: seq<Backend>
    var rrIndex: nat
    var stickyCache: map<SessionId, Backend>
    var clients: Clients
    /** Every object ever created, each at its number. */
    ghost var known: seq<Backend>

    /** The pool as a value. */
    ghost var pool: Pool

    ghost predicate Valid()
      reads this, known
    {
      && Stands(pool, known, backends)
      && (forall sid :: sid in stickyCache ==> Knows(known, stickyCache[sid]))
      && PoolOk(pool) && ClientsOk(clients)
    }

    /** The configured backends, which the command line is to give distinct addresses. */
    constructor (addresses: seq<Address>)
      requires Distinct(addresses)
      ensures Valid() && fresh(known)
      ensures pool == Initial(addresses).pool
      ensures rrIndex == 0 && stickyCache == map[] && clients == Clients([], map[])
    {
      var list: seq<Backend> := [];
      var i := 0;
      while i < |addresses|
        invariant 0 <= i <= |addresses| && |list| == i && fresh(list)
        invariant Numbered(list)
        invariant forall j :: 0 <= j < i ==>
          list[j].View() == Fields(addresses[j].0, addresses[j].1, true, false, false, 0)
      {
        var b := new Backend(addresses[i].0, addresses[i].1, false, 0, i);
        list := list + [b];
        i := i + 1;
      }
      backends, known, rrIndex, stickyCache, clients := list, list, 0, map[], Clients([], map[]);
      pool := Initial(addresses).pool;
      InitialOk(addresses);
    }

    /** _find_backend */
    method FindBackend(host: string, port: int) returns (i: Option<nat>)
      requires Valid()
      ensures i == Find(pool, (host, port))
    {
      ghost var p := pool;
      var k := 0;
      while k < |backends|
        invariant 0 <= k <= |backends|
        invariant forall j :: 0 <= j < k ==> p.objs[p.members[j]].Address() != (host, port)
      {
        assert backends[k] in backends;
        if (backends[k].host, backends[k].port) == (host, port) {
          FindIs(p, (host, port), k);
          return Some(k);
        }
        k := k + 1;
      }
      i := None;
    }

    /** _register_dynamic_backend */
    method RegisterDynamicBackend(host: string, port: int) returns (backend: Backend, epoch: int)
      requires Valid()
      modifies this, backends
      ensures Valid() && pool == Registered(old(pool), host, port).0
      ensures Lease((host, port), backend.number, epoch) == Registered(old(pool), host, port).1
      ensures backend.healthy && backend.isDynamic && backend.registrationEpoch == epoch
      ensures known == old(known) || (known == old(known) + [backend] && fresh(backend))
      ensures Knows(known, backend)
      ensures rrIndex == old(rrIndex) && stickyCache == old(stickyCache) && clients == old(clients)
    {
      ghost var p := pool;
      var found := FindBackend(host, port);
      if found.Some? {
        assert Knows(known, backends[found.value]);
        assert p.members[found.value] == backends[found.value].number;
        assert p.objs[p.members[found.value]].epoch == backends[found.value].registrationEpoch;
        backend, epoch := Renew(found.value);
      } else {
        backend := AddBackend(host, port);
        epoch := 1;
      }
    }

    method Renew(k: nat) returns (backend: Backend, epoch: int)
      requires Valid() && k < |backends|
      modifies this`pool, backends[k]
      ensures Valid() && backend == backends[k] && pool == Renewed(old(pool), k)
      ensures backend.healthy && backend.isDynamic && backend.registrationEpoch == epoch
      ensures epoch == old(backends[k].registrationEpoch) + 1
    {
      ghost var p := pool;
      assert backends[k] in backends;
      backend := backends[k];
      backend.healthy := true;
      backend.isDynamic := true;
      backend.registrationEpoch := backend.registrationEpoch + 1;
      epoch := backend.registrationEpoch;
      pool := Renewed(p, k);
    }

    method AddBackend(host: string, port: int) returns (backend: Backend)
      requires Valid() && Find(pool, (host, port)).None?
      modifies this
      ensures Valid() && fresh(backend) && known == old(known) + [backend] && backend.number == |old(known)|
      ensures pool == Added(old(pool), host, port)
      ensures backend.healthy && backend.isDynamic && backend.registrationEpoch == 1
      ensures rrIndex == old(rrIndex) && stickyCache == old(stickyCache) && clients == old(clients)
    {
      ghost var p := pool;
      backend := new Backend(host, port, true, 1, |known|);
      backends, known := backends + [backend], known + [backend];
      pool := Added(p, host, port);
    }

    /** _deregister_dynamic_backend */
    method DeregisterDynamicBackend(backend: Backend, epoch: int)
      requires Valid() && Knows(known, backend)
      modifies this`pool, this`backends, this`stickyCache
      ensures Valid()
      ensures pool == Deregistered(old(pool), Lease((backend.host, backend.port), backend.number, epoch))
      ensures forall sid :: sid in stickyCache <==>
          sid in old(stickyCache) && (epoch != backend.registrationEpoch || old(stickyCache)[sid] != backend)
      ensures forall sid :: sid in stickyCache ==> stickyCache[sid] == old(stickyCache)[sid]
    {
      if epoch != backend.registrationEpoch {
        return;
      }
      RemoveEqual(backend);
      stickyCache := Forgotten(stickyCache, backend);
    }

    /** `if backend in list: list.remove(backend)` */
    method RemoveEqual(backend: Backend)
      requires Valid() && Knows(known, backend)
      modifies this`pool, this`backends
      ensures Valid()
      ensures var lease := Lease((backend.host, backend.port), backend.number, backend.registrationEpoch);
        pool == Deregistered(old(pool), lease)
    {
      ghost var p := pool;
      var k := 0;
      while k < |backends|
        invariant 0 <= k <= |backends|
        invariant forall j :: 0 <= j < k ==> p.objs[p.members[j]] != p.objs[backend.number]
      {
        assert backends[k] in backends;
        if backends[k].View() == backend.View() {
          FindEqualIs(p, p.objs[backend.number], k);
          RemoveKeepsPool(p, k);
          backends := backends[..k] + backends[k + 1..];
          pool := Pool(p.objs, Remove(p.members, k));
          return;
        }
        k := k + 1;
      }
    }

    /** A health check, a NODE_STATUS frame or a failed connection. */
    method SetHealth(backend: Backend, healthy: bool)
      requires Valid() && Knows(known, backend)
      modifies this`pool, backend`healthy
      ensures Valid() && pool == WithHealth(old(pool), backend.number, healthy) && backend.healthy == healthy
    {
      ghost var p := pool;
      backend.healthy := healthy;
      pool := WithHealth(p, backend.number, healthy);
      FlagsKeepPool(p, pool, (backend.host, backend.port));
    }

    /** The routable members not excluded, as in the comprehensions of _pick_backend and
        _rebalance_clients. */
    method RoutableBackends(excluded: set<Backend>) returns (list: seq<Backend>)
      requires Valid() && KnowsAll(known, excluded)
      ensures Numbers(list) == Candidates(pool, Ids(excluded), |backends|)
      ensures forall b :: b in list ==> Knows(known, b)
    {
      ghost var p := pool;
      list := [];
      var k := 0;
      while k < |backends|
        invariant 0 <= k <= |backends|
        invariant Numbers(list) == Candidates(p, Ids(excluded), k)
        invariant forall b :: b in list ==> Knows(known, b)
      {
        var b := backends[k];
        assert b in backends && p.members[k] == b.number && p.objs[b.number] == b.View();
        IsInIffExcluded(pool, known, backends, b, excluded);
        NumbersAppend(list, b);
        if b.View().Routable() && !IsIn(b, excluded) {
          list := list + [b];
        }
        k := k + 1;
      }
    }

    /** _rebalance_clients */
    method RebalanceClients()
      requires Valid()
      modifies this`clients
      ensures Valid() && IsRebalanced(Routable(pool), old(clients), clients)
    {
      ghost var p := pool;
      assert Ids({}) == {};
      var list := RoutableBackends({});
      var addresses := seq(|list|, i requires 0 <= i < |list| => (list[i].host, list[i].port));
      AddressesAreRoutable(pool, known, backends, list);
      assert addresses == Routable(p);
      clients := Rebalanced(addresses, clients);
    }

    /** _pick_backend with the in-memory sticky map */
    method PickBackend(sid: Option<SessionId>, excluded: set<Backend>) returns (backend: Option<Backend>)
      requires Valid() && KnowsAll(known, excluded)
      modifies this`rrIndex
      ensures Valid()
      ensures Pick(pool, Targets(stickyCache), old(rrIndex), sid, Ids(excluded)) == Choice(NumberOf(backend), rrIndex)
      ensures backend.Some? ==> Knows(known, backend.value)
    {
      var target := GetSticky(sid, excluded);
      if target.Some? {
        return target;
      }
      var list := RoutableBackends(excluded);
      if list == [] {
        return None;
      }
      backend := Some(list[rrIndex % |list|]);
      assert list[rrIndex % |list|] in list;
      rrIndex := rrIndex + 1;
    }

    /** The sticky target, if routable and not excluded. */
    method GetSticky(sid: Option<SessionId>, excluded: set<Backend>) returns (backend: Option<Backend>)
      requires Valid() && KnowsAll(known, excluded)
      ensures StickyOk(pool, Targets(stickyCache))
      ensures NumberOf(backend) == StickyTarget(pool, Targets(stickyCache), sid, Ids(excluded))
      ensures backend.Some? ==> Knows(known, backend.value)
    {
      backend := None;
      if sid.Some? && sid.value in stickyCache {
        var b := stickyCache[sid.value];
        IsInIffExcluded(pool, known, backends, b, excluded);
        if b.View().Routable() && !IsIn(b, excluded) {
          backend := Some(b);
        }
      }
    }

    /** admin_set_down */
    method AdminSetDown(host: string, port: int, down: bool) returns (ok: bool)
      requires Valid()
      modifies this`pool, this`clients, this`stickyCache, backends
      ensures Valid() && pool == WithManualDown(old(pool), (host, port), down)
      ensures ok == Find(old(pool), (host, port)).Some?
      ensures ok ==> IsRebalanced(Routable(pool), old(clients), clients)
      ensures !ok ==> clients == old(clients) && stickyCache == old(stickyCache)
      ensures ok && !down ==> stickyCache == old(stickyCache)
      ensures ok && down ==>
          (forall sid :: sid in stickyCache <==>
             sid in old(stickyCache) && old(stickyCache)[sid] != backends[Find(old(pool), (host, port)).value])
          && forall sid :: sid in stickyCache ==> stickyCache[sid] == old(stickyCache)[sid]
    {
      var found := FindBackend(host, port);
      ok := found.Some?;
      if ok {
        SetManualDown(found.value, host, port, down);
        RebalanceClients();
        if down {
          Forget(backends[found.value]);
        }
      }
    }

    method Forget(backend: Backend)
      requires Valid()
      modifies this`stickyCache
      ensures Valid() && stickyCache == Forgotten(old(stickyCache), backend)
    {
      stickyCache := Forgotten(stickyCache, backend);
    }

    method SetManualDown(k: nat, host: string, port: int, down: bool)
      requires Valid() && Find(pool, (host, port)) == Some(k)
      modifies this`pool, backends[k]
      ensures Valid() && pool == WithManualDown(old(pool), (host, port), down)
    {
      ghost var p := pool;
      assert backends[k] in backends;
      backends[k].manualDown := down;
      pool := WithManualDown(p, (host, port), down);
      FlagsKeepPool(p, pool, (host, port));
    }

    /** admin_remove_backend */
    method AdminRemoveBackend(host: string, port: int) returns (removed: bool)
      requires Valid()
      modifies this`pool, this`backends, this`clients, this`stickyCache
      ensures Valid() && pool == AdminRemoved(old(pool), (host, port))
      ensures removed == (pool.members != old(pool.members))
      ensures removed ==> IsRebalanced(Routable(pool), old(clients), clients)
      ensures removed ==>
          (forall sid :: sid in stickyCache <==>
             sid in old(stickyCache)
             && (old(stickyCache)[sid].host, old(stickyCache)[sid].port) != (host, port))
          && forall sid :: sid in stickyCache ==> stickyCache[sid] == old(stickyCache)[sid]
      ensures !removed ==> clients == old(clients) && stickyCache == old(stickyCache)
    {
      removed := RemoveUnder(host, port);
      if removed {
        RebalanceClients();
        ForgetAddress(host, port);
      }
    }

    method ForgetAddress(host: string, port: int)
      requires Valid()
      modifies this`stickyCache
      ensures Valid() && stickyCache == ForgottenUnder(old(stickyCache), (host, port))
    {
      stickyCache := ForgottenUnder(stickyCache, (host, port));
    }

    method RemoveUnder(host: string, port: int) returns (removed: bool)
      requires Valid()
      modifies this`pool, this`backends
      ensures Valid() && pool == AdminRemoved(old(pool), (host, port))
      ensures removed == (pool.members != old(pool.members))
    {
      var rest := BackendsNotUnder(host, port);
      RemovedKeepsPool(pool, pool.members, (host, port));
      removed := |rest| < |backends|;
      backends, pool := rest, AdminRemoved(pool, (host, port));
    }

    method BackendsNotUnder(host: string, port: int) returns (rest: seq<Backend>)
      requires Valid()
      ensures Numbers(rest) == NotUnder(pool, pool.members, (host, port))
      ensures forall i :: 0 <= i < |rest| ==> Knows(known, rest[i])
    {
      rest := [];
      var k := 0;
      while k < |backends|
        invariant 0 <= k <= |backends|
        invariant Numbers(rest) == NotUnder(pool, pool.members[..k], (host, port))
        invariant forall i :: 0 <= i < |rest| ==> Knows(known, rest[i])
      {
        NotUnderStep(pool, k, (host, port));
        var b := backends[k];
        assert Knows(known, b);
        NumbersAppend(rest, b);
        if (b.host, b.port) != (host, port) {
          rest := rest + [b];
        }
        k := k + 1;
      }
      assert pool.members[..k] == pool.members;
    }

    /** The outcome of a health check (_check_backend). */
    method CheckBackend(backend: Backend, answered: bool)
      requires Valid() && Knows(known, backend)
      modifies this`pool, backend`healthy, this`clients
      ensures Valid() && pool == WithHealth(old(pool), backend.number, answered) && backend.healthy == answered
      ensures backend.healthy == old(backend.healthy) ==> clients == old(clients)
      ensures backend.healthy != old(backend.healthy) ==> IsRebalanced(Routable(pool), old(clients), clients)
    {
      var wasHealthy := backend.healthy;
      SetHealth(backend, answered);
      if backend.healthy != wasHealthy {
        RebalanceClients();
      }
    }

    /** What one other task may do while this one awaits. */
    method OtherTask(task: Task)
      requires Valid()
      modifies this, known
      ensures Valid() && Evolves(old(pool), pool) && Grows(old(known), known)
      ensures forall k :: 0 <= k < |known| ==> known[k] in old(known) || fresh(known[k])
      ensures !task.Arrive? ==> known == old(known)
    {
      match task
      case Toggle(k, healthy, down) => ToggleFlags(k, healthy, down);
      case ToggleTarget(sid, healthy, down) => ToggleTargetFlags(sid, healthy, down);
      case Rotate(index) => rrIndex := index;
      case Map(sid, k) => MapSticky(sid, k);
      case Arrive(host, port) => RegisterMeanwhile(host, port);
      case Leave(host, port, epoch) => EndRegistration(host, port, epoch);
      case Evict(host, port) => RemoveMeanwhile(host, port);
    }

    method ToggleFlags(k: nat, healthy: bool, down: bool)
      requires Valid()
      modifies this`pool, known
      ensures Valid() && Evolves(old(pool), pool)
    {
      ghost var p := pool;
      if k < |backends| {
        assert Knows(known, backends[k]);
        SetFlags(backends[k], healthy, down);
      }
      FlagsEvolve(p, pool);
    }

    method ToggleTargetFlags(sid: SessionId, healthy: bool, down: bool)
      requires Valid()
      modifies this`pool, known
      ensures Valid() && Evolves(old(pool), pool)
    {
      ghost var p := pool;
      if sid in stickyCache {
        SetFlags(stickyCache[sid], healthy, down);
      }
      FlagsEvolve(p, pool);
    }

    method MapSticky(sid: SessionId, k: nat)
      requires Valid()
      modifies this`stickyCache
      ensures Valid()
    {
      if k < |backends| {
        assert Knows(known, backends[k]);
        SetSticky(sid, backends[k]);
      }
    }

    method RegisterMeanwhile(host: string, port: int)
      requires Valid()
      modifies this, known
      ensures Valid() && Evolves(old(pool), pool) && Grows(old(known), known)
      ensures forall k :: 0 <= k < |known| ==> known[k] in old(known) || fresh(known[k])
    {
      ghost var p := pool;
      MembersAreKnown(p, known, backends);
      var backend, epoch := RegisterDynamicBackend(host, port);
      RegisteredEvolves(p, host, port);
    }

    method EndRegistration(host: string, port: int, epoch: int)
      requires Valid()
      modifies this`pool, this`backends, this`stickyCache
      ensures Valid() && Evolves(old(pool), pool)
    {
      ghost var p := pool;
      var found := FindBackend(host, port);
      if found.Some? {
        assert Knows(known, backends[found.value]);
        var backend := backends[found.value];
        DeregisterDynamicBackend(backend, epoch);
      }
    }

    method RemoveMeanwhile(host: string, port: int)
      requires Valid()
      modifies this`pool, this`backends, this`clients, this`stickyCache
      ensures Valid() && Evolves(old(pool), pool)
    {
      var removed := AdminRemoveBackend(host, port);
    }

    method SetFlags(backend: Backend, healthy: bool, down: bool)
      requires Valid() && Knows(known, backend)
      modifies this`pool, backend
      ensures Valid() && FlagsOnly(old(pool), pool)
    {
      ghost var f := pool.objs[backend.number].(healthy := healthy, manualDown := down);
      ghost var p := pool;
      backend.healthy, backend.manualDown := healthy, down;
      pool := pool.(objs := pool.objs[backend.number := f]);
      FlagsKeepPool(p, pool, (backend.host, backend.port));
    }

    method OtherTasks(tasks: seq<Task>)
      requires Valid()
      modifies this, known
      ensures Valid() && Evolves(old(pool), pool) && Grows(old(known), known)
      ensures forall k :: 0 <= k < |known| ==> known[k] in old(known) || fresh(known[k])
      ensures NoArrivals(tasks) ==> known == old(known)
    {
      var i := 0;
      while i < |tasks|
        invariant i <= |tasks| && Valid() && Evolves(old(pool), pool) && Grows(old(known), known)
        invariant forall k :: 0 <= k < |known| ==> known[k] in old(known) || fresh(known[k])
        invariant NoArrivals(tasks) ==> known == old(known)
      {
        OtherTask(tasks[i]);
        i := i + 1;
      }
    }

    /** The connect loop of _handle_client: accepts(t) says whether the t-th attempt connects,
        meantime(t) what others did during it; nodes go on registering up to some attempt at most.
        Every attempt is the pick of its moment; no backend is tried twice, even if a health check
        revives it; on giving up, every routable member has been tried, or equals one that was. */
    method ConnectWithRetry(sid: Option<SessionId>, accepts: nat -> bool, meantime: nat -> seq<Task>,
                            ghost lastArrival: nat)
      returns (connected: Option<Backend>, ghost tried: seq<nat>, ghost moments: seq<Moment>)
      requires Valid() && forall t :: t >= lastArrival ==> NoArrivals(meantime(t))
      modifies this, known
      ensures Valid() && Evolves(old(pool), pool)
      ensures Outcome(Moment(old(pool), Targets(old(stickyCache)), old(rrIndex)), pool, sid, accepts, tried, moments,
                      NumberOf(connected))
    {
      ghost var start := Moment(pool, Targets(stickyCache), rrIndex);
      ghost var moment;
      connected, moment := NextBackend(sid, {}, [], start);
      ghost var t, ok, attempted;
      t, ok, attempted, connected, tried, moments, moment :=
        Retry(sid, connected, accepts, meantime, lastArrival, moment, start);
      Finished(start, pool, known, sid, accepts, t, ok, attempted, tried, moments, connected, moment);
    }

    /** The loop itself. */
    method Retry(sid: Option<SessionId>, first: Option<Backend>, accepts: nat -> bool, meantime: nat -> seq<Task>,
                 ghost lastArrival: nat, ghost picked: Moment, ghost start: Moment)
      returns (t: nat, ok: bool, attempted: set<Backend>, connected: Option<Backend>,
               ghost tried: seq<nat>, ghost moments: seq<Moment>, ghost moment: Moment)
      requires Trying(start, sid, accepts, 0, false, {}, [], [], first, picked)
      requires forall t :: t >= lastArrival ==> NoArrivals(meantime(t))
      modifies this, known
      ensures Trying(start, sid, accepts, t, ok, attempted, tried, moments, connected, moment)
      ensures ok || connected.None?
    {
      t, ok, attempted, moment := 0, false, {}, picked;
      connected, tried, moments := first, [], [];
      while !ok && connected.Some?
        invariant Trying(start, sid, accepts, t, ok, attempted, tried, moments, connected, moment)
        invariant forall k :: 0 <= k < |known| ==> known[k] in old(known) || fresh(known[k])
        decreases if t < lastArrival then lastArrival - t else 0, |known| - t
      {
        ok, attempted, connected, tried, moments, moment :=
          Turn(sid, connected.value, accepts, t, meantime(t), attempted, tried, moments, moment, start);
        t := t + 1;
      }
    }

    /** At the head of the loop. */
    ghost predicate Looping(start: Moment, sid: Option<SessionId>, attempted: set<Backend>, tried: seq<nat>,
                            moments: seq<Moment>, next: Option<Backend>, moment: Moment)
      reads this, known
    {
      && Valid() && Evolves(start.pool, pool) && Attempted(start, known, sid, attempted, tried, moments)
      && Offered(start, pool, known, sid, tried, next, moment)
    }

    /** After t attempts: the last one connected, or all failed and the next backend was picked. */
    ghost predicate Trying(start: Moment, sid: Option<SessionId>, accepts: nat -> bool, t: nat, ok: bool,
                           attempted: set<Backend>, tried: seq<nat>, moments: seq<Moment>, next: Option<Backend>,
                           moment: Moment)
      reads this, known
    {
      && Valid() && Evolves(start.pool, pool) && t == |tried| <= |known|
      && Tried(start, pool, known, sid, accepts, t, ok, attempted, tried, moments, next, moment)
    }

    /** One turn of the loop, counted. */
    method Turn(sid: Option<SessionId>, backend: Backend, accepts: nat -> bool, t: nat, m: seq<Task>,
                before: set<Backend>, ghost triedBefore: seq<nat>, ghost momentsBefore: seq<Moment>,
                ghost picked: Moment, ghost start: Moment)
      returns (ok: bool, attempted: set<Backend>, next: Option<Backend>,
               ghost tried: seq<nat>, ghost moments: seq<Moment>, ghost moment: Moment)
      requires Trying(start, sid, accepts, t, false, before, triedBefore, momentsBefore, Some(backend), picked)
      modifies this, known
      ensures Trying(start, sid, accepts, t + 1, ok, attempted, tried, moments, next, moment)
      ensures forall k :: 0 <= k < |known| ==> known[k] in old(known) || fresh(known[k])
      ensures NoArrivals(m) ==> known == old(known)
    {
      ok, attempted, next, tried, moments, moment :=
        Attempt(sid, backend, accepts(t), m, before, triedBefore, momentsBefore, picked, start);
      if ok {
        next := Some(backend);
      } else {
        RefusedNext(accepts, t);
      }
    }

    /** One turn of the loop: connect, or mark the backend down and pick again. */
    method Attempt(sid: Option<SessionId>, backend: Backend, accepted: bool, m: seq<Task>, before: set<Backend>,
                   ghost triedBefore: seq<nat>, ghost momentsBefore: seq<Moment>, ghost picked: Moment,
                   ghost start: Moment)
      returns (ok: bool, attempted: set<Backend>, next: Option<Backend>,
               ghost tried: seq<nat>, ghost moments: seq<Moment>, ghost moment: Moment)
      requires Looping(start, sid, before, triedBefore, momentsBefore, Some(backend), picked)
      modifies this, known
      ensures ok == accepted && tried == triedBefore + [backend.number] && |tried| <= |known|
      ensures Valid() && Evolves(start.pool, pool)
      ensures Attempted(start, known, sid, attempted, tried, moments)
      ensures !ok ==> Offered(start, pool, known, sid, tried, next, moment)
      ensures forall k :: 0 <= k < |known| ==> known[k] in old(known) || fresh(known[k])
      ensures NoArrivals(m) ==> known == old(known)
    {
      AttemptedNext(start, known, sid, before, triedBefore, momentsBefore, picked, backend);
      attempted := before + {backend};
      tried, moments := triedBefore + [backend.number], momentsBefore + [picked];
      assert Tracks(known, attempted, tried);
      ok, next, moment := ConnectOrPick(sid, backend, accepted, m, attempted, tried, start);
    }

    method ConnectOrPick(sid: Option<SessionId>, backend: Backend, accepted: bool, m: seq<Task>,
                         attempted: set<Backend>, ghost tried: seq<nat>, ghost start: Moment)
      returns (ok: bool, next: Option<Backend>, ghost moment: Moment)
      requires Valid() && Knows(known, backend) && Evolves(start.pool, pool)
      requires Tracks(known, attempted, tried) && tried != [] && tried[|tried| - 1] == backend.number
      modifies this, known
      ensures Valid() && Evolves(start.pool, pool) && ok == accepted
      ensures Tracks(known, attempted, tried) && Grows(old(known), known)
      ensures !ok ==> Offered(start, pool, known, sid, tried, next, moment)
      ensures forall k :: 0 <= k < |known| ==> known[k] in old(known) || fresh(known[k])
      ensures NoArrivals(m) ==> known == old(known)
    {
      ghost var was, knownBefore := pool, known;
      ok, next, moment := accepted, None, start;
      ResultOf(backend, ok, m);
      EvolvesCompose(start.pool, was, pool);
      TracksGrows(knownBefore, known, attempted, tried);
      if !ok {
        next, moment := NextBackend(sid, attempted, tried, start);
      }
    }

    /** The attempt is over: a backend that refused is marked unhealthy. */
    method ResultOf(backend: Backend, ok: bool, m: seq<Task>)
      requires Valid() && Knows(known, backend)
      modifies this, known
      ensures Valid() && Evolves(old(pool), pool) && Grows(old(known), known)
      ensures !ok ==> !backend.healthy
      ensures forall k :: 0 <= k < |known| ==> known[k] in old(known) || fresh(known[k])
      ensures NoArrivals(m) ==> known == old(known)
    {
      OtherTasks(m);
      if !ok {
        SetHealth(backend, false);
      }
    }

    method NextBackend(sid: Option<SessionId>, attempted: set<Backend>, ghost tried: seq<nat>, ghost start: Moment)
      returns (next: Option<Backend>, ghost moment: Moment)
      requires Valid() && Tracks(known, attempted, tried) && Evolves(start.pool, pool)
      requires tried == [] ==> start == Moment(pool, Targets(stickyCache), rrIndex)
      requires LastIsDown(pool, tried)
      modifies this`rrIndex
      ensures Valid()
      ensures Offered(start, pool, known, sid, tried, next, moment)
    {
      moment := Moment(pool, Targets(stickyCache), rrIndex);
      PickIsEligible(pool, Targets(stickyCache), rrIndex, sid, Ids(attempted));
      next := PickBackend(sid, attempted);
    }

    /** _redis_set_sticky, without Redis */
    method SetSticky(sid: SessionId, backend: Backend)
      requires Valid() && Knows(known, backend)
      modifies this`stickyCache
      ensures Valid() && sid in stickyCache && stickyCache[sid] == backend
      ensures forall s :: s != sid ==> (s in stickyCache <==> s in old(stickyCache))
      ensures forall s :: s != sid && s in stickyCache ==> stickyCache[s] == old(stickyCache)[s]
    {
      stickyCache := stickyCache[sid := backend];
    }

    /** _remember_client */
    method RememberClient(id: ClientId, backend: Backend, conn: Connection)
      requires Valid()
      modifies this`clients
      ensures Valid() && clients == Remembered(old(clients), id, (backend.host, backend.port), conn)
    {
      var address := (backend.host, backend.port);
      var known := id in clients.entries;
      var home := if known && clients.entries[id].home.Some? then clients.entries[id].home else Some(address);
      var entries := clients.entries[id := Client(home, Some(address), true, Some(conn))];
      clients := Clients(if known then clients.order else clients.order + [id], entries);
    }

    /** _migrate_client_state */
    method MigrateClient(oldId: ClientId, newId: ClientId)
      requires Valid()
      modifies this`clients
      ensures Valid() && clients == Migrated(old(clients), oldId, newId)
    {
      if oldId !in clients.entries {
        return;
      }
      var entry := clients.entries[oldId];
      clients := Clients(WithoutId(clients.order, oldId), clients.entries - {oldId});
      clients := Filed(clients, newId, entry);
    }

    /** admin_clear_clients */
    method ClearClients()
      requires Valid()
      modifies this`clients
      ensures Valid() && clients == NoClients
    {
      clients := NoClients;
    }

    /** _drop_client */
    method DropClient(id: ClientId, conn: Connection)
      requires Valid()
      modifies this`clients
      ensures Valid() && clients == Dropped(old(clients), id, conn)
    {
      if id !in clients.entries || clients.entries[id].connection != Some(conn) {
        return;
      }
      var entries := clients.entries[id := clients.entries[id].(active := false)];
      clients := Clients(clients.order, entries);
    }
  }

  /** What another task may do while one awaits: set the flags of a member or a sticky target (a health
      check, a NODE_STATUS, a failed connection, an operator), pick for another connection, map a session
      to a member, register a node, end a registration, remove a server. */
  datatype Task =
    | Toggle(member: nat, healthy: bool, down: bool)
    | ToggleTarget(sid: SessionId, healthy: bool, down: bool)
    | Rotate(rrIndex: nat)
    | Map(sid: SessionId, member: nat)
    | Arrive(host: string, port: int)
    | Leave(host: string, port: int, epoch: int)
    | Evict(host: string, port: int)

  ghost predicate NoArrivals(tasks: seq<Task>) {
    forall i :: 0 <= i < |tasks| ==> !tasks[i].Arrive?
  }

  ghost predicate Grows(known: seq<Backend>, known': seq<Backend>) {
    known <= known'
  }

  /** Objects stay at their numbers and addresses; flags, epochs and membership may change, and new
      objects appear. */
  ghost predicate Evolves(p: Pool, p': Pool) {
    |p.objs| <= |p'.objs| && forall o :: 0 <= o < |p.objs| ==> p'.objs[o].Address() == p.objs[o].Address()
  }

  lemma EvolvesCompose(a: Pool, b: Pool, c: Pool)
    requires Evolves(a, b) && Evolves(b, c)
    ensures Evolves(a, c)
  {
  }

  lemma FlagsEvolve(p: Pool, p': Pool)
    requires p' == p || FlagsOnly(p, p')
    ensures Evolves(p, p')
  {
  }

  lemma RegisteredEvolves(p: Pool, host: string, port: int)
    requires PoolOk(p)
    ensures Evolves(p, Registered(p, host, port).0)
  {
  }

  lemma MembersAreKnown(p: Pool, known: seq<Backend>, backends: seq<Backend>)
    requires Stands(p, known, backends)
    ensures forall b :: b in backends ==> b in known
  {
  }

  lemma TracksGrows(known: seq<Backend>, known': seq<Backend>, attempted: set<Backend>, tried: seq<nat>)
    requires Tracks(known, attempted, tried) && Grows(known, known')
    ensures Tracks(known', attempted, tried)
  {
  }

  ghost predicate AllRefused(accepts: nat -> bool, t: int) {
    forall i: nat :: i < t ==> !accepts(i)
  }

  lemma RefusedNext(accepts: nat -> bool, t: nat)
    requires AllRefused(accepts, t) && !accepts(t)
    ensures AllRefused(accepts, t + 1)
  {
  }

  /** What a pick sees: pool, sticky mappings and rotation index at that moment. */
  datatype Moment = Moment(pool: Pool, sticky: map<SessionId, nat>, rrIndex: nat)

  /** The backend tried last is marked unhealthy. */
  ghost predicate LastIsDown(p: Pool, tried: seq<nat>) {
    tried != [] ==> var o := tried[|tried| - 1]; o < |p.objs| && !p.objs[o].healthy
  }

  /** At that moment, with the backends of `tried` excluded, and the one tried last marked unhealthy
      because it refused, _pick_backend chose backend o.  The first moment is the start of the loop; since
      then other tasks may have changed the pool. */
  ghost predicate PickedAt(start: Moment, m: Moment, sid: Option<SessionId>, tried: seq<nat>, o: nat) {
    && Evolves(start.pool, m.pool) && (tried == [] ==> m == start)
    && PoolOk(m.pool) && StickyOk(m.pool, m.sticky) && ObjectsOf(m.pool, Elements(tried)) && LastIsDown(m.pool, tried)
    && Pick(m.pool, m.sticky, m.rrIndex, sid, Elements(tried)).backend == Some(o)
  }

  /** Every attempt was the pick of its moment, excluding the attempts before it. */
  ghost predicate AllPicked(start: Moment, moments: seq<Moment>, sid: Option<SessionId>, tried: seq<nat>) {
    && |moments| == |tried|
    && (tried == [] ||
        var n := |tried| - 1;
        AllPicked(start, moments[..n], sid, tried[..n]) && PickedAt(start, moments[n], sid, tried[..n], tried[n]))
  }

  /** The next backend to try, or that there is none. */
  ghost predicate Offered(start: Moment, p: Pool, known: seq<Backend>, sid: Option<SessionId>, tried: seq<nat>,
                          next: Option<Backend>, m: Moment) {
    match next
    case Some(b) => Knows(known, b) && b.number !in tried && PickedAt(start, m, sid, tried, b.number)
    case None => PoolOk(p) && TriedOk(p, tried) && NoneLeft(p, tried) && LastIsDown(p, tried)
  }

  /** What the loop promises: the attempts were the picks of their moments, none twice; it connected
      to the first backend that accepted, or every routable member was tried. */
  ghost predicate Outcome(start: Moment, p: Pool, sid: Option<SessionId>, accepts: nat -> bool,
                          tried: seq<nat>, moments: seq<Moment>, connected: Option<nat>) {
    && AllPicked(start, moments, sid, tried) && TriedOk(p, tried)
    && match connected
       case Some(o) =>
         tried != [] && o == tried[|tried| - 1] && accepts(|tried| - 1) && AllRefused(accepts, |tried| - 1)
       case None => AllRefused(accepts, |tried|) && PoolOk(p) && NoneLeft(p, tried) && LastIsDown(p, tried)
  }

  /** Inside the loop: `tried` lists the objects of `attempted`, picked at `moments`, and so far all
      but perhaps the last refused. */
  ghost predicate Attempted(start: Moment, known: seq<Backend>, sid: Option<SessionId>, attempted: set<Backend>,
                            tried: seq<nat>, moments: seq<Moment>) {
    Tracks(known, attempted, tried) && AllPicked(start, moments, sid, tried)
  }

  lemma AttemptedNext(start: Moment, known: seq<Backend>, sid: Option<SessionId>, attempted: set<Backend>,
                      tried: seq<nat>, moments: seq<Moment>, m: Moment, b: Backend)
    requires Attempted(start, known, sid, attempted, tried, moments)
    requires Knows(known, b) && b.number !in tried && PickedAt(start, m, sid, tried, b.number)
    ensures Attempted(start, known, sid, attempted + {b}, tried + [b.number], moments + [m]) && |tried| < |known|
  {
    TrackAnother(known, attempted, tried, b);
    assert (moments + [m])[..|tried|] == moments && (tried + [b.number])[..|tried|] == tried;
  }

  /** What the loop knows after t attempts. */
  ghost predicate Tried(start: Moment, p: Pool, known: seq<Backend>, sid: Option<SessionId>, accepts: nat -> bool,
                        t: nat, ok: bool, attempted: set<Backend>, tried: seq<nat>, moments: seq<Moment>,
                        next: Option<Backend>, m: Moment) {
    && Attempted(start, known, sid, attempted, tried, moments) && t == |tried|
    && if ok then t > 0 && AllRefused(accepts, t - 1) && accepts(t - 1) && NumberOf(next) == Some(tried[t - 1])
       else AllRefused(accepts, t) && Offered(start, p, known, sid, tried, next, m)
  }

  lemma Finished(start: Moment, p: Pool, known: seq<Backend>, sid: Option<SessionId>, accepts: nat -> bool,
                 t: nat, ok: bool, attempted: set<Backend>, tried: seq<nat>, moments: seq<Moment>,
                 next: Option<Backend>, m: Moment)
    requires Tried(start, p, known, sid, accepts, t, ok, attempted, tried, moments, next, m) && (ok || next.None?)
    requires |p.objs| == |known|
    ensures Outcome(start, p, sid, accepts, tried, moments, NumberOf(next))
  {
  }

  ghost predicate TriedOk(p: Pool, tried: seq<nat>) {
    Distinct(tried) && forall i :: 0 <= i < |tried| ==> tried[i] < |p.objs|
  }

  /** `tried` lists the objects of the set `attempted`, none twice. */
  ghost predicate Tracks(known: seq<Backend>, attempted: set<Backend>, tried: seq<nat>) {
    && KnowsAll(known, attempted) && Ids(attempted) == Elements(tried)
    && Distinct(tried) && forall i :: 0 <= i < |tried| ==> tried[i] < |known|
  }

  lemma TrackAnother(known: seq<Backend>, attempted: set<Backend>, tried: seq<nat>, b: Backend)
    requires Tracks(known, attempted, tried) && Knows(known, b) && b.number !in tried
    ensures Tracks(known, attempted + {b}, tried + [b.number]) && |tried| < |known|
  {
    ElementsConcat(tried, [b.number]);
    DistinctBelow(tried + [b.number], |known|);
    assert Ids(attempted + {b}) == Ids(attempted) + {b.number};
  }

  /** Every routable member was tried, or equals in all fields an object that was. */
  ghost predicate NoneLeft(p: Pool, tried: seq<nat>)
    requires PoolOk(p) && TriedOk(p, tried)
  {
    forall o :: o in p.members && o < |p.objs| ==> !Eligible(p, Elements(tried), o)
  }

  /** When only members were tried (no sticky mapping led out of the pool), giving up means that
      every routable member itself was tried, and no address twice. */
  lemma GaveUpAfterTryingAll(p: Pool, tried: seq<nat>, o: nat)
    requires PoolOk(p) && TriedOk(p, tried) && NoneLeft(p, tried)
    requires forall e :: e in tried ==> e in p.members
    ensures o in p.members && p.objs[o].Routable() ==> o in tried
    ensures forall i, j :: 0 <= i < j < |tried| ==> p.objs[tried[i]].Address() != p.objs[tried[j]].Address()
  {
    forall i, j | 0 <= i < j < |tried| ensures p.objs[tried[i]].Address() != p.objs[tried[j]].Address() {
      if p.objs[tried[i]].Address() == p.objs[tried[j]].Address() {
        SameMember(p, tried[i], tried[j]);
      }
    }
    if o in p.members && p.objs[o].Routable() {
      var e :| e in Elements(tried) && (e == o || p.objs[e] == p.objs[o]);
      assert e in tried;
      SameMember(p, e, o);
    }
  }

  ghost function NumberOf(b: Option<Backend>): Option<nat> {
    match b case None => None case Some(x) => Some(x.number)
  }

  lemma AddressesAreRoutable(p: Pool, known: seq<Backend>, backends: seq<Backend>, list: seq<Backend>)
    requires Stands(p, known, backends) && PoolOk(p) && forall b :: b in list ==> Knows(known, b)
    requires Numbers(list) == RoutableMembers(p)
    ensures |list| == |Routable(p)|
    ensures forall i :: 0 <= i < |list| ==> Routable(p)[i] == (list[i].host, list[i].port)
  {
    forall i | 0 <= i < |list| ensures Routable(p)[i] == (list[i].host, list[i].port) {
      assert list[i] in list;
    }
  }

  lemma IsInIffExcluded(p: Pool, known: seq<Backend>, backends: seq<Backend>, b: Backend, excluded: set<Backend>)
    requires Stands(p, known, backends) && Knows(known, b) && KnowsAll(known, excluded)
    ensures IsIn(b, excluded) <==> Excluded(p, Ids(excluded), b.number)
  {
    if e :| e in excluded && (e == b || e.View() == b.View()) {
      assert e.number in Ids(excluded) && p.objs[e.number] == e.View();
    }
  }
}
