/** The backend pool of the load balancer (ingress/lb.py): dynamic registration under leases
    with epochs.  Backend objects are numbered in order of creation; the pool is a list of
    object numbers, because two objects may carry equal fields and the code compares fields. */
module BackendPool {
  import opened Base

  /** The fields of one Backend object. */
  datatype Fields = Fields(host: string, port: int, healthy: bool, isDynamic: bool, manualDown: bool, epoch: int) {
    function Address(): Address { (host, port) }
    predicate Routable() { healthy && !manualDown }
  }

  datatype Pool = Pool(objs: seq<Fields>, members: seq<nat>)

  /** Members are objects, none twice, no two under one address. */
  ghost predicate PoolOk(p: Pool) {
    && (forall i :: 0 <= i < |p.members| ==> p.members[i] < |p.objs|)
    && (forall i, j :: 0 <= i < j < |p.members| ==>
          p.objs[p.members[i]].Address() != p.objs[p.members[j]].Address())
  }

  /** The first member under an address. */
  function Find(p: Pool, a: Address): (k: Option<nat>)
    requires forall i :: 0 <= i < |p.members| ==> p.members[i] < |p.objs|
    ensures k.Some? ==> k.value < |p.members| && p.objs[p.members[k.value]].Address() == a
    ensures k.None? ==> forall i :: 0 <= i < |p.members| ==> p.objs[p.members[i]].Address() != a
  {
    FindFrom(p, a, 0)
  }

  function FindFrom(p: Pool, a: Address, from: nat): (k: Option<nat>)
    requires from <= |p.members| && forall i :: 0 <= i < |p.members| ==> p.members[i] < |p.objs|
    ensures k.Some? ==> from <= k.value < |p.members| && p.objs[p.members[k.value]].Address() == a
    ensures k.Some? ==> forall i :: from <= i < k.value ==> p.objs[p.members[i]].Address() != a
    ensures k.None? ==> forall i :: from <= i < |p.members| ==> p.objs[p.members[i]].Address() != a
    decreases |p.members| - from
  {
    if from == |p.members| then None
    else if p.objs[p.members[from]].Address() == a then Some(from)
    else FindFrom(p, a, from + 1)
  }

  /** The first member whose fields equal those given (`in` and `remove` on the list). */
  function FindEqual(p: Pool, f: Fields, from: nat): (k: Option<nat>)
    requires from <= |p.members| && forall i :: 0 <= i < |p.members| ==> p.members[i] < |p.objs|
    ensures k.Some? ==> from <= k.value < |p.members| && p.objs[p.members[k.value]] == f
    ensures k.Some? ==> forall i :: from <= i < k.value ==> p.objs[p.members[i]] != f
    ensures k.None? ==> forall i :: from <= i < |p.members| ==> p.objs[p.members[i]] != f
    decreases |p.members| - from
  {
    if from == |p.members| then None
    else if p.objs[p.members[from]] == f then Some(from)
    else FindEqual(p, f, from + 1)
  }

  function Remove<T>(s: seq<T>, k: nat): seq<T>
    requires k < |s|
  {
    s[..k] + s[k + 1..]
  }

  lemma RemoveKeepsPool(p: Pool, k: nat)
    requires PoolOk(p) && k < |p.members|
    ensures PoolOk(p.(members := Remove(p.members, k)))
  {
  }

  /** A registration: which object, and under which epoch. */
  datatype Lease = Lease(address: Address, obj: nat, epoch: int)

  /** The object of the k-th member under its next epoch. */
  function Renewed(p: Pool, k: nat): (r: Pool)
    requires PoolOk(p) && k < |p.members|
    ensures PoolOk(r)
  {
    var o := p.members[k];
    p.(objs := p.objs[o := p.objs[o].(healthy := true, isDynamic := true, epoch := p.objs[o].epoch + 1)])
  }

  /** A new object at the end of the pool. */
  function Added(p: Pool, host: string, port: int): (r: Pool)
    requires PoolOk(p) && Find(p, (host, port)).None?
    ensures PoolOk(r)
  {
    Pool(p.objs + [Fields(host, port, true, true, false, 1)], p.members + [|p.objs|])
  }

  /** _register_dynamic_backend: renew the member under the address, or add a new object. */
  function Registered(p: Pool, host: string, port: int): (Pool, Lease)
    requires PoolOk(p)
  {
    match Find(p, (host, port))
    case Some(k) => (Renewed(p, k), Lease((host, port), p.members[k], p.objs[p.members[k]].epoch + 1))
    case None => (Added(p, host, port), Lease((host, port), |p.objs|, 1))
  }

  /** _deregister_dynamic_backend: a stale lease changes nothing; otherwise the first member that
      equals the lease's object is removed. */
  function Deregistered(p: Pool, l: Lease): Pool
    requires PoolOk(p) && l.obj < |p.objs|
  {
    if l.epoch != p.objs[l.obj].epoch then p
    else
      match FindEqual(p, p.objs[l.obj], 0)
      case Some(k) => p.(members := Remove(p.members, k))
      case None => p
  }

  /** A health check, a NODE_STATUS or a failed connection sets `healthy` of an object. */
  function WithHealth(p: Pool, obj: nat, healthy: bool): Pool
    requires obj < |p.objs|
  {
    p.(objs := p.objs[obj := p.objs[obj].(healthy := healthy)])
  }

  /** admin_set_down on the member under an address. */
  function WithManualDown(p: Pool, a: Address, down: bool): (r: Pool)
    requires PoolOk(p)
    ensures PoolOk(r)
  {
    match Find(p, a)
    case Some(k) => p.(objs := p.objs[p.members[k] := p.objs[p.members[k]].(manualDown := down)])
    case None => p
  }

  /** admin_remove_backend drops every member under the address. */
  function AdminRemoved(p: Pool, a: Address): Pool
    requires forall i :: 0 <= i < |p.members| ==> p.members[i] < |p.objs|
  {
    p.(members := NotUnder(p, p.members, a))
  }

  function NotUnder(p: Pool, members: seq<nat>, a: Address): (r: seq<nat>)
    requires forall i :: 0 <= i < |members| ==> members[i] < |p.objs|
    ensures forall i :: 0 <= i < |r| ==> r[i] in members && r[i] < |p.objs| && p.objs[r[i]].Address() != a
    ensures |r| == |members| ==> r == members
    ensures |r| <= |members|
  {
    if members == [] then []
    else
      var n := |members| - 1;
      assert members == members[..n] + [members[n]];
      NotUnder(p, members[..n], a) + if p.objs[members[n]].Address() == a then [] else [members[n]]
  }

  lemma NotUnderStep(p: Pool, k: nat, a: Address)
    requires k < |p.members| && forall i :: 0 <= i < |p.members| ==> p.members[i] < |p.objs|
    ensures NotUnder(p, p.members[..k + 1], a)
         == NotUnder(p, p.members[..k], a) + if p.objs[p.members[k]].Address() == a then [] else [p.members[k]]
  {
    assert p.members[..k + 1][..k] == p.members[..k];
  }

  lemma {:induction false} RemovedKeepsPool(p: Pool, members: seq<nat>, a: Address)
    requires PoolOk(Pool(p.objs, members))
    ensures PoolOk(Pool(p.objs, NotUnder(p, members, a)))
  {
    if members != [] {
      var n := |members| - 1;
      RemovedKeepsPool(p, members[..n], a);
      AppendKeepsPool(p.objs, NotUnder(p, members[..n], a), members, n);
    }
  }

  lemma AppendKeepsPool(objs: seq<Fields>, r: seq<nat>, members: seq<nat>, n: nat)
    requires PoolOk(Pool(objs, r)) && PoolOk(Pool(objs, members)) && n < |members|
    requires forall i :: 0 <= i < |r| ==> r[i] in members[..n]
    ensures PoolOk(Pool(objs, r + [members[n]]))
  {
  }

  // ---- Membership --------------------------------------------------------------------------------

  predicate InPool(p: Pool, a: Address)
    requires forall i :: 0 <= i < |p.members| ==> p.members[i] < |p.objs|
  {
    Find(p, a).Some?
  }

  lemma InPoolIff(p: Pool, a: Address)
    requires PoolOk(p)
    ensures InPool(p, a) <==> exists o :: o in p.members && p.objs[o].Address() == a
  {
    if InPool(p, a) {
      assert p.members[Find(p, a).value] in p.members;
    }
  }

  lemma SameMember(p: Pool, o: nat, o': nat)
    requires PoolOk(p) && o in p.members && o' in p.members && p.objs[o].Address() == p.objs[o'].Address()
    ensures o == o'
  {
    var i :| 0 <= i < |p.members| && p.members[i] == o;
    var j :| 0 <= j < |p.members| && p.members[j] == o';
  }

  lemma NewestExists(leases: seq<Lease>, i: nat) returns (k: nat)
    requires i < |leases|
    ensures i <= k && Newest(leases, k) && leases[k].address == leases[i].address
    decreases |leases| - i
  {
    if j :| i < j < |leases| && leases[j].address == leases[i].address {
      k := NewestExists(leases, j);
    } else {
      k := i;
    }
  }

  /** Members' numbers, addresses and epochs unchanged: only flags differ. */
  ghost predicate FlagsOnly(p: Pool, p': Pool) {
    && p'.members == p.members && |p'.objs| == |p.objs|
    && forall o :: 0 <= o < |p.objs| ==>
        p'.objs[o].Address() == p.objs[o].Address() && p'.objs[o].epoch == p.objs[o].epoch
  }

  lemma FlagsKeepPool(p: Pool, p': Pool, a: Address)
    requires PoolOk(p) && FlagsOnly(p, p')
    ensures PoolOk(p') && (InPool(p', a) <==> InPool(p, a))
  {
    InPoolIff(p, a);
    assert PoolOk(p');
    InPoolIff(p', a);
    assert forall o :: o in p.members ==> o < |p.objs|;
  }

  lemma RegisteredPool(p: Pool, host: string, port: int, a: Address)
    requires PoolOk(p)
    ensures var (p', l) := Registered(p, host, port);
      && PoolOk(p') && l.obj in p'.members && l.obj < |p'.objs|
      && p'.objs[l.obj].Address() == (host, port) == l.address && p'.objs[l.obj].epoch == l.epoch
      && (l.obj < |p.objs| ==>
          l.obj in p.members && p.objs[l.obj].Address() == l.address && l.epoch == p.objs[l.obj].epoch + 1)
      && |p'.objs| >= |p.objs| && (forall o :: 0 <= o < |p.objs| && o != l.obj ==> p'.objs[o] == p.objs[o])
      && (forall o :: o in p'.members <==> o in p.members || o == l.obj)
      && (InPool(p', a) <==> InPool(p, a) || a == l.address)
  {
    var (p', l) := Registered(p, host, port);
    assert forall o :: o in p.members ==> o < |p.objs|;
    assert PoolOk(p');
    InPoolIff(p, a);
    InPoolIff(p', a);
    if Find(p, (host, port)).Some? {
      assert p.members[Find(p, (host, port)).value] in p.members;
    } else {
      assert p'.members[|p.members|] == l.obj;
      assert forall o :: o in p'.members <==> o in p.members || o == l.obj;
    }
  }

  lemma RemovedMembers(s: seq<nat>, j: nat)
    requires j < |s| && forall i :: 0 <= i < |s| && i != j ==> s[i] != s[j]
    ensures forall o :: o in Remove(s, j) <==> o in s && o != s[j]
  {
    var rest := Remove(s, j);
    forall o ensures o in rest <==> o in s && o != s[j] {
      if o in s && o != s[j] {
        var i :| 0 <= i < |s| && s[i] == o;
        assert rest[if i < j then i else i - 1] == o;
      }
      if o in rest {
        var i :| 0 <= i < |rest| && rest[i] == o;
        assert o == s[if i < j then i else i + 1];
      }
    }
  }

  lemma {:induction false} NotUnderMembers(p: Pool, members: seq<nat>, a: Address)
    requires forall i :: 0 <= i < |members| ==> members[i] < |p.objs|
    ensures forall o :: o in NotUnder(p, members, a) <==> o in members && o < |p.objs| && p.objs[o].Address() != a
  {
    if members != [] {
      var n := |members| - 1;
      NotUnderMembers(p, members[..n], a);
      assert members == members[..n] + [members[n]];
    }
  }

  lemma AdminRemovedPool(p: Pool, a: Address, b: Address)
    requires PoolOk(p)
    ensures var p' := AdminRemoved(p, a);
      && PoolOk(p') && p'.objs == p.objs
      && (forall o :: o in p'.members <==> o in p.members && p.objs[o].Address() != a)
      && (InPool(p', b) <==> InPool(p, b) && b != a)
  {
    RemovedKeepsPool(p, p.members, a);
    NotUnderMembers(p, p.members, a);
    InPoolIff(p, b);
    InPoolIff(AdminRemoved(p, a), b);
  }

  // ---- Runs of registrations, teardowns and removals -----------------------------------------------

  datatype Event =
    | Register(host: string, port: int)
    | Teardown(lease: nat)               // the registration connection of that lease ended
    | AdminRemove(address: Address)
    | Health(obj: nat, healthy: bool)
    | SetDown(address: Address, down: bool)

  /** The pool, every lease ever granted in order, and those whose connection has ended. */
  datatype State = State(pool: Pool, leases: seq<Lease>, ended: set<nat>)

  /** The configured backends, all healthy, none dynamic. */
  function Initial(backends: seq<Address>): State {
    var objs := seq(|backends|, i requires 0 <= i < |backends| =>
                    Fields(backends[i].0, backends[i].1, true, false, false, 0));
    State(Pool(objs, seq(|backends|, i => i)), [], {})
  }

  ghost predicate Ok(s: State) {
    PoolOk(s.pool) && forall i :: 0 <= i < |s.leases| ==> s.leases[i].obj < |s.pool.objs|
  }

  function Step(s: State, e: Event): State
    requires Ok(s)
  {
    match e
    case Register(host, port) =>
      var (pool, lease) := Registered(s.pool, host, port);
      State(pool, s.leases + [lease], s.ended)
    case Teardown(k) =>
      if k >= |s.leases| || k in s.ended then s
      else State(Deregistered(s.pool, s.leases[k]), s.leases, s.ended + {k})
    case AdminRemove(a) => s.(pool := AdminRemoved(s.pool, a))
    case Health(obj, h) => if obj < |s.pool.objs| then s.(pool := WithHealth(s.pool, obj, h)) else s
    case SetDown(a, down) => s.(pool := WithManualDown(s.pool, a, down))
  }

  /** `k` is the newest lease of its address. */
  ghost predicate Newest(leases: seq<Lease>, k: nat) {
    k < |leases| && forall j :: k < j < |leases| ==> leases[j].address != leases[k].address
  }

  ghost predicate Leased(s: State, a: Address) {
    exists i :: 0 <= i < |s.leases| && s.leases[i].address == a
  }

  /** Ending lease k would remove a member that is not the lease's object: the lease is open and of
      the current epoch, its object left the pool, and a member has equal fields. */
  ghost predicate Steals(s: State, k: nat)
    requires Ok(s)
  {
    && k < |s.leases| && k !in s.ended
    && s.leases[k].epoch == s.pool.objs[s.leases[k].obj].epoch
    && s.leases[k].obj !in s.pool.members
    && exists o :: o in s.pool.members && s.pool.objs[o] == s.pool.objs[s.leases[k].obj]
  }

  /** What a teardown takes out of the pool: the first member equal to the lease's object, if the
      lease is open and of the current epoch. */
  lemma TeardownTakes(s: State, k: nat)
    requires Ok(s) && k < |s.leases| && k !in s.ended
    ensures var l, p := s.leases[k], s.pool; var p' := Step(s, Teardown(k)).pool;
      && PoolOk(p') && p'.objs == p.objs
      && forall o :: o in p'.members <==>
          o in p.members && !(l.epoch == p.objs[l.obj].epoch && p.objs[o] == p.objs[l.obj])
  {
    var p, l := s.pool, s.leases[k];
    if l.epoch == p.objs[l.obj].epoch && FindEqual(p, p.objs[l.obj], 0).Some? {
      var j := FindEqual(p, p.objs[l.obj], 0).value;
      assert forall i :: 0 <= i < |p.members| && i != j ==> p.members[i] != p.members[j];
      RemovedMembers(p.members, j);
      RemoveKeepsPool(p, j);
      forall o | o in p.members && p.objs[o] == p.objs[l.obj] ensures o == p.members[j] {
        SameMember(p, o, p.members[j]);
      }
    }
  }

  /** In every state, ending lease k removes a member other than its own object if and only if the
      lease is open and of the current epoch, its object is out of the pool, and some member equals it. */
  lemma TeardownStealsIff(s: State, k: nat)
    requires Ok(s) && k < |s.leases|
    ensures PoolOk(Step(s, Teardown(k)).pool)
    ensures Steals(s, k) <==>
            exists o :: o in s.pool.members && o !in Step(s, Teardown(k)).pool.members && o != s.leases[k].obj
  {
    if k !in s.ended {
      TeardownTakes(s, k);
      var p, l := s.pool, s.leases[k];
      if o :| o in p.members && o !in Step(s, Teardown(k)).pool.members && o != l.obj {
        if l.obj in p.members {
          SameMember(p, o, l.obj);
        }
      }
    }
  }

  /** The addresses that, since they were last registered (or since the start), an operator removed
      or another lease's end took out of the pool. */
  ghost function Disturb(s: State, lost: set<Address>, e: Event): set<Address>
    requires Ok(s)
  {
    match e
    case Register(host, port) => lost - {(host, port)}
    case Teardown(k) => if Steals(s, k) then lost + {s.leases[k].address} else lost
    case AdminRemove(a) => lost + {a}
    case _ => lost
  }

  /** A lease names an object of its address; the leases of one object have rising epochs, none
      above the object's; the newest lease of an address carries its object's epoch. */
  ghost predicate EpochsOk(s: State) {
    && Ok(s)
    && (forall k :: k in s.ended ==> k < |s.leases|)
    && (forall i :: 0 <= i < |s.leases| ==> s.pool.objs[s.leases[i].obj].Address() == s.leases[i].address)
    && (forall i :: 0 <= i < |s.leases| ==> s.leases[i].epoch <= s.pool.objs[s.leases[i].obj].epoch)
    && (forall i, j :: 0 <= i < j < |s.leases| && s.leases[i].obj == s.leases[j].obj ==>
        s.leases[i].epoch < s.leases[j].epoch)
    && (forall k: nat :: Newest(s.leases, k) ==> s.leases[k].epoch == s.pool.objs[s.leases[k].obj].epoch)
  }

  /** The newest lease of an address: its object is in the pool while the lease is open and the
      address undisturbed, and nothing else is ever under the address. */
  ghost predicate Holds(s: State, lost: set<Address>, k: nat)
    requires Ok(s) && k < |s.leases|
  {
    && (InPool(s.pool, s.leases[k].address) <==> k !in s.ended && s.leases[k].address !in lost)
    && (InPool(s.pool, s.leases[k].address) ==> s.leases[k].obj in s.pool.members)
  }

  ghost predicate LeasesOk(backends: seq<Address>, s: State, lost: set<Address>) {
    && EpochsOk(s)
    && (forall k: nat :: Newest(s.leases, k) ==> Holds(s, lost, k))
    && (forall a :: !Leased(s, a) ==> (InPool(s.pool, a) <==> a in backends && a !in lost))
  }

  lemma FlagsKeepLeases(backends: seq<Address>, s: State, lost: set<Address>, p': Pool)
    requires LeasesOk(backends, s, lost) && FlagsOnly(s.pool, p')
    ensures LeasesOk(backends, s.(pool := p'), lost)
  {
    forall a ensures PoolOk(p') && (InPool(p', a) <==> InPool(s.pool, a)) {
      FlagsKeepPool(s.pool, p', a);
    }
  }

  lemma NewestBefore(leases: seq<Lease>, l: Lease, k: nat)
    requires Newest(leases + [l], k)
    ensures k == |leases| || (Newest(leases, k) && leases[k].address != l.address)
  {
    if k < |leases| {
      assert (leases + [l])[|leases|] == l;
      forall j | k < j < |leases| ensures leases[j].address != leases[k].address {
        assert (leases + [l])[j] == leases[j];
      }
    }
  }

  lemma RegisterKeepsNewest(s: State, host: string, port: int, k: nat)
    requires EpochsOk(s) && Newest(Step(s, Register(host, port)).leases, k)
    ensures var s' := Step(s, Register(host, port));
      s'.leases[k].obj < |s'.pool.objs| && s'.leases[k].epoch == s'.pool.objs[s'.leases[k].obj].epoch
  {
    RegisteredPool(s.pool, host, port, (host, port));
    NewestBefore(s.leases, Registered(s.pool, host, port).1, k);
  }

  lemma RegisterKeepsEpochs(s: State, host: string, port: int)
    requires EpochsOk(s)
    ensures EpochsOk(Step(s, Register(host, port)))
  {
    var s' := Step(s, Register(host, port));
    RegisteredPool(s.pool, host, port, (host, port));
    forall k: nat | Newest(s'.leases, k) ensures s'.leases[k].epoch == s'.pool.objs[s'.leases[k].obj].epoch {
      RegisterKeepsNewest(s, host, port, k);
    }
  }

  lemma RegisterKeepsHolder(backends: seq<Address>, s: State, lost: set<Address>, host: string, port: int, k: nat)
    requires LeasesOk(backends, s, lost)
    requires Newest(Step(s, Register(host, port)).leases, k)
    ensures Ok(Step(s, Register(host, port))) && Holds(Step(s, Register(host, port)), lost - {(host, port)}, k)
  {
    var s' := Step(s, Register(host, port));
    RegisteredPool(s.pool, host, port, s'.leases[k].address);
    NewestBefore(s.leases, s'.leases[|s.leases|], k);
    if k < |s.leases| {
      assert Holds(s, lost, k);
    }
  }

  lemma RegisterKeepsUnleased(s: State, host: string, port: int, a: Address)
    requires Ok(s) && !Leased(Step(s, Register(host, port)), a)
    ensures a != (host, port) && !Leased(s, a)
    ensures Ok(Step(s, Register(host, port)))
    ensures InPool(Step(s, Register(host, port)).pool, a) <==> InPool(s.pool, a)
  {
    var s' := Step(s, Register(host, port));
    RegisteredPool(s.pool, host, port, a);
    assert s'.leases[|s.leases|].address == (host, port);
    assert forall i :: 0 <= i < |s.leases| ==> s'.leases[i] == s.leases[i];
  }

  lemma RegisterKeepsLeases(backends: seq<Address>, s: State, lost: set<Address>, host: string, port: int)
    requires LeasesOk(backends, s, lost)
    ensures LeasesOk(backends, Step(s, Register(host, port)), lost - {(host, port)})
  {
    var s' := Step(s, Register(host, port));
    RegisterKeepsEpochs(s, host, port);
    forall k: nat | Newest(s'.leases, k) ensures Holds(s', lost - {(host, port)}, k) {
      RegisterKeepsHolder(backends, s, lost, host, port, k);
    }
    forall a | !Leased(s', a) ensures InPool(s'.pool, a) <==> a in backends && a !in lost - {(host, port)} {
      RegisterKeepsUnleased(s, host, port, a);
    }
  }

  /** Which addresses a teardown takes out of the pool. */
  lemma TeardownPool(s: State, k: nat, a: Address)
    requires EpochsOk(s) && k < |s.leases| && k !in s.ended
    ensures var l, p := s.leases[k], s.pool; var p' := Step(s, Teardown(k)).pool;
      && PoolOk(p')
      && (InPool(p', a) <==>
            (InPool(p, a) &&
             !(a == l.address && (Steals(s, k) || (l.epoch == p.objs[l.obj].epoch && l.obj in p.members)))))
  {
    TeardownTakes(s, k);
    InPoolIff(s.pool, a);
    InPoolIff(Step(s, Teardown(k)).pool, a);
    var l, p := s.leases[k], s.pool;
    forall o, o' | o in p.members && o' in p.members && p.objs[o].Address() == p.objs[o'].Address() ensures o == o' {
      SameMember(p, o, o');
    }
  }

  lemma TeardownKeepsLeases(backends: seq<Address>, s: State, lost: set<Address>, k: nat)
    requires LeasesOk(backends, s, lost)
    ensures LeasesOk(backends, Step(s, Teardown(k)), Disturb(s, lost, Teardown(k)))
  {
    if k < |s.leases| && k !in s.ended {
      var s', lost' := Step(s, Teardown(k)), Disturb(s, lost, Teardown(k));
      TeardownTakes(s, k);
      forall i: nat | Newest(s'.leases, i) ensures Holds(s', lost', i) {
        assert Holds(s, lost, i);
        TeardownKeepsHolder(s, lost, k, i);
      }
      forall a | !Leased(s', a) ensures InPool(s'.pool, a) <==> a in backends && a !in lost' {
        TeardownPool(s, k, a);
        assert s.leases[k].address != a;
      }
    }
  }

  lemma TeardownKeepsHolder(s: State, lost: set<Address>, k: nat, i: nat)
    requires EpochsOk(s) && k < |s.leases| && k !in s.ended && Newest(s.leases, i) && Holds(s, lost, i)
    ensures Ok(Step(s, Teardown(k))) && Holds(Step(s, Teardown(k)), Disturb(s, lost, Teardown(k)), i)
  {
    TeardownTakes(s, k);
    TeardownPool(s, k, s.leases[i].address);
    TeardownKeepsObject(s, k, s.leases[i].address, s.leases[i].obj);
  }

  lemma TeardownKeepsObject(s: State, k: nat, a: Address, obj: nat)
    requires EpochsOk(s) && k < |s.leases| && k !in s.ended
    requires InPool(s.pool, a) ==> obj in s.pool.members && s.pool.objs[obj].Address() == a
    ensures Ok(Step(s, Teardown(k)))
    ensures InPool(Step(s, Teardown(k)).pool, a) ==> obj in Step(s, Teardown(k)).pool.members
  {
    TeardownTakes(s, k);
    TeardownPool(s, k, a);
    var p' := Step(s, Teardown(k)).pool;
    if InPool(p', a) {
      InPoolIff(p', a);
      var o :| o in p'.members && p'.objs[o].Address() == a;
      SameMember(s.pool, o, obj);
    }
  }

  lemma AdminRemoveKeepsHolder(s: State, lost: set<Address>, a: Address, k: nat)
    requires EpochsOk(s) && Newest(s.leases, k) && Holds(s, lost, k)
    ensures Ok(Step(s, AdminRemove(a))) && Holds(Step(s, AdminRemove(a)), lost + {a}, k)
  {
    AdminRemovedPool(s.pool, a, s.leases[k].address);
  }

  lemma AdminRemoveKeepsLeases(backends: seq<Address>, s: State, lost: set<Address>, a: Address)
    requires LeasesOk(backends, s, lost)
    ensures LeasesOk(backends, Step(s, AdminRemove(a)), lost + {a})
  {
    var s' := Step(s, AdminRemove(a));
    AdminRemovedPool(s.pool, a, a);
    forall k: nat | Newest(s'.leases, k) ensures Holds(s', lost + {a}, k) {
      assert Holds(s, lost, k);
      AdminRemoveKeepsHolder(s, lost, a, k);
    }
    forall b | !Leased(s', b) ensures InPool(s'.pool, b) <==> b in backends && b !in lost + {a} {
      assert !Leased(s, b);
      AdminRemovedPool(s.pool, a, b);
    }
  }

  lemma StepKeepsLeases(backends: seq<Address>, s: State, lost: set<Address>, e: Event)
    requires LeasesOk(backends, s, lost)
    ensures LeasesOk(backends, Step(s, e), Disturb(s, lost, e))
  {
    match e
    case Register(host, port) => RegisterKeepsLeases(backends, s, lost, host, port);
    case Teardown(k) => TeardownKeepsLeases(backends, s, lost, k);
    case AdminRemove(a) => AdminRemoveKeepsLeases(backends, s, lost, a);
    case Health(obj, h) => if obj < |s.pool.objs| { FlagsKeepLeases(backends, s, lost, WithHealth(s.pool, obj, h)); }
    case SetDown(a, down) => FlagsKeepLeases(backends, s, lost, WithManualDown(s.pool, a, down));
  }

  lemma InitialOk(backends: seq<Address>)
    requires Distinct(backends)
    ensures LeasesOk(backends, Initial(backends), {})
  {
    var p := Initial(backends).pool;
    assert forall i :: 0 <= i < |backends| ==> p.members[i] == i && p.objs[i].Address() == backends[i];
    forall a ensures InPool(p, a) <==> a in backends {
      InPoolIff(p, a);
      if a in backends {
        var i :| 0 <= i < |backends| && backends[i] == a;
        assert p.members[i] in p.members;
      }
    }
  }

  lemma StepKeepsOk(s: State, e: Event)
    requires Ok(s)
    ensures Ok(Step(s, e))
  {
    match e
    case Register(host, port) => RegisteredPool(s.pool, host, port, (host, port));
    case Teardown(k) => if k < |s.leases| && k !in s.ended { TeardownTakes(s, k); }
    case AdminRemove(a) => AdminRemovedPool(s.pool, a, a);
    case Health(obj, h) =>
    case SetDown(a, down) =>
  }

  /** The state after a run over configured backends with distinct addresses. */
  ghost function Run(backends: seq<Address>, es: seq<Event>): (s: State)
    requires Distinct(backends)
    ensures Ok(s)
  {
    if es == [] then
      InitialOk(backends);
      Initial(backends)
    else
      var before := Run(backends, es[..|es| - 1]);
      StepKeepsOk(before, es[|es| - 1]);
      Step(before, es[|es| - 1])
  }

  /** The addresses disturbed since they were last registered. */
  ghost function Disturbed(backends: seq<Address>, es: seq<Event>): set<Address>
    requires Distinct(backends)
  {
    if es == [] then {}
    else Disturb(Run(backends, es[..|es| - 1]), Disturbed(backends, es[..|es| - 1]), es[|es| - 1])
  }

  /** Every run keeps the lease invariant. */
  lemma {:induction false} RunKeepsLeases(backends: seq<Address>, es: seq<Event>)
    requires Distinct(backends)
    ensures LeasesOk(backends, Run(backends, es), Disturbed(backends, es))
  {
    if es == [] {
      InitialOk(backends);
    } else {
      var init := es[..|es| - 1];
      RunKeepsLeases(backends, init);
      StepKeepsLeases(backends, Run(backends, init), Disturbed(backends, init), es[|es| - 1]);
    }
  }

  /** Lease safety, in every run of registrations, teardowns in any order, operator removals, health
      changes and pauses: pool addresses stay distinct; an address that was ever registered is in
      the pool if and only if its newest lease is open and nobody disturbed it since that lease was
      granted; any other address if and only if it was configured and not removed. */
  lemma LeaseSafety(backends: seq<Address>, es: seq<Event>, a: Address)
    requires Distinct(backends)
    ensures var s, lost := Run(backends, es), Disturbed(backends, es);
      && PoolOk(s.pool)
      && (forall k: nat :: Newest(s.leases, k) && s.leases[k].address == a ==>
            (InPool(s.pool, a) <==> k !in s.ended && a !in lost))
      && (!Leased(s, a) ==> (InPool(s.pool, a) <==> a in backends && a !in lost))
  {
    var s, lost := Run(backends, es), Disturbed(backends, es);
    RunKeepsLeases(backends, es);
    forall k: nat | Newest(s.leases, k) && s.leases[k].address == a
      ensures InPool(s.pool, a) <==> k !in s.ended && a !in lost
    {
      assert Holds(s, lost, k);
    }
  }

  /** After the run `past`, event e takes address a out of the pool from under its lease: an
      operator removes it, or the end of a stale lease steals it. */
  ghost predicate Disturbs(backends: seq<Address>, past: seq<Event>, e: Event, a: Address)
    requires Distinct(backends)
  {
    match e
    case AdminRemove(b) => b == a
    case Teardown(k) => var s := Run(backends, past); Steals(s, k) && s.leases[k].address == a
    case _ => false
  }

  ghost predicate DisturbedSince(backends: seq<Address>, es: seq<Event>, j: nat, a: Address)
    requires Distinct(backends)
  {
    j < |es| && Disturbs(backends, es[..j], es[j], a) && NotRegisteredAfter(es, j, a)
  }

  ghost predicate NotRegisteredAfter(es: seq<Event>, j: nat, a: Address) {
    forall i :: j < i < |es| ==> es[i] != Register(a.0, a.1)
  }

  lemma NotRegisteredPrefix(es: seq<Event>, j: nat, a: Address)
    requires j < |es| - 1
    ensures NotRegisteredAfter(es, j, a) <==>
            (NotRegisteredAfter(es[..|es| - 1], j, a) && es[|es| - 1] != Register(a.0, a.1))
  {
  }

  ghost predicate EverDisturbed(backends: seq<Address>, es: seq<Event>, a: Address)
    requires Distinct(backends)
  {
    exists j: nat :: DisturbedSince(backends, es, j, a)
  }

  lemma SincePrefix(backends: seq<Address>, es: seq<Event>, j: nat, a: Address)
    requires Distinct(backends) && es != [] && j < |es| - 1
    ensures DisturbedSince(backends, es, j, a) <==>
            (DisturbedSince(backends, es[..|es| - 1], j, a) && es[|es| - 1] != Register(a.0, a.1))
  {
    var init := es[..|es| - 1];
    assert init[..j] == es[..j] && init[j] == es[j];
    NotRegisteredPrefix(es, j, a);
  }

  lemma EverDisturbedStep(backends: seq<Address>, es: seq<Event>, a: Address)
    requires Distinct(backends) && es != []
    ensures EverDisturbed(backends, es, a) <==>
            Disturbs(backends, es[..|es| - 1], es[|es| - 1], a) ||
            (EverDisturbed(backends, es[..|es| - 1], a) && es[|es| - 1] != Register(a.0, a.1))
  {
    var n := |es| - 1;
    if EverDisturbed(backends, es, a) {
      var j: nat :| DisturbedSince(backends, es, j, a);
      if j < n {
        SincePrefix(backends, es, j, a);
      }
    }
    if Disturbs(backends, es[..n], es[n], a) {
      assert DisturbedSince(backends, es, n, a);
    }
    if EverDisturbed(backends, es[..n], a) && es[n] != Register(a.0, a.1) {
      var j: nat :| DisturbedSince(backends, es[..n], j, a);
      SincePrefix(backends, es, j, a);
    }
  }

  /** An address is disturbed if and only if some event disturbed it and it was not registered since. */
  lemma {:induction false} DisturbedIff(backends: seq<Address>, es: seq<Event>, a: Address)
    requires Distinct(backends)
    ensures a in Disturbed(backends, es) <==> EverDisturbed(backends, es, a)
  {
    if es != [] {
      DisturbedIff(backends, es[..|es| - 1], a);
      EverDisturbedStep(backends, es, a);
      DisturbStep(backends, es, a);
    }
  }

  lemma DisturbStep(backends: seq<Address>, es: seq<Event>, a: Address)
    requires Distinct(backends) && es != []
    ensures a in Disturbed(backends, es) <==>
            Disturbs(backends, es[..|es| - 1], es[|es| - 1], a) ||
            (a in Disturbed(backends, es[..|es| - 1]) && es[|es| - 1] != Register(a.0, a.1))
  {
  }

  // ---- Without operator removals nothing is disturbed -------------------------------------------------

  /** Open leases of the current epoch have their object in the pool. */
  ghost predicate Kept(s: State, a: Address) {
    && Ok(s)
    && forall i :: 0 <= i < |s.leases| && s.leases[i].address == a && i !in s.ended ==>
         s.leases[i].epoch == s.pool.objs[s.leases[i].obj].epoch ==> s.leases[i].obj in s.pool.members
  }

  lemma RegisterKeepsKept(s: State, host: string, port: int, a: Address)
    requires EpochsOk(s) && Kept(s, a)
    ensures Kept(Step(s, Register(host, port)), a)
  {
    RegisteredPool(s.pool, host, port, a);
  }

  lemma TeardownKeepsKept(s: State, k: nat, a: Address)
    requires EpochsOk(s) && Kept(s, a)
    ensures Kept(Step(s, Teardown(k)), a)
    ensures !(Steals(s, k) && s.leases[k].address == a)
  {
    if k < |s.leases| && k !in s.ended {
      TeardownTakes(s, k);
    }
  }

  lemma StepKeepsKept(s: State, e: Event, a: Address)
    requires EpochsOk(s) && Kept(s, a) && e != AdminRemove(a)
    ensures Kept(Step(s, e), a)
  {
    match e
    case Register(host, port) => RegisterKeepsKept(s, host, port, a);
    case Teardown(k) => TeardownKeepsKept(s, k, a);
    case AdminRemove(b) => AdminRemovedPool(s.pool, b, a);
    case Health(obj, h) => if obj < |s.pool.objs| { FlagsKeepPool(s.pool, WithHealth(s.pool, obj, h), a); }
    case SetDown(b, down) => FlagsKeepPool(s.pool, WithManualDown(s.pool, b, down), a);
  }

  /** Only an operator's removal makes room for a stale lease: an address never removed by an
      operator is never disturbed, so it is in the pool exactly while its newest lease is open. */
  lemma {:induction false} UnremovedIsUndisturbed(backends: seq<Address>, es: seq<Event>, a: Address)
    requires Distinct(backends) && AdminRemove(a) !in es
    ensures a !in Disturbed(backends, es) && Kept(Run(backends, es), a)
  {
    if es != [] {
      var init, e := es[..|es| - 1], es[|es| - 1];
      UnremovedIsUndisturbed(backends, init, a);
      RunKeepsLeases(backends, init);
      var s := Run(backends, init);
      StepKeepsKept(s, e, a);
      if e.Teardown? {
        TeardownKeepsKept(s, e.lease, a);
      }
    }
  }

  // ---- How a stale lease steals --------------------------------------------------------------------

  /** A node's lease is open and current, an operator removes its address, and the address is
      registered again: the end of the first lease now steals the new backend if and only if the
      old object still looks like a new one (never renewed, healthy, not paused). */
  lemma StealsAfterReturnIff(s: State, k: nat)
    requires EpochsOk(s) && k < |s.leases| && k !in s.ended
    requires s.leases[k].epoch == s.pool.objs[s.leases[k].obj].epoch
    ensures var l := s.leases[k]; var a := l.address;
      && Ok(Step(s, AdminRemove(a)))
      && var s' := Step(Step(s, AdminRemove(a)), Register(a.0, a.1));
         Ok(s') && InPool(s'.pool, a)
         && (Steals(s', k) <==> s.pool.objs[l.obj] == Fields(a.0, a.1, true, true, false, 1))
  {
    var l, a := s.leases[k], s.leases[k].address;
    AdminRemovedPool(s.pool, a, a);
    var s1 := Step(s, AdminRemove(a));
    RegisteredPool(s1.pool, a.0, a.1, a);
    var s2 := Step(s1, Register(a.0, a.1));
    var o := |s1.pool.objs|;
    assert s2.pool.objs[o] == Fields(a.0, a.1, true, true, false, 1) && o in s2.pool.members;
    forall o' | o' in s2.pool.members && s2.pool.objs[o'].Address() == a ensures o' == o {
      SameMember(s2.pool, o', o);
    }
  }

  /** Such a run: a node registers, an operator removes it, it registers again, and then its first
      registration connection ends.  Its live second registration is out of the pool. */
  lemma RemovedBackendLosesItsSuccessor(a: Address) returns (es: seq<Event>)
    ensures var s := Run([], es);
      Newest(s.leases, 1) && s.leases[1].address == a && 1 !in s.ended && !InPool(s.pool, a)
  {
    es := ReturnedUnderTwoLeases(a);
    RunSnoc([], es, Teardown(0));
    TheftTakesTheAddress(Run([], es), 0);
    es := es + [Teardown(0)];
  }

  lemma ReturnedUnderTwoLeases(a: Address) returns (es: seq<Event>)
    ensures var s := Run([], es);
      EpochsOk(s) && Steals(s, 0) && |s.leases| == 2 && s.leases[0].address == a == s.leases[1].address && s.ended == {}
  {
    var e0, e1 := Register(a.0, a.1), AdminRemove(a);
    es := [] + [e0] + [e1] + [e0];
    RunSnoc([], [], e0);
    RunSnoc([], [] + [e0], e1);
    RunSnoc([], [] + [e0] + [e1], e0);
    RunKeepsLeases([], [] + [e0]);
    RunKeepsLeases([], es);
    FirstLease(a);
    StealsAfterReturnIff(Run([], [] + [e0]), 0);
    LeasesOfReturn(Run([], [] + [e0]), a);
  }

  lemma TheftTakesTheAddress(s: State, k: nat)
    requires EpochsOk(s) && Steals(s, k)
    ensures Ok(Step(s, Teardown(k))) && !InPool(Step(s, Teardown(k)).pool, s.leases[k].address)
  {
    TeardownTakes(s, k);
    TeardownPool(s, k, s.leases[k].address);
  }

  lemma RunSnoc(backends: seq<Address>, es: seq<Event>, e: Event)
    requires Distinct(backends)
    ensures Run(backends, es + [e]) == Step(Run(backends, es), e)
    ensures Disturbed(backends, es + [e]) == Disturb(Run(backends, es), Disturbed(backends, es), e)
  {
    assert (es + [e])[..|es|] == es;
  }

  lemma FirstLease(a: Address)
    ensures var s := Step(Initial([]), Register(a.0, a.1));
      s.leases == [Lease(a, 0, 1)] && s.ended == {} && s.pool.objs == [Fields(a.0, a.1, true, true, false, 1)]
  {
    RegisteredPool(Initial([]).pool, a.0, a.1, a);
  }

  lemma LeasesOfReturn(s: State, a: Address)
    requires Ok(s)
    ensures Ok(Step(s, AdminRemove(a)))
    ensures var s' := Step(Step(s, AdminRemove(a)), Register(a.0, a.1));
      |s'.leases| == |s.leases| + 1 && s'.leases[..|s.leases|] == s.leases
      && s'.leases[|s.leases|].address == a && s'.ended == s.ended
  {
    AdminRemovedPool(s.pool, a, a);
  }

  /** A configured backend is not exempt: if a node registers under its address and leaves again,
      the address is gone from the pool. */
  lemma ConfiguredBackendIsRemoved(backends: seq<Address>, a: Address)
    requires Distinct(backends) && a in backends
    ensures !InPool(Run(backends, [Register(a.0, a.1), Teardown(0)]).pool, a)
  {
    var first, both := [Register(a.0, a.1)], [Register(a.0, a.1), Teardown(0)];
    assert first[..0] == [] && both[..1] == first;
    var s1 := Step(Run(backends, []), Register(a.0, a.1));
    assert Run(backends, first) == s1;
    assert Run(backends, both) == Step(s1, Teardown(0));
    LeaseSafety(backends, both, a);
    assert Newest(Run(backends, both).leases, 0);
  }
}
