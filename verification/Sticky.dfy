/** Sticky sessions of the load balancer over whole runs (ingress/lb.py, without Redis): which mapping a
    session has, and that it is honoured. */
module Sticky {
  import opened Base
  import opened BackendPool
  import opened Routing

  datatype Desk = Desk(state: State, sticky: map<SessionId, nat>, rrIndex: nat)

  datatype Event =
    | Change(change: BackendPool.Event)
    | Map(sid: SessionId, obj: nat)                            // a client was routed and acknowledged
    | Choose(wanted: Option<SessionId>, excluded: set<nat>)    // _pick_backend

  ghost predicate Sane(d: Desk) {
    Ok(d.state) && StickyOk(d.state.pool, d.sticky)
  }

  /** The mappings that do not name the object. */
  function Without(sticky: map<SessionId, nat>, o: nat): map<SessionId, nat> {
    map sid | sid in sticky && sticky[sid] != o :: sticky[sid]
  }

  function WithoutAddress(p: Pool, sticky: map<SessionId, nat>, a: Address): map<SessionId, nat>
    requires StickyOk(p, sticky)
  {
    map sid | sid in sticky && p.objs[sticky[sid]].Address() != a :: sticky[sid]
  }

  /** Taking a server down, ending its current registration and removing it forget its mappings. */
  function StickyAfter(d: Desk, e: BackendPool.Event): map<SessionId, nat>
    requires Sane(d)
  {
    match e
    case SetDown(a, down) =>
      if down && InPool(d.state.pool, a) then Without(d.sticky, d.state.pool.members[Find(d.state.pool, a).value])
      else d.sticky
    case Teardown(k) =>
      if k < |d.state.leases| && k !in d.state.ended
         && d.state.leases[k].epoch == d.state.pool.objs[d.state.leases[k].obj].epoch
      then Without(d.sticky, d.state.leases[k].obj) else d.sticky
    case AdminRemove(a) => if InPool(d.state.pool, a) then WithoutAddress(d.state.pool, d.sticky, a) else d.sticky
    case _ => d.sticky
  }

  ghost function Step(d: Desk, e: Event): Desk
    requires Sane(d)
  {
    match e
    case Change(change) => Desk(BackendPool.Step(d.state, change), StickyAfter(d, change), d.rrIndex)
    case Map(sid, o) => if o < |d.state.pool.objs| then d.(sticky := d.sticky[sid := o]) else d
    case Choose(sid, excluded) =>
      if ObjectsOf(d.state.pool, excluded)
      then d.(rrIndex := Pick(d.state.pool, d.sticky, d.rrIndex, sid, excluded).rrIndex) else d
  }

  lemma ObjectsStay(s: State, e: BackendPool.Event)
    requires Ok(s)
    ensures |s.pool.objs| <= |BackendPool.Step(s, e).pool.objs|
    ensures forall o :: 0 <= o < |s.pool.objs| ==>
        BackendPool.Step(s, e).pool.objs[o].Address() == s.pool.objs[o].Address()
  {
  }

  lemma StepKeepsSane(d: Desk, e: Event)
    requires Sane(d)
    ensures Sane(Step(d, e))
  {
    if e.Change? {
      StepKeepsOk(d.state, e.change);
      ObjectsStay(d.state, e.change);
    }
  }

  ghost function Run(backends: seq<Address>, es: seq<Event>): (d: Desk)
    requires Distinct(backends)
    ensures Sane(d)
  {
    if es == [] then
      InitialOk(backends);
      Desk(Initial(backends), map[], 0)
    else
      var before := Run(backends, es[..|es| - 1]);
      StepKeepsSane(before, es[|es| - 1]);
      Step(before, es[|es| - 1])
  }

  /** The event forgets the mappings to object o: it is taken down by its address, its current registration
      ends, or it is removed under its address while a server stands there. */
  ghost predicate Forgets(s: State, e: BackendPool.Event, o: nat)
    requires Ok(s)
  {
    match e
    case SetDown(a, down) => down && o in s.pool.members && o < |s.pool.objs| && s.pool.objs[o].Address() == a
    case Teardown(k) =>
      k < |s.leases| && k !in s.ended && s.leases[k].obj == o && s.leases[k].epoch == s.pool.objs[o].epoch
    case AdminRemove(a) =>
      o < |s.pool.objs| && s.pool.objs[o].Address() == a
      && exists m :: m in s.pool.members && m < |s.pool.objs| && s.pool.objs[m].Address() == a
    case _ => false
  }

  /** The object a session was mapped to last, if nothing forgot it since. */
  ghost function MappedTo(backends: seq<Address>, es: seq<Event>, sid: SessionId): Option<nat>
    requires Distinct(backends)
  {
    if es == [] then None
    else
      var init, e := es[..|es| - 1], es[|es| - 1];
      var before := MappedTo(backends, init, sid);
      match e
      case Map(s, o) => if s == sid && o < |Run(backends, init).state.pool.objs| then Some(o) else before
      case Change(change) =>
        if before.Some? && Forgets(Run(backends, init).state, change, before.value) then None else before
      case Choose(_, _) => before
  }

  lemma ForgetsExactly(d: Desk, e: BackendPool.Event, sid: SessionId)
    requires Sane(d)
    ensures sid in StickyAfter(d, e) <==> sid in d.sticky && !Forgets(d.state, e, d.sticky[sid])
    ensures sid in StickyAfter(d, e) ==> StickyAfter(d, e)[sid] == d.sticky[sid]
  {
    var p := d.state.pool;
    match e
    case SetDown(a, _) =>
      InPoolIff(p, a);
      if sid in d.sticky && InPool(p, a) && d.sticky[sid] in p.members && p.objs[d.sticky[sid]].Address() == a {
        SameMember(p, d.sticky[sid], p.members[Find(p, a).value]);
      }
    case AdminRemove(a) =>
      InPoolIff(p, a);
      assert forall m :: m in p.members ==> m < |p.objs|;
    case _ =>
  }

  /** In every run a session is mapped exactly to the object it was last mapped to, unless that object was
      taken down, deregistered or removed since; other events forget no mapping. */
  lemma {:induction false} MappingIsNewest(backends: seq<Address>, es: seq<Event>, sid: SessionId)
    requires Distinct(backends)
    ensures var sticky := Run(backends, es).sticky; var o := MappedTo(backends, es, sid);
      (sid in sticky <==> o.Some?) && (o.Some? ==> sticky[sid] == o.value)
  {
    if es != [] {
      var init, e := es[..|es| - 1], es[|es| - 1];
      MappingIsNewest(backends, init, sid);
      if e.Change? {
        ForgetsExactly(Run(backends, init), e.change, sid);
      }
    }
  }

  /** So while its mapping stands and the object is healthy and not paused, every first pick of a session is
      that object, and the rotation does not move. */
  lemma StickySessionStays(backends: seq<Address>, es: seq<Event>, sid: SessionId, o: nat)
    requires Distinct(backends) && MappedTo(backends, es, sid) == Some(o)
    ensures var d := Run(backends, es);
      && o < |d.state.pool.objs|
      && (d.state.pool.objs[o].healthy && !d.state.pool.objs[o].manualDown ==>
            && Pick(d.state.pool, d.sticky, d.rrIndex, Some(sid), {}) == Choice(Some(o), d.rrIndex)
            && Run(backends, es + [Choose(Some(sid), {})]) == d)
  {
    MappingIsNewest(backends, es, sid);
    var d := Run(backends, es);
    assert (es + [Choose(Some(sid), {})])[..|es|] == es;
    var list := PickIsAdmissible(d.state.pool, d.sticky, d.rrIndex, Some(sid), {});
  }
}
