/** When the placement of clients is up to date: the pool and the client table of the load balancer
    together (ingress/lb.py), with the rebalancings that some of its events make and others do not. */
module Placements {
  import opened Base
  import opened BackendPool
  import opened Rebalance
  import T = ClientTable

  datatype Balancer = Balancer(state: State, clients: T.Clients)

  /** A change of the pool, a health one by a health check or (NODE_STATUS, a failed connection)
      otherwise; or a change of the client table. */
  datatype Event =
    | OfPool(change: BackendPool.Event, byCheck: bool)
    | OfClients(change': T.Event)

  ghost predicate Sane(b: Balancer) {
    Ok(b.state) && T.TableOk(b.clients)
  }

  /** Health checks and operators rebalance when they change something; registrations, their ends,
      NODE_STATUS frames and failed connections never do. */
  predicate Rebalances(s: State, e: BackendPool.Event, byCheck: bool)
    requires Ok(s)
  {
    match e
    case AdminRemove(a) => InPool(s.pool, a)
    case SetDown(a, _) => InPool(s.pool, a)
    case Health(obj, healthy) => byCheck && obj < |s.pool.objs| && s.pool.objs[obj].healthy != healthy
    case _ => false
  }

  // ---- Rebalancing as a function -----------------------------------------------------------------------

  function Position(s: seq<T.ClientId>, id: T.ClientId): (k: nat)
    requires id in s
    ensures k < |s| && s[k] == id
  {
    if s[0] == id then 0 else 1 + Position(s[1..], id)
  }

  /** Where rebalancing puts an active client. */
  function PlaceOf(routable: seq<Address>, c: T.Clients, id: T.ClientId): Option<Address>
    requires T.ClientsOk(c) && id in c.entries && c.entries[id].active
  {
    if AtHome(routable, c.entries[id]) then c.entries[id].home
    else SpreadTo(routable, Position(Displaced(routable, c.order, c.entries), id))
  }

  function Placed(routable: seq<Address>, c: T.Clients): T.Clients
    requires T.ClientsOk(c)
  {
    c.(entries := map id | id in c.entries ::
      if c.entries[id].active then c.entries[id].(current := PlaceOf(routable, c, id)) else c.entries[id])
  }

  /** It is what the two loops of _rebalance_clients compute. */
  lemma PlacedIsRebalanced(routable: seq<Address>, c: T.Clients)
    requires T.ClientsOk(c)
    ensures IsRebalanced(routable, c, Placed(routable, c))
  {
    var d := Displaced(routable, c.order, c.entries);
    forall i | 0 <= i < |d|
      ensures Placed(routable, c).entries[d[i]] == c.entries[d[i]].(current := SpreadTo(routable, i))
    {
      assert d[i] in d && d[Position(d, d[i])] == d[i];
    }
  }

  /** And the only such table. */
  lemma RebalancedIsPlaced(routable: seq<Address>, c: T.Clients, after: T.Clients)
    requires T.ClientsOk(c) && IsRebalanced(routable, c, after)
    ensures after == Placed(routable, c)
  {
    PlacedIsRebalanced(routable, c);
    RebalancedKeepsPeople(routable, c, after);
    RebalancedKeepsPeople(routable, c, Placed(routable, c));
    forall id | id in c.entries ensures after.entries[id] == Placed(routable, c).entries[id] {
      if c.entries[id].active {
        PlacementIsDetermined(routable, c, c, after, Placed(routable, c), id);
        SameButCurrent(after.entries[id], Placed(routable, c).entries[id]);
      }
    }
  }

  lemma PlacedAgain(routable: seq<Address>, c: T.Clients)
    requires T.ClientsOk(c)
    ensures T.ClientsOk(Placed(routable, c)) && Placed(routable, Placed(routable, c)) == Placed(routable, c)
  {
    var once := Placed(routable, c);
    PlacedIsRebalanced(routable, c);
    RebalancedKeepsPeople(routable, c, once);
    PlacedIsRebalanced(routable, once);
    RebalanceIsIdempotent(routable, c, once, Placed(routable, once));
  }

  lemma PlacedKeepsTable(routable: seq<Address>, c: T.Clients)
    requires T.TableOk(c)
    ensures T.TableOk(Placed(routable, c))
  {
  }

  /** Rebalancing would change nothing. */
  ghost predicate UpToDate(b: Balancer)
    requires Sane(b)
  {
    Placed(Routable(b.state.pool), b.clients) == b.clients
  }

  // ---- Runs --------------------------------------------------------------------------------------------------

  function Step(b: Balancer, e: Event): Balancer
    requires Sane(b)
  {
    match e
    case OfPool(change, byCheck) =>
      StepKeepsOk(b.state, change);
      var state := BackendPool.Step(b.state, change);
      if Rebalances(b.state, change, byCheck) then Balancer(state, Placed(Routable(state.pool), b.clients))
      else Balancer(state, b.clients)
    case OfClients(change) =>
      if change.Move? then b else b.(clients := T.Step(b.clients, change))
  }

  lemma StepKeepsSane(b: Balancer, e: Event)
    requires Sane(b)
    ensures Sane(Step(b, e))
  {
    match e
    case OfPool(change, _) =>
      StepKeepsOk(b.state, change);
      PlacedKeepsTable(Routable(BackendPool.Step(b.state, change).pool), b.clients);
    case OfClients(change) => T.StepKeepsTable(b.clients, change);
  }

  ghost function Run(backends: seq<Address>, es: seq<Event>): (b: Balancer)
    requires Distinct(backends)
    ensures Sane(b)
  {
    if es == [] then
      InitialOk(backends);
      Balancer(Initial(backends), T.NoClients)
    else
      var before := Run(backends, es[..|es| - 1]);
      StepKeepsSane(before, es[|es| - 1]);
      Step(before, es[|es| - 1])
  }

  /** The routable list the clients were last placed over, if no client came, went or moved since. */
  ghost function LastPlaced(backends: seq<Address>, es: seq<Event>): Option<seq<Address>>
    requires Distinct(backends)
  {
    if es == [] then Some(Routable(Run(backends, es).state.pool))
    else
      var before, e := Run(backends, es[..|es| - 1]), es[|es| - 1];
      match e
      case OfPool(change, byCheck) =>
        if Rebalances(before.state, change, byCheck) then Some(Routable(Run(backends, es).state.pool))
        else LastPlaced(backends, es[..|es| - 1])
      case OfClients(change) => if change.Move? then LastPlaced(backends, es[..|es| - 1]) else None
  }

  /** Until the next client comes, goes or moves, everyone stays where the last rebalancing put them. */
  lemma {:induction false} PlacementIsOfLast(backends: seq<Address>, es: seq<Event>)
    requires Distinct(backends)
    ensures var b := Run(backends, es); var last := LastPlaced(backends, es);
      last.Some? ==> Placed(last.value, b.clients) == b.clients
  {
    if es != [] {
      var init, e := es[..|es| - 1], es[|es| - 1];
      PlacementIsOfLast(backends, init);
      if e.OfPool? && Rebalances(Run(backends, init).state, e.change, e.byCheck) {
        PlacedAgain(Routable(Run(backends, es).state.pool), Run(backends, init).clients);
      }
    }
  }

  predicate HomeCameOrWent(last: seq<Address>, now: seq<Address>, c: T.Client) {
    c.active && AtHome(now, c) != AtHome(last, c)
  }

  /** So placement is up to date if and only if rebalancing over the list of routable servers as it is
      now would put every active client where the last one did: whenever the list is the same, and never
      for a client whose home came or went unnoticed. */
  lemma UpToDateIff(backends: seq<Address>, es: seq<Event>, last: seq<Address>)
    requires Distinct(backends) && LastPlaced(backends, es) == Some(last)
    ensures var b := Run(backends, es); var now := Routable(b.state.pool);
      && (UpToDate(b) <==> forall id :: id in b.clients.entries && b.clients.entries[id].active ==>
                             PlaceOf(now, b.clients, id) == PlaceOf(last, b.clients, id))
      && (now == last ==> UpToDate(b))
      && (forall id :: id in b.clients.entries && HomeCameOrWent(last, now, b.clients.entries[id]) ==> !UpToDate(b))
  {
    PlacementIsOfLast(backends, es);
    var b := Run(backends, es);
    var now := Routable(b.state.pool);
    SameIffPlacesAgree(now, last, b.clients);
    forall id | id in b.clients.entries && HomeCameOrWent(last, now, b.clients.entries[id])
      ensures PlaceOf(now, b.clients, id) != PlaceOf(last, b.clients, id)
    {
      OffHomePlace(now, b.clients, id);
      OffHomePlace(last, b.clients, id);
    }
  }

  lemma SameIffPlacesAgree(now: seq<Address>, last: seq<Address>, c: T.Clients)
    requires T.ClientsOk(c) && Placed(last, c) == c
    ensures Placed(now, c) == c <==>
            forall id :: id in c.entries && c.entries[id].active ==> PlaceOf(now, c, id) == PlaceOf(last, c, id)
  {
    forall id | id in c.entries && c.entries[id].active ensures c.entries[id].current == PlaceOf(last, c, id) {
      assert Placed(last, c).entries[id] == c.entries[id];
    }
    if Placed(now, c) == c {
      forall id | id in c.entries && c.entries[id].active ensures PlaceOf(now, c, id) == PlaceOf(last, c, id) {
        assert Placed(now, c).entries[id] == c.entries[id];
      }
    }
  }

  /** A client whose home is not routable is placed elsewhere, or nowhere. */
  lemma OffHomePlace(routable: seq<Address>, c: T.Clients, id: T.ClientId)
    requires T.ClientsOk(c) && id in c.entries && c.entries[id].active
    ensures AtHome(routable, c.entries[id]) ==> PlaceOf(routable, c, id) == c.entries[id].home
    ensures !AtHome(routable, c.entries[id]) && PlaceOf(routable, c, id).Some? ==>
        PlaceOf(routable, c, id).value in routable && PlaceOf(routable, c, id) != c.entries[id].home
  {
  }

  lemma MisplacedIsStale(routable: seq<Address>, c: T.Clients, id: T.ClientId)
    requires T.ClientsOk(c) && id in c.entries && c.entries[id].active
    ensures c.entries[id].current != PlaceOf(routable, c, id) ==> Placed(routable, c) != c
  {
    assert Placed(routable, c).entries[id].current == PlaceOf(routable, c, id);
  }

  // ---- Events that leave it stale -----------------------------------------------------------------------------

  /** A NODE_STATUS frame or a failed connection that marks a server down leaves its clients' entries
      there.  (A failed connection also cuts their relays, whose ends then drop them.) */
  lemma UncheckedFailureIsStale(b: Balancer, a: Address, id: T.ClientId)
    requires Sane(b) && UpToDate(b) && a in Routable(b.state.pool)
    requires id in b.clients.entries && b.clients.entries[id].active && b.clients.entries[id].home == Some(a)
    ensures var obj := b.state.pool.members[Find(b.state.pool, a).value];
            var b' := Step(b, OfPool(Health(obj, false), false));
      && b'.clients == b.clients && b'.clients.entries[id].current == Some(a)
      && Sane(b') && a !in Routable(b'.state.pool) && !UpToDate(b')
  {
    RoutableIs(b.state.pool);
    var p := b.state.pool;
    var obj := p.members[Find(p, a).value];
    var e := OfPool(Health(obj, false), false);
    var b' := Step(b, e);
    StepKeepsSane(b, e);
    RoutableIs(b'.state.pool);
    FlagsKeepPool(p, b'.state.pool, a);
    assert Placed(Routable(p), b.clients).entries[id] == b.clients.entries[id];
    OffHomePlace(Routable(p), b.clients, id);
    OffHomePlace(Routable(b'.state.pool), b.clients, id);
    MisplacedIsStale(Routable(b'.state.pool), b'.clients, id);
  }

  /** A node that registers again does not get its clients back until something else rebalances. */
  lemma RegistrationIsStale(b: Balancer, a: Address, id: T.ClientId)
    requires Sane(b) && UpToDate(b) && !InPool(b.state.pool, a)
    requires id in b.clients.entries && b.clients.entries[id].active && b.clients.entries[id].home == Some(a)
    ensures var b' := Step(b, OfPool(Register(a.0, a.1), false));
      && b'.clients == b.clients && b'.clients.entries[id].current != Some(a)
      && Sane(b') && a in Routable(b'.state.pool) && !UpToDate(b')
  {
    var p := b.state.pool;
    var e := OfPool(Register(a.0, a.1), false);
    var b' := Step(b, e);
    StepKeepsSane(b, e);
    RoutableIs(p);
    RegisteredPool(p, a.0, a.1, a);
    RoutableIs(b'.state.pool);
    NewMemberIsRoutable(p, a);
    assert Placed(Routable(p), b.clients).entries[id] == b.clients.entries[id];
    OffHomePlace(Routable(p), b.clients, id);
    OffHomePlace(Routable(b'.state.pool), b.clients, id);
    MisplacedIsStale(Routable(b'.state.pool), b'.clients, id);
  }

  lemma NewMemberIsRoutable(p: Pool, a: Address)
    requires PoolOk(p) && !InPool(p, a)
    ensures var p' := Registered(p, a.0, a.1).0;
      PoolOk(p') && InPool(p', a) && p'.objs[p'.members[Find(p', a).value]].Routable()
  {
    RegisteredPool(p, a.0, a.1, a);
    var (p', l) := Registered(p, a.0, a.1);
    SameMember(p', p'.members[Find(p', a).value], l.obj);
  }
}
