/** Sticky homes, failover and failback (ingress/lb.py, `_rebalance_clients`, `admin_set_down`). */
module Rebalance {
  import opened Base
  import opened BackendPool
  import opened Routing
  import opened ClientTable

  /** The addresses of the routable members, in pool order. */
  function Routable(p: Pool): (r: seq<Address>)
    requires PoolOk(p)
    ensures |r| == |RoutableMembers(p)|
    ensures forall i :: 0 <= i < |r| ==> RoutableMembers(p)[i] in p.members
    ensures forall i :: 0 <= i < |r| ==>
        p.objs[RoutableMembers(p)[i]].Routable() && r[i] == p.objs[RoutableMembers(p)[i]].Address()
  {
    var m := RoutableMembers(p);
    CandidatesAre(p, {}, |p.members|);
    assert p.members[..|p.members|] == p.members;
    assert forall i :: 0 <= i < |m| ==> m[i] in m;
    seq(|m|, i requires 0 <= i < |m| => p.objs[m[i]].Address())
  }

  /** They are distinct, and are the addresses of the healthy members not taken down. */
  lemma RoutableIs(p: Pool)
    requires PoolOk(p)
    ensures Distinct(Routable(p))
    ensures forall a :: a in Routable(p) <==> Find(p, a).Some? && p.objs[p.members[Find(p, a).value]].Routable()
  {
    var r, m := Routable(p), RoutableMembers(p);
    CandidatesDistinct(p, {}, |p.members|);
    CandidatesAre(p, {}, |p.members|);
    forall i, j | 0 <= i < j < |r| ensures r[i] != r[j] {
      if r[i] == r[j] {
        SameMember(p, m[i], m[j]);
      }
    }
    forall a ensures a in r <==> Find(p, a).Some? && p.objs[p.members[Find(p, a).value]].Routable() {
      if a in r {
        var i :| 0 <= i < |r| && r[i] == a;
        SameMember(p, m[i], p.members[Find(p, a).value]);
      }
      if Find(p, a).Some? && p.objs[p.members[Find(p, a).value]].Routable() {
        var o := p.members[Find(p, a).value];
        assert p.members[..|p.members|] == p.members;
        assert o in m;
        var i :| 0 <= i < |m| && m[i] == o;
        assert r[i] in r;
      }
    }
  }

  predicate AtHome(routable: seq<Address>, c: Client) {
    c.home.Some? && c.home.value in routable
  }

  predicate Displaces(routable: seq<Address>, c: Client) {
    c.active && !AtHome(routable, c)
  }

  /** The active clients whose home is not routable, in dict order. */
  function Displaced(routable: seq<Address>, order: seq<ClientId>, entries: map<ClientId, Client>): (d: seq<ClientId>)
    requires forall id :: id in order ==> id in entries
    ensures forall id :: id in d <==> id in order && Displaces(routable, entries[id])
    ensures Distinct(order) ==> Distinct(d)
  {
    if order == [] then []
    else
      var n := |order| - 1;
      var before := Displaced(routable, order[..n], entries);
      assert order == order[..n] + [order[n]];
      if Displaces(routable, entries[order[n]]) then before + [order[n]] else before
  }

  lemma DisplacedStep(routable: seq<Address>, order: seq<ClientId>, entries: map<ClientId, Client>, k: nat)
    requires k < |order| && forall id :: id in order ==> id in entries
    ensures Displaced(routable, order[..k + 1], entries)
         == Displaced(routable, order[..k], entries)
            + (if Displaces(routable, entries[order[k]]) then [order[k]] else [])
  {
    assert order[..k + 1][..k] == order[..k];
  }

  function SpreadTo(routable: seq<Address>, i: nat): Option<Address> {
    if routable == [] then None else Some(routable[i % |routable|])
  }

  /** An active client whose home is routable goes home; everyone else stays put. */
  function SentHome(routable: seq<Address>, c: Client): Client {
    if c.active && AtHome(routable, c) then c.(current := c.home) else c
  }

  /** `after` is `before` rebalanced: inactive clients untouched; every active client whose home is
      routable at home; the i-th displaced client on the i-th routable server, round and round. */
  ghost predicate IsRebalanced(routable: seq<Address>, before: Clients, after: Clients)
    requires ClientsOk(before)
  {
    && after.order == before.order && after.entries.Keys == before.entries.Keys
    && (forall id :: id in before.entries && !before.entries[id].active ==> after.entries[id] == before.entries[id])
    && (forall id :: id in before.entries && before.entries[id].active && AtHome(routable, before.entries[id]) ==>
          after.entries[id] == before.entries[id].(current := before.entries[id].home))
    && var d := Displaced(routable, before.order, before.entries);
       forall i :: 0 <= i < |d| ==> after.entries[d[i]] == before.entries[d[i]].(current := SpreadTo(routable, i))
  }

  /** The first loop of _rebalance_clients after the first k clients: they are sent home. */
  ghost predicate HomeUpTo(routable: seq<Address>, c: Clients, k: nat, entries: map<ClientId, Client>) {
    && ClientsOk(c) && k <= |c.order| && entries.Keys == c.entries.Keys
    && (forall j :: 0 <= j < |c.order| ==> c.order[j] in entries && c.order[j] in c.entries)
    && (forall j :: 0 <= j < |c.order| ==>
          entries[c.order[j]] == if j < k then SentHome(routable, c.entries[c.order[j]]) else c.entries[c.order[j]])
  }

  lemma HomeStep(routable: seq<Address>, c: Clients, k: nat, entries: map<ClientId, Client>)
    requires HomeUpTo(routable, c, k, entries) && k < |c.order|
    ensures HomeUpTo(routable, c, k + 1, entries[c.order[k] := SentHome(routable, c.entries[c.order[k]])])
  {
  }

  lemma HomeDone(routable: seq<Address>, c: Clients, entries: map<ClientId, Client>)
    requires HomeUpTo(routable, c, |c.order|, entries)
    ensures forall id :: id in c.entries ==> entries[id] == SentHome(routable, c.entries[id])
  {
    forall id | id in c.entries ensures entries[id] == SentHome(routable, c.entries[id]) {
      var j :| 0 <= j < |c.order| && c.order[j] == id;
    }
  }

  /** The first loop: send home whoever can go, collect the displaced. */
  method SendHome(routable: seq<Address>, clients: Clients)
      returns (entries: map<ClientId, Client>, displaced: seq<ClientId>)
    requires ClientsOk(clients)
    ensures displaced == Displaced(routable, clients.order, clients.entries)
    ensures entries.Keys == clients.entries.Keys
    ensures forall id :: id in clients.entries ==> entries[id] == SentHome(routable, clients.entries[id])
  {
    entries, displaced := clients.entries, [];
    var k := 0;
    while k < |clients.order|
      invariant 0 <= k <= |clients.order|
      invariant displaced == Displaced(routable, clients.order[..k], clients.entries)
      invariant HomeUpTo(routable, clients, k, entries)
    {
      var id := clients.order[k];
      var c := entries[id];
      DisplacedStep(routable, clients.order, clients.entries, k);
      HomeStep(routable, clients, k, entries);
      if c.active {
        if AtHome(routable, c) {
          entries := entries[id := c.(current := c.home)];
        } else {
          assert entries == entries[id := c];
          displaced := displaced + [id];
        }
      } else {
        assert entries == entries[id := c];
      }
      k := k + 1;
    }
    assert clients.order[..k] == clients.order;
    HomeDone(routable, clients, entries);
  }

  /** The second loop after i displaced clients. */
  ghost predicate SpreadUpTo(routable: seq<Address>, displaced: seq<ClientId>, sent: map<ClientId, Client>, i: nat,
                             entries: map<ClientId, Client>) {
    && entries.Keys == sent.Keys && i <= |displaced|
    && (forall id :: id in sent && id !in displaced ==> entries[id] == sent[id])
    && (forall j :: 0 <= j < |displaced| ==> displaced[j] in sent)
    && (forall j :: 0 <= j < |displaced| ==>
          entries[displaced[j]] ==
              if j < i then sent[displaced[j]].(current := SpreadTo(routable, j)) else sent[displaced[j]])
  }

  lemma SpreadStep(routable: seq<Address>, displaced: seq<ClientId>, sent: map<ClientId, Client>, i: nat,
                   entries: map<ClientId, Client>)
    requires Distinct(displaced) && i < |displaced| && SpreadUpTo(routable, displaced, sent, i, entries)
    ensures SpreadUpTo(routable, displaced, sent, i + 1,
                       entries[displaced[i] := entries[displaced[i]].(current := SpreadTo(routable, i))])
  {
  }

  /** The second loop: spread the displaced clients over the routable servers. */
  method Spread(routable: seq<Address>, displaced: seq<ClientId>, sent: map<ClientId, Client>)
      returns (entries: map<ClientId, Client>)
    requires Distinct(displaced) && forall id :: id in displaced ==> id in sent
    ensures SpreadUpTo(routable, displaced, sent, |displaced|, entries)
  {
    entries := sent;
    var i := 0;
    while i < |displaced|
      invariant SpreadUpTo(routable, displaced, sent, i, entries)
    {
      SpreadStep(routable, displaced, sent, i, entries);
      var current := if routable != [] then Some(routable[i % |routable|]) else None;
      entries := entries[displaced[i] := entries[displaced[i]].(current := current)];
      i := i + 1;
    }
  }

  /** _rebalance_clients over a list of routable addresses */
  method Rebalanced(routable: seq<Address>, clients: Clients) returns (after: Clients)
    requires ClientsOk(clients)
    ensures ClientsOk(after) && IsRebalanced(routable, clients, after)
  {
    var sent, displaced := SendHome(routable, clients);
    var entries := Spread(routable, displaced, sent);
    after := Clients(clients.order, entries);
    assert forall i :: 0 <= i < |displaced| ==> displaced[i] in displaced;
  }

  // ---- What rebalancing achieves --------------------------------------------------------------------

  /** Every active client is on a routable server, at home if that is one; with no routable server
      every active client is nowhere. */
  lemma EveryoneIsPlaced(routable: seq<Address>, before: Clients, after: Clients, id: ClientId)
    requires ClientsOk(before) && IsRebalanced(routable, before, after) && id in before.entries
        && before.entries[id].active
    ensures var c := after.entries[id];
      && c.active && c.home == before.entries[id].home
      && (AtHome(routable, c) ==> c.current == c.home)
      && (routable != [] ==> c.current.Some? && c.current.value in routable)
      && (routable == [] ==> c.current.None?)
  {
    if !AtHome(routable, before.entries[id]) {
      var d := Displaced(routable, before.order, before.entries);
      assert id in d;
      var i :| 0 <= i < |d| && d[i] == id;
    }
  }

  lemma {:induction false} DisplacedInOrder(routable: seq<Address>, order: seq<ClientId>,
                                            entries: map<ClientId, Client>, i: nat, j: nat)
    requires (forall id :: id in order ==> id in entries) && i < j < |Displaced(routable, order, entries)|
    ensures var d := Displaced(routable, order, entries); Before(order, d[i], d[j])
  {
    var init, last := order[..|order| - 1], order[|order| - 1];
    SplitLast(order);
    assert forall id :: id in init ==> id in order;
    var d := Displaced(routable, init, entries);
    if j < |d| {
      DisplacedInOrder(routable, init, entries, i, j);
    } else {
      assert d[i] in d && d[i] in init;
    }
    BeforeAppend(init, last, Displaced(routable, order, entries)[i], Displaced(routable, order, entries)[j]);
  }

  /** The displaced clients, in the order they stand in, are dealt out to the routable servers in theirs:
      the i-th to the server at i modulo their number. */
  lemma DisplacedAreDealt(routable: seq<Address>, before: Clients, after: Clients)
    requires ClientsOk(before) && IsRebalanced(routable, before, after)
    ensures var d := Displaced(routable, before.order, before.entries);
      && (forall id :: id in d <==> id in before.entries && before.entries[id].active
                                    && !(before.entries[id].home.Some? && before.entries[id].home.value in routable))
      && (forall i, j :: 0 <= i < j < |d| ==> Before(before.order, d[i], d[j]))
      && (forall i :: 0 <= i < |d| ==>
            after.entries[d[i]].current == if routable == [] then None else Some(routable[i % |routable|]))
  {
    var d := Displaced(routable, before.order, before.entries);
    forall i, j | 0 <= i < j < |d| ensures Before(before.order, d[i], d[j]) {
      DisplacedInOrder(routable, before.order, before.entries, i, j);
    }
  }

  /** The routable servers are listed in pool order. */
  lemma RoutableInPoolOrder(p: Pool) returns (places: seq<nat>)
    requires PoolOk(p)
    ensures |places| == |Routable(p)| && forall i, j :: 0 <= i < j < |places| ==> places[i] < places[j]
    ensures forall i :: 0 <= i < |places| ==>
        places[i] < |p.members| && Routable(p)[i] == p.objs[p.members[places[i]]].Address()
  {
    places := CandidatesInOrder(p, {}, |p.members|);
  }

  /** How many of the clients `ids` sit on server a. */
  function Load(entries: map<ClientId, Client>, ids: seq<ClientId>, a: Address): nat
    requires forall id :: id in ids ==> id in entries
  {
    if ids == [] then 0
    else
      assert forall id :: id in ids[..|ids| - 1] ==> id in ids;
      Load(entries, ids[..|ids| - 1], a) + (if entries[ids[|ids| - 1]].current == Some(a) then 1 else 0)
  }

  lemma {:induction false} LoadTakesTurns(routable: seq<Address>, entries: map<ClientId, Client>, ids: seq<ClientId>,
                                          j: nat)
    requires Distinct(routable) && j < |routable|
    requires forall i :: 0 <= i < |ids| ==> ids[i] in entries && entries[ids[i]].current == SpreadTo(routable, i)
    ensures Load(entries, ids, routable[j]) == Turns(0, |ids|, |routable|, j)
  {
    if ids != [] {
      var k := |ids| - 1;
      assert forall i :: 0 <= i < k ==> ids[..k][i] == ids[i];
      LoadTakesTurns(routable, entries, ids[..k], j);
    }
  }

  /** Failover is even: of the k displaced clients each of the n routable servers takes k/n rounded
      down or up, so no two servers' shares differ by more than one. */
  lemma FailoverIsEven(p: Pool, before: Clients, after: Clients, a: Address)
    requires PoolOk(p) && ClientsOk(before) && IsRebalanced(Routable(p), before, after) && a in Routable(p)
    ensures var d := Displaced(Routable(p), before.order, before.entries);
      FairShare(Load(after.entries, d, a), |d|, |Routable(p)|)
  {
    RoutableIs(p);
    var r := Routable(p);
    var d := Displaced(r, before.order, before.entries);
    var j :| 0 <= j < |r| && r[j] == a;
    assert forall i :: 0 <= i < |d| ==> d[i] in d;
    LoadTakesTurns(r, after.entries, d, j);
    TurnsAreFair(0, |d|, |r|, j);
  }

  /** Entries that agree on everything but where the client currently is. */
  ghost predicate SamePeople(a: Clients, b: Clients) {
    && a.order == b.order && a.entries.Keys == b.entries.Keys
    && forall id :: id in a.entries ==> a.entries[id].(current := None) == b.entries[id].(current := None)
  }

  lemma {:induction false} DisplacedByPeople(routable: seq<Address>, order: seq<ClientId>, a: map<ClientId, Client>,
                                             b: map<ClientId, Client>)
    requires forall id :: id in order ==> id in a && id in b && a[id].(current := None) == b[id].(current := None)
    ensures Displaced(routable, order, a) == Displaced(routable, order, b)
  {
    if order != [] {
      var n := |order| - 1;
      assert order[n] in order && forall id :: id in order[..n] ==> id in order;
      DisplacedByPeople(routable, order[..n], a, b);
      assert a[order[n]].active == a[order[n]].(current := None).active;
      assert a[order[n]].home == a[order[n]].(current := None).home;
    }
  }

  lemma RebalancedKeepsPeople(routable: seq<Address>, before: Clients, after: Clients)
    requires ClientsOk(before) && IsRebalanced(routable, before, after)
    ensures ClientsOk(after) && SamePeople(before, after)
  {
    var d := Displaced(routable, before.order, before.entries);
    forall id | id in before.entries
      ensures after.entries[id].(current := None) == before.entries[id].(current := None)
    {
      if id in d {
        var i :| 0 <= i < |d| && d[i] == id;
      }
    }
  }

  /** Placement is decided by the routable list and the people alone, wherever the clients were
      before: two rebalancings over the same list put every active client in the same place. */
  lemma PlacementIsDetermined(routable: seq<Address>, a: Clients, b: Clients, a': Clients, b': Clients, id: ClientId)
    requires ClientsOk(a) && ClientsOk(b) && SamePeople(a, b)
    requires IsRebalanced(routable, a, a') && IsRebalanced(routable, b, b')
    requires id in a.entries && a.entries[id].active
    ensures id in a'.entries && id in b'.entries && a'.entries[id].current == b'.entries[id].current
  {
    DisplacedByPeople(routable, a.order, a.entries, b.entries);
    assert a.entries[id].active == a.entries[id].(current := None).active == b.entries[id].(current := None).active;
    assert a.entries[id].home == a.entries[id].(current := None).home == b.entries[id].(current := None).home;
    var d := Displaced(routable, a.order, a.entries);
    if id in d {
      var i :| 0 <= i < |d| && d[i] == id;
    }
  }

  lemma SameButCurrent(a: Client, b: Client)
    requires a.(current := None) == b.(current := None) && a.current == b.current
    ensures a == b
  {
    assert a == a.(current := None).(current := a.current);
    assert b == b.(current := None).(current := b.current);
  }

  /** Rebalancing a rebalanced table changes nothing. */
  lemma RebalanceIsIdempotent(routable: seq<Address>, before: Clients, once: Clients, twice: Clients)
    requires ClientsOk(before) && IsRebalanced(routable, before, once)
    requires ClientsOk(once) && IsRebalanced(routable, once, twice)
    ensures twice == once
  {
    RebalancedKeepsPeople(routable, before, once);
    RebalancedKeepsPeople(routable, once, twice);
    forall id | id in once.entries ensures twice.entries[id] == once.entries[id] {
      assert before.entries[id].active == before.entries[id].(current := None).active
          == once.entries[id].(current := None).active;
      if once.entries[id].active {
        PlacementIsDetermined(routable, before, once, once, twice, id);
        SameButCurrent(once.entries[id], twice.entries[id]);
      }
    }
  }

  /** Failover and back: rebalanced over one list, then over any other, then over the first again,
      every active client is where it was. */
  lemma FailbackRestores(routable: seq<Address>, without: seq<Address>, before: Clients, steady: Clients,
                         failed: Clients, restored: Clients, id: ClientId)
    requires ClientsOk(before) && IsRebalanced(routable, before, steady)
    requires ClientsOk(steady) && IsRebalanced(without, steady, failed)
    requires ClientsOk(failed) && IsRebalanced(routable, failed, restored)
    requires id in before.entries && before.entries[id].active
    ensures id in restored.entries && id in steady.entries && restored.entries[id] == steady.entries[id]
  {
    RebalancedKeepsPeople(routable, before, steady);
    RebalancedKeepsPeople(without, steady, failed);
    RebalancedKeepsPeople(routable, failed, restored);
    assert SamePeople(before, failed);
    PlacementIsDetermined(routable, before, failed, steady, restored, id);
    SameButCurrent(restored.entries[id], steady.entries[id]);
  }

  lemma DownThenUp(p: Pool, a: Address)
    requires PoolOk(p) && InPool(p, a) && !p.objs[p.members[Find(p, a).value]].manualDown
    ensures WithManualDown(WithManualDown(p, a, true), a, false) == p
    ensures a !in Routable(WithManualDown(p, a, true))
  {
    var down := WithManualDown(p, a, true);
    var o := p.members[Find(p, a).value];
    FlagsKeepPool(p, down, a);
    SameMember(down, down.members[Find(down, a).value], o);
    RoutableIs(down);
  }

  /** An operator takes a server down and brings it up again (it was not down before): while it is
      down no active client is on it, and afterwards every active client is back where it was. */
  lemma DownThenUpRestoresPlacement(p: Pool, a: Address, before: Clients, steady: Clients, failed: Clients,
                                    restored: Clients, id: ClientId)
    requires PoolOk(p) && InPool(p, a) && !p.objs[p.members[Find(p, a).value]].manualDown
    requires ClientsOk(before) && IsRebalanced(Routable(p), before, steady)
    requires ClientsOk(steady) && IsRebalanced(Routable(WithManualDown(p, a, true)), steady, failed)
    requires ClientsOk(failed)
        && IsRebalanced(Routable(WithManualDown(WithManualDown(p, a, true), a, false)), failed, restored)
    requires id in before.entries && before.entries[id].active
    ensures id in failed.entries && failed.entries[id].current != Some(a)
    ensures id in restored.entries && id in steady.entries && restored.entries[id] == steady.entries[id]
  {
    DownThenUp(p, a);
    var without := Routable(WithManualDown(p, a, true));
    RebalancedKeepsPeople(Routable(p), before, steady);
    EveryoneIsPlaced(Routable(p), before, steady, id);
    EveryoneIsPlaced(without, steady, failed, id);
    FailbackRestores(Routable(p), without, before, steady, failed, restored, id);
  }
}
