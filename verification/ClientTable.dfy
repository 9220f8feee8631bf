/** The load balancer's table of clients (ingress/lb.py): `_remember_client`, `_drop_client`,
    `_migrate_client_state` and `admin_clear_clients`. */
module ClientTable {
  import opened Base

  type ClientId = string
  type Connection = nat
  datatype Client = Client(home: Option<Address>, current: Option<Address>, active: bool,
                           connection: Option<Connection>)

  /** The clients dict with its insertion order. */
  datatype Clients = Clients(order: seq<ClientId>, entries: map<ClientId, Client>)

  const NoClients := Clients([], map[])

  ghost predicate ClientsOk(c: Clients) {
    Distinct(c.order) && forall id :: id in c.order <==> id in c.entries
  }

  /** dict[id] = entry */
  function Filed(c: Clients, id: ClientId, entry: Client): Clients {
    Clients(if id in c.entries then c.order else c.order + [id], c.entries[id := entry])
  }

  function WithoutId(order: seq<ClientId>, id: ClientId): (r: seq<ClientId>)
    ensures forall x :: x in r <==> x in order && x != id
    ensures Distinct(order) ==> Distinct(r)
  {
    if order == [] then []
    else
      var n := |order| - 1;
      assert order == order[..n] + [order[n]];
      assert Distinct(order) ==> Distinct(order[..n]) && order[n] !in order[..n];
      var rest := WithoutId(order[..n], id);
      if order[n] == id then rest else rest + [order[n]]
  }

  /** _remember_client: the first backend becomes the home, every one the current. */
  function Remembered(c: Clients, id: ClientId, backend: Address, conn: Connection): Clients {
    var home := if id in c.entries && c.entries[id].home.Some? then c.entries[id].home else Some(backend);
    Filed(c, id, Client(home, Some(backend), true, Some(conn)))
  }

  /** _drop_client: a closing connection only deactivates an entry it still owns. */
  function Dropped(c: Clients, id: ClientId, conn: Connection): Clients {
    if id in c.entries && c.entries[id].connection == Some(conn)
    then c.(entries := c.entries[id := c.entries[id].(active := false)]) else c
  }

  /** _migrate_client_state: the entry moves to its new id, over whatever was there. */
  function Migrated(c: Clients, source: ClientId, target: ClientId): Clients {
    if source !in c.entries then c
    else Filed(Clients(WithoutId(c.order, source), c.entries - {source}), target, c.entries[source])
  }

  /** Rebalancing in general: only where clients currently are may change. */
  function Moved(c: Clients, to: map<ClientId, Option<Address>>): Clients {
    c.(entries := map id | id in c.entries :: if id in to then c.entries[id].(current := to[id]) else c.entries[id])
  }

  datatype Event =
    | Remember(id: ClientId, backend: Address, conn: Connection)
    | Drop(id: ClientId, conn: Connection)
    | Migrate(source: ClientId, target: ClientId)
    | Move(to: map<ClientId, Option<Address>>)
    | Clear

  function Step(c: Clients, e: Event): Clients {
    match e
    case Remember(id, b, conn) => Remembered(c, id, b, conn)
    case Drop(id, conn) => Dropped(c, id, conn)
    case Migrate(source, target) => Migrated(c, source, target)
    case Move(to) => Moved(c, to)
    case Clear => NoClients
  }

  function Run(es: seq<Event>): Clients {
    if es == [] then NoClients else Step(Run(es[..|es| - 1]), es[|es| - 1])
  }

  lemma RunSnoc(es: seq<Event>, e: Event)
    ensures Run(es + [e]) == Step(Run(es), e)
  {
    assert (es + [e])[..|es|] == es;
  }

  ghost predicate TableOk(c: Clients) {
    ClientsOk(c) && forall id :: id in c.entries ==> c.entries[id].connection.Some? && c.entries[id].home.Some?
  }

  lemma FiledKeepsTable(c: Clients, id: ClientId, entry: Client)
    requires TableOk(c) && entry.connection.Some? && entry.home.Some?
    ensures TableOk(Filed(c, id, entry))
  {
    assert id !in c.entries ==> id !in c.order;
  }

  lemma StepKeepsTable(c: Clients, e: Event)
    requires TableOk(c)
    ensures TableOk(Step(c, e))
  {
    match e
    case Remember(id, b, conn) =>
      FiledKeepsTable(c, id, Step(c, e).entries[id]);
    case Migrate(source, target) =>
      if source in c.entries {
        FiledKeepsTable(Clients(WithoutId(c.order, source), c.entries - {source}), target, c.entries[source]);
      }
    case _ =>
  }

  lemma {:induction false} RunKeepsTable(es: seq<Event>)
    ensures TableOk(Run(es))
  {
    if es != [] {
      RunKeepsTable(es[..|es| - 1]);
      StepKeepsTable(Run(es[..|es| - 1]), es[|es| - 1]);
    }
  }

  // ---- Which connection a client is active under ------------------------------------------------

  /** Where the entry made or renewed by a Remember stands after event e, if the claim of its
      connection still counts: migrations carry it along; a newer Remember, another entry landing
      on its id, the end of its own connection and a clearing end it. */
  function Next(c: Clients, place: Option<ClientId>, conn: Connection, e: Event): Option<ClientId> {
    match place
    case None => None
    case Some(id) =>
      match e
      case Remember(i, _, _) => if i == id then None else place
      case Drop(i, d) => if i == id && d == conn then None else place
      case Migrate(source, target) =>
        if source == id then Some(target) else if target == id && source in c.entries then None else place
      case Move(_) => place
      case Clear => None
  }

  /** The place of the claim made by event i, after the whole run. */
  function Place(es: seq<Event>, i: nat): Option<ClientId>
    requires i < |es| && es[i].Remember?
  {
    if i == |es| - 1 then Some(es[i].id)
    else Next(Run(es[..|es| - 1]), Place(es[..|es| - 1], i), es[i].conn, es[|es| - 1])
  }

  ghost predicate ClaimsBy(es: seq<Event>, id: ClientId, conn: Connection, i: nat) {
    i < |es| && es[i].Remember? && es[i].conn == conn && Place(es, i) == Some(id)
  }

  /** Some Remember of the connection still counts for the client. */
  ghost predicate Claims(es: seq<Event>, id: ClientId, conn: Connection) {
    exists i: nat :: ClaimsBy(es, id, conn, i)
  }

  predicate ActiveUnder(c: Clients, id: ClientId, conn: Connection) {
    id in c.entries && c.entries[id].active && c.entries[id].connection == Some(conn)
  }

  /** The claims after one more event: those carried along, and that of the event itself. */
  lemma ClaimsStep(es: seq<Event>, e: Event, id: ClientId, conn: Connection)
    ensures Claims(es + [e], id, conn) <==>
            (e.Remember? && e.id == id && e.conn == conn) ||
            exists p :: Claims(es, p, conn) && Next(Run(es), Some(p), conn, e) == Some(id)
  {
    var es' := es + [e];
    assert es'[..|es|] == es;
    forall i: nat | i < |es| && es[i].Remember?
      ensures Place(es', i) == Next(Run(es), Place(es, i), es[i].conn, e)
    {
    }
    if e.Remember? && e.id == id && e.conn == conn {
      assert ClaimsBy(es', id, conn, |es|);
    }
    if p :| Claims(es, p, conn) && Next(Run(es), Some(p), conn, e) == Some(id) {
      var i: nat :| ClaimsBy(es, p, conn, i);
      assert ClaimsBy(es', id, conn, i);
    }
    if Claims(es', id, conn) {
      var i: nat :| ClaimsBy(es', id, conn, i);
      if i < |es| {
        assert ClaimsBy(es, Place(es, i).value, conn, i);
      }
    }
  }

  /** One event keeps "active under a connection exactly if the connection claims it". */
  lemma ActiveStep(c: Clients, e: Event, id: ClientId, conn: Connection, claimed: iset<ClientId>)
    requires forall p :: ActiveUnder(c, p, conn) <==> p in claimed
    ensures ActiveUnder(Step(c, e), id, conn) <==>
            (e.Remember? && e.id == id && e.conn == conn) ||
            exists p :: p in claimed && Next(c, Some(p), conn, e) == Some(id)
  {
    if e.Migrate? && e.target == id {
      assert e.source in claimed ==> Next(c, Some(e.source), conn, e) == Some(id);
    } else if id in claimed {
      assert !e.Remember? && !e.Migrate? && !e.Clear? ==>
          (Next(c, Some(id), conn, e) == Some(id) <==> e != Drop(id, conn));
    }
  }

  /** In every run a client is active under a connection if and only if some Remember of that
      connection still counts for it: followed through migrations, it was not renewed by a later
      Remember, overwritten by another entry landing on its id, ended by its own connection, or
      cleared.  The late end of an older connection never deactivates a newer one. */
  lemma {:induction false} ActiveIffNewestConnectionOpen(es: seq<Event>, id: ClientId, conn: Connection)
    ensures ActiveUnder(Run(es), id, conn) <==> Claims(es, id, conn)
  {
    if es != [] {
      var init, e := es[..|es| - 1], es[|es| - 1];
      var claimed := iset p | Claims(init, p, conn);
      forall p ensures ActiveUnder(Run(init), p, conn) <==> p in claimed {
        ActiveIffNewestConnectionOpen(init, p, conn);
      }
      ActiveStep(Run(init), e, id, conn, claimed);
      SplitLast(es);
      ClaimsStep(init, e, id, conn);
    }
  }

  // ---- A client's home -----------------------------------------------------------------------------

  ghost predicate HomeIs(c: Clients, id: ClientId, home: Address) {
    id in c.entries && c.entries[id].home == Some(home)
  }

  /** The event takes the home away: the table is cleared, the entry leaves for another id, or an
      entry of another home lands on the id. */
  predicate Unhouses(c: Clients, e: Event, id: ClientId, home: Address) {
    match e
    case Clear => true
    case Migrate(source, target) =>
      (source == id && target != id) || (target == id && source in c.entries && c.entries[source].home != Some(home))
    case _ => false
  }

  lemma HomeStep(c: Clients, e: Event, id: ClientId, home: Address)
    requires HomeIs(c, id, home)
    ensures HomeIs(Step(c, e), id, home) <==> !Unhouses(c, e, id, home)
  {
    if e.Migrate? && e.source == id && e.target != id {
      assert id !in Step(c, e).entries;
    }
  }

  /** At every moment since event i the client it remembers has that event's backend as its home. */
  ghost predicate Housed(es: seq<Event>, i: nat)
    requires i < |es| && es[i].Remember?
  {
    HomeIs(Run(es), es[i].id, es[i].backend) && (i == |es| - 1 || Housed(es[..|es| - 1], i))
  }

  /** No event since event i took that home away. */
  ghost predicate NeverUnhoused(es: seq<Event>, i: nat)
    requires i < |es| && es[i].Remember?
  {
    var n := |es| - 1;
    i == n || (NeverUnhoused(es[..n], i) && !Unhouses(Run(es[..n]), es[n], es[i].id, es[i].backend))
  }

  /** A client that was unknown before event i has that event's backend as its home from then on,
      at every moment, if and only if no later event takes it away: no clearing, no migration of the
      entry to another id, no migration of an entry with another home onto it.  Routing the client
      elsewhere, drops and rebalancing never change a home. */
  lemma {:induction false} HomeSurvivesIff(es: seq<Event>, i: nat)
    requires i < |es| && es[i].Remember? && es[i].id !in Run(es[..i]).entries
    ensures Housed(es, i) <==> NeverUnhoused(es, i)
  {
    var n := |es| - 1;
    if i < n {
      assert es[..n][..i] == es[..i];
      HomeSurvivesIff(es[..n], i);
      if HomeIs(Run(es[..n]), es[i].id, es[i].backend) {
        HomeStep(Run(es[..n]), es[n], es[i].id, es[i].backend);
      }
    }
  }

  /** It does happen: a user logs in through one server, disconnects, and logs in again from
      another port, where the rotation picks another server: the user's home moves there. */
  lemma SecondLoginMovesHome(user: ClientId, peer: ClientId, peer': ClientId, first: Address, second: Address)
      returns (es: seq<Event>)
    requires user != peer && user != peer' && peer != peer'
    ensures |es| == 6 && es[2] == Remember(user, first, 1)
    ensures HomeIs(Run(es[..3]), user, first) && HomeIs(Run(es), user, second)
  {
    var login := [] + [Remember(peer, first, 1)] + [Migrate(peer, user)] + [Remember(user, first, 1)];
    RunSnoc([], Remember(peer, first, 1));
    RunSnoc([] + [Remember(peer, first, 1)], Migrate(peer, user));
    RunSnoc([] + [Remember(peer, first, 1)] + [Migrate(peer, user)], Remember(user, first, 1));
    es := login + [Drop(user, 1)] + [Remember(peer', second, 2)] + [Migrate(peer', user)];
    RunSnoc(login, Drop(user, 1));
    RunSnoc(login + [Drop(user, 1)], Remember(peer', second, 2));
    RunSnoc(login + [Drop(user, 1)] + [Remember(peer', second, 2)], Migrate(peer', user));
    assert es[..3] == login;
  }

  // ---- Where a client is, and in which order clients stand -------------------------------------------------

  /** Where the client is, as the events say: on the server it was last routed to, unless it was moved since;
      a migration takes the place along. */
  function CurrentOf(es: seq<Event>, id: ClientId): Option<Option<Address>> {
    if es == [] then None
    else
      var init := es[..|es| - 1];
      match es[|es| - 1]
      case Remember(i, backend, _) => if i == id then Some(Some(backend)) else CurrentOf(init, id)
      case Drop(_, _) => CurrentOf(init, id)
      case Migrate(source, target) =>
        if CurrentOf(init, source).None? then CurrentOf(init, id)
        else if target == id then CurrentOf(init, source)
        else if source == id then None
        else CurrentOf(init, id)
      case Move(to) =>
        if CurrentOf(init, id).Some? && id in to then Some(to[id]) else CurrentOf(init, id)
      case Clear => None
  }

  /** In every run the table knows exactly those clients, and has them there. */
  lemma {:induction false} CurrentIsNewestRoute(es: seq<Event>, id: ClientId)
    ensures var c := Run(es);
      && (id in c.entries <==> CurrentOf(es, id).Some?)
      && (id in c.entries ==> c.entries[id].current == CurrentOf(es, id).value)
  {
    if es != [] {
      var init, e := es[..|es| - 1], es[|es| - 1];
      CurrentIsNewestRoute(init, id);
      if e.Migrate? {
        CurrentIsNewestRoute(init, e.source);
      }
    }
  }

  /** `x` comes before `y`. */
  ghost predicate Before(order: seq<ClientId>, x: ClientId, y: ClientId) {
    exists i, j :: 0 <= i < j < |order| && order[i] == x && order[j] == y
  }

  lemma {:induction false} WithoutKeepsOrder(order: seq<ClientId>, id: ClientId, x: ClientId, y: ClientId)
    requires x != id && y != id
    ensures Before(WithoutId(order, id), x, y) <==> Before(order, x, y)
  {
    if order != [] {
      var init, last := order[..|order| - 1], order[|order| - 1];
      WithoutKeepsOrder(init, id, x, y);
      SplitLast(order);
      BeforeAppend(init, last, x, y);
      BeforeAppend(WithoutId(init, id), last, x, y);
    }
  }

  lemma BeforeAppend(order: seq<ClientId>, last: ClientId, x: ClientId, y: ClientId)
    ensures Before(order + [last], x, y) <==> Before(order, x, y) || (y == last && x in order)
  {
    var all := order + [last];
    if Before(order, x, y) {
      var i, j :| 0 <= i < j < |order| && order[i] == x && order[j] == y;
      assert all[i] == x && all[j] == y;
    }
    if y == last && x in order {
      var i :| 0 <= i < |order| && order[i] == x;
      assert all[i] == x && all[|order|] == y;
    }
  }

  /** Clients stand in the order they came in: an event keeps the order of those that stay, and puts a new
      one last. */
  lemma OrderIsByArrival(c: Clients, e: Event, x: ClientId, y: ClientId)
    requires ClientsOk(c) && x in Step(c, e).entries && y in Step(c, e).entries
    requires x in c.entries && x != y && (e.Migrate? ==> x != e.source && y != e.source)
    ensures Before(Step(c, e).order, x, y) <==> (if y in c.entries then Before(c.order, x, y) else true)
  {
    match e
    case Remember(id, _, _) => BeforeAppend(c.order, id, x, y);
    case Migrate(source, target) =>
      if source in c.entries {
        var rest := WithoutId(c.order, source);
        WithoutKeepsOrder(c.order, source, x, y);
        BeforeAppend(rest, target, x, y);
      }
    case _ =>
  }
}
