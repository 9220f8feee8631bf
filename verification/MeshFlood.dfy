/** The relay flood of node/mesh.py as a step system over the whole mesh.

    A state holds every node's query history (its DedupCache is `After(maxSize, history)`)
    and, per message id, the RELAY frames in flight, the local deliveries made and the
    numbers of frames written and read.  One step is one `relay_message` call or one RELAY
    frame taken by a read loop.  Frames in flight may be taken in any order, which covers
    every interleaving of the read loops and of the single writes inside `_flood`. */
module MeshFlood {
  import opened Base
  import opened DedupCaches

  type Node = string
  /** Who a node holds a registered peer link to. */
  type Graph = map<Node, set<Node>>
  /** A RELAY frame on its way from one node to another. */
  datatype Hop = Hop(src: Node, dst: Node)

  datatype Event =
    | Originate(node: Node, id: Id)
    | Receive(id: Id, hop: Hop)

  datatype Flood = Flood(flight: multiset<Hop>, delivered: multiset<Node>, written: nat, read: nat)
  datatype Mesh = Mesh(history: map<Node, seq<Id>>, floods: map<Id, Flood>)

  const NoFlood := Flood(multiset{}, multiset{}, 0, 0)

  function Peers(g: Graph, n: Node): set<Node> {
    if n in g then g[n] else {}
  }

  function History(s: Mesh, n: Node): seq<Id> {
    if n in s.history then s.history[n] else []
  }

  function FloodOf(s: Mesh, id: Id): Flood {
    if id in s.floods then s.floods[id] else NoFlood
  }

  /** The frames one `_flood` call writes: one to every peer in the list. */
  function Fan(src: Node, peers: set<Node>): multiset<Hop> {
    multiset(set p | p in peers :: Hop(src, p))
  }

  function Start(g: Graph, origin: Node): Flood {
    Flood(Fan(origin, Peers(g, origin)), multiset{}, |Peers(g, origin)|, 0)
  }

  /** A read loop takes a frame and drops it. */
  function Take(f: Flood, hop: Hop): Flood {
    f.(flight := f.flight - multiset{hop}, read := f.read + 1)
  }

  /** A read loop takes a frame, delivers it locally and floods it to everyone but the sender. */
  function Accept(g: Graph, f: Flood, hop: Hop): Flood {
    var onward := Peers(g, hop.dst) - {hop.src};
    Flood(f.flight - multiset{hop} + Fan(hop.dst, onward), f.delivered + multiset{hop.dst},
          f.written + |onward|, f.read + 1)
  }

  predicate Cached(maxSize: int, s: Mesh, n: Node, id: Id) {
    id in After(maxSize, History(s, n))
  }

  predicate CanHappen(s: Mesh, e: Event) {
    match e
    case Originate(n, id) => id !in s.floods   // message ids are fresh UUIDs
    case Receive(id, hop) => hop in FloodOf(s, id).flight
  }

  /** One event; an event that cannot happen changes nothing. */
  function Step(g: Graph, maxSize: int, s: Mesh, e: Event): Mesh {
    if !CanHappen(s, e) then s
    else
      match e
      case Originate(n, id) =>
        Mesh(s.history[n := History(s, n) + [id]], s.floods[id := Start(g, n)])
      case Receive(id, hop) =>
        var f := FloodOf(s, id);
        Mesh(s.history[hop.dst := History(s, hop.dst) + [id]],
             s.floods[id := if Cached(maxSize, s, hop.dst, id) then Take(f, hop) else Accept(g, f, hop)])
  }

  /** The state after any schedule, from a mesh that has not relayed anything yet. */
  function Run(g: Graph, maxSize: int, es: seq<Event>): Mesh {
    if es == [] then Mesh(map[], map[])
    else Step(g, maxSize, Run(g, maxSize, es[..|es| - 1]), es[|es| - 1])
  }

  /** Nodes that ever recorded the id: the origin and every node that took a frame of it. */
  ghost function Handled(s: Mesh, id: Id): set<Node> {
    set n | n in s.history && id in s.history[n]
  }

  // ---- Reachability and degrees -------------------------------------------------------

  ghost predicate Path(g: Graph, p: seq<Node>) {
    p != [] && forall i :: 0 < i < |p| ==> p[i] in Peers(g, p[i - 1])
  }

  ghost predicate Reachable(g: Graph, a: Node, b: Node) {
    exists p :: Path(g, p) && p[0] == a && p[|p| - 1] == b
  }

  lemma ReachableStep(g: Graph, a: Node, b: Node, c: Node)
    requires Reachable(g, a, b) && c in Peers(g, b)
    ensures Reachable(g, a, c)
  {
    var p :| Path(g, p) && p[0] == a && p[|p| - 1] == b;
    var q := p + [c];
    assert Path(g, q) && q[0] == a && q[|q| - 1] == c;
  }

  lemma ReachableSelf(g: Graph, a: Node)
    ensures Reachable(g, a, a)
  {
    assert Path(g, [a]) && [a][0] == a;
  }

  /** A set closed under peers contains everything reachable from it. */
  lemma {:induction false} ClosedContainsPath(g: Graph, h: set<Node>, p: seq<Node>)
    requires Path(g, p) && p[0] in h
    requires forall n, m :: n in h && m in Peers(g, n) ==> m in h
    ensures p[|p| - 1] in h
  {
    if |p| > 1 {
      var init := p[..|p| - 1];
      ClosedContainsPath(g, h, init);
      assert p[|p| - 1] in Peers(g, init[|init| - 1]);
    }
  }

  /** Peer links are TCP connections: both ends hold one. */
  ghost predicate Symmetric(g: Graph) {
    forall n, m :: n in g && m in g[n] ==> m in g && n in g[m]
  }

  ghost function SumDegrees(g: Graph, h: set<Node>): nat {
    if h == {} then 0
    else
      var n :| n in h;
      |Peers(g, n)| + SumDegrees(g, h - {n})
  }

  lemma Exchange(h: set<Node>, n: Node, m: Node)
    requires n !in h && m in h
    ensures (h + {n}) - {m} == (h - {m}) + {n} && (h - {m}) + {m} == h
  {
  }

  lemma {:induction false} SumDegreesAdd(g: Graph, h: set<Node>, n: Node)
    requires n !in h
    ensures SumDegrees(g, h + {n}) == SumDegrees(g, h) + |Peers(g, n)|
    decreases |h|
  {
    var all := h + {n};
    var m :| m in all && SumDegrees(g, all) == |Peers(g, m)| + SumDegrees(g, all - {m});
    if m == n {
      assert all - {m} == h;
    } else {
      SumDegreesAdd(g, h - {m}, n);
      SumDegreesAdd(g, h - {m}, m);
      Exchange(h, n, m);
    }
  }

  lemma {:induction false} SumDegreesMonotone(g: Graph, h: set<Node>, k: set<Node>)
    requires h <= k
    ensures SumDegrees(g, h) <= SumDegrees(g, k)
    decreases |k - h|
  {
    if h != k {
      assert k - h != {} by { assert k == h + (k - h); }
      var n :| n in k - h;
      SumDegreesAdd(g, h, n);
      assert |k - (h + {n})| < |k - h| by { assert k - (h + {n}) == (k - h) - {n}; }
      SumDegreesMonotone(g, h + {n}, k);
    }
  }

  lemma OneMore(k: nat, d: nat)
    ensures (k + 1) * d == k * d + d
  {
  }

  lemma {:induction false} SumDegreesUniform(g: Graph, h: set<Node>, d: nat)
    requires forall n :: n in h ==> |Peers(g, n)| == d
    ensures SumDegrees(g, h) == |h| * d
  {
    if h != {} {
      var n :| n in h && SumDegrees(g, h) == |Peers(g, n)| + SumDegrees(g, h - {n});
      SumDegreesUniform(g, h - {n}, d);
      OneMore(|h - {n}|, d);
    }
  }

  lemma {:induction false} FanSize(src: Node, peers: set<Node>)
    ensures |Fan(src, peers)| == |peers|
    ensures forall hop :: hop in Fan(src, peers) <==> hop.src == src && hop.dst in peers
  {
    var hops := set p | p in peers :: Hop(src, p);
    if peers != {} {
      var p :| p in peers;
      FanSize(src, peers - {p});
      var rest := set q | q in peers - {p} :: Hop(src, q);
      assert hops == rest + {Hop(src, p)};
      assert Hop(src, p) !in rest;
    }
  }

  // ---- One flood ------------------------------------------------------------------------

  /** What every step of a flood keeps: only reachable nodes handle it; a frame in flight comes
      from a node that handled it and goes to one of its peers; every peer of a handling node
      has handled it too or has a frame coming; every handling node but the origin delivered
      exactly once. */
  ghost predicate Spreads(g: Graph, origin: Node, h: set<Node>, f: Flood) {
    && origin in h
    && (forall n :: n in h ==> Reachable(g, origin, n))
    && (forall hop :: hop in f.flight ==> hop.src in h && hop.dst in Peers(g, hop.src))
    && (forall n, m :: n in h && m in Peers(g, n) ==> m in h || Hop(n, m) in f.flight)
    && f.delivered == multiset(h - {origin})
  }

  /** The frame account: what was written was read or is in flight, and every handling node
      wrote one frame per peer, less the one it got the message from. */
  ghost predicate Accounts(g: Graph, h: set<Node>, f: Flood) {
    && f.written == f.read + |f.flight|
    && SumDegrees(g, h) - (|h| - 1) <= f.written <= SumDegrees(g, h)
    && (Symmetric(g) ==> f.written == SumDegrees(g, h) - (|h| - 1))
  }

  lemma StartSpreads(g: Graph, origin: Node)
    ensures Spreads(g, origin, {origin}, Start(g, origin)) && Accounts(g, {origin}, Start(g, origin))
  {
    FanSize(origin, Peers(g, origin));
    ReachableSelf(g, origin);
    assert {origin} - {origin} == {};
    SumDegreesAdd(g, {}, origin);
    assert {} + {origin} == {origin};
  }

  lemma TakeSpreads(g: Graph, origin: Node, h: set<Node>, f: Flood, hop: Hop)
    requires Spreads(g, origin, h, f) && Accounts(g, h, f) && hop in f.flight && hop.dst in h
    ensures Spreads(g, origin, h, Take(f, hop)) && Accounts(g, h, Take(f, hop))
  {
  }

  lemma AcceptSpreads(g: Graph, origin: Node, h: set<Node>, f: Flood, hop: Hop)
    requires Spreads(g, origin, h, f) && hop in f.flight && hop.dst !in h
    ensures Spreads(g, origin, h + {hop.dst}, Accept(g, f, hop))
  {
    ReachableStep(g, origin, hop.src, hop.dst);
    AcceptDelivers(origin, h, hop.dst);
    forall other | other in Accept(g, f, hop).flight
      ensures other.src in h + {hop.dst} && other.dst in Peers(g, other.src)
    {
      AcceptComesFrom(g, f, hop, other);
    }
    forall n, m | n in h + {hop.dst} && m in Peers(g, n)
      ensures m in h + {hop.dst} || Hop(n, m) in Accept(g, f, hop).flight
    {
      AcceptCovers(g, origin, h, f, hop, n, m);
    }
  }

  lemma AcceptDelivers(origin: Node, h: set<Node>, n: Node)
    requires origin in h && n !in h
    ensures multiset(h + {n} - {origin}) == multiset(h - {origin}) + multiset{n}
  {
    assert h + {n} - {origin} == (h - {origin}) + {n};
  }

  lemma AcceptComesFrom(g: Graph, f: Flood, hop: Hop, other: Hop)
    requires hop in f.flight && other in Accept(g, f, hop).flight
    ensures other in f.flight || (other.src == hop.dst && other.dst in Peers(g, hop.dst))
  {
    FanSize(hop.dst, Peers(g, hop.dst) - {hop.src});
  }

  lemma AcceptCovers(g: Graph, origin: Node, h: set<Node>, f: Flood, hop: Hop, n: Node, m: Node)
    requires Spreads(g, origin, h, f) && hop in f.flight && hop.dst !in h
    requires n in h + {hop.dst} && m in Peers(g, n)
    ensures m in h + {hop.dst} || Hop(n, m) in Accept(g, f, hop).flight
  {
    var onward := Peers(g, hop.dst) - {hop.src};
    FanSize(hop.dst, onward);
    if n == hop.dst {
      assert m in onward ==> Hop(n, m) in Fan(hop.dst, onward);
    }
  }

  lemma AcceptAccounts(g: Graph, h: set<Node>, f: Flood, hop: Hop)
    requires Accounts(g, h, f) && hop in f.flight && hop.dst !in h
    requires hop.src in h && hop.dst in Peers(g, hop.src)
    ensures Accounts(g, h + {hop.dst}, Accept(g, f, hop))
  {
    var peers := Peers(g, hop.dst);
    var onward := peers - {hop.src};
    FanSize(hop.dst, onward);
    SumDegreesAdd(g, h, hop.dst);
    assert |Accept(g, f, hop).flight| == |f.flight| - 1 + |onward|;
    assert |onward| == |peers| - if hop.src in peers then 1 else 0;
    assert Symmetric(g) ==> hop.src in peers;
    assert |h + {hop.dst}| == |h| + 1;
  }

  // ---- All floods at once ----------------------------------------------------------------

  /** The node that originated `id`, if any did. */
  function OriginOf(es: seq<Event>, id: Id): Option<Node> {
    if es == [] then None
    else
      var before := OriginOf(es[..|es| - 1], id);
      match es[|es| - 1]
      case Originate(n, i) => if before.None? && i == id then Some(n) else before
      case Receive(_, _) => before
  }

  /** No cache forgot `id` too early: whenever a frame of it reached a node that had recorded
      it, the node's cache still held it. */
  ghost predicate Retains(g: Graph, maxSize: int, es: seq<Event>, id: Id) {
    es == [] ||
    (var s := Run(g, maxSize, es[..|es| - 1]);
     && Retains(g, maxSize, es[..|es| - 1], id)
     && RetainsNow(maxSize, s, es[|es| - 1], id))
  }

  ghost predicate RetainsNow(maxSize: int, s: Mesh, e: Event, id: Id) {
    (e.Receive? && e.id == id && CanHappen(s, e) && e.hop.dst in Handled(s, id)) ==>
      Cached(maxSize, s, e.hop.dst, id)
  }

  ghost predicate Untouched(s: Mesh, id: Id) {
    id !in s.floods && Handled(s, id) == {}
  }

  lemma StepHandled(g: Graph, maxSize: int, s: Mesh, e: Event, id: Id)
    ensures var s' := Step(g, maxSize, s, e);
      Handled(s', id) == Handled(s, id) + (if !CanHappen(s, e) || e.id != id then {}
                                           else if e.Originate? then {e.node} else {e.hop.dst})
  {
    var s' := Step(g, maxSize, s, e);
    if CanHappen(s, e) {
      var n := if e.Originate? then e.node else e.hop.dst;
      assert s'.history == s.history[n := History(s, n) + [e.id]];
      forall m ensures m in Handled(s', id) <==> m in Handled(s, id) || (m == n && e.id == id) {
      }
    }
  }

  lemma CachedImpliesHandled(maxSize: int, s: Mesh, n: Node, id: Id)
    requires Cached(maxSize, s, n, id)
    ensures n in Handled(s, id)
  {
    LruExact(maxSize, History(s, n), id);
  }

  ghost predicate FloodOk(g: Graph, s: Mesh, id: Id, origin: Option<Node>) {
    match origin
    case None => Untouched(s, id)
    case Some(o) =>
      && id in s.floods && Spreads(g, o, Handled(s, id), FloodOf(s, id))
      && Accounts(g, Handled(s, id), FloodOf(s, id))
  }

  lemma ReceiveKeepsFlood(g: Graph, maxSize: int, s: Mesh, id: Id, hop: Hop, origin: Option<Node>)
    requires FloodOk(g, s, id, origin) && RetainsNow(maxSize, s, Receive(id, hop), id)
    requires CanHappen(s, Receive(id, hop))
    ensures FloodOk(g, Step(g, maxSize, s, Receive(id, hop)), id, origin)
  {
    var h := Handled(s, id);
    var f := FloodOf(s, id);
    StepHandled(g, maxSize, s, Receive(id, hop), id);
    if Cached(maxSize, s, hop.dst, id) {
      CachedImpliesHandled(maxSize, s, hop.dst, id);
      TakeSpreads(g, origin.value, h, f, hop);
      assert h + {hop.dst} == h;
    } else {
      AcceptSpreads(g, origin.value, h, f, hop);
      AcceptAccounts(g, h, f, hop);
    }
  }

  lemma StepKeepsFlood(g: Graph, maxSize: int, s: Mesh, e: Event, id: Id, origin: Option<Node>)
    requires FloodOk(g, s, id, origin) && RetainsNow(maxSize, s, e, id)
    ensures FloodOk(g, Step(g, maxSize, s, e), id,
                    if e.Originate? && origin.None? && e.id == id then Some(e.node) else origin)
  {
    StepHandled(g, maxSize, s, e, id);
    if CanHappen(s, e) && e.id == id {
      match e
      case Originate(o, _) => StartSpreads(g, o);
      case Receive(_, hop) => ReceiveKeepsFlood(g, maxSize, s, id, hop, origin);
    }
  }

  /** Along every schedule, for every id that no cache forgot too early. */
  lemma {:induction false} FloodInvariant(g: Graph, maxSize: int, es: seq<Event>, id: Id)
    requires Retains(g, maxSize, es, id)
    ensures FloodOk(g, Run(g, maxSize, es), id, OriginOf(es, id))
  {
    if es != [] {
      var n := |es| - 1;
      FloodInvariant(g, maxSize, es[..n], id);
      StepKeepsFlood(g, maxSize, Run(g, maxSize, es[..n]), es[n], id, OriginOf(es[..n], id));
    } else {
      assert Handled(Run(g, maxSize, es), id) == {};
    }
  }

  // ---- Main results ------------------------------------------------------------------------

  /** Delivery: once no frame of `id` is in flight, every node reachable from the origin has
      delivered it exactly once, the origin never has, and nobody else has. */
  lemma DeliveredExactlyOnce(g: Graph, maxSize: int, es: seq<Event>, id: Id, origin: Node, n: Node)
    requires Retains(g, maxSize, es, id) && OriginOf(es, id) == Some(origin)
    requires FloodOf(Run(g, maxSize, es), id).flight == multiset{}
    ensures FloodOf(Run(g, maxSize, es), id).delivered[n] ==
            if n != origin && Reachable(g, origin, n) then 1 else 0
  {
    var s := Run(g, maxSize, es);
    FloodInvariant(g, maxSize, es, id);
    if Reachable(g, origin, n) {
      var p :| Path(g, p) && p[0] == origin && p[|p| - 1] == n;
      ClosedContainsPath(g, Handled(s, id), p);
    }
  }

  /** Safety at every moment, and exactly when it holds: no node delivers `id` twice and its
      origin never does if and only if no cache forgot the id too early. */
  lemma {:induction false} AtMostOnceIffRetained(g: Graph, maxSize: int, es: seq<Event>, id: Id, origin: Node)
    requires OriginOf(es, id) == Some(origin)
    ensures Retains(g, maxSize, es, id) <==>
            var d := FloodOf(Run(g, maxSize, es), id).delivered;
            d[origin] == 0 && !Twice(d)
  {
    if Retains(g, maxSize, es, id) {
      FloodInvariant(g, maxSize, es, id);
    } else {
      ForgottenIsRedelivered(g, maxSize, es, id);
    }
  }

  /** Deliveries are never taken back. */
  lemma DeliveredGrows(g: Graph, maxSize: int, s: Mesh, e: Event, id: Id, n: Node)
    ensures FloodOf(s, id).delivered[n] <= FloodOf(Step(g, maxSize, s, e), id).delivered[n]
  {
  }

  /** Somebody delivered twice. */
  ghost predicate Twice(delivered: multiset<Node>) {
    exists n :: delivered[n] > 1
  }

  /** The event that forgets: a node that handled the id takes a frame of it as new. */
  lemma ForgettingRedelivers(g: Graph, maxSize: int, s: Mesh, e: Event, id: Id, origin: Option<Node>)
    requires FloodOk(g, s, id, origin) && !RetainsNow(maxSize, s, e, id)
    ensures origin.Some?
    ensures var d := FloodOf(Step(g, maxSize, s, e), id).delivered; d[origin.value] > 0 || Twice(d)
  {
    var k := e.hop.dst;
    assert k in Handled(s, id);
    var d := FloodOf(Step(g, maxSize, s, e), id).delivered;
    assert d == FloodOf(s, id).delivered + multiset{k};
    assert d[k] > 0 && (k != origin.value ==> d[k] > 1);
  }

  lemma RedeliveredStays(g: Graph, maxSize: int, s: Mesh, e: Event, id: Id, origin: Node)
    requires var d := FloodOf(s, id).delivered; d[origin] > 0 || Twice(d)
    ensures var d := FloodOf(Step(g, maxSize, s, e), id).delivered; d[origin] > 0 || Twice(d)
  {
    var d := FloodOf(s, id).delivered;
    DeliveredGrows(g, maxSize, s, e, id, origin);
    if d[origin] == 0 {
      var m :| d[m] > 1;
      DeliveredGrows(g, maxSize, s, e, id, m);
    }
  }

  lemma {:induction false} ForgottenIsRedelivered(g: Graph, maxSize: int, es: seq<Event>, id: Id)
    requires !Retains(g, maxSize, es, id)
    ensures OriginOf(es, id).Some?
    ensures var d := FloodOf(Run(g, maxSize, es), id).delivered; d[OriginOf(es, id).value] > 0 || Twice(d)
  {
    var init, e := es[..|es| - 1], es[|es| - 1];
    if Retains(g, maxSize, init, id) {
      FloodInvariant(g, maxSize, init, id);
      ForgettingRedelivers(g, maxSize, Run(g, maxSize, init), e, id, OriginOf(init, id));
    } else {
      ForgottenIsRedelivered(g, maxSize, init, id);
      RedeliveredStays(g, maxSize, Run(g, maxSize, init), e, id, OriginOf(init, id).value);
    }
  }

  /** Termination: no schedule reads more frames of a message than there are peer links in the
      mesh (counted from both ends), so every flood dies out after that many reads. */
  lemma FloodTerminates(g: Graph, maxSize: int, es: seq<Event>, id: Id)
    requires WellFormed(g) && Retains(g, maxSize, es, id)
    requires OriginOf(es, id).Some? ==> OriginOf(es, id).value in g
    ensures var f := FloodOf(Run(g, maxSize, es), id);
            f.read + |f.flight| <= SumDegrees(g, g.Keys)
  {
    var s := Run(g, maxSize, es);
    FloodInvariant(g, maxSize, es, id);
    if OriginOf(es, id).Some? {
      forall n | n in Handled(s, id) ensures n in g {
        ReachableInGraph(g, OriginOf(es, id).value, n);
      }
      SumDegreesMonotone(g, Handled(s, id), g.Keys);
    }
  }

  ghost predicate WellFormed(g: Graph) {
    forall n :: n in g ==> g[n] <= g.Keys
  }

  lemma ReachableInGraph(g: Graph, origin: Node, n: Node)
    requires WellFormed(g) && origin in g && Reachable(g, origin, n)
    ensures n in g
  {
    var p :| Path(g, p) && p[0] == origin && p[|p| - 1] == n;
    ClosedContainsPath(g, g.Keys, p);
  }

  /** Cost: when the flood has died out, the RELAY frames written for the message number the
      degrees of the reached nodes less one for each of them but the origin. */
  lemma FloodCost(g: Graph, maxSize: int, es: seq<Event>, id: Id, origin: Node, reached: set<Node>)
    requires Symmetric(g) && Retains(g, maxSize, es, id) && OriginOf(es, id) == Some(origin)
    requires FloodOf(Run(g, maxSize, es), id).flight == multiset{}
    requires forall n :: n in reached <==> Reachable(g, origin, n)
    ensures FloodOf(Run(g, maxSize, es), id).written == SumDegrees(g, reached) - (|reached| - 1)
  {
    FloodInvariant(g, maxSize, es, id);
    QuietHandledIsReached(g, origin, Handled(Run(g, maxSize, es), id), FloodOf(Run(g, maxSize, es), id), reached);
  }

  lemma QuietHandledIsReached(g: Graph, origin: Node, h: set<Node>, f: Flood, reached: set<Node>)
    requires Spreads(g, origin, h, f) && f.flight == multiset{}
    requires forall n :: n in reached <==> Reachable(g, origin, n)
    ensures h == reached
  {
    forall n | n in reached ensures n in h {
      var p :| Path(g, p) && p[0] == origin && p[|p| - 1] == n;
      ClosedContainsPath(g, h, p);
    }
  }

  /** Every node holds a link to every other one. */
  ghost predicate FullMesh(g: Graph) {
    forall n :: n in g ==> g[n] == g.Keys - {n}
  }

  lemma FullMeshReach(g: Graph, origin: Node, n: Node)
    requires FullMesh(g) && origin in g
    ensures n in g.Keys <==> Reachable(g, origin, n)
  {
    ReachableSelf(g, origin);
    if n in g && n != origin {
      ReachableStep(g, origin, origin, n);
    }
    if Reachable(g, origin, n) {
      ReachableInGraph(g, origin, n);
    }
  }

  lemma FullMeshDegrees(g: Graph)
    requires FullMesh(g) && g.Keys != {}
    ensures SumDegrees(g, g.Keys) - (|g| - 1) == (|g| - 1) * (|g| - 1)
  {
    forall n | n in g ensures |Peers(g, n)| == |g| - 1 {
      assert |g.Keys - {n}| == |g.Keys| - 1;
    }
    var d: nat := |g| - 1;
    SumDegreesUniform(g, g.Keys, d);
    LessOneEach(SumDegrees(g, g.Keys), |g.Keys|, d);
  }

  lemma LessOneEach(total: nat, n: nat, d: nat)
    requires total == n * d && n == d + 1
    ensures total - d == d * d
  {
    OneMore(d, d);
  }

  /** In a full mesh of n nodes one message costs (n - 1)^2 frames, whatever the order. */
  lemma FullMeshCost(g: Graph, maxSize: int, es: seq<Event>, id: Id, origin: Node)
    requires FullMesh(g) && origin in g && OriginOf(es, id) == Some(origin)
    requires Retains(g, maxSize, es, id) && FloodOf(Run(g, maxSize, es), id).flight == multiset{}
    ensures FloodOf(Run(g, maxSize, es), id).written == (|g| - 1) * (|g| - 1)
  {
    forall n ensures n in g.Keys <==> Reachable(g, origin, n) {
      FullMeshReach(g, origin, n);
    }
    FloodCost(g, maxSize, es, id, origin, g.Keys);
    FullMeshDegrees(g);
  }
}
