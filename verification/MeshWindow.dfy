/** How much a node must remember (node/mesh.py, node/dedup_cache.py): a message is safe while no
    more than `max_size` different messages are about between its origin and its last frame, however
    many there were before; with one more it can be lost track of. */
module MeshWindow {
  import opened Base
  import opened DedupCaches
  import opened MeshFlood

  lemma RunSnoc(g: Graph, maxSize: int, es: seq<Event>, e: Event)
    ensures Run(g, maxSize, es + [e]) == Step(g, maxSize, Run(g, maxSize, es), e)
  {
    assert (es + [e])[..|es|] == es;
  }

  // ---- While at most max_size messages are about, nothing is forgotten ---------------------------------

  /** The messages the events are about. */
  ghost function Ids(es: seq<Event>): set<Id> {
    set e | e in es :: e.id
  }

  /** History `now` is `before` and then only queries for `ids`. */
  ghost predicate Extends(before: seq<Id>, now: seq<Id>, ids: set<Id>) {
    exists later :: now == before + later && Elements(later) <= ids
  }

  lemma ExtendsNext(before: seq<Id>, now: seq<Id>, ids: set<Id>, id: Id)
    requires Extends(before, now, ids) && id in ids
    ensures Extends(before, now + [id], ids)
  {
    var later :| now == before + later && Elements(later) <= ids;
    ElementsConcat(later, [id]);
    assert now + [id] == before + (later + [id]);
  }

  lemma HistoryStep(g: Graph, maxSize: int, s: Mesh, e: Event, n: Node)
    ensures var now := History(Step(g, maxSize, s, e), n); now == History(s, n) || now == History(s, n) + [e.id]
  {
  }

  lemma {:induction false} HistoriesExtend(g: Graph, maxSize: int, pre: seq<Event>, live: seq<Event>, ids: set<Id>,
                                           n: Node)
    requires Ids(live) <= ids
    ensures Extends(History(Run(g, maxSize, pre), n), History(Run(g, maxSize, pre + live), n), ids)
  {
    var before := History(Run(g, maxSize, pre), n);
    if live == [] {
      assert pre + live == pre && before == before + [] && Elements<Id>([]) == {};
    } else {
      var init, e := live[..|live| - 1], live[|live| - 1];
      assert e.id in Ids(live) && Ids(init) <= Ids(live);
      HistoriesExtend(g, maxSize, pre, init, ids, n);
      assert pre + live == (pre + init) + [e];
      RunSnoc(g, maxSize, pre + init, e);
      HistoryStep(g, maxSize, Run(g, maxSize, pre + init), e, n);
      ExtendsNext(before, History(Run(g, maxSize, pre + init), n), ids, e.id);
    }
  }

  /** Since its last query only the later ids were queried. */
  lemma {:induction false} SinceIsLater(before: seq<Id>, later: seq<Id>, id: Id)
    requires id in later
    ensures Since(before + later, id) <= Elements(later) - {id}
  {
    var n := |later| - 1;
    assert (before + later)[..|before + later| - 1] == before + later[..n];
    SplitLast(later);
    if later[n] != id {
      SinceIsLater(before, later[..n], id);
      ElementsConcat(later[..n], [later[n]]);
    }
  }

  /** A node that recorded the id after `before` still has it cached. */
  lemma ExtensionIsCached(maxSize: int, before: seq<Id>, now: seq<Id>, ids: set<Id>, id: Id)
    requires Extends(before, now, ids) && |ids| <= maxSize && id !in before && id in now
    ensures id in After(maxSize, now)
  {
    var later :| now == before + later && Elements(later) <= ids;
    SinceIsLater(before, later, id);
    assert id in ids;
    SubsetCardinality(Since(now, id), ids - {id});
    LruExact(maxSize, now, id);
  }

  /** Before its first event an id is retained by everyone. */
  lemma {:induction false} UntouchedIsRetained(g: Graph, maxSize: int, es: seq<Event>, id: Id)
    requires Untouched(Run(g, maxSize, es), id)
    ensures Retains(g, maxSize, es, id)
  {
    if es != [] {
      var s, e := Run(g, maxSize, es[..|es| - 1]), es[|es| - 1];
      StepHandled(g, maxSize, s, e, id);
      assert s.floods.Keys <= Step(g, maxSize, s, e).floods.Keys;
      UntouchedIsRetained(g, maxSize, es[..|es| - 1], id);
    }
  }

  lemma RetainsSnoc(g: Graph, maxSize: int, es: seq<Event>, e: Event, id: Id)
    ensures Retains(g, maxSize, es + [e], id) <==>
            Retains(g, maxSize, es, id) && RetainsNow(maxSize, Run(g, maxSize, es), e, id)
  {
    assert (es + [e])[..|es|] == es;
  }

  lemma UntouchedIsUnrecorded(s: Mesh, id: Id, n: Node)
    requires Untouched(s, id)
    ensures id !in History(s, n)
  {
    assert n !in Handled(s, id);
  }

  /** The window: if a message is new after `pre`, and the events since then are about at most
      `maxSize` messages (itself included), no cache forgets it in them, whatever happened before. */
  lemma {:induction false} FewMessagesAreRetained(g: Graph, maxSize: int, pre: seq<Event>, live: seq<Event>, id: Id)
    requires Untouched(Run(g, maxSize, pre), id) && |Ids(live)| <= maxSize
    ensures Retains(g, maxSize, pre + live, id)
  {
    if live == [] {
      assert pre + live == pre;
      UntouchedIsRetained(g, maxSize, pre, id);
    } else {
      var init, e := live[..|live| - 1], live[|live| - 1];
      assert Ids(init) <= Ids(live);
      SubsetCardinality(Ids(init), Ids(live));
      FewMessagesAreRetained(g, maxSize, pre, init, id);
      assert pre + live == (pre + init) + [e];
      RetainsSnoc(g, maxSize, pre + init, e, id);
      var s := Run(g, maxSize, pre + init);
      if e.Receive? && e.hop.dst in Handled(s, id) {
        var n := e.hop.dst;
        HistoriesExtend(g, maxSize, pre, init, Ids(init), n);
        UntouchedIsUnrecorded(Run(g, maxSize, pre), id, n);
        ExtensionIsCached(maxSize, History(Run(g, maxSize, pre), n), History(s, n), Ids(init), id);
      }
    }
  }

  // ---- The bound is tight ----------------------------------------------------------------------------

  const Triangle: Graph := map["a" := {"b", "c"}, "b" := {"a", "c"}, "c" := {"a", "b"}]

  /** n different ids, none of them "x". */
  function Others(n: nat): (ids: seq<Id>)
    ensures |ids| == n && forall i :: 0 <= i < n ==> |ids[i]| == i + 2
  {
    if n == 0 then [] else Others(n - 1) + [seq(n + 1, _ => 'y')]
  }

  function Originates(node: Node, ids: seq<Id>): seq<Event> {
    if ids == [] then [] else Originates(node, ids[..|ids| - 1]) + [Originate(node, ids[|ids| - 1])]
  }

  /** Node a has recorded "x" and `ids`, nobody else anything, and the frames of "x" are still on
      their way. */
  ghost predicate Spoken(s: Mesh, ids: seq<Id>) {
    && History(s, "a") == ["x"] + ids && History(s, "b") == [] && History(s, "c") == []
    && FloodOf(s, "x") == Start(Triangle, "a")
    && forall id :: id in s.floods ==> id == "x" || id in ids
  }

  lemma SpokenNext(maxSize: int, s: Mesh, ids: seq<Id>, id: Id)
    requires Spoken(s, ids) && id != "x" && id !in ids
    ensures Spoken(Step(Triangle, maxSize, s, Originate("a", id)), ids + [id])
  {
    ConcatAssociates(["x"], ids, [id]);
  }

  lemma {:induction false} AfterOriginates(maxSize: int, ids: seq<Id>)
    requires Distinct(ids) && "x" !in ids
    ensures Spoken(Run(Triangle, maxSize, [Originate("a", "x")] + Originates("a", ids)), ids)
    ensures OriginOf([Originate("a", "x")] + Originates("a", ids), "x") == Some("a")
  {
    var first := [Originate("a", "x")];
    if ids == [] {
      assert first + [] == first && first[..0] == [];
      assert ["x"] + [] == ["x"];
    } else {
      var init, id := ids[..|ids| - 1], ids[|ids| - 1];
      AfterOriginates(maxSize, init);
      var es := first + Originates("a", init);
      ConcatAssociates(first, Originates("a", init), [Originate("a", id)]);
      RunSnoc(Triangle, maxSize, es, Originate("a", id));
      OriginSnoc(es, Originate("a", id), "x");
      SplitLast(ids);
      assert id in ids;
      SpokenNext(maxSize, Run(Triangle, maxSize, es), init, id);
    }
  }

  lemma AcceptForwards(g: Graph, maxSize: int, s: Mesh, id: Id, hop: Hop, next: Node)
    requires hop in FloodOf(s, id).flight && !Cached(maxSize, s, hop.dst, id)
    requires next in Peers(g, hop.dst) && next != hop.src
    ensures var s' := Step(g, maxSize, s, Receive(id, hop));
      && Hop(hop.dst, next) in FloodOf(s', id).flight
      && FloodOf(s', id).delivered == FloodOf(s, id).delivered + multiset{hop.dst}
      && forall n :: n != hop.dst ==> History(s', n) == History(s, n)
  {
    FanSize(hop.dst, Peers(g, hop.dst) - {hop.src});
  }

  lemma LoopsBack(g: Graph, maxSize: int, s: Mesh, id: Id, a: Node, b: Node, c: Node)
    requires Hop(a, b) in FloodOf(s, id).flight && FloodOf(s, id).delivered == multiset{}
    requires !Cached(maxSize, s, a, id) && !Cached(maxSize, s, b, id) && !Cached(maxSize, s, c, id)
    requires a != b && b != c && a != c
    requires c in Peers(g, b) && a in Peers(g, c) && b in Peers(g, a)
    ensures var s1 := Step(g, maxSize, s, Receive(id, Hop(a, b)));
            var s2 := Step(g, maxSize, s1, Receive(id, Hop(b, c)));
            FloodOf(Step(g, maxSize, s2, Receive(id, Hop(c, a))), id).delivered == multiset{b, c, a}
  {
    AcceptForwards(g, maxSize, s, id, Hop(a, b), c);
    var s1 := Step(g, maxSize, s, Receive(id, Hop(a, b)));
    AcceptForwards(g, maxSize, s1, id, Hop(b, c), a);
    var s2 := Step(g, maxSize, s1, Receive(id, Hop(b, c)));
    AcceptForwards(g, maxSize, s2, id, Hop(c, a), b);
  }

  lemma ThreeMore(g: Graph, maxSize: int, es: seq<Event>, e1: Event, e2: Event, e3: Event, id: Id)
    requires OriginOf(es, id).Some?
    ensures Run(g, maxSize, es + [e1] + [e2] + [e3])
         == Step(g, maxSize, Step(g, maxSize, Step(g, maxSize, Run(g, maxSize, es), e1), e2), e3)
    ensures OriginOf(es + [e1] + [e2] + [e3], id) == OriginOf(es, id)
  {
    RunSnoc(g, maxSize, es, e1);
    RunSnoc(g, maxSize, es + [e1], e2);
    RunSnoc(g, maxSize, es + [e1] + [e2], e3);
    OriginSnoc(es, e1, id);
    OriginSnoc(es + [e1], e2, id);
    OriginSnoc(es + [e1] + [e2], e3, id);
  }

  lemma OriginSnoc(es: seq<Event>, e: Event, id: Id)
    requires OriginOf(es, id).Some?
    ensures OriginOf(es + [e], id) == OriginOf(es, id)
  {
    assert (es + [e])[..|es|] == es;
  }

  lemma OthersAreDistinct(n: nat)
    ensures Distinct(Others(n)) && "x" !in Others(n)
  {
    var ids := Others(n);
    assert |"x"| == 1;
    forall i, j | 0 <= i < j < n ensures ids[i] != ids[j] {
      assert |ids[i]| != |ids[j]|;
    }
  }

  lemma OriginForgets(maxSize: nat, ids: seq<Id>)
    requires Distinct(ids) && "x" !in ids && |ids| == maxSize
    ensures "x" !in After(maxSize, ["x"] + ids)
  {
    LruExact(maxSize, ["x"] + ids, "x");
    SinceFirst(ids);
    DistinctCardinality(ids);
  }

  lemma {:induction false} SinceFirst(ids: seq<Id>)
    requires "x" !in ids
    ensures Since(["x"] + ids, "x") == Elements(ids)
  {
    if ids == [] {
      assert ["x"] + ids == ["x"];
    } else {
      var n := |ids| - 1;
      SinceFirst(ids[..n]);
      SplitLast(ids);
      assert (["x"] + ids)[..n + 1] == ["x"] + ids[..n];
      ElementsConcat(ids[..n], [ids[n]]);
    }
  }

  /** For every cache size, `maxSize` other messages sent while one is on its way round a triangle
      make its origin forget it, and deliver it when it comes back. */
  lemma SmallCacheRedelivers(maxSize: nat) returns (es: seq<Event>)
    ensures |Ids(es)| == maxSize + 1 && OriginOf(es, "x") == Some("a")
    ensures FloodOf(Run(Triangle, maxSize, es), "x").delivered["a"] == 1
  {
    var ids := Others(maxSize);
    OthersAreDistinct(maxSize);
    var sent := [Originate("a", "x")] + Originates("a", ids);
    var e1, e2, e3 := Receive("x", Hop("a", "b")), Receive("x", Hop("b", "c")), Receive("x", Hop("c", "a"));
    es := sent + [e1] + [e2] + [e3];
    AfterOriginates(maxSize, ids);
    ThreeMore(Triangle, maxSize, sent, e1, e2, e3, "x");
    ComesBack(maxSize, ids, Run(Triangle, maxSize, sent));
    IdsOfRound(ids, e1, e2, e3);
  }

  lemma ComesBack(maxSize: nat, ids: seq<Id>, s: Mesh)
    requires Spoken(s, ids) && Distinct(ids) && "x" !in ids && |ids| == maxSize
    ensures var s1 := Step(Triangle, maxSize, s, Receive("x", Hop("a", "b")));
            var s2 := Step(Triangle, maxSize, s1, Receive("x", Hop("b", "c")));
            FloodOf(Step(Triangle, maxSize, s2, Receive("x", Hop("c", "a"))), "x").delivered["a"] == 1
  {
    OriginForgets(maxSize, ids);
    FanSize("a", {"b", "c"});
    LoopsBack(Triangle, maxSize, s, "x", "a", "b", "c");
  }

  lemma IdsOfRound(ids: seq<Id>, e1: Event, e2: Event, e3: Event)
    requires Distinct(ids) && "x" !in ids && e1.id == e2.id == e3.id == "x"
    ensures |Ids([Originate("a", "x")] + Originates("a", ids) + [e1] + [e2] + [e3])| == |ids| + 1
  {
    var round := [Originate("a", "x")] + Originates("a", ids);
    IdsSnoc([], Originate("a", "x"));
    assert [] + [Originate("a", "x")] == [Originate("a", "x")];
    IdsConcat([Originate("a", "x")], Originates("a", ids));
    IdsOfOriginates(ids);
    assert Ids(round) == {"x"} + Elements(ids);
    IdsSnoc(round, e1);
    IdsSnoc(round + [e1], e2);
    IdsSnoc(round + [e1] + [e2], e3);
    OneMoreId(ids);
  }

  lemma OneMoreId(ids: seq<Id>)
    requires Distinct(ids) && "x" !in ids
    ensures |{"x"} + Elements(ids)| == |ids| + 1
    ensures {"x"} + Elements(ids) + {"x"} == {"x"} + Elements(ids)
  {
    DistinctCardinality(ids);
  }

  lemma IdsSnoc(a: seq<Event>, e: Event)
    ensures Ids(a + [e]) == Ids(a) + {e.id}
  {
    IdsConcat(a, [e]);
    assert Ids([e]) == {e.id};
  }

  lemma {:induction false} IdsOfOriginates(ids: seq<Id>)
    ensures Ids(Originates("a", ids)) == Elements(ids)
  {
    if ids != [] {
      IdsOfOriginates(ids[..|ids| - 1]);
      SplitLast(ids);
      IdsSnoc(Originates("a", ids[..|ids| - 1]), Originate("a", ids[|ids| - 1]));
      ElementsConcat(ids[..|ids| - 1], [ids[|ids| - 1]]);
    }
  }

  lemma IdsConcat(a: seq<Event>, b: seq<Event>)
    ensures Ids(a + b) == Ids(a) + Ids(b)
  {
  }
}
