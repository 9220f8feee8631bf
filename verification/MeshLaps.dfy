/** With one message more than its caches hold, a flood of the mesh need not end: `maxSize + 1` messages
    chase each other round a triangle for as long as one likes. */
module MeshLaps {
  import opened Base
  import opened DedupCaches
  import opened MeshFlood
  import opened MeshWindow

  // ---- What a cache of the wrong size forgets --------------------------------------------------------

  lemma {:induction false} SinceLast(before: seq<Id>, id: Id, others: seq<Id>)
    requires id !in others
    ensures Since(before + [id] + others, id) == Elements(others)
  {
    var all := before + [id] + others;
    if others == [] {
      assert all == before + [id];
    } else {
      var init, last := others[..|others| - 1], others[|others| - 1];
      SplitLast(others);
      assert all[..|all| - 1] == before + [id] + init;
      SinceLast(before, id, init);
      ElementsConcat(init, [last]);
    }
  }

  /** A node read nothing yet, or all of `ids` last. */
  ghost predicate ReadAll(history: seq<Id>, ids: seq<Id>) {
    history == [] || exists before: seq<Id> :: history == before + ids
  }

  lemma LapOrder(before: seq<Id>, ids: seq<Id>, i: nat)
    requires i < |ids|
    ensures before + ids + ids[..i] == (before + ids[..i]) + [ids[i]] + (ids[i + 1..] + ids[..i])
  {
    assert ids == ids[..i] + [ids[i]] + ids[i + 1..];
  }

  lemma RestIsDistinct(ids: seq<Id>, i: nat)
    requires Distinct(ids) && i < |ids|
    ensures Distinct(ids[i + 1..] + ids[..i]) && ids[i] !in ids[i + 1..] + ids[..i]
  {
  }

  /** In a lap over more ids than the cache holds, each is forgotten when its turn comes again. */
  lemma ForgottenInTurn(maxSize: nat, history: seq<Id>, ids: seq<Id>, i: nat)
    requires Distinct(ids) && |ids| == maxSize + 1 && i < |ids| && ReadAll(history, ids)
    ensures ids[i] !in After(maxSize, history + ids[..i])
  {
    LruExact(maxSize, history + ids[..i], ids[i]);
    if history == [] {
      assert history + ids[..i] == ids[..i];
    } else {
      var before: seq<Id> :| history == before + ids;
      var rest := ids[i + 1..] + ids[..i];
      LapOrder(before, ids, i);
      RestIsDistinct(ids, i);
      SinceLast(before + ids[..i], ids[i], rest);
      DistinctCardinality(rest);
    }
  }

  // ---- One lap: every message takes the same hop ---------------------------------------------------------

  function Lap(ids: seq<Id>, hop: Hop): seq<Event> {
    if ids == [] then [] else Lap(ids[..|ids| - 1], hop) + [Receive(ids[|ids| - 1], hop)]
  }

  /** The node after n, clockwise. */
  function Next(n: Node): Node {
    if n == "a" then "b" else if n == "b" then "c" else "a"
  }

  predicate Corner(n: Node) {
    n == "a" || n == "b" || n == "c"
  }

  /** Every message has a frame on its way from `n` to the next node, and every node read all of them or
      nothing. */
  ghost predicate Circling(s: Mesh, ids: seq<Id>, n: Node) {
    && (forall id :: id in ids ==> Hop(n, Next(n)) in FloodOf(s, id).flight)
    && ReadAll(History(s, "a"), ids) && ReadAll(History(s, "b"), ids) && ReadAll(History(s, "c"), ids)
  }

  /** The deliveries of a message at a node. */
  function Delivered(s: Mesh, id: Id, n: Node): nat {
    FloodOf(s, id).delivered[n]
  }

  /** The lap from `n` is done for the first i messages. */
  ghost predicate Lapping(s0: Mesh, s: Mesh, ids: seq<Id>, i: nat, n: Node) {
    var dst := Next(n);
    && i <= |ids| && History(s, dst) == History(s0, dst) + ids[..i]
    && (forall m :: m != dst ==> History(s, m) == History(s0, m))
    && (forall j :: 0 <= j < i ==> Hop(dst, Next(dst)) in FloodOf(s, ids[j]).flight)
    && (forall j :: i <= j < |ids| ==> Hop(n, dst) in FloodOf(s, ids[j]).flight)
    && (forall j, m :: 0 <= j < |ids| ==>
          Delivered(s, ids[j], m) == Delivered(s0, ids[j], m) + if j < i && m == dst then 1 else 0)
  }

  /** A node took a frame of the message from `n`, delivered it and passed it on. */
  ghost predicate Passed(s: Mesh, s': Mesh, id: Id, n: Node) {
    var dst := Next(n);
    && Hop(dst, Next(dst)) in FloodOf(s', id).flight
    && History(s', dst) == History(s, dst) + [id] && (forall m :: m != dst ==> History(s', m) == History(s, m))
    && (forall other :: other != id ==> FloodOf(s', other) == FloodOf(s, other))
    && forall m :: Delivered(s', id, m) == Delivered(s, id, m) + if m == dst then 1 else 0
  }

  lemma TakesHop(maxSize: nat, s: Mesh, id: Id, n: Node)
    requires Corner(n) && Hop(n, Next(n)) in FloodOf(s, id).flight && !Cached(maxSize, s, Next(n), id)
    ensures Passed(s, Step(Triangle, maxSize, s, Receive(id, Hop(n, Next(n)))), id, n)
  {
    AcceptForwards(Triangle, maxSize, s, id, Hop(n, Next(n)), Next(Next(n)));
  }

  lemma PassedInLap(s0: Mesh, s: Mesh, s': Mesh, ids: seq<Id>, i: nat, n: Node)
    requires Distinct(ids) && i < |ids| && Lapping(s0, s, ids, i, n) && Passed(s, s', ids[i], n)
    ensures Lapping(s0, s', ids, i + 1, n)
  {
    ConcatAssociates(History(s0, Next(n)), ids[..i], [ids[i]]);
    assert ids[..i + 1] == ids[..i] + [ids[i]];
    forall j | 0 <= j < |ids| && j != i ensures FloodOf(s', ids[j]) == FloodOf(s, ids[j]) {
      assert ids[j] != ids[i];
    }
  }

  lemma LapGoesOn(maxSize: nat, s0: Mesh, s: Mesh, ids: seq<Id>, i: nat, n: Node)
    requires Corner(n) && Distinct(ids) && |ids| == maxSize + 1 && i < |ids|
    requires Lapping(s0, s, ids, i, n) && ReadAll(History(s0, Next(n)), ids)
    ensures Lapping(s0, Step(Triangle, maxSize, s, Receive(ids[i], Hop(n, Next(n)))), ids, i + 1, n)
  {
    ForgottenInTurn(maxSize, History(s0, Next(n)), ids, i);
    TakesHop(maxSize, s, ids[i], n);
    PassedInLap(s0, s, Step(Triangle, maxSize, s, Receive(ids[i], Hop(n, Next(n)))), ids, i, n);
  }

  lemma {:induction false} PartOfLap(maxSize: nat, es: seq<Event>, ids: seq<Id>, i: nat, n: Node)
    requires Corner(n) && Distinct(ids) && |ids| == maxSize + 1 && i <= |ids|
    requires Circling(Run(Triangle, maxSize, es), ids, n)
    ensures Lapping(Run(Triangle, maxSize, es), Run(Triangle, maxSize, es + Lap(ids[..i], Hop(n, Next(n)))), ids, i, n)
  {
    if i == 0 {
      assert es + Lap(ids[..0], Hop(n, Next(n))) == es;
      assert History(Run(Triangle, maxSize, es), Next(n)) + ids[..0] == History(Run(Triangle, maxSize, es), Next(n));
    } else {
      var hop := Hop(n, Next(n));
      PartOfLap(maxSize, es, ids, i - 1, n);
      assert ids[..i][..i - 1] == ids[..i - 1];
      ConcatAssociates(es, Lap(ids[..i - 1], hop), [Receive(ids[i - 1], hop)]);
      RunSnoc(Triangle, maxSize, es + Lap(ids[..i - 1], hop), Receive(ids[i - 1], hop));
      var s := Run(Triangle, maxSize, es + Lap(ids[..i - 1], hop));
      LapGoesOn(maxSize, Run(Triangle, maxSize, es), s, ids, i - 1, n);
    }
  }

  /** Every message was delivered once more at the node after `n`, and as often as before elsewhere. */
  ghost predicate LapDone(s: Mesh, s': Mesh, ids: seq<Id>, n: Node) {
    forall id, m :: id in ids ==> Delivered(s', id, m) == Delivered(s, id, m) + if m == Next(n) then 1 else 0
  }

  lemma OneLap(maxSize: nat, es: seq<Event>, ids: seq<Id>, n: Node)
    requires Corner(n) && Distinct(ids) && |ids| == maxSize + 1 && Circling(Run(Triangle, maxSize, es), ids, n)
    ensures var s, s' := Run(Triangle, maxSize, es), Run(Triangle, maxSize, es + Lap(ids, Hop(n, Next(n))));
      Circling(s', ids, Next(n)) && LapDone(s, s', ids, n)
  {
    assert ids[..|ids|] == ids;
    PartOfLap(maxSize, es, ids, |ids|, n);
  }

  // ---- Rounds ----------------------------------------------------------------------------------------------

  function Round(ids: seq<Id>): seq<Event> {
    Lap(ids, Hop("a", "b")) + Lap(ids, Hop("b", "c")) + Lap(ids, Hop("c", "a"))
  }

  function Rounds(ids: seq<Id>, rounds: nat): seq<Event> {
    if rounds == 0 then [] else Rounds(ids, rounds - 1) + Round(ids)
  }

  /** Every message was delivered so many times more at every node. */
  ghost predicate RoundsDone(s: Mesh, s': Mesh, ids: seq<Id>, rounds: nat) {
    forall id, m :: id in ids && Corner(m) ==> Delivered(s', id, m) == Delivered(s, id, m) + rounds
  }

  lemma LapsMakeRound(s: Mesh, s1: Mesh, s2: Mesh, s3: Mesh, ids: seq<Id>)
    requires LapDone(s, s1, ids, "a") && LapDone(s1, s2, ids, "b") && LapDone(s2, s3, ids, "c")
    ensures RoundsDone(s, s3, ids, 1)
  {
    forall id, m | id in ids && Corner(m) ensures Delivered(s3, id, m) == Delivered(s, id, m) + 1 {
      assert Delivered(s1, id, m) == Delivered(s, id, m) + if m == "b" then 1 else 0;
      assert Delivered(s2, id, m) == Delivered(s1, id, m) + if m == "c" then 1 else 0;
      assert Delivered(s3, id, m) == Delivered(s2, id, m) + if m == "a" then 1 else 0;
    }
  }

  lemma FourParts(a: seq<Event>, b: seq<Event>, c: seq<Event>, d: seq<Event>)
    ensures a + (b + c + d) == a + b + c + d
  {
  }

  lemma OneRound(maxSize: nat, es: seq<Event>, ids: seq<Id>)
    requires Distinct(ids) && |ids| == maxSize + 1 && Circling(Run(Triangle, maxSize, es), ids, "a")
    ensures var s, s' := Run(Triangle, maxSize, es), Run(Triangle, maxSize, es + Round(ids));
      Circling(s', ids, "a") && RoundsDone(s, s', ids, 1)
  {
    var l1, l2, l3 := Lap(ids, Hop("a", "b")), Lap(ids, Hop("b", "c")), Lap(ids, Hop("c", "a"));
    OneLap(maxSize, es, ids, "a");
    OneLap(maxSize, es + l1, ids, "b");
    OneLap(maxSize, es + l1 + l2, ids, "c");
    FourParts(es, l1, l2, l3);
    LapsMakeRound(Run(Triangle, maxSize, es), Run(Triangle, maxSize, es + l1), Run(Triangle, maxSize, es + l1 + l2),
                  Run(Triangle, maxSize, es + l1 + l2 + l3), ids);
  }

  lemma RoundsAdd(s: Mesh, s1: Mesh, s2: Mesh, ids: seq<Id>, rounds: nat)
    requires RoundsDone(s, s1, ids, rounds) && RoundsDone(s1, s2, ids, 1)
    ensures RoundsDone(s, s2, ids, rounds + 1)
  {
    forall id, m | id in ids && Corner(m) ensures Delivered(s2, id, m) == Delivered(s, id, m) + (rounds + 1) {
      assert Delivered(s1, id, m) == Delivered(s, id, m) + rounds;
    }
  }

  /** So many rounds after `es` everything is as it was, but for the deliveries made. */
  ghost predicate RoundsLater(maxSize: nat, es: seq<Event>, more: seq<Event>, ids: seq<Id>, rounds: nat) {
    var s, s' := Run(Triangle, maxSize, es), Run(Triangle, maxSize, es + more);
    Circling(s', ids, "a") && RoundsDone(s, s', ids, rounds)
  }

  lemma NoRounds(maxSize: nat, es: seq<Event>, ids: seq<Id>)
    requires Circling(Run(Triangle, maxSize, es), ids, "a")
    ensures RoundsLater(maxSize, es, [], ids, 0)
  {
    assert es + [] == es;
  }

  lemma NextRound(maxSize: nat, es: seq<Event>, more: seq<Event>, ids: seq<Id>, rounds: nat)
    requires Distinct(ids) && |ids| == maxSize + 1 && RoundsLater(maxSize, es, more, ids, rounds)
    ensures RoundsLater(maxSize, es, more + Round(ids), ids, rounds + 1)
  {
    OneRound(maxSize, es + more, ids);
    ConcatAssociates(es, more, Round(ids));
    var s, s1 := Run(Triangle, maxSize, es), Run(Triangle, maxSize, es + more);
    RoundsAdd(s, s1, Run(Triangle, maxSize, es + more + Round(ids)), ids, rounds);
  }

  lemma {:induction false} ManyRounds(maxSize: nat, es: seq<Event>, ids: seq<Id>, rounds: nat)
    requires Distinct(ids) && |ids| == maxSize + 1 && Circling(Run(Triangle, maxSize, es), ids, "a")
    ensures RoundsLater(maxSize, es, Rounds(ids, rounds), ids, rounds)
  {
    if rounds == 0 {
      NoRounds(maxSize, es, ids);
    } else {
      ManyRounds(maxSize, es, ids, rounds - 1);
      NextRound(maxSize, es, Rounds(ids, rounds - 1), ids, rounds - 1);
    }
  }

  /** Node a sent all of `ids`, and nobody read anything. */
  ghost predicate Sent(s: Mesh, ids: seq<Id>) {
    && History(s, "a") == ids && History(s, "b") == [] && History(s, "c") == []
    && (forall id :: id in ids ==> FloodOf(s, id) == Start(Triangle, "a"))
    && forall id :: id in s.floods ==> id in ids
  }

  lemma {:induction false} AllSent(maxSize: nat, ids: seq<Id>)
    requires Distinct(ids)
    ensures Sent(Run(Triangle, maxSize, Originates("a", ids)), ids)
  {
    if ids != [] {
      var init, id := ids[..|ids| - 1], ids[|ids| - 1];
      AllSent(maxSize, init);
      RunSnoc(Triangle, maxSize, Originates("a", init), Originate("a", id));
      SplitLast(ids);
      assert id !in init;
    }
  }

  lemma SentIsCircling(s: Mesh, ids: seq<Id>)
    requires Sent(s, ids)
    ensures Circling(s, ids, "a")
  {
    FanSize("a", {"b", "c"});
    assert History(s, "a") == [] + ids;
  }

  lemma {:induction false} LapIds(ids: seq<Id>, hop: Hop)
    ensures Ids(Lap(ids, hop)) == Elements(ids) && forall e :: e in Lap(ids, hop) ==> e.Receive?
  {
    if ids != [] {
      LapIds(ids[..|ids| - 1], hop);
      SplitLast(ids);
      IdsSnoc(Lap(ids[..|ids| - 1], hop), Receive(ids[|ids| - 1], hop));
      ElementsConcat(ids[..|ids| - 1], [ids[|ids| - 1]]);
    }
  }

  lemma {:induction false} RoundsIds(ids: seq<Id>, rounds: nat)
    ensures Ids(Rounds(ids, rounds)) <= Elements(ids) && forall e :: e in Rounds(ids, rounds) ==> e.Receive?
  {
    if rounds > 0 {
      RoundsIds(ids, rounds - 1);
      LapIds(ids, Hop("a", "b"));
      LapIds(ids, Hop("b", "c"));
      LapIds(ids, Hop("c", "a"));
      IdsConcat(Lap(ids, Hop("a", "b")), Lap(ids, Hop("b", "c")));
      IdsConcat(Lap(ids, Hop("a", "b")) + Lap(ids, Hop("b", "c")), Lap(ids, Hop("c", "a")));
      IdsConcat(Rounds(ids, rounds - 1), Round(ids));
    }
  }

  lemma SentThenRounds(s: Mesh, s': Mesh, ids: seq<Id>, rounds: nat)
    requires Sent(s, ids) && Circling(s', ids, "a") && RoundsDone(s, s', ids, rounds)
    ensures forall id, m :: id in ids && Corner(m) ==> Delivered(s', id, m) == rounds
    ensures forall id :: id in ids ==> FloodOf(s', id).flight != multiset{}
  {
    forall id, m | id in ids && Corner(m) ensures Delivered(s', id, m) == rounds {
      assert Delivered(s, id, m) == 0;
    }
  }

  lemma RoundsFromStart(maxSize: nat, ids: seq<Id>, rounds: nat)
    requires Distinct(ids) && |ids| == maxSize + 1
    ensures var s := Run(Triangle, maxSize, Originates("a", ids) + Rounds(ids, rounds));
      && (forall id, m :: id in ids && Corner(m) ==> Delivered(s, id, m) == rounds)
      && (forall id :: id in ids ==> FloodOf(s, id).flight != multiset{})
  {
    var first := Originates("a", ids);
    AllSent(maxSize, ids);
    SentIsCircling(Run(Triangle, maxSize, first), ids);
    ManyRounds(maxSize, first, ids, rounds);
    SentThenRounds(Run(Triangle, maxSize, first), Run(Triangle, maxSize, first + Rounds(ids, rounds)), ids, rounds);
  }

  lemma OnlyReceived(first: seq<Event>, ids: seq<Id>, rounds: nat)
    requires Ids(first) == Elements(ids)
    ensures Ids(first + Rounds(ids, rounds)) == Elements(ids)
    ensures var es := first + Rounds(ids, rounds); forall i :: |first| <= i < |es| ==> es[i].Receive?
  {
    var es := first + Rounds(ids, rounds);
    RoundsIds(ids, rounds);
    IdsConcat(first, Rounds(ids, rounds));
    forall i | |first| <= i < |es| ensures es[i].Receive? {
      assert es[i] == Rounds(ids, rounds)[i - |first|];
    }
  }

  /** For every cache size and every number there is a run that starts with `maxSize + 1` messages, has no
      further one, and delivers each of them that often at every node, its origin included, with frames
      still on their way: with ids forgotten too early there is no bound on what a flood reads. */
  lemma FloodNeedNotEnd(maxSize: nat, rounds: nat) returns (ids: seq<Id>, es: seq<Event>)
    ensures Distinct(ids) && |ids| == maxSize + 1 && Originates("a", ids) <= es && Ids(es) == Elements(ids)
    ensures forall i :: |Originates("a", ids)| <= i < |es| ==> es[i].Receive?
    ensures forall id, m :: id in ids && Corner(m) ==> Delivered(Run(Triangle, maxSize, es), id, m) == rounds
    ensures forall id :: id in ids ==> FloodOf(Run(Triangle, maxSize, es), id).flight != multiset{}
  {
    ids := Others(maxSize + 1);
    OthersAreDistinct(maxSize + 1);
    es := Originates("a", ids) + Rounds(ids, rounds);
    IdsOfOriginates(ids);
    OnlyReceived(Originates("a", ids), ids, rounds);
    RoundsFromStart(maxSize, ids, rounds);
  }
}
