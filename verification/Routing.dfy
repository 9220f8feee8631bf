/** Choosing a backend (ingress/lb.py, `_pick_backend`): sticky first, then round robin over the
    routable backends not excluded, and the arithmetic of taking turns. */
module Routing {
  import opened Base
  import opened BackendPool

  type SessionId = string

  /** Members are objects, and sticky entries name objects (perhaps no longer in the pool). */
  ghost predicate StickyOk(p: Pool, sticky: map<SessionId, nat>) {
    forall sid :: sid in sticky ==> sticky[sid] < |p.objs|
  }

  ghost predicate ObjectsOf(p: Pool, s: set<nat>) {
    forall o :: o in s ==> o < |p.objs|
  }

  /** `in excluded`: the object itself, or one whose fields are equal at this moment. */
  predicate Excluded(p: Pool, excluded: set<nat>, o: nat)
    requires o < |p.objs| && forall e :: e in excluded ==> e < |p.objs|
  {
    exists e :: e in excluded && (e == o || p.objs[e] == p.objs[o])
  }

  /** The routable members not excluded, in pool order. */
  function Candidates(p: Pool, excluded: set<nat>, n: nat): (r: seq<nat>)
    requires n <= |p.members| && forall j :: 0 <= j < |p.members| ==> p.members[j] < |p.objs|
    requires forall e :: e in excluded ==> e < |p.objs|
    ensures |r| <= n
  {
    if n == 0 then []
    else
      var o := p.members[n - 1];
      var before := Candidates(p, excluded, n - 1);
      if p.objs[o].Routable() && !Excluded(p, excluded, o) then before + [o] else before
  }

  lemma {:induction false} CandidatesAre(p: Pool, excluded: set<nat>, n: nat)
    requires PoolOk(p) && ObjectsOf(p, excluded) && n <= |p.members|
    ensures forall o :: o in Candidates(p, excluded, n) ==> o < |p.objs|
    ensures forall o :: o in Candidates(p, excluded, n) <==>
        o in p.members[..n] && p.objs[o].Routable() && !Excluded(p, excluded, o)
  {
    if n > 0 {
      CandidatesAre(p, excluded, n - 1);
      assert p.members[..n] == p.members[..n - 1] + [p.members[n - 1]];
    }
  }

  lemma {:induction false} CandidatesDistinct(p: Pool, excluded: set<nat>, n: nat)
    requires PoolOk(p) && ObjectsOf(p, excluded) && n <= |p.members|
    ensures Distinct(Candidates(p, excluded, n))
  {
    if n > 0 {
      CandidatesDistinct(p, excluded, n - 1);
      CandidatesAre(p, excluded, n - 1);
      assert p.members[n - 1] !in p.members[..n - 1];
    }
  }

  function RoutableMembers(p: Pool): seq<nat>
    requires PoolOk(p)
  {
    Candidates(p, {}, |p.members|)
  }

  /** The sticky target, if it may still be used. */
  function StickyTarget(p: Pool, sticky: map<SessionId, nat>, sid: Option<SessionId>, excluded: set<nat>): Option<nat>
    requires StickyOk(p, sticky) && ObjectsOf(p, excluded)
  {
    if sid.Some? && sid.value in sticky && p.objs[sticky[sid.value]].Routable()
        && !Excluded(p, excluded, sticky[sid.value])
    then Some(sticky[sid.value]) else None
  }

  datatype Choice = Choice(backend: Option<nat>, rrIndex: nat)

  /** _pick_backend */
  function Pick(p: Pool, sticky: map<SessionId, nat>, rr: nat, sid: Option<SessionId>, excluded: set<nat>): Choice
    requires PoolOk(p) && StickyOk(p, sticky) && ObjectsOf(p, excluded)
  {
    var target := StickyTarget(p, sticky, sid, excluded);
    var candidates := Candidates(p, excluded, |p.members|);
    if target.Some? then Choice(target, rr)
    else if candidates == [] then Choice(None, rr)
    else Choice(Some(candidates[rr % |candidates|]), rr + 1)
  }

  // ---- What a pick is ------------------------------------------------------------------------------

  /** The object is healthy, not paused, and neither it nor one with equal fields is excluded. */
  ghost predicate Eligible(p: Pool, excluded: set<nat>, o: nat)
    requires ObjectsOf(p, excluded) && o < |p.objs|
  {
    && p.objs[o].healthy && !p.objs[o].manualDown
    && o !in excluded && forall e :: e in excluded ==> p.objs[e] != p.objs[o]
  }

  /** Ascending places in the list of members. */
  ghost predicate PlacesOf(p: Pool, places: seq<nat>, list: seq<nat>) {
    && |places| == |list|
    && (forall i :: 0 <= i < |places| ==> places[i] < |p.members| && p.members[places[i]] == list[i])
    && (forall i, j :: 0 <= i < j < |places| ==> places[i] < places[j])
  }

  /** `list` is the eligible members, in pool order. */
  ghost predicate Lists(p: Pool, excluded: set<nat>, list: seq<nat>)
    requires PoolOk(p) && ObjectsOf(p, excluded)
  {
    && (exists places :: PlacesOf(p, places, list))
    && (forall o :: o in list <==> o in p.members && o < |p.objs| && Eligible(p, excluded, o))
  }

  lemma {:induction false} CandidatesInOrder(p: Pool, excluded: set<nat>, n: nat) returns (places: seq<nat>)
    requires PoolOk(p) && ObjectsOf(p, excluded) && n <= |p.members|
    ensures PlacesOf(p, places, Candidates(p, excluded, n))
    ensures forall i :: 0 <= i < |places| ==> places[i] < n
  {
    places := [];
    if n > 0 {
      places := CandidatesInOrder(p, excluded, n - 1);
      if Candidates(p, excluded, n) != Candidates(p, excluded, n - 1) {
        places := places + [n - 1];
      }
    }
  }

  lemma CandidatesAreEligible(p: Pool, excluded: set<nat>)
    requires PoolOk(p) && ObjectsOf(p, excluded)
    ensures Lists(p, excluded, Candidates(p, excluded, |p.members|))
  {
    var list := Candidates(p, excluded, |p.members|);
    var places := CandidatesInOrder(p, excluded, |p.members|);
    assert PlacesOf(p, places, list);
    CandidatesAre(p, excluded, |p.members|);
    assert p.members[..|p.members|] == p.members;
    assert forall o :: o in p.members ==> o < |p.objs|;
  }

  /** The session is mapped to an object that may be picked. */
  ghost predicate SticksTo(p: Pool, sticky: map<SessionId, nat>, sid: Option<SessionId>, excluded: set<nat>)
    requires StickyOk(p, sticky) && ObjectsOf(p, excluded)
  {
    sid.Some? && sid.value in sticky && Eligible(p, excluded, sticky[sid.value])
  }

  /** A session mapped to an eligible object gets it, and the rotation index stays.  In every other case the
      pick is the index's turn among the eligible members in pool order, which moves the index on; there is
      none exactly if no member is eligible. */
  lemma PickIsAdmissible(p: Pool, sticky: map<SessionId, nat>, rr: nat, sid: Option<SessionId>, excluded: set<nat>)
    returns (list: seq<nat>)
    requires PoolOk(p) && StickyOk(p, sticky) && ObjectsOf(p, excluded)
    ensures Lists(p, excluded, list)
    ensures Pick(p, sticky, rr, sid, excluded) ==
            if SticksTo(p, sticky, sid, excluded) then Choice(Some(sticky[sid.value]), rr)
            else if list == [] then Choice(None, rr) else Choice(Some(list[rr % |list|]), rr + 1)
  {
    list := Candidates(p, excluded, |p.members|);
    CandidatesAreEligible(p, excluded);
  }

  /** So a pick is always eligible, and a member unless it is the session's own mapping. */
  lemma PickIsEligible(p: Pool, sticky: map<SessionId, nat>, rr: nat, sid: Option<SessionId>, excluded: set<nat>)
    requires PoolOk(p) && StickyOk(p, sticky) && ObjectsOf(p, excluded)
    ensures var c := Pick(p, sticky, rr, sid, excluded).backend;
      && (c.Some? ==> c.value < |p.objs| && Eligible(p, excluded, c.value))
      && (c.Some? ==> c.value in p.members || (sid.Some? && sid.value in sticky && c.value == sticky[sid.value]))
      && (c.None? ==> forall o :: o in p.members && o < |p.objs| ==> !Eligible(p, excluded, o))
  {
    var list := PickIsAdmissible(p, sticky, rr, sid, excluded);
    if list != [] {
      assert list[rr % |list|] in list;
      assert list[0] in list;
    }
  }

  // ---- Taking turns -----------------------------------------------------------------------------

  /** How many of the turns rr, rr+1, ..., rr+k-1 over n places fall on place j. */
  function Turns(rr: nat, k: nat, n: nat, j: nat): nat
    requires n > 0
  {
    if k == 0 then 0
    else Turns(rr, k - 1, n, j) + (if (rr + (k - 1)) % n == j then 1 else 0)
  }

  lemma Quotient(x: nat, n: nat, q: nat, r: nat)
    requires r < n && x == q * n + r
    ensures x / n == q && x % n == r
  {
    var e := x / n - q;
    assert x / n * n == q * n + e * n;
    assert e * n + x % n == r;
    assert (e >= 1 ==> e * n >= n) && (e <= -1 ==> e * n <= -1 * n);
  }

  /** Counting up by one: the remainder grows, or wraps and carries into the quotient. */
  lemma NextTurn(k: nat, n: nat)
    requires n > 0
    ensures if k % n + 1 < n then (k + 1) / n == k / n && (k + 1) % n == k % n + 1
            else (k + 1) / n == k / n + 1 && (k + 1) % n == 0
  {
    var q, r := k / n, k % n;
    assert k == q * n + r;
    if r + 1 < n {
      Quotient(k + 1, n, q, r + 1);
    } else {
      assert (q + 1) * n == q * n + n;
      Quotient(k + 1, n, q + 1, 0);
    }
  }

  /** How long the turn takes to come to j. */
  function Wait(rr: nat, n: nat, j: nat): (d: nat)
    requires j < n
    ensures d < n
  {
    if rr % n <= j then j - rr % n else j + n - rr % n
  }

  lemma {:induction false} TurnComes(rr: nat, t: nat, n: nat, j: nat)
    requires j < n
    ensures (rr + t) % n == j <==> t % n == Wait(rr, n, j)
    ensures (rr + t) % n == if rr % n + t % n < n then rr % n + t % n else rr % n + t % n - n
  {
    if t == 0 {
      Quotient(0, n, 0, 0);
    } else {
      TurnComes(rr, t - 1, n, j);
      NextTurn(rr + (t - 1), n);
      NextTurn(t - 1, n);
    }
  }

  /** Place j gets one turn in every whole round, and one more if the last, partial round reaches it. */
  lemma {:induction false} TurnsAre(rr: nat, k: nat, n: nat, j: nat)
    requires j < n
    ensures Turns(rr, k, n, j) == k / n + (if Wait(rr, n, j) < k % n then 1 else 0)
  {
    if k == 0 {
      Quotient(0, n, 0, 0);
    } else {
      TurnsAre(rr, k - 1, n, j);
      TurnComes(rr, k - 1, n, j);
      NextTurn(k - 1, n);
    }
  }

  /** x is k/n rounded down or up. */
  predicate FairShare(x: nat, k: nat, n: nat)
    requires n > 0
  {
    k / n <= x <= k / n + (if k % n == 0 then 0 else 1)
  }

  lemma TurnsAreFair(rr: nat, k: nat, n: nat, j: nat)
    requires j < n
    ensures FairShare(Turns(rr, k, n, j), k, n)
  {
    TurnsAre(rr, k, n, j);
  }

  // ---- Fairness of the rotation --------------------------------------------------------------------

  /** The rotation index after a series of picks over an unchanging pool. */
  function IndexAfter(p: Pool, sticky: map<SessionId, nat>, rr: nat, sids: seq<Option<SessionId>>): nat
    requires PoolOk(p) && StickyOk(p, sticky)
  {
    if sids == [] then rr
    else Pick(p, sticky, IndexAfter(p, sticky, rr, sids[..|sids| - 1]), sids[|sids| - 1], {}).rrIndex
  }

  /** How many of the picks were not sticky. */
  ghost function Rotations(p: Pool, sticky: map<SessionId, nat>, sids: seq<Option<SessionId>>): nat
    requires PoolOk(p) && StickyOk(p, sticky)
  {
    if sids == [] then 0
    else
      Rotations(p, sticky, sids[..|sids| - 1])
      + (if SticksTo(p, sticky, sids[|sids| - 1], {}) then 0 else 1)
  }

  /** How many of the picks that were not sticky chose backend o. */
  ghost function RotatedTo(p: Pool, sticky: map<SessionId, nat>, rr: nat, sids: seq<Option<SessionId>>, o: nat): nat
    requires PoolOk(p) && StickyOk(p, sticky)
  {
    if sids == [] then 0
    else
      var init, sid := sids[..|sids| - 1], sids[|sids| - 1];
      RotatedTo(p, sticky, rr, init, o)
      + (if !SticksTo(p, sticky, sid, {})
          && Pick(p, sticky, IndexAfter(p, sticky, rr, init), sid, {}).backend == Some(o)
         then 1 else 0)
  }

  lemma {:induction false} RotationTakesTurns(p: Pool, sticky: map<SessionId, nat>, rr: nat,
                                              sids: seq<Option<SessionId>>, j: nat)
    requires PoolOk(p) && StickyOk(p, sticky) && j < |RoutableMembers(p)|
    ensures IndexAfter(p, sticky, rr, sids) == rr + Rotations(p, sticky, sids)
    ensures RotatedTo(p, sticky, rr, sids, RoutableMembers(p)[j])
        == Turns(rr, Rotations(p, sticky, sids), |RoutableMembers(p)|, j)
  {
    if sids != [] {
      RotationTakesTurns(p, sticky, rr, sids[..|sids| - 1], j);
      CandidatesDistinct(p, {}, |p.members|);
    }
  }

  /** Round-robin fairness: from any rotation index, over any series of picks, sticky ones mixed in
      anywhere, the k picks that are not sticky fall on each of the n routable backends k/n times
      rounded down or up; sticky picks go to the sticky target and do not advance the rotation. */
  lemma RoundRobinIsFair(p: Pool, sticky: map<SessionId, nat>, rr: nat, sids: seq<Option<SessionId>>, o: nat)
    requires PoolOk(p) && StickyOk(p, sticky) && o in p.members && p.objs[o].Routable()
    ensures RoutableMembers(p) != []
    ensures FairShare(RotatedTo(p, sticky, rr, sids, o), Rotations(p, sticky, sids), |RoutableMembers(p)|)
    ensures IndexAfter(p, sticky, rr, sids) == rr + Rotations(p, sticky, sids)
  {
    CandidatesAre(p, {}, |p.members|);
    assert p.members[..|p.members|] == p.members;
    assert o in RoutableMembers(p);
    var j :| 0 <= j < |RoutableMembers(p)| && RoutableMembers(p)[j] == o;
    RotationTakesTurns(p, sticky, rr, sids, j);
    TurnsAreFair(rr, Rotations(p, sticky, sids), |RoutableMembers(p)|, j);
  }
}
