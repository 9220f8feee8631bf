/** The bounded LRU set of message ids (node/dedup_cache.py).  The OrderedDict is the
    sequence of its keys, oldest first. */
module DedupCaches {
  import opened Base

  type Id = string

  const DEFAULT_MAX_SIZE: int := 20_000

  /** OrderedDict without one key, order kept. */
  function Without(s: seq<Id>, id: Id): (r: seq<Id>)
    ensures forall x :: x in r <==> x in s && x != id
  {
    if s == [] then []
    else if s[0] == id then
      assert s == [s[0]] + s[1..];
      Without(s[1..], id)
    else
      assert s == [s[0]] + s[1..];
      [s[0]] + Without(s[1..], id)
  }

  lemma {:induction false} WithoutAbsent(s: seq<Id>, id: Id)
    requires id !in s
    ensures Without(s, id) == s
  {
    if s != [] {
      assert s == [s[0]] + s[1..];
      WithoutAbsent(s[1..], id);
    }
  }

  lemma {:induction false} WithoutDistinct(s: seq<Id>, id: Id)
    requires Distinct(s)
    ensures Distinct(Without(s, id))
  {
    if s != [] {
      WithoutDistinct(s[1..], id);
      assert s[0] !in s[1..];
    }
  }

  /** One `seen_before` call on the key list. */
  function Query(maxSize: int, seen: seq<Id>, id: Id): seq<Id> {
    if id in seen then Without(seen, id) + [id]
    else
      var grown := seen + [id];
      if |grown| > maxSize then grown[1..] else grown
  }

  /** The key list after a history of calls on a fresh cache. */
  function After(maxSize: int, history: seq<Id>): seq<Id> {
    if history == [] then []
    else Query(maxSize, After(maxSize, history[..|history| - 1]), history[|history| - 1])
  }

  // ---- What the cache is for, said without the cache -------------------------------

  /** The ids queried after the last query for `id`. */
  ghost function Since(history: seq<Id>, id: Id): set<Id> {
    if history == [] || history[|history| - 1] == id then {}
    else Since(history[..|history| - 1], id) + {history[|history| - 1]}
  }

  /** `id` is among the `maxSize` most recently queried distinct ids. */
  ghost predicate Recent(maxSize: int, history: seq<Id>, id: Id) {
    id in history && |Since(history, id)| < maxSize
  }

  /** All distinct ids of a history, ordered by their last query. */
  ghost function ByLastQuery(history: seq<Id>): seq<Id> {
    if history == [] then []
    else
      var n := |history| - 1;
      Without(ByLastQuery(history[..n]), history[n]) + [history[n]]
  }

  ghost function LastN(s: seq<Id>, n: int): seq<Id> {
    if n <= 0 then [] else if |s| <= n then s else s[|s| - n..]
  }

  /** Everything queried after s[i] stands behind it. */
  ghost predicate OrderedBySince(history: seq<Id>, s: seq<Id>) {
    forall i :: 0 <= i < |s| ==> Since(history, s[i]) == Elements(s[i + 1..])
  }

  lemma SinceStep(history: seq<Id>, x: Id, id: Id)
    ensures Since(history + [x], id) == if x == id then {} else Since(history, id) + {x}
  {
    assert (history + [x])[..|history|] == history;
  }

  /** Removing a key from a duplicate-free list closes the gap. */
  lemma {:induction false} WithoutAt(s: seq<Id>, k: nat)
    requires Distinct(s) && k < |s|
    ensures Without(s, s[k]) == s[..k] + s[k + 1..]
  {
    assert s == [s[0]] + s[1..];
    if k == 0 {
      assert s[0] !in s[1..];
      WithoutAbsent(s[1..], s[0]);
    } else {
      WithoutAt(s[1..], k - 1);
      assert s[1..][..k - 1] == s[1..k];
      assert s[1..][k..] == s[k + 1..];
    }
  }

  /** Behind position i: the moved key if it stood further back, everything else unchanged. */
  lemma BehindAfterMove(s: seq<Id>, k: nat, i: nat)
    requires k < |s| && i < |s| - 1
    ensures var r := s[..k] + s[k + 1..] + [s[k]];
      Elements(r[i + 1..]) == if i < k then Elements(s[i + 1..]) else Elements(s[i + 2..]) + {s[k]}
  {
    var r := s[..k] + s[k + 1..] + [s[k]];
    if i < k {
      assert r[i + 1..] == s[i + 1..k] + s[k + 1..] + [s[k]];
      assert s[i + 1..] == s[i + 1..k] + [s[k]] + s[k + 1..];
    } else {
      assert r[i + 1..] == s[i + 2..] + [s[k]];
    }
  }

  lemma OrderedAfterMove(history: seq<Id>, s: seq<Id>, k: nat, i: nat)
    requires Distinct(s) && OrderedBySince(history, s)
    requires k < |s| && i < |s| - 1
    ensures var r := s[..k] + s[k + 1..] + [s[k]]; Since(history + [s[k]], r[i]) == Elements(r[i + 1..])
  {
    var r := s[..k] + s[k + 1..] + [s[k]];
    BehindAfterMove(s, k, i);
    SinceStep(history, s[k], r[i]);
    if i < k {
      assert r[i] == s[i] && s[i + 1..][k - i - 1] == s[k];
    } else {
      assert r[i] == s[i + 1];
    }
  }

  lemma OrderedStep(history: seq<Id>, s: seq<Id>, x: Id, i: nat)
    requires Distinct(s) && OrderedBySince(history, s)
    requires i < |Without(s, x) + [x]|
    ensures var r := Without(s, x) + [x]; Since(history + [x], r[i]) == Elements(r[i + 1..])
  {
    var r := Without(s, x) + [x];
    if i == |r| - 1 {
      SinceStep(history, x, x);
    } else if x in s {
      var k :| 0 <= k < |s| && s[k] == x;
      WithoutAt(s, k);
      OrderedAfterMove(history, s, k, i);
    } else {
      WithoutAbsent(s, x);
      SinceStep(history, x, s[i]);
      assert r[i + 1..] == s[i + 1..] + [x];
      ElementsConcat(s[i + 1..], [x]);
    }
  }

  lemma {:induction false} ByLastQueryIsOrdered(history: seq<Id>)
    ensures Distinct(ByLastQuery(history)) && Elements(ByLastQuery(history)) == Elements(history)
    ensures OrderedBySince(history, ByLastQuery(history))
  {
    if history != [] {
      var n := |history| - 1;
      var s := ByLastQuery(history[..n]);
      ByLastQueryIsOrdered(history[..n]);
      assert history == history[..n] + [history[n]];
      ElementsConcat(history[..n], [history[n]]);
      WithoutDistinct(s, history[n]);
      assert Elements(Without(s, history[n])) == Elements(s) - {history[n]};
      ElementsConcat(Without(s, history[n]), [history[n]]);
      forall i | 0 <= i < |ByLastQuery(history)|
        ensures Since(history, ByLastQuery(history)[i]) == Elements(ByLastQuery(history)[i + 1..])
      {
        OrderedStep(history[..n], s, history[n], i);
      }
    }
  }

  /** Moving one key to the end, then dropping keys before it from the front, or the reverse. */
  lemma MoveThenDrop(s: seq<Id>, off: nat, k: nat)
    requires off <= k < |s|
    ensures s[off..][..k - off] + s[off..][k - off + 1..] + [s[k]] == (s[..k] + s[k + 1..] + [s[k]])[off..]
  {
  }

  /** The bounded list is the tail of the unbounded one: on a hit ... */
  lemma HitKeepsTail(s: seq<Id>, off: nat, k: nat)
    requires Distinct(s) && off <= k < |s|
    ensures |Without(s, s[k])| == |s| - 1
    ensures Without(s[off..], s[k]) + [s[k]] == (Without(s, s[k]) + [s[k]])[off..]
  {
    assert s[off..][k - off] == s[k];
    WithoutAt(s[off..], k - off);
    WithoutAt(s, k);
    MoveThenDrop(s, off, k);
  }

  /** ... on a query for a forgotten key ... */
  lemma MissKeepsTail(s: seq<Id>, off: nat, k: nat)
    requires Distinct(s) && k < off <= |s|
    ensures |Without(s, s[k])| == |s| - 1
    ensures (s[off..] + [s[k]])[1..] == (Without(s, s[k]) + [s[k]])[off..]
  {
    WithoutAt(s, k);
  }

  /** Where the last n keys of `length` start. */
  function TailStart(length: nat, n: int): (off: nat)
    ensures off <= length
  {
    if n <= 0 then length else if length <= n then 0 else length - n
  }

  lemma LastNIs(s: seq<Id>, n: int)
    ensures LastN(s, n) == s[TailStart(|s|, n)..]
  {
  }

  lemma OldKeepsTail(maxSize: int, s: seq<Id>, k: nat)
    requires Distinct(s) && k < |s|
    ensures Query(maxSize, LastN(s, maxSize), s[k]) == LastN(Without(s, s[k]) + [s[k]], maxSize)
  {
    LastNIs(s, maxSize);
    LastNIs(Without(s, s[k]) + [s[k]], maxSize);
    var off := TailStart(|s|, maxSize);
    if off <= k {
      assert s[off..][k - off] == s[k];
      HitKeepsTail(s, off, k);
    } else {
      assert s[k] !in s[off..];
      MissKeepsTail(s, off, k);
    }
  }

  lemma NewKeepsTail(maxSize: int, s: seq<Id>, x: Id)
    requires x !in s
    ensures Query(maxSize, LastN(s, maxSize), x) == LastN(s + [x], maxSize)
  {
    LastNIs(s, maxSize);
    LastNIs(s + [x], maxSize);
    var off := TailStart(|s|, maxSize);
    assert s[off..] + [x] == (s + [x])[off..];
    assert x !in s[off..];
    assert (s + [x])[off..][1..] == (s + [x])[off + 1..];
  }

  /** ... and so on every query. */
  lemma QueryKeepsTail(maxSize: int, s: seq<Id>, x: Id)
    requires Distinct(s)
    ensures Query(maxSize, LastN(s, maxSize), x) == LastN(Without(s, x) + [x], maxSize)
  {
    if x in s {
      var k :| 0 <= k < |s| && s[k] == x;
      OldKeepsTail(maxSize, s, k);
    } else {
      WithoutAbsent(s, x);
      NewKeepsTail(maxSize, s, x);
    }
  }

  lemma {:induction false} AfterIsTail(maxSize: int, history: seq<Id>)
    ensures After(maxSize, history) == LastN(ByLastQuery(history), maxSize)
  {
    if history != [] {
      var n := |history| - 1;
      AfterIsTail(maxSize, history[..n]);
      ByLastQueryIsOrdered(history[..n]);
      QueryKeepsTail(maxSize, ByLastQuery(history[..n]), history[n]);
    }
  }

  /** LRU exactness: after any history the cache answers True for `id` exactly when it is
      one of the `maxSize` most recently queried distinct ids; and it never outgrows its bound. */
  lemma LruExact(maxSize: int, history: seq<Id>, id: Id)
    ensures id in After(maxSize, history) <==> Recent(maxSize, history, id)
    ensures |After(maxSize, history)| <= if maxSize < 0 then 0 else maxSize
  {
    AfterIsTail(maxSize, history);
    ByLastQueryIsOrdered(history);
    var all := ByLastQuery(history);
    assert id in Elements(all) <==> id in Elements(history);
    if id in all {
      var k :| 0 <= k < |all| && all[k] == id;
      DistinctCardinality(all[k + 1..]);
      assert |Since(history, id)| == |all| - 1 - k;
      InTail(all, maxSize, k);
    } else {
      assert id !in LastN(all, maxSize);
    }
  }

  lemma InTail(s: seq<Id>, n: int, k: nat)
    requires Distinct(s) && k < |s|
    ensures s[k] in LastN(s, n) <==> |s| - 1 - k < n
  {
    var off := |s| - |LastN(s, n)|;
    assert LastN(s, n) == s[off..];
    if off <= k {
      assert s[off..][k - off] == s[k];
    }
  }

  /** Until more than `maxSize` distinct ids were queried the bounded cache answers like an
      ever-growing set; from then on some queried id is forgotten. */
  lemma AgreesWithUnboundedSet(maxSize: int, history: seq<Id>)
    ensures |Elements(history)| <= maxSize ==> forall id :: id in After(maxSize, history) <==> id in history
    ensures |Elements(history)| > maxSize && history != [] ==>
        exists id :: id in history && id !in After(maxSize, history)
  {
    AfterIsTail(maxSize, history);
    ByLastQueryIsOrdered(history);
    var all := ByLastQuery(history);
    DistinctCardinality(all);
    forall id ensures id in all <==> id in history {
      assert id in Elements(all) <==> id in Elements(history);
    }
    if |Elements(history)| > maxSize && history != [] {
      assert history[0] in all;
      var forgotten := all[0];
      assert forgotten in history && forgotten !in After(maxSize, history);
    }
  }

  // ---- The class --------------------------------------------------------------------

  class DedupCache {
    const maxSize: int
    var seen: seq<Id>
    ghost var queried: seq<Id>

    ghost predicate Valid()
      reads this
    {
      seen == After(maxSize, queried)
    }

    constructor (maxSize: int := DEFAULT_MAX_SIZE)
      ensures Valid() && queried == [] && seen == [] && this.maxSize == maxSize
    {
      this.maxSize := maxSize;
      seen := [];
      queried := [];
    }

    /** Atomic check-and-record. */
    method SeenBefore(id: Id) returns (duplicate: bool)
      requires Valid()
      modifies this
      ensures Valid() && queried == old(queried) + [id]
      ensures duplicate <==> Recent(maxSize, old(queried), id)
      ensures |seen| <= if maxSize < 0 then 0 else maxSize
    {
      LruExact(maxSize, queried, id);
      LruExact(maxSize, queried + [id], id);
      assert (queried + [id])[..|queried|] == queried;
      queried := queried + [id];
      if id in seen {
        seen := Without(seen, id) + [id];
        return true;
      }
      seen := seen + [id];
      if |seen| > maxSize {
        seen := seen[1..];
      }
      return false;
    }

    function Len(): nat
      reads this
    {
      |seen|
    }
  }
}
