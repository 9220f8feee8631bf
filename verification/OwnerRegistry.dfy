/** The "newest owner wins" registries: `_peer_writers` of node/mesh.py and `_connections` of
    node/server.py.  Opening a link overwrites the entry for its key; closing a link clears
    the entry only while that link is still the one on file. */
module OwnerRegistry {
  datatype Event<K, W> = Open(key: K, owner: W) | Close(key: K, owner: W)

  function Step<K(==), W(==)>(reg: map<K, W>, e: Event<K, W>): map<K, W> {
    match e
    case Open(k, w) => reg[k := w]
    case Close(k, w) => if k in reg && reg[k] == w then reg - {k} else reg
  }

  function Run<K(==), W(==)>(es: seq<Event<K, W>>): map<K, W> {
    if es == [] then map[] else Step(Run(es[..|es| - 1]), es[|es| - 1])
  }

  /** `w` was the last link opened for `k` and has not been closed since. */
  ghost predicate NewestIsOpen<K, W>(es: seq<Event<K, W>>, k: K, w: W) {
    exists i :: 0 <= i < |es| && NewestAt(es, k, w, i)
  }

  ghost predicate NewestAt<K, W>(es: seq<Event<K, W>>, k: K, w: W, i: int)
    requires 0 <= i < |es|
  {
    && es[i] == Open(k, w)
    && forall j :: i < j < |es| ==> es[j] != Close(k, w) && !(es[j].Open? && es[j].key == k)
  }

  /** In every run an entry is on file exactly for the newest link of its key, and only while
      that link is open: an older live link is neither removed nor brought back. */
  lemma {:induction false} NewestOwnerLaw<K, W>(es: seq<Event<K, W>>, k: K, w: W)
    ensures k in Run(es) && Run(es)[k] == w <==> NewestIsOpen(es, k, w)
  {
    if es != [] {
      var n := |es| - 1;
      NewestOwnerLaw(es[..n], k, w);
      assert es == es[..n] + [es[n]];
      if NewestIsOpen(es[..n], k, w) && es[n] != Close(k, w) && !(es[n].Open? && es[n].key == k) {
        var i :| 0 <= i < n && NewestAt(es[..n], k, w, i);
        assert NewestAt(es, k, w, i);
      }
      if NewestIsOpen(es, k, w) {
        var i :| 0 <= i < |es| && NewestAt(es, k, w, i);
        if i < n {
          assert forall j :: i < j < n ==> es[..n][j] == es[j];
          assert NewestAt(es[..n], k, w, i);
        }
      }
      if es[n] == Open(k, w) {
        assert NewestAt(es, k, w, n);
      }
    }
  }
}
