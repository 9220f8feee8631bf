/** A crash at any point of the write queue, in any life of a node, and what is then on disk. */
module Crashes {
  import opened Base
  import opened SessionStates
  import opened Persistence
  import opened SessionManagers
  import opened Durability

  // ---- What a crash can find on disk ---------------------------------------------------------------

  function Emits(m: Manager, e: Event): seq<WriteOp> {
    match e
    case Log(op) => [op]
    case Turn(_) => []
    case Crash => []
    case _ => EffectOf(m, e).ops
  }

  /** The event changes session `sid`. */
  predicate Concerns(e: Event, sid: Sid) {
    match e
    case Log(_) => false
    case Turn(_) => false
    case Crash => false
    case _ => e.sid == sid
  }

  /** The tables that the current life, since the last crash, started from. */
  function Disk(es: seq<Event>): Tables {
    if es == [] then EmptyTables
    else
      var init := es[..|es| - 1];
      if es[|es| - 1].Crash? then Run(init).store.db else Disk(init)
  }

  /** Every write queued in the current life, in order. */
  function History(es: seq<Event>): seq<WriteOp> {
    if es == [] || es[|es| - 1].Crash? then []
    else History(es[..|es| - 1]) + Emits(Run(es[..|es| - 1]), es[|es| - 1])
  }

  /** What a crash after p durable writes of the current life leaves on disk. */
  function DiskAfter(es: seq<Event>, p: nat): Tables
    requires p <= |History(es)|
  {
    ApplyAll(Disk(es), History(es)[..p])
  }

  lemma EmitOnStore(m: Manager, e: Event)
    requires !e.Turn? && !e.Crash?
    ensures Step(m, e).store.db == m.store.db
    ensures Uncommitted(Step(m, e).store) == Uncommitted(m.store) + Emits(m, e)
  {
    if e.Log? {
      EnqueueAppliesLast(m.store, e.op);
    } else {
      EnqueueAllAppliesLast(m.store, Emits(m, e));
    }
  }

  lemma EmitsLast(m: Manager, e: Event)
    requires !e.Turn? && !e.Crash?
    ensures Effective(Step(m, e).store) == ApplyAll(Effective(m.store), Emits(m, e))
  {
    EmitOnStore(m, e);
    ApplyAllConcat(m.store.db, Uncommitted(m.store), Emits(m, e));
  }

  lemma EmitKeepsPrefix(base: Tables, m: Manager, e: Event, history: seq<WriteOp>, p: nat)
    requires !e.Turn? && !e.Crash? && p <= |history|
    requires m.store.db == ApplyAll(base, history[..p]) && Uncommitted(m.store) == history[p..]
    ensures Step(m, e).store.db == ApplyAll(base, (history + Emits(m, e))[..p])
    ensures Uncommitted(Step(m, e).store) == (history + Emits(m, e))[p..]
  {
    EmitOnStore(m, e);
    AppendAfter(history, Emits(m, e), p);
  }

  lemma AppendAfter(a: seq<WriteOp>, b: seq<WriteOp>, p: nat)
    requires p <= |a|
    ensures (a + b)[..p] == a[..p] && (a + b)[p..] == a[p..] + b
  {
  }

  /** At every moment the disk is the fold of a prefix of the writes queued in this life: a crash
      finds `DiskAfter(es, p)` for some p, and never anything else. */
  lemma {:induction false} DiskIsAPrefix(es: seq<Event>) returns (p: nat)
    ensures p <= |History(es)| && Run(es).store.db == DiskAfter(es, p)
    ensures Uncommitted(Run(es).store) == History(es)[p..]
  {
    p := 0;
    if es != [] && !es[|es| - 1].Crash? {
      var init, e := es[..|es| - 1], es[|es| - 1];
      p := DiskIsAPrefix(init);
      if e.Turn? {
        assert History(es) == History(init);
        p := TurnExtendsPrefix(Disk(es), Run(init).store, e.due, History(init), p);
      } else {
        EmitKeepsPrefix(Disk(es), Run(init), e, History(init), p);
      }
    }
  }

  /** How many writes of the current life are durable. */
  ghost function Durable(es: seq<Event>): (p: nat)
    ensures p <= |History(es)| && Run(es).store.db == DiskAfter(es, p)
  {
    DurableExists(es);
    var p: nat :| p <= |History(es)| && Run(es).store.db == DiskAfter(es, p);
    p
  }

  lemma DurableExists(es: seq<Event>)
    ensures exists p: nat :: p <= |History(es)| && Run(es).store.db == DiskAfter(es, p)
  {
    var p := DiskIsAPrefix(es);
  }

  lemma AllDurable(es: seq<Event>)
    ensures DiskAfter(es, |History(es)|) == Effective(Run(es).store)
  {
    var p := DiskIsAPrefix(es);
    var h := History(es);
    ApplyAllConcat(Disk(es), h[..p], h[p..]);
    Halves(h, p);
  }

  // ---- Where in the run a crash point lies ------------------------------------------------------------

  /** The p-th write of the current life: the number of events before it, and how many writes of the
      next event are also durable. */
  function PointOf(es: seq<Event>, p: nat): (at: (nat, nat))
    requires p <= |History(es)|
    ensures at.0 <= |es| && (at.1 > 0 ==> at.0 < |es|)
  {
    if p == |History(es)| then (|es|, 0)
    else
      var n := |es| - 1;
      if p < |History(es[..n])| then PointOf(es[..n], p) else (n, p - |History(es[..n])|)
  }

  lemma PrefixOfAppend(a: seq<WriteOp>, b: seq<WriteOp>, p: nat)
    requires p <= |a + b|
    ensures (a + b)[..p] == if p <= |a| then a[..p] else a + b[..p - |a|]
    ensures p == |a| ==> (a + b)[..p] == a + []
  {
  }

  lemma {:induction false} PointIs(es: seq<Event>, p: nat)
    requires p <= |History(es)|
    ensures var (j, q) := PointOf(es, p);
      && j <= |es| && p == |History(es[..j])| + q && Disk(es[..j]) == Disk(es)
      && (q > 0 ==> j < |es| && q < |Emits(Run(es[..j]), es[j])|)
      && History(es)[..p] == History(es[..j]) + (if q == 0 then [] else Emits(Run(es[..j]), es[j])[..q])
  {
    if p == |History(es)| {
      assert es[..|es|] == es;
      Halves(History(es), p);
    } else {
      var n := |es| - 1;
      PrefixOfAppend(History(es[..n]), Emits(Run(es[..n]), es[n]), p);
      if p < |History(es[..n])| {
        PointIs(es[..n], p);
        assert es[..n][..PointOf(es, p).0] == es[..PointOf(es, p).0];
      }
    }
  }

  /** What lies on disk at a crash point: all writes of the events before it, and the first q writes of
      the event it splits. */
  lemma DiskIsPoint(es: seq<Event>, p: nat)
    requires p <= |History(es)|
    ensures var (j, q) := PointOf(es, p);
      && j <= |es| && (q > 0 ==> j < |es| && q < |Emits(Run(es[..j]), es[j])|)
      && DiskAfter(es, p) == if q == 0 then Effective(Run(es[..j]).store)
                             else ApplyAll(Effective(Run(es[..j]).store), Emits(Run(es[..j]), es[j])[..q])
  {
    PointIs(es, p);
    var (j, q) := PointOf(es, p);
    AllDurable(es[..j]);
    Halves(History(es[..j]), |History(es[..j])|);
    if q > 0 {
      ApplyAllConcat(Disk(es), History(es[..j]), Emits(Run(es[..j]), es[j])[..q]);
    } else {
      assert History(es[..j]) + [] == History(es[..j]);
    }
  }

  /** In a run with clean loads the events before a crash point left the mirror. */
  lemma DiskAtPoint(es: seq<Event>, p: nat)
    requires AllAllowed(es) && AllClean(es) && p <= |History(es)|
    ensures var (j, q) := PointOf(es, p);
      && j <= |es| && (q > 0 ==> j < |es| && q < |Emits(Run(es[..j]), es[j])|)
      && Simulates(Run(es[..j]))
      && (q > 0 ==> Allowed(Run(es[..j]), es[j]) && CleanLoad(Run(es[..j]), es[j]))
      && DiskAfter(es, p) == if q == 0 then Effective(Run(es[..j]).store)
                             else ApplyAll(Effective(Run(es[..j]).store), Emits(Run(es[..j]), es[j])[..q])
  {
    DiskIsPoint(es, p);
    var j := PointOf(es, p).0;
    PrefixAllowed(es, j);
    PrefixClean(es, j);
    MemoryMirrorsDisk(es[..j]);
  }

  // ---- Sessions a life did not touch ------------------------------------------------------------------

  /** A session this life has not loaded has no writes in its history. */
  lemma {:induction false} UntouchedWritesNothing(es: seq<Event>, sid: Sid)
    requires AllAllowed(es) && sid !in Run(es).sessions
    ensures NoneOwnedBy(History(es), sid)
  {
    if es != [] && !es[|es| - 1].Crash? {
      var init, e := es[..|es| - 1], es[|es| - 1];
      LastAllowed(es);
      UnloadedIsUnconcerned(Run(init), e, sid);
      UntouchedWritesNothing(init, sid);
      UntouchedWrite(Run(init), e, History(init), sid);
    }
  }

  lemma LastAllowed(es: seq<Event>)
    requires es != [] && AllAllowed(es)
    ensures AllAllowed(es[..|es| - 1]) && Allowed(Run(es[..|es| - 1]), es[|es| - 1])
  {
    PrefixAllowed(es, |es| - 1);
  }

  lemma UntouchedWrite(m: Manager, e: Event, history: seq<WriteOp>, sid: Sid)
    requires Allowed(m, e) && !Concerns(e, sid) && NoneOwnedBy(history, sid)
    ensures NoneOwnedBy(history + Emits(m, e), sid)
  {
    EmitsOwned(m, e, sid);
    NoneOwnedConcat(history, Emits(m, e), sid);
  }

  lemma UnloadedIsUnconcerned(m: Manager, e: Event, sid: Sid)
    requires !e.Crash? && sid !in Step(m, e).sessions
    ensures !Concerns(e, sid) && sid !in m.sessions
  {
  }

  lemma NoneOwnedConcat(a: seq<WriteOp>, b: seq<WriteOp>, sid: Sid)
    requires NoneOwnedBy(a, sid) && NoneOwnedBy(b, sid)
    ensures NoneOwnedBy(a + b, sid)
  {
  }

  lemma EmitsOwned(m: Manager, e: Event, sid: Sid)
    requires Allowed(m, e) && !Concerns(e, sid)
    ensures NoneOwnedBy(Emits(m, e), sid)
  {
    if !e.Log? && !e.Turn? && !e.Crash? {
      EffectOwned(m, e, sid);
    }
  }

  /** It keeps the rows the previous crash left it. */
  lemma UntouchedKeepsRows(es: seq<Event>, sid: Sid, p: nat)
    requires AllAllowed(es) && sid !in Run(es).sessions && p <= |History(es)|
    ensures SameFor(Disk(es), DiskAfter(es, p), sid)
  {
    UntouchedWritesNothing(es, sid);
    UnownedOpsChangeNothing(Disk(es), History(es)[..p], sid);
  }

  // ---- Inside one event ---------------------------------------------------------------------------------

  /** No outbox row of the session has reached its counter; without a session row there are none. */
  ghost predicate Whole(t: Tables, sid: Sid) {
    if sid in t.sessions then forall n: int :: (sid, n) in t.outbox ==> n < t.sessions[sid].nextSend
    else forall n: int :: (sid, n) !in t.outbox
  }

  /** No outbox row of the session is above its counter. */
  ghost predicate AtMostCounter(t: Tables, sid: Sid) {
    sid in t.sessions ==> forall n: int :: (sid, n) in t.outbox ==> n <= t.sessions[sid].nextSend
  }

  lemma MirroredIsWhole(t: Tables, sid: Sid, s: Session)
    requires Mirrors(t, sid, s)
    ensures Whole(t, sid) && AtMostCounter(t, sid)
  {
  }

  /** The crash cut one send_message of this session in two, after save_outbound and before
      save_session. */
  predicate SplitSend(e: Event, q: nat, sid: Sid) {
    e.SendMessage? && e.sid == sid && (q == 1 || q == 2)
  }

  lemma PartialSend(t: Tables, sid: Sid, s: Session, payload: Payload, now: real, q: nat)
    requires Mirrors(t, sid, s) && (q == 1 || q == 2)
    ensures var d := ApplyAll(t, SendEffect(sid, s, payload, now).ops[..q]);
      && d.sessions == t.sessions
      && d.outbox == t.outbox[(sid, s.nextSend) := OutboxRow(payload, now, 0)]
      && AtMostCounter(d, sid) && !Whole(d, sid)
  {
    var ops := SendEffect(sid, s, payload, now).ops;
    ApplyThree(t, ops[0], ops[1], ops[2]);
    assert ops[..1] == [ops[0]] && ops[..2] == [ops[0], ops[1]];
    var d := ApplyAll(t, ops[..q]);
    assert (sid, s.nextSend) !in t.outbox && (sid, s.nextSend) in d.outbox;
  }

  lemma {:induction false} SaveRowsPrefix(sid: Sid, rows: seq<OutboundMessage>, k: nat)
    requires k <= |rows|
    ensures |SaveRows(sid, rows)| == |rows| && SaveRows(sid, rows)[..k] == SaveRows(sid, rows[..k])
  {
    if k < |rows| {
      var init := rows[..|rows| - 1];
      SaveRowsPrefix(sid, init, k);
      assert init[..k] == rows[..k];
    } else if rows != [] {
      SaveRowsPrefix(sid, rows[..|rows| - 1], 0);
      assert rows[..k] == rows;
    }
  }

  lemma SaveRowsCount(sid: Sid, rows: seq<OutboundMessage>)
    ensures |SaveRows(sid, rows)| == |rows|
  {
    SaveRowsPrefix(sid, rows, |rows|);
  }

  /** Rows with distinct seqs, all below the counter. */
  ghost predicate FitUnder(rows: seq<OutboundMessage>, counter: int) {
    var outbox := Loaded(map[], rows);
    DistinctSeqs(rows) && forall n :: n in outbox ==> n < counter
  }

  /** Some rows of a sound session, by themselves. */
  lemma PartOfRows(s: Session, k: nat)
    requires Sound(s) && k <= |Listed(s.outbox)|
    ensures FitUnder(Listed(s.outbox)[..k], s.nextSend)
  {
    ListedDistinct(s.outbox);
    ListedRows(s.outbox);
    var rows := Listed(s.outbox)[..k];
    LoadedKeyed(rows);
    forall n | n in Loaded(map[], rows) ensures n < s.nextSend {
      assert Loaded(map[], rows)[n] in rows;
      assert Files(s.outbox, Loaded(map[], rows)[n]);
    }
  }

  lemma PartialSave(t: Tables, sid: Sid, s: Session, all: seq<OutboundMessage>, q: nat)
    requires Absent(t, sid) && 0 < q <= |all| + 1 && FitUnder(all[..q - 1], s.nextSend)
    ensures |SaveRows(sid, all)| == |all|
    ensures Whole(ApplyAll(t, ([Meta(sid, s)] + SaveRows(sid, all))[..q]), sid)
  {
    SaveRowsPrefix(sid, all, q - 1);
    FirstThen(Meta(sid, s), SaveRows(sid, all), q);
    AdoptedPart(t, sid, s, all[..q - 1]);
  }

  lemma PartialAdoption(t: Tables, sid: Sid, s: Session, q: nat)
    requires Sound(s) && Absent(t, sid) && 0 < q <= |SaveRows(sid, Listed(s.outbox))| + 1
    ensures Whole(ApplyAll(t, ([Meta(sid, s)] + SaveRows(sid, Listed(s.outbox)))[..q]), sid)
  {
    var all := Listed(s.outbox);
    SaveRowsCount(sid, all);
    PartOfRows(s, q - 1);
    PartialSave(t, sid, s, all, q);
  }

  lemma PartialHydrate(t: Tables, sid: Sid, snap: Snapshot, q: nat)
    requires WellFormed(snap) && Absent(t, sid) && 0 < q <= |HydrateEffect(sid, snap).ops|
    ensures Whole(ApplyAll(t, HydrateEffect(sid, snap).ops[..q]), sid)
  {
    AdoptedIsSound(sid, snap);
    PartialAdoption(t, sid, HydrateEffect(sid, snap).session, q);
  }

  lemma FirstThen(op: WriteOp, ops: seq<WriteOp>, q: nat)
    requires 0 < q <= |ops| + 1
    ensures ([op] + ops)[..q] == [op] + ops[..q - 1]
  {
  }

  lemma AdoptedPart(t: Tables, sid: Sid, s: Session, rows: seq<OutboundMessage>)
    requires Absent(t, sid) && FitUnder(rows, s.nextSend)
    ensures Whole(ApplyAll(t, [Meta(sid, s)] + SaveRows(sid, rows)), sid)
  {
    var meta := Meta(sid, s);
    ApplyAllConcat(t, [meta], SaveRows(sid, rows));
    ApplyThree(t, meta, meta, meta);
    SavedRows(Apply(t, meta), sid, rows);
  }

  /** A crash inside an event of the session: its rows are whole unless the event is a send. */
  lemma InsideOwnEvent(m: Manager, e: Event, q: nat, sid: Sid)
    requires Simulates(m) && Allowed(m, e) && CleanLoad(m, e) && Concerns(e, sid) && 0 < q < |Emits(m, e)|
    ensures var d := ApplyAll(Effective(m.store), Emits(m, e)[..q]);
      AtMostCounter(d, sid) && (Whole(d, sid) <==> !SplitSend(e, q, sid))
  {
    OwnIsMirrored(m, e);
    var t := Effective(m.store);
    var s := SessionOf(m, sid, "general");
    if e.Hydrate? {
      PartialHydrate(t, sid, e.snap, q);
    } else if e.SendMessage? {
      PartialSend(t, sid, s, e.payload, e.now, q);
    } else {
      assert e.ReceiveMessage?;
      PartialReceive(t, sid, s, e.seqNo, e.payload, e.now);
    }
  }

  lemma PartialReceive(t: Tables, sid: Sid, s: Session, n: int, payload: Payload, now: real)
    requires Mirrors(t, sid, s) && |ReceiveEffect(sid, s, n, payload, now).ops| > 1
    ensures var d := ApplyAll(t, ReceiveEffect(sid, s, n, payload, now).ops[..1]);
      AtMostCounter(d, sid) && Whole(d, sid)
  {
    var ops := ReceiveEffect(sid, s, n, payload, now).ops;
    ApplyThree(t, ops[0], ops[1], ops[1]);
    assert ops[..1] == [ops[0]];
    MirroredIsWhole(t, sid, s);
  }

  lemma SameIsWhole(t: Tables, u: Tables, sid: Sid)
    requires SameFor(t, u, sid)
    ensures Whole(t, sid) <==> Whole(u, sid)
    ensures AtMostCounter(t, sid) <==> AtMostCounter(u, sid)
  {
  }

  /** At a crash point that splits no event of the session, its rows are those of the mirror. */
  lemma OutsideKeepsMirror(es: seq<Event>, p: nat, sid: Sid)
    requires AllAllowed(es) && AllClean(es) && p <= |History(es)|
    requires var (j, q) := PointOf(es, p); q == 0 || (j < |es| && !Concerns(es[j], sid))
    ensures SameFor(Effective(Run(es[..PointOf(es, p).0]).store), DiskAfter(es, p), sid)
  {
    DiskAtPoint(es, p);
    var (j, q) := PointOf(es, p);
    if q > 0 {
      EmitsOwned(Run(es[..j]), es[j], sid);
      UnownedOpsChangeNothing(Effective(Run(es[..j]).store), Emits(Run(es[..j]), es[j])[..q], sid);
    }
  }

  // ---- Whole runs, through any number of crashes -------------------------------------------------------

  /** The events up to the last crash. */
  function LastCrash(es: seq<Event>): (k: nat)
    ensures k <= |es| && (k > 0 ==> es[k - 1] == Crash && Disk(es) == Run(es[..k - 1]).store.db)
    ensures k == 0 ==> Disk(es) == EmptyTables
  {
    if es == [] then 0
    else if es[|es| - 1].Crash? then |es|
    else
      var k := LastCrash(es[..|es| - 1]);
      assert k > 0 ==> es[..|es| - 1][..k - 1] == es[..k - 1];
      k
  }

  /** The last crash that touched the session (this one, or an earlier one if this life never loaded
      it) split a send of it. */
  ghost predicate LastTouchSplit(es: seq<Event>, p: nat, sid: Sid)
    requires p <= |History(es)|
    decreases |es|
  {
    PointIs(es, p);
    var (j, q) := PointOf(es, p);
    if q > 0 && Concerns(es[j], sid) then SplitSend(es[j], q, sid)
    else if sid in Run(es[..j]).sessions || LastCrash(es) == 0 then false
    else
      var before := es[..LastCrash(es) - 1];
      LastTouchSplit(before, Durable(before), sid)
  }

  /** At every crash point of every life the rows of a session are at most at its counter, and all
      below it (with no row but for a known session) if and only if the last crash that touched the
      session did not split a send of it. */
  lemma {:induction false} WholeIffNotSplit(es: seq<Event>, p: nat, sid: Sid)
    requires AllAllowed(es) && AllClean(es) && p <= |History(es)|
    ensures AtMostCounter(DiskAfter(es, p), sid)
    ensures Whole(DiskAfter(es, p), sid) <==> !LastTouchSplit(es, p, sid)
    decreases |es|
  {
    DiskAtPoint(es, p);
    var (j, q) := PointOf(es, p);
    var m, d := Run(es[..j]), DiskAfter(es, p);
    if q > 0 && Concerns(es[j], sid) {
      InsideOwnEvent(m, es[j], q, sid);
    } else {
      OutsideKeepsMirror(es, p, sid);
      SameIsWhole(Effective(m.store), d, sid);
      if sid in m.sessions {
        MirroredIsWhole(Effective(m.store), sid, m.sessions[sid]);
      } else {
        UntouchedAtPoint(es, p, sid);
        SameIsWhole(Disk(es), d, sid);
        if LastCrash(es) > 0 {
          var before := es[..LastCrash(es) - 1];
          PrefixAllowed(es, |before|);
          PrefixClean(es, |before|);
          WholeIffNotSplit(before, Durable(before), sid);
        }
      }
    }
  }

  /** A session that was not loaded before the crash point has the rows of the previous crash. */
  lemma UntouchedAtPoint(es: seq<Event>, p: nat, sid: Sid)
    requires AllAllowed(es) && AllClean(es) && p <= |History(es)|
    requires var (j, q) := PointOf(es, p); q == 0 || (j < |es| && !Concerns(es[j], sid))
    requires sid !in Run(es[..PointOf(es, p).0]).sessions
    ensures SameFor(Disk(es), DiskAfter(es, p), sid)
  {
    PointIs(es, p);
    OutsideKeepsMirror(es, p, sid);
    var before := es[..PointOf(es, p).0];
    PrefixAllowed(es, |before|);
    UntouchedKeepsRows(before, sid, |History(before)|);
    AllDurable(before);
  }
}
