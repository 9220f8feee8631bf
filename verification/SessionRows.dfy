/** What the durable session row of a session says, at every crash point of every life: the counter, the
    watermark and the room the session had in memory after its last event that made its row durable. */
module SessionRows {
  import opened Base
  import opened SessionStates
  import opened Persistence
  import opened SessionManagers
  import opened Durability
  import opened Crashes

  /** The events that save the session row: a send to the client, a frame admitted from it, a room
      change and an adoption.  ACKs, resends and new connections do not. */
  predicate Saves(m: Manager, e: Event, sid: Sid) {
    match e
    case SendMessage(to, _, _) => to == sid
    case ReceiveMessage(from, n, _, _) =>
      from == sid && (var s := SessionOf(m, sid, "general"); n > s.last && n !in s.seen)
    case SetRoom(who, _) => who == sid
    case Hydrate(who, _) => who == sid
    case _ => false
  }

  /** The row is among the first q writes of the event: a send saves it last, after two other writes, an
      admitted frame after the log row, the others first. */
  predicate SavesWithin(m: Manager, e: Event, q: nat, sid: Sid) {
    Saves(m, e, sid) && q >= (if e.SendMessage? then 3 else if e.ReceiveMessage? then 2 else 1)
  }

  /** How many events there were up to the last one that saved the row, of everything queued, in this
      life or durably in earlier ones. */
  ghost function LastSaved(es: seq<Event>, sid: Sid): (k: Option<nat>)
    ensures k.Some? ==> 0 < k.value <= |es|
    decreases |es|, 0
  {
    if es == [] then None
    else
      var init, e := es[..|es| - 1], es[|es| - 1];
      if e.Crash? then DurablySaved(init, Durable(init), sid)
      else if Saves(Run(init), e, sid) then Some(|es|)
      else LastSaved(init, sid)
  }

  /** The same for what is durable at a crash point: by the event the crash splits, else before it. */
  ghost function DurablySaved(es: seq<Event>, p: nat, sid: Sid): (k: Option<nat>)
    requires p <= |History(es)|
    ensures k.Some? ==> 0 < k.value <= |es|
    decreases |es|, 1
  {
    PointIs(es, p);
    var (j, q) := PointOf(es, p);
    if q > 0 && SavesWithin(Run(es[..j]), es[j], q, sid) then Some(j + 1) else LastSaved(es[..j], sid)
  }

  /** The row of the session is what `saved` had in memory; without it there is none. */
  ghost predicate RowIs(t: Tables, sid: Sid, saved: Option<Session>) {
    && (sid in t.sessions <==> saved.Some?)
    && (saved.Some? ==>
          && t.sessions[sid].nextSend == saved.value.nextSend
          && t.sessions[sid].lastProcessed == saved.value.last
          && t.sessions[sid].room == saved.value.room)
  }

  /** The session in memory after the first k events. */
  ghost function After(es: seq<Event>, k: Option<nat>, sid: Sid): Option<Session>
    requires k.Some? ==> k.value <= |es|
  {
    if k.Some? && sid in Run(es[..k.value]).sessions then Some(Run(es[..k.value]).sessions[sid]) else None
  }

  // ---- What one event writes -----------------------------------------------------------------------------

  ghost predicate SavesNothing(ops: seq<WriteOp>, sid: Sid) {
    forall i :: 0 <= i < |ops| ==> !(ops[i].SaveSession? && ops[i].sid == sid)
  }

  lemma {:induction false} UnsavedKeepsRow(t: Tables, ops: seq<WriteOp>, sid: Sid)
    requires SavesNothing(ops, sid)
    ensures sid in ApplyAll(t, ops).sessions <==> sid in t.sessions
    ensures sid in t.sessions ==> ApplyAll(t, ops).sessions[sid] == t.sessions[sid]
  {
    if ops != [] {
      var n := |ops| - 1;
      UnsavedKeepsRow(t, ops[..n], sid);
      assert !(ops[n].SaveSession? && ops[n].sid == sid);
    }
  }

  lemma UnsavedKeepsRowIs(t: Tables, ops: seq<WriteOp>, sid: Sid, saved: Option<Session>)
    requires SavesNothing(ops, sid) && RowIs(t, sid, saved)
    ensures RowIs(ApplyAll(t, ops), sid, saved)
  {
    UnsavedKeepsRow(t, ops, sid);
  }

  lemma {:induction false} RowsSaveNothing(sid: Sid, rows: seq<OutboundMessage>, who: Sid)
    ensures SavesNothing(SaveRows(sid, rows), who)
  {
    if rows != [] {
      RowsSaveNothing(sid, rows[..|rows| - 1], who);
    }
  }

  lemma UnownedSavesNothing(ops: seq<WriteOp>, sid: Sid)
    requires NoneOwnedBy(ops, sid)
    ensures SavesNothing(ops, sid)
  {
    forall i | 0 <= i < |ops| ensures !(ops[i].SaveSession? && ops[i].sid == sid) {
      assert Owner(ops[i]) != Some(sid);
    }
  }

  lemma AckSavesNothing(sid: Sid, s: Session, n: int)
    ensures SavesNothing(AckEffect(sid, s, n).ops, sid)
  {
  }

  /** Events of other sessions, and of this one that do not save its row. */
  lemma UnsavingOps(m: Manager, e: Event, sid: Sid)
    requires Allowed(m, e) && !Saves(m, e, sid)
    ensures SavesNothing(Emits(m, e), sid)
  {
    if !Concerns(e, sid) {
      EmitsOwned(m, e, sid);
      UnownedSavesNothing(Emits(m, e), sid);
    } else if e.HandleAck? {
      AckSavesNothing(sid, SessionOf(m, sid, "general"), e.seqNo);
    } else {
      assert Emits(m, e) == [];
    }
  }

  /** A send, split anywhere. */
  lemma SendSaves(t: Tables, sid: Sid, s: Session, payload: Payload, now: real, q: nat)
    requires q <= 3
    ensures var e := SendEffect(sid, s, payload, now);
      if q == 3 then RowIs(ApplyAll(t, e.ops[..q]), sid, Some(e.session)) else SavesNothing(e.ops[..q], sid)
  {
    var ops := SendEffect(sid, s, payload, now).ops;
    ApplyThree(t, ops[0], ops[1], ops[2]);
    assert ops[..3] == ops;
  }

  lemma ReceiveSaves(t: Tables, sid: Sid, s: Session, n: int, payload: Payload, now: real, q: nat)
    requires ShouldProcess(s, n) && q <= 2
    ensures var e := ReceiveEffect(sid, s, n, payload, now);
      if q == 2 then RowIs(ApplyAll(t, e.ops[..q]), sid, Some(e.session)) else SavesNothing(e.ops[..q], sid)
  {
    var ops := ReceiveEffect(sid, s, n, payload, now).ops;
    ApplyThree(t, ops[0], ops[1], ops[1]);
    assert ops[..2] == ops;
  }

  lemma RoomSaves(t: Tables, sid: Sid, s: Session, room: Room)
    ensures RowIs(ApplyAll(t, RoomEffect(sid, s, room).ops[..1]), sid, Some(RoomEffect(sid, s, room).session))
  {
    var ops := RoomEffect(sid, s, room).ops;
    ApplyThree(t, ops[0], ops[0], ops[0]);
    assert ops[..1] == ops;
  }

  lemma HydrateSaves(t: Tables, sid: Sid, snap: Snapshot, q: nat)
    requires 0 < q <= |HydrateEffect(sid, snap).ops|
    ensures RowIs(ApplyAll(t, HydrateEffect(sid, snap).ops[..q]), sid, Some(HydrateEffect(sid, snap).session))
  {
    var e := HydrateEffect(sid, snap);
    var first, rest := e.ops[0], SaveRows(sid, Listed(e.session.outbox));
    FirstThen(first, rest, q);
    RowsSaveNothing(sid, Listed(e.session.outbox), sid);
    ApplyAllConcat(t, [first], rest[..q - 1]);
    ApplyThree(t, first, first, first);
    UnsavedKeepsRowIs(ApplyAll(t, [first]), rest[..q - 1], sid, Some(e.session));
  }

  /** The first q writes of an event, on the session row. */
  lemma WritesRow(t: Tables, m: Manager, e: Event, q: nat, sid: Sid, saved: Option<Session>)
    requires Allowed(m, e) && q <= |Emits(m, e)| && RowIs(t, sid, saved)
    ensures SavesWithin(m, e, q, sid) ==>
        sid in Step(m, e).sessions && RowIs(ApplyAll(t, Emits(m, e)[..q]), sid, Some(Step(m, e).sessions[sid]))
    ensures !SavesWithin(m, e, q, sid) ==> RowIs(ApplyAll(t, Emits(m, e)[..q]), sid, saved)
  {
    if !Saves(m, e, sid) {
      UnsavingOps(m, e, sid);
      UnsavedKeepsRowIs(t, Emits(m, e)[..q], sid, saved);
    } else if q == 0 {
      assert Emits(m, e)[..0] == [];
    } else {
      SavingWrites(t, m, e, q, sid, saved);
    }
  }

  lemma SavingWrites(t: Tables, m: Manager, e: Event, q: nat, sid: Sid, saved: Option<Session>)
    requires Saves(m, e, sid) && 0 < q <= |Emits(m, e)| && RowIs(t, sid, saved)
    ensures SavesWithin(m, e, q, sid) ==>
        sid in Step(m, e).sessions && RowIs(ApplyAll(t, Emits(m, e)[..q]), sid, Some(Step(m, e).sessions[sid]))
    ensures !SavesWithin(m, e, q, sid) ==> RowIs(ApplyAll(t, Emits(m, e)[..q]), sid, saved)
  {
    var s := SessionOf(m, sid, "general");
    assert Step(m, e).sessions[sid] == EffectOf(m, e).session;
    if e.SendMessage? {
      SendSaves(t, sid, s, e.payload, e.now, q);
      if q < 3 { UnsavedKeepsRowIs(t, Emits(m, e)[..q], sid, saved); }
    } else if e.ReceiveMessage? {
      ReceiveSaves(t, sid, s, e.seqNo, e.payload, e.now, q);
      if q < 2 { UnsavedKeepsRowIs(t, Emits(m, e)[..q], sid, saved); }
    } else if e.SetRoom? {
      RoomSaves(t, sid, s, e.room);
    } else {
      HydrateSaves(t, sid, e.snap, q);
    }
  }

  // ---- Whole runs ------------------------------------------------------------------------------------------

  /** The row is what the session had in memory after its first k events. */
  ghost predicate Remembers(t: Tables, es: seq<Event>, k: Option<nat>, sid: Sid) {
    && (k.Some? ==> k.value <= |es| && After(es, k, sid).Some?)
    && RowIs(t, sid, if k.Some? then After(es, k, sid) else None)
  }

  lemma RemembersFromPrefix(t: Tables, es: seq<Event>, n: nat, k: Option<nat>, sid: Sid)
    requires n <= |es| && Remembers(t, es[..n], k, sid)
    ensures Remembers(t, es, k, sid)
  {
    if k.Some? {
      assert es[..n][..k.value] == es[..k.value];
    }
  }

  lemma RemembersNow(t: Tables, es: seq<Event>, sid: Sid)
    requires sid in Run(es).sessions && RowIs(t, sid, Some(Run(es).sessions[sid]))
    ensures Remembers(t, es, Some(|es|), sid)
  {
    assert es[..|es|] == es;
  }

  lemma RunOneMore(init: seq<Event>, e: Event)
    ensures Run(init + [e]) == Step(Run(init), e)
  {
    assert (init + [e])[..|init|] == init;
  }

  lemma AllOfASave(m: Manager, e: Event, sid: Sid)
    ensures SavesWithin(m, e, |Emits(m, e)|, sid) <==> Saves(m, e, sid)
  {
  }

  lemma EventSaves(m: Manager, e: Event, sid: Sid, saved: Option<Session>)
    requires !e.Crash? && Allowed(m, e) && RowIs(Effective(m.store), sid, saved)
    ensures Saves(m, e, sid) ==>
        sid in Step(m, e).sessions && RowIs(Effective(Step(m, e).store), sid, Some(Step(m, e).sessions[sid]))
    ensures !Saves(m, e, sid) ==> RowIs(Effective(Step(m, e).store), sid, saved)
  {
    var ops := Emits(m, e);
    if e.Turn? {
      LoopTurnKeepsEffective(m.store, e.due);
    } else {
      WritesRow(Effective(m.store), m, e, |ops|, sid, saved);
      assert ops[..|ops|] == ops;
      EmitsLast(m, e);
      AllOfASave(m, e, sid);
    }
  }

  lemma EventRemembers(init: seq<Event>, e: Event, k: Option<nat>, sid: Sid)
    requires !e.Crash? && Allowed(Run(init), e) && Remembers(Effective(Run(init).store), init, k, sid)
    ensures var t := Effective(Step(Run(init), e).store);
      Remembers(t, init + [e], if Saves(Run(init), e, sid) then Some(|init| + 1) else k, sid)
  {
    var t := Effective(Step(Run(init), e).store);
    EventSaves(Run(init), e, sid, if k.Some? then After(init, k, sid) else None);
    if Saves(Run(init), e, sid) {
      RunOneMore(init, e);
      RemembersNow(t, init + [e], sid);
    } else {
      assert (init + [e])[..|init|] == init;
      RemembersFromPrefix(t, init + [e], |init|, k, sid);
    }
  }

  lemma PartRemembers(init: seq<Event>, e: Event, q: nat, k: Option<nat>, sid: Sid)
    requires Allowed(Run(init), e) && q <= |Emits(Run(init), e)|
    requires Remembers(Effective(Run(init).store), init, k, sid)
    ensures var t := ApplyAll(Effective(Run(init).store), Emits(Run(init), e)[..q]);
      Remembers(t, init + [e], if SavesWithin(Run(init), e, q, sid) then Some(|init| + 1) else k, sid)
  {
    var t := ApplyAll(Effective(Run(init).store), Emits(Run(init), e)[..q]);
    WritesRow(Effective(Run(init).store), Run(init), e, q, sid, if k.Some? then After(init, k, sid) else None);
    if SavesWithin(Run(init), e, q, sid) {
      RunOneMore(init, e);
      RemembersNow(t, init + [e], sid);
    } else {
      assert (init + [e])[..|init|] == init;
      RemembersFromPrefix(t, init + [e], |init|, k, sid);
    }
  }

  // ---- Whole runs ------------------------------------------------------------------------------------------

  lemma CrashRemembers(es: seq<Event>, sid: Sid)
    requires es != [] && es[|es| - 1].Crash?
    requires var init := es[..|es| - 1]; Remembers(DiskAfter(init, Durable(init)), init, LastSaved(es, sid), sid)
    ensures Remembers(Effective(Run(es).store), es, LastSaved(es, sid), sid)
  {
    var init := es[..|es| - 1];
    RemembersFromPrefix(DiskAfter(init, Durable(init)), es, |init|, LastSaved(es, sid), sid);
  }

  lemma {:induction false} RowIsLastSaved(es: seq<Event>, sid: Sid)
    requires AllAllowed(es)
    ensures Remembers(Effective(Run(es).store), es, LastSaved(es, sid), sid)
    decreases |es|, 0
  {
    if es != [] {
      var init, e := es[..|es| - 1], es[|es| - 1];
      LastAllowed(es);
      if e.Crash? {
        RowIsDurablySaved(init, Durable(init), sid);
        CrashRemembers(es, sid);
      } else {
        RowIsLastSaved(init, sid);
        EventRemembers(init, e, LastSaved(init, sid), sid);
        SplitLast(es);
      }
    }
  }

  /** At every crash point of every life the session row has the counter, the watermark and the room that
      the session had in memory right after its last event whose row is durable, in whichever life; there
      is no row if there was none. */
  lemma {:induction false} RowIsDurablySaved(es: seq<Event>, p: nat, sid: Sid)
    requires AllAllowed(es) && p <= |History(es)|
    ensures Remembers(DiskAfter(es, p), es, DurablySaved(es, p, sid), sid)
    decreases |es|, 1
  {
    DiskIsPoint(es, p);
    var (j, q) := PointOf(es, p);
    PrefixAllowed(es, j);
    RowIsLastSaved(es[..j], sid);
    if q > 0 {
      SplitRemembers(es, j, q, LastSaved(es[..j], sid), sid);
    } else {
      RemembersFromPrefix(DiskAfter(es, p), es, j, LastSaved(es[..j], sid), sid);
    }
  }

  lemma SplitRemembers(es: seq<Event>, j: nat, q: nat, k: Option<nat>, sid: Sid)
    requires AllAllowed(es) && j < |es| && q <= |Emits(Run(es[..j]), es[j])|
    requires Remembers(Effective(Run(es[..j]).store), es[..j], k, sid)
    ensures var m := Run(es[..j]);
      Remembers(ApplyAll(Effective(m.store), Emits(m, es[j])[..q]), es,
                if SavesWithin(m, es[j], q, sid) then Some(j + 1) else k, sid)
  {
    var m := Run(es[..j]);
    PartRemembers(es[..j], es[j], q, k, sid);
    assert es[..j + 1] == es[..j] + [es[j]];
    RemembersFromPrefix(ApplyAll(Effective(m.store), Emits(m, es[j])[..q]), es, j + 1,
                        if SavesWithin(m, es[j], q, sid) then Some(j + 1) else k, sid);
  }

  /** So the durable watermark of a session is the one it had in memory then. */
  lemma DurableWatermark(es: seq<Event>, p: nat, sid: Sid)
    requires AllAllowed(es) && p <= |History(es)|
    ensures var k := DurablySaved(es, p, sid); var d := DiskAfter(es, p);
      && (sid in d.sessions <==> k.Some?)
      && (k.Some? ==>
            && sid in Run(es[..k.value]).sessions
            && d.sessions[sid].lastProcessed == Run(es[..k.value]).sessions[sid].last
            && d.sessions[sid].nextSend == Run(es[..k.value]).sessions[sid].nextSend
            && d.sessions[sid].room == Run(es[..k.value]).sessions[sid].room)
  {
    RowIsDurablySaved(es, p, sid);
  }
}
