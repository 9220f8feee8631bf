/** What recovery makes of a crash, at every watermark: the session it restores, in terms of what the
    lives of the node made durable, and which durable messages it loses. */
module Recoveries {
  import opened Base
  import opened SessionStates
  import opened Persistence
  import opened SessionManagers
  import opened Durability
  import opened Crashes

  // ---- What the message log holds --------------------------------------------------------------------

  type LogTable = map<(string, int), LogRow>

  /** The message an event logs under a seq of a session: one it numbers so for the client, one it
      admits from the client, or a room's log entry under that key. */
  function Logs(m: Manager, e: Event, sid: Sid, n: int): Option<Payload> {
    match e
    case SendMessage(to, payload, _) =>
      if to == sid && SessionOf(m, sid, "general").nextSend == n then Some(payload) else None
    case ReceiveMessage(from, k, payload, _) =>
      if from == sid && k == n && ShouldProcess(SessionOf(m, sid, "general"), n) then Some(payload) else None
    case Log(op) =>
      if op.SaveMessageLog? && op.key == sid && op.seqNo == n then Some(op.payload) else None
    case _ => None
  }

  /** The same for its first q writes: a send logs with its second write, all others with their first. */
  function LogsWithin(m: Manager, e: Event, q: nat, sid: Sid, n: int): Option<Payload> {
    if q == 0 || (e.SendMessage? && q == 1) then None else Logs(m, e, sid, n)
  }

  function OrElse(newer: Option<Payload>, older: Option<Payload>): Option<Payload> {
    if newer.Some? then newer else older
  }

  /** The last message logged under a seq by everything queued, in this life or durably in earlier ones. */
  ghost function LastLogged(es: seq<Event>, sid: Sid, n: int): Option<Payload>
    decreases |es|, 0
  {
    if es == [] then None
    else
      var init, e := es[..|es| - 1], es[|es| - 1];
      if e.Crash? then DurablyLogged(init, Durable(init), sid, n)
      else OrElse(Logs(Run(init), e, sid, n), LastLogged(init, sid, n))
  }

  /** The last message durably logged under a seq at a crash point: by the event the crash splits, else
      by the events before it. */
  ghost function DurablyLogged(es: seq<Event>, p: nat, sid: Sid, n: int): Option<Payload>
    requires p <= |History(es)|
    decreases |es|, 1
  {
    PointIs(es, p);
    var (j, q) := PointOf(es, p);
    if q == 0 then LastLogged(es[..j], sid, n)
    else OrElse(LogsWithin(Run(es[..j]), es[j], q, sid, n), LastLogged(es[..j], sid, n))
  }

  /** The log row under a key and seq, if there is one. */
  ghost predicate HasLogged(log: LogTable, sid: Sid, n: int, entry: Option<Payload>) {
    && ((sid, n) in log <==> entry.Some?)
    && (entry.Some? ==> log[(sid, n)].payload == entry.value)
  }

  lemma HydrateLogsNothing(sid: Sid, snap: Snapshot)
    ensures LogsNothing(HydrateEffect(sid, snap).ops)
  {
    SaveRowsLogNothing(sid, Listed(Loaded(map[], snap.outbox)));
  }

  lemma ShortOpsLogNothing(sid: Sid, s: Session, n: int, room: Room)
    ensures LogsNothing(AckEffect(sid, s, n).ops) && LogsNothing(RoomEffect(sid, s, room).ops) && LogsNothing([])
  {
  }

  /** Only sends, received messages and log events write the log. */
  lemma OtherEventsLogNothing(m: Manager, e: Event)
    requires !e.SendMessage? && !e.ReceiveMessage? && !e.Log?
    ensures LogsNothing(Emits(m, e))
  {
    if e.Hydrate? {
      HydrateLogsNothing(e.sid, e.snap);
    } else if e.HandleAck? {
      ShortOpsLogNothing(e.sid, SessionOf(m, e.sid, "general"), e.seqNo, "general");
    } else if e.SetRoom? {
      ShortOpsLogNothing(e.sid, SessionOf(m, e.sid, "general"), 0, e.room);
    } else {
      assert Emits(m, e) == [];
    }
  }

  lemma SendWritesLog(t: Tables, sid: Sid, s: Session, payload: Payload, now: real, q: nat)
    requires q <= 3
    ensures ApplyAll(t, SendEffect(sid, s, payload, now).ops[..q]).log ==
            if q < 2 then t.log else t.log[(sid, s.nextSend) := LogRow(payload, now)]
  {
    var ops := SendEffect(sid, s, payload, now).ops;
    ApplyThree(t, ops[0], ops[1], ops[2]);
    assert ops[..q] == if q == 0 then [] else if q == 1 then [ops[0]] else if q == 2 then [ops[0], ops[1]] else ops;
  }

  lemma ReceiveWritesLog(t: Tables, sid: Sid, s: Session, n: int, payload: Payload, now: real, q: nat)
    requires q <= |ReceiveEffect(sid, s, n, payload, now).ops|
    ensures ApplyAll(t, ReceiveEffect(sid, s, n, payload, now).ops[..q]).log ==
            if q == 0 then t.log else t.log[(sid, n) := LogRow(payload, now)]
  {
    var ops := ReceiveEffect(sid, s, n, payload, now).ops;
    if q > 0 {
      ApplyThree(t, ops[0], ops[1], ops[1]);
      assert ops[..q] == if q == 1 then [ops[0]] else ops;
    }
  }

  /** What the first q writes of an event make of the log. */
  function Filed(log: LogTable, m: Manager, e: Event, q: nat): LogTable {
    match e
    case SendMessage(sid, payload, now) =>
      if q < 2 then log else log[(sid, SessionOf(m, sid, "general").nextSend) := LogRow(payload, now)]
    case ReceiveMessage(sid, n, payload, now) =>
      if q == 0 then log else log[(sid, n) := LogRow(payload, now)]
    case Log(op) =>
      if q > 0 && op.SaveMessageLog? then log[(op.key, op.seqNo) := LogRow(op.payload, op.sentAt)] else log
    case _ => log
  }

  lemma EmittedOps(m: Manager, e: Event)
    ensures e.SendMessage? ==> Emits(m, e) == SendEffect(e.sid, SessionOf(m, e.sid, "general"), e.payload, e.now).ops
    ensures e.ReceiveMessage? ==>
        Emits(m, e) == ReceiveEffect(e.sid, SessionOf(m, e.sid, "general"), e.seqNo, e.payload, e.now).ops
    ensures e.Log? ==> Emits(m, e) == [e.op]
    ensures !e.SendMessage? && !e.ReceiveMessage? && !e.Log? ==> LogsNothing(Emits(m, e))
  {
    if !e.SendMessage? && !e.ReceiveMessage? && !e.Log? {
      OtherEventsLogNothing(m, e);
    }
  }

  lemma LogWrites(t: Tables, op: WriteOp, q: nat)
    requires q <= 1
    ensures ApplyAll(t, [op][..q]).log ==
            if q > 0 && op.SaveMessageLog? then t.log[(op.key, op.seqNo) := LogRow(op.payload, op.sentAt)] else t.log
  {
    ApplyThree(t, op, op, op);
    assert [op][..q] == if q == 0 then [] else [op];
  }

  lemma WritesAreFiled(t: Tables, m: Manager, e: Event, q: nat)
    requires q <= |Emits(m, e)|
    ensures ApplyAll(t, Emits(m, e)[..q]).log == Filed(t.log, m, e, q)
  {
    EmittedOps(m, e);
    if e.SendMessage? {
      SendWritesLog(t, e.sid, SessionOf(m, e.sid, "general"), e.payload, e.now, q);
    } else if e.ReceiveMessage? {
      ReceiveWritesLog(t, e.sid, SessionOf(m, e.sid, "general"), e.seqNo, e.payload, e.now, q);
    } else if e.Log? {
      LogWrites(t, e.op, q);
    } else {
      UnloggedOpsKeepLog(t, Emits(m, e)[..q]);
    }
  }

  lemma FiledIsLogged(log: LogTable, m: Manager, e: Event, q: nat, sid: Sid, n: int, entry: Option<Payload>)
    requires q <= |Emits(m, e)| && HasLogged(log, sid, n, entry)
    ensures HasLogged(Filed(log, m, e, q), sid, n, OrElse(LogsWithin(m, e, q, sid, n), entry))
  {
  }

  lemma WritesLog(t: Tables, m: Manager, e: Event, q: nat, sid: Sid, n: int, entry: Option<Payload>)
    requires q <= |Emits(m, e)| && HasLogged(t.log, sid, n, entry)
    ensures HasLogged(ApplyAll(t, Emits(m, e)[..q]).log, sid, n, OrElse(LogsWithin(m, e, q, sid, n), entry))
  {
    WritesAreFiled(t, m, e, q);
    FiledIsLogged(t.log, m, e, q, sid, n, entry);
  }

  /** The log is what the run logged, whatever the lives before made of it. */
  lemma {:induction false} LogIsLastLogged(es: seq<Event>, sid: Sid, n: int)
    ensures HasLogged(Effective(Run(es).store).log, sid, n, LastLogged(es, sid, n))
    decreases |es|, 0
  {
    if es != [] {
      var init, e := es[..|es| - 1], es[|es| - 1];
      if e.Crash? {
        LogIsDurablyLogged(init, Durable(init), sid, n);
      } else {
        LogIsLastLogged(init, sid, n);
        EventLogs(init, e, sid, n);
      }
    }
  }

  lemma EventLogs(init: seq<Event>, e: Event, sid: Sid, n: int)
    requires !e.Crash? && HasLogged(Effective(Run(init).store).log, sid, n, LastLogged(init, sid, n))
    ensures HasLogged(Effective(Step(Run(init), e).store).log, sid, n,
                      OrElse(Logs(Run(init), e, sid, n), LastLogged(init, sid, n)))
  {
    var m := Run(init);
    var ops := Emits(m, e);
    if e.Turn? {
      LoopTurnKeepsEffective(m.store, e.due);
    } else {
      WritesLog(Effective(m.store), m, e, |ops|, sid, n, LastLogged(init, sid, n));
      assert ops[..|ops|] == ops;
      EmitsLast(m, e);
    }
  }

  /** At every crash point of every life the log row under a seq of a session is the last message durably
      logged there: sent to the client, admitted from it, or written by a room of that name. */
  lemma {:induction false} LogIsDurablyLogged(es: seq<Event>, p: nat, sid: Sid, n: int)
    requires p <= |History(es)|
    ensures HasLogged(DiskAfter(es, p).log, sid, n, DurablyLogged(es, p, sid, n))
    decreases |es|, 1
  {
    DiskIsPoint(es, p);
    var (j, q) := PointOf(es, p);
    LogIsLastLogged(es[..j], sid, n);
    if q > 0 {
      WritesLog(Effective(Run(es[..j]).store), Run(es[..j]), es[j], q, sid, n, LastLogged(es[..j], sid, n));
    }
  }

  // ---- What recovery restores ----------------------------------------------------------------------

  /** Recovery takes what it files under this seq from the log: the durable watermark is positive, the
      seq is above it, and something was durably logged there. */
  ghost predicate FromLog(es: seq<Event>, p: nat, sid: Sid, n: int)
    requires p <= |History(es)| && sid in DiskAfter(es, p).sessions
  {
    var watermark := DiskAfter(es, p).sessions[sid].lastProcessed;
    watermark > 0 && n > watermark && DurablyLogged(es, p, sid, n).Some?
  }

  lemma FromLogIsRelogged(es: seq<Event>, p: nat, sid: Sid, n: int)
    requires p <= |History(es)| && sid in DiskAfter(es, p).sessions
    ensures FromLog(es, p, sid, n) <==> Relogged(DiskAfter(es, p), sid, n)
    ensures FromLog(es, p, sid, n) ==> DiskAfter(es, p).log[(sid, n)].payload == DurablyLogged(es, p, sid, n).value
  {
    LogIsDurablyLogged(es, p, sid, n);
  }

  /** Under the durable counter, watermark and room, the session has the durable unacked rows and what
      was logged above a positive watermark; where both have a message, the logged one. */
  ghost predicate Restores(es: seq<Event>, p: nat, sid: Sid, r: Session)
    requires p <= |History(es)| && sid in DiskAfter(es, p).sessions
  {
    var d := DiskAfter(es, p);
    && r.nextSend == d.sessions[sid].nextSend && r.room == d.sessions[sid].room
    && r.last == d.sessions[sid].lastProcessed && r.seen == {} && WellKeyed(r.outbox)
    && (forall n :: n in r.outbox <==> (sid, n) in d.outbox || FromLog(es, p, sid, n))
    && (forall n :: n in r.outbox ==>
          r.outbox[n].payload ==
          if FromLog(es, p, sid, n) then DurablyLogged(es, p, sid, n).value else d.outbox[(sid, n)].payload)
  }

  lemma RestoredRows(es: seq<Event>, p: nat, sid: Sid, room: Room)
    requires p <= |History(es)| && sid in DiskAfter(es, p).sessions
    ensures Restores(es, p, sid, Recover(DiskAfter(es, p), sid, room))
  {
    var d := DiskAfter(es, p);
    var r := Recover(d, sid, room);
    forall n
      ensures n in r.outbox <==> (sid, n) in d.outbox || FromLog(es, p, sid, n)
      ensures n in r.outbox ==>
          && r.outbox[n].seqNo == n
          && r.outbox[n].payload ==
             if FromLog(es, p, sid, n) then DurablyLogged(es, p, sid, n).value else d.outbox[(sid, n)].payload
    {
      FromLogIsRelogged(es, p, sid, n);
      RecoverAt(d, sid, room, n);
    }
  }

  /** Crash recovery, for every run through any number of earlier crashes, every crash point p of the
      current life, every session and every durable watermark.  While every load was clean, no durable
      unacked row is above the durable counter, and all are below it if and only if the last crash that
      touched the session did not split a send of it. */
  lemma CrashRecovery(es: seq<Event>, p: nat, sid: Sid, room: Room)
    requires p <= |History(es)|
    ensures var d := DiskAfter(es, p); var r := Recover(d, sid, room);
      && (sid !in d.sessions ==> r == FreshSession(room))
      && (sid in d.sessions ==> Restores(es, p, sid, r))
      && (AllAllowed(es) && AllClean(es) && sid in d.sessions ==>
            && (forall n: int :: (sid, n) in d.outbox ==> n <= r.nextSend)
            && ((forall n: int :: (sid, n) in d.outbox ==> n < r.nextSend) <==> !LastTouchSplit(es, p, sid)))
  {
    if sid in DiskAfter(es, p).sessions {
      RestoredRows(es, p, sid, room);
      if AllAllowed(es) && AllClean(es) {
        WholeIffNotSplit(es, p, sid);
      }
    }
  }

  /** No durable unacked message is lost in a crash if and only if the session row is durable (or nothing
      is) and no other message was durably logged last under the seq of an unacked row above a positive
      watermark.  While every load was clean, a session without a row loses something if and only if the
      crash split its first send. */
  lemma UnackedSurviveCrashIff(es: seq<Event>, p: nat, sid: Sid, room: Room)
    requires p <= |History(es)|
    ensures var d := DiskAfter(es, p); var r := Recover(d, sid, room);
      && (sid in d.sessions ==>
            (UnackedSurvive(d, sid, r) <==>
             forall n: int :: (sid, n) in d.outbox && FromLog(es, p, sid, n) ==>
               DurablyLogged(es, p, sid, n).value == d.outbox[(sid, n)].payload))
      && (sid !in d.sessions ==> (UnackedSurvive(d, sid, r) <==> forall n: int :: (sid, n) !in d.outbox))
      && (AllAllowed(es) && AllClean(es) && sid !in d.sessions ==>
            (UnackedSurvive(d, sid, r) <==> !LastTouchSplit(es, p, sid)))
  {
    var d := DiskAfter(es, p);
    UnackedSurviveIff(d, sid, room);
    if sid in d.sessions {
      forall n ensures FromLog(es, p, sid, n) <==> Relogged(d, sid, n)
               ensures FromLog(es, p, sid, n) ==> d.log[(sid, n)].payload == DurablyLogged(es, p, sid, n).value
      {
        FromLogIsRelogged(es, p, sid, n);
      }
    } else if AllAllowed(es) && AllClean(es) {
      WholeIffNotSplit(es, p, sid);
    }
  }

  /** What recovery takes from the log is unacked anyway, with the same payload. */
  ghost predicate LogAgrees(es: seq<Event>, p: nat, sid: Sid)
    requires p <= |History(es)| && sid in DiskAfter(es, p).sessions
  {
    var d := DiskAfter(es, p);
    forall n :: FromLog(es, p, sid, n) ==>
      (sid, n) in d.outbox && d.outbox[(sid, n)].payload == DurablyLogged(es, p, sid, n).value
  }

  lemma LogAgreesOnTables(es: seq<Event>, p: nat, sid: Sid)
    requires p <= |History(es)| && sid in DiskAfter(es, p).sessions
    ensures LogAgrees(es, p, sid) <==> LogAddsNothing(DiskAfter(es, p), sid)
  {
    var d := DiskAfter(es, p);
    forall n ensures FromLog(es, p, sid, n) <==> Relogged(d, sid, n)
             ensures FromLog(es, p, sid, n) ==> d.log[(sid, n)].payload == DurablyLogged(es, p, sid, n).value
    {
      FromLogIsRelogged(es, p, sid, n);
    }
  }

  /** Same buffered messages, counter and room. */
  ghost predicate SameMemory(s: Session, r: Session) {
    && r.nextSend == s.nextSend && r.room == s.room
    && (forall n :: n in r.outbox <==> n in s.outbox)
    && (forall n :: n in r.outbox ==> r.outbox[n].payload == s.outbox[n].payload)
  }

  /** The same but for what is taken from the log. */
  ghost predicate MemoryAndLog(es: seq<Event>, p: nat, sid: Sid, s: Session, r: Session)
    requires p <= |History(es)| && sid in DiskAfter(es, p).sessions
  {
    && r.nextSend == s.nextSend && r.room == s.room
    && (forall n :: n in r.outbox <==> n in s.outbox || FromLog(es, p, sid, n))
    && (forall n :: n in r.outbox ==>
          r.outbox[n].payload ==
          if FromLog(es, p, sid, n) then DurablyLogged(es, p, sid, n).value else s.outbox[n].payload)
  }

  lemma MirroredIsRestored(es: seq<Event>, p: nat, sid: Sid, s: Session, room: Room)
    requires p <= |History(es)| && sid in DiskAfter(es, p).sessions && Mirrors(DiskAfter(es, p), sid, s)
    ensures var r := Recover(DiskAfter(es, p), sid, room);
      MemoryAndLog(es, p, sid, s, r) && (SameMemory(s, r) <==> LogAgrees(es, p, sid))
  {
    var d := DiskAfter(es, p);
    var r := Recover(d, sid, room);
    RestoredRows(es, p, sid, room);
    if SameMemory(s, r) {
      forall n | FromLog(es, p, sid, n)
        ensures (sid, n) in d.outbox && d.outbox[(sid, n)].payload == DurablyLogged(es, p, sid, n).value
      {
        assert n in r.outbox;
      }
    }
  }

  /** Unless the crash splits an event of this very session, recovery gives back its memory and what the
      log adds: counter and room are those the session had after the events before the crash point, and
      so is the outbox if and only if the log agrees with it.  A session this life had not loaded by then
      has exactly the rows the previous crash left it. */
  lemma CrashKeepsMemory(es: seq<Event>, p: nat, sid: Sid, room: Room)
    requires AllAllowed(es) && AllClean(es) && p <= |History(es)|
    requires var (j, q) := PointOf(es, p); q == 0 || !Concerns(es[j], sid)
    ensures var m := Run(es[..PointOf(es, p).0]); var d := DiskAfter(es, p); var r := Recover(d, sid, room);
      && (sid !in m.sessions ==> SameFor(Disk(es), d, sid))
      && (sid in m.sessions && sid in d.sessions ==>
            && MemoryAndLog(es, p, sid, m.sessions[sid], r)
            && (SameMemory(m.sessions[sid], r) <==> LogAgrees(es, p, sid)))
      && (sid in m.sessions && sid !in d.sessions ==> m.sessions[sid].outbox == map[] && m.sessions[sid].nextSend == 1)
  {
    DiskAtPoint(es, p);
    OutsideKeepsMirror(es, p, sid);
    var m, d := Run(es[..PointOf(es, p).0]), DiskAfter(es, p);
    if sid in m.sessions {
      SameMirrors(Effective(m.store), d, sid, m.sessions[sid]);
      if sid in d.sessions {
        MirroredIsRestored(es, p, sid, m.sessions[sid], room);
      }
    } else {
      UntouchedAtPoint(es, p, sid);
    }
  }

  /** What a crash leaves can be recovered faithfully if and only if the last crash that touched the
      session did not split a send of it and the log agrees with its unacked rows. */
  lemma CrashIsCleanIff(es: seq<Event>, p: nat, sid: Sid)
    requires AllAllowed(es) && AllClean(es) && p <= |History(es)|
    ensures Clean(DiskAfter(es, p), sid) <==>
            && !LastTouchSplit(es, p, sid)
            && (sid in DiskAfter(es, p).sessions ==> LogAgrees(es, p, sid))
  {
    WholeIffNotSplit(es, p, sid);
    if sid in DiskAfter(es, p).sessions {
      LogAgreesOnTables(es, p, sid);
    }
  }

  // ---- Where recovery falls short ----------------------------------------------------------------------

  /** Sending from a session whose counter is already used by a buffered message. */
  lemma SendOverwrites(t: Tables, sid: Sid, r: Session, next: Payload, later: real)
    requires (sid, r.nextSend) in t.outbox
    ensures var e := SendEffect(sid, r, next, later);
      && e.session.outbox[r.nextSend].payload == next
      && (sid, r.nextSend) in ApplyAll(t, e.ops).outbox
      && ApplyAll(t, e.ops).outbox[(sid, r.nextSend)].payload == t.outbox[(sid, r.nextSend)].payload
  {
    var e := SendEffect(sid, r, next, later);
    ApplyThree(t, e.ops[0], e.ops[1], e.ops[2]);
  }

  /** A crash inside a send of `sid`.  If it was the session's first send there is no session row:
      recovery ignores the durable outbox row.  Otherwise the restored counter is the seq of the
      restored message, and the next send files a second message under it: memory keeps the new
      one, the upsert keeps the old one. */
  lemma SplitSendBreaksRecovery(t: Tables, sid: Sid, s: Session, payload: Payload, now: real, q: nat,
                                room: Room, next: Payload, later: real)
    requires Mirrors(t, sid, s) && (q == 1 || q == 2)
    ensures var d := ApplyAll(t, SendEffect(sid, s, payload, now).ops[..q]); var r := Recover(d, sid, room);
      && !Clean(d, sid)
      && (sid !in t.sessions ==> (sid, 1) in d.outbox && r.outbox == map[])
      && (sid in t.sessions && t.sessions[sid].lastProcessed <= 0 ==>
            && r.nextSend in r.outbox && r.outbox[r.nextSend].payload == payload
            && SendEffect(sid, r, next, later).session.outbox[r.nextSend].payload == next
            && (sid, r.nextSend) in ApplyAll(d, SendEffect(sid, r, next, later).ops).outbox
            && ApplyAll(d, SendEffect(sid, r, next, later).ops).outbox[(sid, r.nextSend)].payload == payload)
  {
    var d := ApplyAll(t, SendEffect(sid, s, payload, now).ops[..q]);
    PartialSend(t, sid, s, payload, now, q);
    assert (sid, s.nextSend) in d.outbox;
    if sid in t.sessions && t.sessions[sid].lastProcessed <= 0 {
      RecoverOutbox(d, sid, room);
      SendOverwrites(d, sid, Recover(d, sid, room), next, later);
    }
  }

  // ---- Runs into the message log ------------------------------------------------------------------------

  /** The next seq in order moves the watermark by one, over what came early right after it. */
  lemma MarkNext(s: Session)
    requires s.last + 2 !in s.seen && s.last + 1 !in s.seen
    ensures ShouldProcess(s, s.last + 1) && Marked(s, s.last + 1) == s.(last := s.last + 1)
  {
    assert s.seen + {s.last + 1} - {s.last + 1} == s.seen;
    assert Advance(s.last + 1, s.seen) == (s.last + 1, s.seen);
  }

  /** The next inbound message in order, on the tables. */
  lemma ReceiveNext(t: Tables, sid: Sid, s: Session, payload: Payload, now: real)
    requires s.last + 2 !in s.seen && s.last + 1 !in s.seen
    ensures var e := ReceiveEffect(sid, s, s.last + 1, payload, now); var d := ApplyAll(t, e.ops);
      && e.session == s.(last := s.last + 1)
      && d.log == t.log[(sid, s.last + 1) := LogRow(payload, now)] && d.outbox == t.outbox
      && sid in d.sessions && d.sessions[sid] == SessionRow(s.nextSend, s.last + 1, s.room)
  {
    var ops := ReceiveEffect(sid, s, s.last + 1, payload, now).ops;
    MarkNext(s);
    ApplyThree(t, ops[0], ops[1], ops[1]);
  }

  /** The run has the session loaded as `s`, and its tables with everything queued are `t`. */
  ghost predicate At(es: seq<Event>, sid: Sid, s: Session, t: Tables) {
    sid in Run(es).sessions && Run(es).sessions[sid] == s && Effective(Run(es).store) == t
  }

  lemma Started(sid: Sid)
    ensures At([Load(sid, "general")], sid, FreshSession("general"), EmptyTables)
  {
    assert [Load(sid, "general")][..0] == [];
  }

  lemma Then(es: seq<Event>, sid: Sid, s: Session, t: Tables, e: Event)
    requires At(es, sid, s, t) && !e.Log? && !e.Turn? && !e.Crash? && e.sid == sid && !e.Hydrate?
    ensures var eff := EffectOf(Run(es), e); At(es + [e], sid, eff.session, ApplyAll(t, eff.ops))
  {
    assert (es + [e])[..|es|] == es;
    EmitsLast(Run(es), e);
  }

  /** Events that nothing restricts. */
  ghost predicate Plain(es: seq<Event>) {
    forall i :: 0 <= i < |es| ==> !es[i].Hydrate? && !es[i].Log? && !es[i].Crash?
  }

  lemma PlainSnoc(es: seq<Event>, e: Event)
    requires Plain(es) && !e.Hydrate? && !e.Log? && !e.Crash?
    ensures Plain(es + [e])
  {
  }

  /** Everything queued may be durable. */
  lemma PlainRuns(es: seq<Event>)
    requires Plain(es)
    ensures AllAllowed(es) && CrashFree(es) && DiskAfter(es, |History(es)|) == Effective(Run(es).store)
  {
    AllDurable(es);
  }

  lemma ThenSend(es: seq<Event>, sid: Sid, s: Session, t: Tables, payload: Payload) returns (t': Tables)
    requires At(es, sid, s, t)
    ensures At(es + [SendMessage(sid, payload, 0.0)], sid, Prepared(s, payload, 0.0), t')
    ensures t'.log == t.log[(sid, s.nextSend) := LogRow(payload, 0.0)]
    ensures (sid, s.nextSend) !in t.outbox ==> t'.outbox == t.outbox[(sid, s.nextSend) := OutboxRow(payload, 0.0, 0)]
  {
    Then(es, sid, s, t, SendMessage(sid, payload, 0.0));
    var ops := SendEffect(sid, s, payload, 0.0).ops;
    t' := ApplyAll(t, ops);
    ApplyThree(t, ops[0], ops[1], ops[2]);
  }

  lemma ThenAck(es: seq<Event>, sid: Sid, s: Session, t: Tables, n: int) returns (t': Tables)
    requires At(es, sid, s, t) && n in s.outbox
    ensures At(es + [HandleAck(sid, n)], sid, Acked(s, n), t') && t'.log == t.log
  {
    Then(es, sid, s, t, HandleAck(sid, n));
    var ops := AckEffect(sid, s, n).ops;
    t' := ApplyAll(t, ops);
    ApplyThree(t, ops[0], ops[0], ops[0]);
  }

  lemma ThenReceive(es: seq<Event>, sid: Sid, s: Session, t: Tables, n: int, payload: Payload) returns (t': Tables)
    requires At(es, sid, s, t) && ShouldProcess(s, n)
    ensures At(es + [ReceiveMessage(sid, n, payload, 0.0)], sid, Marked(s, n), t')
    ensures t'.log == t.log[(sid, n) := LogRow(payload, 0.0)] && t'.outbox == t.outbox
    ensures sid in t'.sessions && t'.sessions[sid] == SessionRow(s.nextSend, Marked(s, n).last, s.room)
  {
    Then(es, sid, s, t, ReceiveMessage(sid, n, payload, 0.0));
    var ops := ReceiveEffect(sid, s, n, payload, 0.0).ops;
    t' := ApplyAll(t, ops);
    ApplyThree(t, ops[0], ops[1], ops[1]);
  }

  lemma ThenNext(es: seq<Event>, sid: Sid, s: Session, t: Tables, k: int, payload: Payload) returns (t': Tables)
    requires At(es, sid, s, t) && k == s.last + 1 && s.last + 2 !in s.seen && k !in s.seen
    ensures At(es + [ReceiveMessage(sid, k, payload, 0.0)], sid, s.(last := k), t')
    ensures t'.log == t.log[(sid, k) := LogRow(payload, 0.0)] && t'.outbox == t.outbox
    ensures sid in t'.sessions && t'.sessions[sid] == SessionRow(s.nextSend, k, s.room)
  {
    MarkNext(s);
    t' := ThenReceive(es, sid, s, t, k, payload);
  }

  lemma ThenReconnect(es: seq<Event>, sid: Sid, s: Session, t: Tables)
    requires At(es, sid, s, t)
    ensures At(es + [Event.NewConnection(sid)], sid, s.(last := 0, seen := {}), t)
  {
    Then(es, sid, s, t, Event.NewConnection(sid));
  }

  function TwoSendsRun(sid: Sid, p: Payload): seq<Event> {
    [Load(sid, "general")] + [SendMessage(sid, p, 0.0)] + [SendMessage(sid, p, 0.0)]
  }

  lemma TwoSends(sid: Sid, p: Payload) returns (s: Session, t: Tables)
    ensures At(TwoSendsRun(sid, p), sid, s, t)
    ensures s.last == 0 && s.seen == {} && s.room == "general" && s.nextSend == 3
    ensures 2 in s.outbox && s.outbox[2].payload == p && (sid, 2) in t.outbox && t.outbox[(sid, 2)].payload == p
    ensures (sid, 2) in t.log
  {
    Started(sid);
    s := FreshSession("general");
    t := ThenSend([Load(sid, "general")], sid, s, EmptyTables, p);
    s := Prepared(s, p, 0.0);
    t := ThenSend([Load(sid, "general")] + [SendMessage(sid, p, 0.0)], sid, s, t, p);
    s := Prepared(s, p, 0.0);
  }

  /** With a positive durable watermark recovery also takes messages from the log, where outbound messages
      stay after their ACK: once the next inbound message is durable, an acked message above it comes back. */
  lemma AckedMessageComesBack(t: Tables, sid: Sid, s: Session, n: int, payload: Payload, now: real, room: Room)
    requires Mirrors(t, sid, s) && s.last >= 0 && s.last + 1 !in s.seen && s.last + 2 !in s.seen
    requires n > s.last + 1 && (sid, n) in t.log && n !in s.outbox
    ensures var e := ReceiveEffect(sid, s, s.last + 1, payload, now); var d := ApplyAll(t, e.ops);
      Mirrors(d, sid, e.session) && n !in e.session.outbox && n in Recover(d, sid, room).outbox
  {
    var e := ReceiveEffect(sid, s, s.last + 1, payload, now);
    ReceiveMirrors(t, sid, s, s.last + 1, payload, now);
    ReceiveNext(t, sid, s, payload, now);
    RecoverAt(ApplyAll(t, e.ops), sid, room, n);
  }

  lemma AckedRunReaches(sid: Sid, p: Payload) returns (s: Session, t: Tables)
    ensures At(TwoSendsRun(sid, p) + [HandleAck(sid, 2)] + [ReceiveMessage(sid, 1, p, 0.0)], sid, s, t)
    ensures 2 !in s.outbox && (sid, 2) in t.log && sid in t.sessions && t.sessions[sid].lastProcessed == 1
  {
    var s0, t0 := TwoSends(sid, p);
    var es := TwoSendsRun(sid, p) + [HandleAck(sid, 2)];
    var t1 := ThenAck(TwoSendsRun(sid, p), sid, s0, t0, 2);
    t := ThenNext(es, sid, Acked(s0, 2), t1, 1, p);
    s := Acked(s0, 2).(last := 1);
  }

  lemma PlainTwoSends(sid: Sid, p: Payload)
    ensures Plain(TwoSendsRun(sid, p))
  {
  }

  /** The session lost its n-th message in memory, and recovery has it. */
  ghost predicate ComesBack(es: seq<Event>, t: Tables, sid: Sid, n: int) {
    && sid in Run(es).sessions && n !in Run(es).sessions[sid].outbox
    && n in Recover(t, sid, "general").outbox
  }

  lemma LoggedComesBack(es: seq<Event>, sid: Sid, s: Session, t: Tables, n: int)
    requires At(es, sid, s, t) && n !in s.outbox && (sid, n) in t.log
    requires sid in t.sessions && 0 < t.sessions[sid].lastProcessed < n
    ensures ComesBack(es, Effective(Run(es).store), sid, n)
  {
    RecoverAt(t, sid, "general", n);
  }

  /** Such states are reached: two sends, an ACK of the second, then one inbound message. */
  lemma AckedMessageComesBackInARun(sid: Sid, p: Payload)
    ensures var es := TwoSendsRun(sid, p) + [HandleAck(sid, 2)] + [ReceiveMessage(sid, 1, p, 0.0)];
      AllAllowed(es) && CrashFree(es) && ComesBack(es, DiskAfter(es, |History(es)|), sid, 2)
  {
    var es := TwoSendsRun(sid, p) + [HandleAck(sid, 2)] + [ReceiveMessage(sid, 1, p, 0.0)];
    var s, t := AckedRunReaches(sid, p);
    LoggedComesBack(es, sid, s, t, 2);
    PlainTwoSends(sid, p);
    PlainSnoc(TwoSendsRun(sid, p), HandleAck(sid, 2));
    PlainSnoc(TwoSendsRun(sid, p) + [HandleAck(sid, 2)], ReceiveMessage(sid, 1, p, 0.0));
    PlainRuns(es);
  }

  /** Two broadcasts to the client, then two frames from it, a new connection, and its first frame there. */
  function LossyRun(sid: Sid, p: Payload, q: Payload): seq<Event> {
    TwoSendsRun(sid, p) + [ReceiveMessage(sid, 1, q, 0.0)] + [ReceiveMessage(sid, 2, q, 0.0)]
    + [Event.NewConnection(sid)] + [ReceiveMessage(sid, 1, q, 0.0)]
  }

  lemma LossyRunReaches(sid: Sid, p: Payload, q: Payload) returns (s: Session, t: Tables)
    ensures At(LossyRun(sid, p, q), sid, s, t)
    ensures 2 in s.outbox && s.outbox[2].payload == p && (sid, 2) in t.outbox && t.outbox[(sid, 2)].payload == p
    ensures (sid, 2) in t.log && t.log[(sid, 2)].payload == q && sid in t.sessions && t.sessions[sid].lastProcessed == 1
  {
    var s0, t0 := TwoSends(sid, p);
    var es := TwoSendsRun(sid, p);
    var t1 := ThenNext(es, sid, s0, t0, 1, q);
    es := es + [ReceiveMessage(sid, 1, q, 0.0)];
    var t2 := ThenNext(es, sid, s0.(last := 1), t1, 2, q);
    es := es + [ReceiveMessage(sid, 2, q, 0.0)];
    ThenReconnect(es, sid, s0.(last := 2), t2);
    es := es + [Event.NewConnection(sid)];
    t := ThenNext(es, sid, s0, t2, 1, q);
    s := s0.(last := 1);
  }

  /** Memory and disk have message n unacked with payload p; recovery has q in its place. */
  ghost predicate Loses(es: seq<Event>, t: Tables, sid: Sid, n: int, p: Payload, q: Payload) {
    && sid in Run(es).sessions
    && n in Run(es).sessions[sid].outbox && Run(es).sessions[sid].outbox[n].payload == p
    && (sid, n) in t.outbox && t.outbox[(sid, n)].payload == p
    && n in Recover(t, sid, "general").outbox && Recover(t, sid, "general").outbox[n].payload == q
  }

  lemma LoggedFrameWins(es: seq<Event>, sid: Sid, s: Session, t: Tables, n: int, p: Payload, q: Payload)
    requires At(es, sid, s, t) && sid in t.sessions && 0 < t.sessions[sid].lastProcessed < n
    requires n in s.outbox && s.outbox[n].payload == p && (sid, n) in t.outbox && t.outbox[(sid, n)].payload == p
    requires (sid, n) in t.log && t.log[(sid, n)].payload == q
    ensures Loses(es, Effective(Run(es).store), sid, n, p, q)
  {
    RecoverAt(t, sid, "general", n);
  }

  lemma LossyIsPlain(sid: Sid, p: Payload, q: Payload)
    ensures Plain(LossyRun(sid, p, q))
  {
    PlainTwoSends(sid, p);
    var es := TwoSendsRun(sid, p);
    PlainSnoc(es, ReceiveMessage(sid, 1, q, 0.0));
    es := es + [ReceiveMessage(sid, 1, q, 0.0)];
    PlainSnoc(es, ReceiveMessage(sid, 2, q, 0.0));
    es := es + [ReceiveMessage(sid, 2, q, 0.0)];
    PlainSnoc(es, Event.NewConnection(sid));
    PlainSnoc(es + [Event.NewConnection(sid)], ReceiveMessage(sid, 1, q, 0.0));
  }

  /** Outbound and inbound messages are logged under the same seqs: an unacked broadcast whose seq the
      client used for a frame of its own is lost although it is durable and no send was split.  Memory and
      disk have the broadcast; recovery puts the client's frame in its place. */
  lemma UnackedMessageIsLost(sid: Sid, p: Payload, q: Payload)
    requires p != q
    ensures var es := LossyRun(sid, p, q);
      && AllAllowed(es) && CrashFree(es) && !LastTouchSplit(es, |History(es)|, sid)
      && Loses(es, DiskAfter(es, |History(es)|), sid, 2, p, q)
  {
    var es := LossyRun(sid, p, q);
    var s, t := LossyRunReaches(sid, p, q);
    LoggedFrameWins(es, sid, s, t, 2, p, q);
    LossyIsPlain(sid, p, q);
    AllOfItDurable(es, sid);
  }

  lemma AllOfItDurable(es: seq<Event>, sid: Sid)
    requires Plain(es) && sid in Run(es).sessions
    ensures AllAllowed(es) && CrashFree(es) && DiskAfter(es, |History(es)|) == Effective(Run(es).store)
    ensures !LastTouchSplit(es, |History(es)|, sid)
  {
    PlainRuns(es);
    NotSplitAtEnd(es, sid);
  }

  /** Where everything queued is durable, the crash splits nothing of a loaded session. */
  lemma NotSplitAtEnd(es: seq<Event>, sid: Sid)
    requires sid in Run(es).sessions
    ensures !LastTouchSplit(es, |History(es)|, sid)
  {
    assert es[..|es|] == es;
  }

  lemma MarkAhead(n: int)
    requires n > 2
    ensures var s := FreshSession("general"); ShouldProcess(s, n) && Marked(s, n) == s.(seen := {n})
  {
    assert {} + {n} == {n};
    assert Advance(0, {n}) == (0, {n});
  }

  function FrameAhead(sid: Sid, n: int, q: Payload): seq<Event> {
    [Load(sid, "general")] + [ReceiveMessage(sid, n, q, 0.0)] + [ReceiveMessage(sid, 1, q, 0.0)]
  }

  lemma FrameAheadReaches(sid: Sid, n: int, q: Payload) returns (t: Tables)
    requires n > 2
    ensures At(FrameAhead(sid, n, q), sid, FreshSession("general").(seen := {n}, last := 1), t)
    ensures t.log == map[(sid, n) := LogRow(q, 0.0), (sid, 1) := LogRow(q, 0.0)] && t.outbox == map[]
    ensures sid in t.sessions && t.sessions[sid] == SessionRow(1, 1, "general")
  {
    Started(sid);
    MarkAhead(n);
    var es := [Load(sid, "general")];
    t := ThenReceive(es, sid, FreshSession("general"), EmptyTables, n, q);
    t := ThenNext(es + [ReceiveMessage(sid, n, q, 0.0)], sid, FreshSession("general").(seen := {n}), t, 1, q);
  }

  lemma FrameAheadIsRecovered(t: Tables, sid: Sid, n: int, q: Payload)
    requires t.log == map[(sid, n) := LogRow(q, 0.0), (sid, 1) := LogRow(q, 0.0)] && t.outbox == map[] && n > 2
    requires sid in t.sessions && t.sessions[sid] == SessionRow(1, 1, "general")
    ensures var r := Recover(t, sid, "general"); r.nextSend == 1 && r.outbox.Keys == {n} && r.outbox[n].payload == q
  {
    var r := Recover(t, sid, "general");
    forall k ensures k in r.outbox <==> k == n {
      RecoverAt(t, sid, "general", k);
    }
    RecoverAt(t, sid, "general", n);
  }

  /** Frames the client sent ahead of one another come back to it as messages of the node, under seqs the
      node has not given out: after frame n and then frame 1 the recovered outbox is frame n, above the
      counter. */
  lemma LoggedFrameAboveCounter(sid: Sid, n: int, q: Payload)
    requires n > 2
    ensures var es := FrameAhead(sid, n, q);
      var r := Recover(DiskAfter(es, |History(es)|), sid, "general");
      && AllAllowed(es) && CrashFree(es)
      && r.nextSend == 1 && r.outbox.Keys == {n} && r.outbox[n].payload == q
  {
    var t := FrameAheadReaches(sid, n, q);
    PlainSnoc([Load(sid, "general")], ReceiveMessage(sid, n, q, 0.0));
    PlainSnoc([Load(sid, "general")] + [ReceiveMessage(sid, n, q, 0.0)], ReceiveMessage(sid, 1, q, 0.0));
    PlainRuns(FrameAhead(sid, n, q));
    FrameAheadIsRecovered(t, sid, n, q);
  }
}
