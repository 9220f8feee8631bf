/** Per-session sequencing (node/session_state.py): numbering and buffering of outbound
    messages, and the inbound watermark with its sparse set of seqs seen above it. */
module SessionStates {
  import opened Base

  type Sid = string
  type Room = string

  /** A chat payload built by the node, or whatever JSON object a client sent. */
  datatype Payload =
    | Chat(text: string, author: string, room: Room, sentAt: Option<real>)
    | Opaque(body: string)

  datatype OutboundMessage = OutboundMessage(seqNo: int, payload: Payload, sentAt: real, retryCount: int)

  /** What one SessionState object holds. */
  datatype Session = Session(room: Room, nextSend: int, outbox: map<int, OutboundMessage>, last: int, seen: set<int>)

  function FreshSession(room: Room): Session {
    Session(room, 1, map[], 0, {})
  }

  // ---- Outbound ---------------------------------------------------------------------------

  function Prepared(s: Session, payload: Payload, now: real): Session {
    s.(nextSend := s.nextSend + 1,
       outbox := s.outbox[s.nextSend := OutboundMessage(s.nextSend, payload, now, 0)])
  }

  function Acked(s: Session, n: int): Session {
    s.(outbox := s.outbox - {n})
  }

  function Retried(s: Session, n: int, now: real): Session {
    if n !in s.outbox then s
    else s.(outbox := s.outbox[n := s.outbox[n].(sentAt := now, retryCount := s.outbox[n].retryCount + 1)])
  }

  function MessagesFor(outbox: map<int, OutboundMessage>, keys: seq<int>): (r: seq<OutboundMessage>)
    requires forall i :: 0 <= i < |keys| ==> keys[i] in outbox
    ensures |r| == |keys| && forall i :: 0 <= i < |r| ==> r[i] == outbox[keys[i]]
  {
    if keys == [] then [] else [outbox[keys[0]]] + MessagesFor(outbox, keys[1..])
  }

  /** Every buffered message is filed under its own seq. */
  ghost predicate WellKeyed(outbox: map<int, OutboundMessage>) {
    forall k :: k in outbox ==> outbox[k].seqNo == k
  }

  /** The messages under some keys, in seq order. */
  function InSeqOrder(outbox: map<int, OutboundMessage>, wanted: set<int>): seq<OutboundMessage>
    requires wanted <= outbox.Keys
  {
    var keys := SortedKeys(wanted);
    assert forall i :: 0 <= i < |keys| ==> keys[i] in keys;
    MessagesFor(outbox, keys)
  }

  /** Everything buffered above `lastReceived`, in seq order. */
  function Replay(s: Session, lastReceived: int): seq<OutboundMessage> {
    InSeqOrder(s.outbox, set k | k in s.outbox && k > lastReceived)
  }

  /** `m` is buffered, under its own seq. */
  predicate Files(outbox: map<int, OutboundMessage>, m: OutboundMessage) {
    m.seqNo in outbox && outbox[m.seqNo] == m
  }

  lemma MessagesByKey(outbox: map<int, OutboundMessage>, keys: seq<int>)
    requires WellKeyed(outbox) && forall i :: 0 <= i < |keys| ==> keys[i] in outbox
    ensures forall i :: 0 <= i < |keys| ==> MessagesFor(outbox, keys)[i].seqNo == keys[i]
    ensures forall m :: m in MessagesFor(outbox, keys) ==> m.seqNo in keys && Files(outbox, m)
    ensures forall k :: k in keys ==> outbox[k] in MessagesFor(outbox, keys)
  {
    var r := MessagesFor(outbox, keys);
    assert forall i :: 0 <= i < |keys| ==> keys[i] in keys && r[i].seqNo == keys[i];
    forall m | m in r ensures m.seqNo in keys && Files(outbox, m) {
      var i :| 0 <= i < |r| && r[i] == m;
    }
    forall k | k in keys ensures outbox[k] in r {
      var i :| 0 <= i < |keys| && keys[i] == k;
      assert r[i] in r;
    }
  }

  lemma ReplayIsOrdered(s: Session, lastReceived: int)
    requires WellKeyed(s.outbox)
    ensures var r := Replay(s, lastReceived);
      && InOrder(r)
      && (forall m :: m in r ==> Files(s.outbox, m) && m.seqNo > lastReceived)
      && (forall k :: k in s.outbox && k > lastReceived ==> s.outbox[k] in r)
  {
    var keys := SortedKeys(set k | k in s.outbox && k > lastReceived);
    assert forall i :: 0 <= i < |keys| ==> keys[i] in keys;
    MessagesByKey(s.outbox, keys);
  }

  ghost predicate InOrder(r: seq<OutboundMessage>) {
    forall i, j :: 0 <= i < j < |r| ==> r[i].seqNo < r[j].seqNo
  }

  lemma NextInOrder(outbox: map<int, OutboundMessage>, todo: set<int>)
    requires todo != {} && todo <= outbox.Keys
    ensures InSeqOrder(outbox, todo) == [outbox[Least(todo)]] + InSeqOrder(outbox, todo - {Least(todo)})
  {
    var k := Least(todo);
    var rest := SortedKeys(todo - {k});
    assert SortedKeys(todo) == [k] + rest;
    assert forall i :: 0 <= i < |[k] + rest| ==> ([k] + rest)[i] in SortedKeys(todo);
    assert ([k] + rest)[1..] == rest;
  }

  ghost predicate Carries(r: seq<OutboundMessage>, k: int) {
    exists m :: m in r && m.seqNo == k
  }

  lemma ReplayCarries(s: Session, lastReceived: int, k: int)
    requires WellKeyed(s.outbox)
    ensures Carries(Replay(s, lastReceived), k) <==> k in s.outbox && k > lastReceived
  {
    ReplayIsOrdered(s, lastReceived);
    if k in s.outbox && k > lastReceived {
      assert s.outbox[k] in Replay(s, lastReceived);
    }
  }

  // ---- Inbound ----------------------------------------------------------------------------

  predicate ShouldProcess(s: Session, n: int) {
    !(n <= s.last || n in s.seen)
  }

  /** The watermark moves past every consecutive seq already seen; what it passed is pruned. */
  function Advance(last: int, seen: set<int>): (int, set<int>)
    decreases |seen|
  {
    if last + 1 in seen then Advance(last + 1, seen - {last + 1}) else (last, seen)
  }

  function Marked(s: Session, n: int): Session {
    var (last, seen) := Advance(s.last, s.seen + {n});
    s.(last := last, seen := seen)
  }

  function Reset(s: Session): Session {
    s.(last := 0, seen := {})
  }

  /** The inbound state that `processed` leads to: the watermark is the largest k with 1..k all
      processed, and the set holds exactly what was processed above it. */
  ghost predicate Watermark(processed: set<int>, last: int, seen: set<int>) {
    && last >= 0
    && (forall k :: 1 <= k <= last ==> k in processed)
    && last + 1 !in processed
    && seen == set k | k in processed && k > last
  }

  lemma {:induction false} AdvanceReachesWatermark(processed: set<int>, last: int, seen: set<int>)
    requires last >= 0 && forall k :: 1 <= k <= last ==> k in processed
    requires seen == set k | k in processed && k > last
    ensures Watermark(processed, Advance(last, seen).0, Advance(last, seen).1)
    decreases |seen|
  {
    if last + 1 in seen {
      var pruned := set k | k in processed && k > last + 1;
      assert pruned == seen - {last + 1};
      AdvanceReachesWatermark(processed, last + 1, pruned);
    }
  }

  lemma MarkedKeepsWatermark(processed: set<int>, s: Session, n: int)
    requires Watermark(processed, s.last, s.seen) && ShouldProcess(s, n)
    ensures Watermark(processed + {n}, Marked(s, n).last, Marked(s, n).seen)
  {
    var all := set k | k in processed + {n} && k > s.last;
    assert all == s.seen + {n};
    AdvanceReachesWatermark(processed + {n}, s.last, all);
  }

  // ---- Whole runs of one session ------------------------------------------------------------

  datatype SessionEvent =
    | Send(payload: Payload, at: real)
    | Ack(ackSeq: int)
    | Retry(retrySeq: int, retryAt: real)
    | Inbound(inSeq: int)          // should_process_inbound, then mark_inbound_processed
    | NewConnection                // reset_inbound

  function SessionStep(s: Session, e: SessionEvent): Session {
    match e
    case Send(p, t) => Prepared(s, p, t)
    case Ack(n) => Acked(s, n)
    case Retry(n, t) => Retried(s, n, t)
    case Inbound(n) => if ShouldProcess(s, n) then Marked(s, n) else s
    case NewConnection => Reset(s)
  }

  /** A run from any session: a fresh one, one read back from disk, or one adopted from a peer. */
  function SessionRun(base: Session, es: seq<SessionEvent>): Session {
    if es == [] then base else SessionStep(SessionRun(base, es[..|es| - 1]), es[|es| - 1])
  }

  /** Every buffered message is filed under its own seq, below the counter. */
  ghost predicate Sound(s: Session) {
    WellKeyed(s.outbox) && forall n :: n in s.outbox ==> n < s.nextSend
  }

  /** The payloads sent so far, in order. */
  function Sends(es: seq<SessionEvent>): seq<Payload> {
    if es == [] then []
    else
      var n := |es| - 1;
      Sends(es[..n]) + (if es[n].Send? then [es[n].payload] else [])
  }

  /** Event i acknowledges n when n has been given out, by this run or before it. */
  ghost predicate AcksAt(base: Session, es: seq<SessionEvent>, n: int, i: nat) {
    i < |es| && es[i] == Ack(n) && n < base.nextSend + |Sends(es[..i])|
  }

  ghost predicate AckedIn(base: Session, es: seq<SessionEvent>, n: int) {
    exists i: nat :: AcksAt(base, es, n, i)
  }

  /** The inbound seqs since the last new connection. */
  function InboundOnConnection(es: seq<SessionEvent>): seq<int> {
    if es == [] then []
    else
      var n := |es| - 1;
      match es[n]
      case Inbound(k) => InboundOnConnection(es[..n]) + [k]
      case NewConnection => []
      case _ => InboundOnConnection(es[..n])
  }

  /** The run starts with clear inbound tracking, or clears it. */
  predicate StartsClear(base: Session, es: seq<SessionEvent>) {
    (base.last == 0 && base.seen == {}) || NewConnection in es
  }

  lemma AckedInSnoc(base: Session, es: seq<SessionEvent>, e: SessionEvent, n: int)
    ensures AckedIn(base, es + [e], n) <==> AckedIn(base, es, n) || (e == Ack(n) && n < base.nextSend + |Sends(es)|)
  {
    var es' := es + [e];
    assert es'[..|es|] == es && forall i :: 0 <= i < |es| ==> es'[..i] == es[..i];
    if AckedIn(base, es, n) {
      var i: nat :| AcksAt(base, es, n, i);
      assert AcksAt(base, es', n, i);
    }
    if e == Ack(n) && n < base.nextSend + |Sends(es)| {
      assert AcksAt(base, es', n, |es|);
    }
    if AckedIn(base, es', n) {
      var i: nat :| AcksAt(base, es', n, i);
      assert i < |es| ==> AcksAt(base, es, n, i);
    }
  }

  /** Numbers given out by this run are above everything acknowledged before. */
  lemma {:induction false} AckedWasSent(base: Session, es: seq<SessionEvent>, n: int)
    ensures AckedIn(base, es, n) ==> n < base.nextSend + |Sends(es)|
  {
    if es != [] {
      AckedWasSent(base, es[..|es| - 1], n);
      SplitLast(es);
      AckedInSnoc(base, es[..|es| - 1], es[|es| - 1], n);
    }
  }

  /** What the outbox holds after a run from `base`. */
  ghost predicate OutboxFollows(base: Session, es: seq<SessionEvent>, s: Session)
    requires Sound(base)
  {
    && s.nextSend == base.nextSend + |Sends(es)|
    && WellKeyed(s.outbox)
    && (forall n :: n in s.outbox <==> (n in base.outbox || base.nextSend <= n < s.nextSend) && !AckedIn(base, es, n))
    && (forall n :: n in s.outbox ==>
          s.outbox[n].payload == if n < base.nextSend then base.outbox[n].payload else Sends(es)[n - base.nextSend])
  }

  lemma OutboxFollowsStep(base: Session, es: seq<SessionEvent>, s: Session, e: SessionEvent)
    requires Sound(base) && OutboxFollows(base, es, s)
    ensures OutboxFollows(base, es + [e], SessionStep(s, e))
  {
    assert (es + [e])[..|es|] == es;
    forall n ensures AckedIn(base, es + [e], n) <==> AckedIn(base, es, n) || (e == Ack(n) && n < s.nextSend) {
      AckedInSnoc(base, es, e, n);
    }
    forall n ensures AckedIn(base, es, n) ==> n < s.nextSend {
      AckedWasSent(base, es, n);
    }
  }

  /** Conservation: in every run from a sound session the buffered messages are exactly those it
      had and those sent since, less the acknowledged ones, each under its own number with its own
      payload; new numbers are given out consecutively from the counter on. */
  lemma {:induction false} OutboxIsSentMinusAcked(base: Session, es: seq<SessionEvent>)
    requires Sound(base)
    ensures OutboxFollows(base, es, SessionRun(base, es))
  {
    if es == [] {
      assert forall n :: !AckedIn(base, es, n);
    } else {
      OutboxIsSentMinusAcked(base, es[..|es| - 1]);
      SplitLast(es);
      OutboxFollowsStep(base, es[..|es| - 1], SessionRun(base, es[..|es| - 1]), es[|es| - 1]);
    }
  }

  /** The counter moves by one per send, whatever the outbox looked like. */
  lemma {:induction false} CounterCountsSends(base: Session, es: seq<SessionEvent>)
    ensures SessionRun(base, es).nextSend == base.nextSend + |Sends(es)|
  {
    if es != [] {
      CounterCountsSends(base, es[..|es| - 1]);
    }
  }

  /** Buffered, or given out by this run, and not acknowledged. */
  ghost predicate Unacked(base: Session, es: seq<SessionEvent>, n: int) {
    (n in base.outbox || base.nextSend <= n < base.nextSend + |Sends(es)|) && !AckedIn(base, es, n)
  }

  /** What a reconnecting client is sent: for any number it reports, exactly the unacked
      messages above it, strictly ascending, each with its original payload. */
  lemma ReplayIsUnacked(base: Session, es: seq<SessionEvent>, lastReceived: int)
    requires Sound(base)
    ensures var r := Replay(SessionRun(base, es), lastReceived);
      && InOrder(r)
      && (forall n :: Carries(r, n) <==> n > lastReceived && Unacked(base, es, n))
      && (forall m :: m in r ==> m.seqNo < base.nextSend + |Sends(es)| && (m.seqNo < base.nextSend ==>
          m.seqNo in base.outbox))
      && (forall m :: m in r ==>
            m.payload == if m.seqNo < base.nextSend then base.outbox[m.seqNo].payload
                else Sends(es)[m.seqNo - base.nextSend])
  {
    OutboxIsSentMinusAcked(base, es);
    var s := SessionRun(base, es);
    ReplayIsOrdered(s, lastReceived);
    forall n ensures Carries(Replay(s, lastReceived), n) <==> n > lastReceived && Unacked(base, es, n) {
      ReplayCarries(s, lastReceived, n);
    }
    forall m | m in Replay(s, lastReceived) ensures m.seqNo in s.outbox && m == s.outbox[m.seqNo] {
      assert Files(s.outbox, m);
    }
  }

  ghost function Positive(ns: seq<int>): set<int> {
    set n | n in ns && n >= 1
  }

  /** Exactly-once admission: since the last clearing a frame is let through exactly when its seq is
      positive and did not arrive before, and the bookkeeping is the watermark of the positive seqs
      that arrived. */
  lemma {:induction false} InboundIsExact(base: Session, es: seq<SessionEvent>, n: int)
    requires StartsClear(base, es)
    ensures var s := SessionRun(base, es); var arrived := InboundOnConnection(es);
      && Watermark(Positive(arrived), s.last, s.seen)
      && (ShouldProcess(s, n) <==> n >= 1 && n !in arrived)
  {
    if es == [] || es[|es| - 1] == NewConnection {
      assert Positive([]) == {};
    } else {
      var init, e := es[..|es| - 1], es[|es| - 1];
      SplitLast(es);
      assert StartsClear(base, init);
      InboundIsExact(base, init, if e.Inbound? then e.inSeq else n);
      if e.Inbound? {
        ArrivalIsExact(SessionRun(base, init), InboundOnConnection(init), e.inSeq);
      }
    }
    assert n >= 1 ==> (n in Positive(InboundOnConnection(es)) <==> n in InboundOnConnection(es));
  }

  lemma ArrivalIsExact(s: Session, arrived: seq<int>, n: int)
    requires Watermark(Positive(arrived), s.last, s.seen) && (ShouldProcess(s, n) <==> n >= 1 && n !in arrived)
    ensures var s' := SessionStep(s, Inbound(n)); Watermark(Positive(arrived + [n]), s'.last, s'.seen)
  {
    if ShouldProcess(s, n) {
      MarkedKeepsWatermark(Positive(arrived), s, n);
      assert Positive(arrived + [n]) == Positive(arrived) + {n};
    } else {
      assert Positive(arrived + [n]) == Positive(arrived);
    }
  }

  // ---- When a buffered message was last sent ---------------------------------------------------------------

  /** The time of the last sending of message n, and how often it was sent again, as the events say. */
  function LastSending(base: Session, es: seq<SessionEvent>, n: int): (real, int) {
    if es == [] then if n in base.outbox then (base.outbox[n].sentAt, base.outbox[n].retryCount) else (0.0, 0)
    else
      var init := es[..|es| - 1];
      match es[|es| - 1]
      case Send(_, at) => if n == base.nextSend + |Sends(init)| then (at, 0) else LastSending(base, init, n)
      case Retry(k, at) => if k == n then (at, LastSending(base, init, n).1 + 1) else LastSending(base, init, n)
      case _ => LastSending(base, init, n)
  }

  /** In every run a buffered message has the time of its last sending and the number of its resends, on
      which the choice of messages to resend rests. */
  lemma {:induction false} SendingsAreRecorded(base: Session, es: seq<SessionEvent>, n: int)
    requires Sound(base)
    ensures var outbox := SessionRun(base, es).outbox;
      n in outbox ==> (outbox[n].sentAt, outbox[n].retryCount) == LastSending(base, es, n)
  {
    if es != [] {
      SendingsAreRecorded(base, es[..|es| - 1], n);
      CounterCountsSends(base, es[..|es| - 1]);
    }
  }

  // ---- The class ----------------------------------------------------------------------------

  class SessionState {
    const sessionId: Sid
    var roomId: Room
    var nextSendSeq: int
    var outbox: map<int, OutboundMessage>
    var lastProcessedSeq: int
    var seenInboundSeqs: set<int>

    /** The value this object stands for. */
    function View(): Session
      reads this
    {
      Session(roomId, nextSendSeq, outbox, lastProcessedSeq, seenInboundSeqs)
    }

    constructor (sessionId: Sid, nextSendSeq: int := 1, lastProcessedSeq: int := 0, roomId: Room := "general")
      ensures this.sessionId == sessionId
      ensures View() == Session(roomId, nextSendSeq, map[], lastProcessedSeq, {})
    {
      this.sessionId := sessionId;
      this.roomId := roomId;
      this.nextSendSeq := nextSendSeq;
      this.outbox := map[];
      this.lastProcessedSeq := lastProcessedSeq;
      this.seenInboundSeqs := {};
    }

    /** Bulk load during recovery; a later row for a seq replaces an earlier one. */
    method LoadOutboxRows(rows: seq<OutboundMessage>)
      modifies this
      ensures View() == old(View()).(outbox := Loaded(old(outbox), rows))
    {
      var i := 0;
      while i < |rows|
        invariant 0 <= i <= |rows|
        invariant View() == old(View()).(outbox := Loaded(old(outbox), rows[..i]))
      {
        assert rows[..i + 1][..i] == rows[..i];
        outbox := outbox[rows[i].seqNo := rows[i]];
        i := i + 1;
      }
      assert rows[..i] == rows;
    }

    method PrepareOutbound(payload: Payload, now: real) returns (msg: OutboundMessage)
      modifies this
      ensures View() == Prepared(old(View()), payload, now)
      ensures msg == OutboundMessage(old(nextSendSeq), payload, now, 0) && msg.seqNo in outbox && outbox[msg.seqNo]
          == msg
    {
      msg := OutboundMessage(nextSendSeq, payload, now, 0);
      outbox := outbox[msg.seqNo := msg];
      nextSendSeq := nextSendSeq + 1;
    }

    method HandleAck(n: int) returns (present: bool)
      modifies this
      ensures View() == Acked(old(View()), n)
      ensures present <==> n in old(outbox)
    {
      present := n in outbox;
      outbox := outbox - {n};
    }

    method MarkRetried(n: int, now: real)
      modifies this
      ensures View() == Retried(old(View()), n, now)
    {
      if n in outbox {
        outbox := outbox[n := outbox[n].(sentAt := now, retryCount := outbox[n].retryCount + 1)];
      }
    }

    /** The messages above the seq, sorted by seq: the least of those left comes next. */
    method ReplayFrom(lastReceived: int) returns (r: seq<OutboundMessage>)
      ensures r == Replay(View(), lastReceived)
    {
      r := [];
      var todo := set k | k in outbox && k > lastReceived;
      while todo != {}
        invariant todo <= outbox.Keys && r + InSeqOrder(outbox, todo) == Replay(View(), lastReceived)
        decreases |todo|
      {
        var k := Least(todo);
        NextInOrder(outbox, todo);
        ConcatAssociates(r, [outbox[k]], InSeqOrder(outbox, todo - {k}));
        r := r + [outbox[k]];
        todo := todo - {k};
      }
      assert r + [] == r;
    }

    method ShouldProcessInbound(n: int) returns (process: bool)
      ensures process <==> ShouldProcess(View(), n)
    {
      if n <= lastProcessedSeq || n in seenInboundSeqs {
        return false;
      }
      return true;
    }

    method ResetInbound()
      modifies this
      ensures View() == Reset(old(View()))
    {
      lastProcessedSeq := 0;
      seenInboundSeqs := {};
    }

    method MarkInboundProcessed(n: int)
      modifies this
      ensures View() == Marked(old(View()), n)
    {
      seenInboundSeqs := seenInboundSeqs + {n};
      while lastProcessedSeq + 1 in seenInboundSeqs
        invariant View() == old(View()).(last := lastProcessedSeq, seen := seenInboundSeqs)
        invariant Advance(lastProcessedSeq, seenInboundSeqs)
            == Advance(old(lastProcessedSeq), old(seenInboundSeqs) + {n})
        decreases |seenInboundSeqs|
      {
        lastProcessedSeq := lastProcessedSeq + 1;
        seenInboundSeqs := seenInboundSeqs - {lastProcessedSeq};
      }
    }
  }

  /** A dict after loading rows into it one by one. */
  function Loaded(outbox: map<int, OutboundMessage>, rows: seq<OutboundMessage>): map<int, OutboundMessage> {
    if rows == [] then outbox
    else
      var row := rows[|rows| - 1];
      Loaded(outbox, rows[..|rows| - 1])[row.seqNo := row]
  }
}
