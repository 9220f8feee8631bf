/** A whole cluster: nodes of node/server.py joined by the mesh of node/mesh.py.  A message that one
    node admits is broadcast in exactly one event of every reachable node.  There it enters the log of
    every session then in the room but one: at its origin its poster, elsewhere whoever is called like
    its author. */
module Clusters {
  import opened Base
  import opened SessionStates
  import opened NodeBroadcast
  import opened NodeSteps
  import opened NodeRuns
  import opened NodeGuarantees
  import opened NodeWire
  import M = MeshFlood

  type NodeId = M.Node
  type MsgId = string

  /** An event of a node, with the message it broadcast if it did. */
  datatype Tagged = Tagged(event: NodeEvent, id: Option<MsgId>)

  /** The mesh, what every node did so far, and the messages that were posted. */
  datatype Cluster = Cluster(mesh: M.Mesh, done: map<NodeId, seq<Tagged>>, posts: map<MsgId, Broadcast>)

  /** A node with a client's or its own event, `id` being the id minted if it broadcasts; or the read
      loop of a mesh link taking a frame. */
  datatype Event =
    | Local(at: NodeId, event: NodeEvent, id: MsgId)
    | Read(id: MsgId, hop: M.Hop, now: real)

  /** The nodes' lives, the mesh they form and the size of their caches. */
  datatype World = World(lives: NodeId -> Life, graph: M.Graph, maxSize: int)

  const Start := Cluster(M.Mesh(map[], map[]), map[], map[])

  function Done(c: Cluster, n: NodeId): seq<Tagged> {
    if n in c.done then c.done[n] else []
  }

  function Events(ts: seq<Tagged>): (es: seq<NodeEvent>)
    ensures |es| == |ts|
  {
    if ts == [] then [] else Events(ts[..|ts| - 1]) + [ts[|ts| - 1].event]
  }

  /** What the node hands to the mesh, if it has one. */
  function PostOf(w: World, c: Cluster, at: NodeId, e: NodeEvent): Option<Broadcast> {
    if w.lives(at).meshed then BroadcastOf(w.lives(at), Events(Done(c, at)), e) else None
  }

  /** Relayed messages come from the mesh only; minted ids are fresh; a frame must be in flight. */
  predicate CanDo(w: World, c: Cluster, ev: Event) {
    match ev
    case Local(at, e, id) => !e.RelayIn? && (PostOf(w, c, at, e).Some? ==> id !in c.mesh.floods)
    case Read(id, hop, _) => w.lives(hop.dst).meshed && hop in M.FloodOf(c.mesh, id).flight
  }

  /** The deliver_locally call for a relayed message. */
  function RelayOf(b: Broadcast, now: real): NodeEvent {
    match b.payload
    case Chat(text, author, room, at) => RelayIn(b.room, text, author, at, now)
    case Opaque(body) => RelayIn(b.room, body, b.from, None, now)
  }

  function MeshEvent(w: World, c: Cluster, ev: Event): seq<M.Event> {
    if !CanDo(w, c, ev) then []
    else
      match ev
      case Local(at, e, id) => if PostOf(w, c, at, e).Some? then [M.Originate(at, id)] else []
      case Read(id, hop, _) => [M.Receive(id, hop)]
  }

  function MeshAfter(w: World, c: Cluster, ev: Event): M.Mesh {
    var mes := MeshEvent(w, c, ev);
    if mes == [] then c.mesh else M.Step(w.graph, w.maxSize, c.mesh, mes[0])
  }

  /** What the node `n` does in a step, if anything. */
  function DoneBy(w: World, c: Cluster, ev: Event, n: NodeId): seq<Tagged> {
    if !CanDo(w, c, ev) then []
    else
      match ev
      case Local(at, e, id) =>
        if at == n then [Tagged(e, if PostOf(w, c, at, e).Some? then Some(id) else None)] else []
      case Read(id, hop, now) =>
        if hop.dst == n && !M.Cached(w.maxSize, c.mesh, n, id) && id in c.posts
        then [Tagged(RelayOf(c.posts[id], now), Some(id))] else []
  }

  function PostsAfter(w: World, c: Cluster, ev: Event): map<MsgId, Broadcast> {
    if ev.Local? && CanDo(w, c, ev) && PostOf(w, c, ev.at, ev.event).Some?
    then c.posts[ev.id := PostOf(w, c, ev.at, ev.event).value] else c.posts
  }

  function Step(w: World, c: Cluster, ev: Event): Cluster {
    var n := match ev case Local(at, _, _) => at case Read(_, hop, _) => hop.dst;
    Cluster(MeshAfter(w, c, ev), c.done[n := Done(c, n) + DoneBy(w, c, ev, n)], PostsAfter(w, c, ev))
  }

  lemma DoneStep(w: World, c: Cluster, ev: Event, n: NodeId)
    ensures Done(Step(w, c, ev), n) == Done(c, n) + DoneBy(w, c, ev, n)
    ensures |DoneBy(w, c, ev, n)| <= 1
  {
  }

  function Run(w: World, evs: seq<Event>): Cluster {
    if evs == [] then Start else Step(w, Run(w, evs[..|evs| - 1]), evs[|evs| - 1])
  }

  function MeshEvents(w: World, evs: seq<Event>): seq<M.Event> {
    if evs == [] then []
    else MeshEvents(w, evs[..|evs| - 1]) + MeshEvent(w, Run(w, evs[..|evs| - 1]), evs[|evs| - 1])
  }

  // ---- The mesh of a cluster is a run of the flood -------------------------------------------------

  lemma {:induction false} MeshIsRun(w: World, evs: seq<Event>)
    ensures Run(w, evs).mesh == M.Run(w.graph, w.maxSize, MeshEvents(w, evs))
  {
    if evs != [] {
      var init, ev := evs[..|evs| - 1], evs[|evs| - 1];
      MeshIsRun(w, init);
      var mes, c := MeshEvent(w, Run(w, init), ev), Run(w, init);
      assert Step(w, c, ev).mesh == MeshAfter(w, c, ev);
      if mes == [] {
        assert MeshEvents(w, evs) == MeshEvents(w, init);
      } else {
        assert MeshEvents(w, evs)[..|MeshEvents(w, init)|] == MeshEvents(w, init);
      }
    }
  }

  /** A message is known to the mesh exactly when it was posted, by its origin. */
  ghost predicate Posted(c: Cluster, mes: seq<M.Event>) {
    forall id :: (id in c.posts <==> id in c.mesh.floods) && (id in c.posts <==> M.OriginOf(mes, id).Some?)
  }

  lemma OriginSnoc(mes: seq<M.Event>, me: M.Event, id: MsgId)
    ensures M.OriginOf(mes + [me], id) ==
            if me.Originate? && M.OriginOf(mes, id).None? && me.id == id then Some(me.node) else M.OriginOf(mes, id)
  {
    assert (mes + [me])[..|mes|] == mes;
  }

  lemma {:induction false} PostedRun(w: World, evs: seq<Event>)
    ensures Posted(Run(w, evs), MeshEvents(w, evs))
  {
    if evs != [] {
      var init, ev := evs[..|evs| - 1], evs[|evs| - 1];
      PostedRun(w, init);
      PostedStep(w, Run(w, init), MeshEvents(w, init), ev);
    }
  }

  lemma PostedStep(w: World, c: Cluster, mes: seq<M.Event>, ev: Event)
    requires Posted(c, mes)
    ensures Posted(Step(w, c, ev), mes + MeshEvent(w, c, ev))
  {
    forall id
      ensures M.OriginOf(mes + MeshEvent(w, c, ev), id) ==
              if MeshEvent(w, c, ev) != [] && ev.Local? && ev.id == id then Some(ev.at) else M.OriginOf(mes, id)
    {
      OriginStep(w, c, mes, ev, id);
    }
    assert MeshAfter(w, c, ev).floods.Keys == c.mesh.floods.Keys + if MeshEvent(w, c, ev) != [] then {ev.id} else {};
  }

  // ---- Each delivery is one event of its node --------------------------------------------------------

  /** How many events of the node broadcast the message. */
  function Times(ts: seq<Tagged>, id: MsgId): nat {
    if ts == [] then 0 else Times(ts[..|ts| - 1], id) + if ts[|ts| - 1].id == Some(id) then 1 else 0
  }

  lemma TimesSnoc(ts: seq<Tagged>, t: Tagged, id: MsgId)
    ensures Times(ts + [t], id) == Times(ts, id) + if t.id == Some(id) then 1 else 0
  {
    assert (ts + [t])[..|ts|] == ts;
  }

  /** Once at the origin, and once per delivery the mesh made. */
  ghost predicate Counted(c: Cluster, mes: seq<M.Event>, n: NodeId, id: MsgId) {
    Times(Done(c, n), id) == M.FloodOf(c.mesh, id).delivered[n] + if M.OriginOf(mes, id) == Some(n) then 1 else 0
  }

  lemma TimesStep(w: World, c: Cluster, ev: Event, n: NodeId, id: MsgId)
    ensures Times(Done(Step(w, c, ev), n), id) ==
            Times(Done(c, n), id) + if DoneBy(w, c, ev, n) != [] && DoneBy(w, c, ev, n)[0].id == Some(id) then 1 else 0
  {
    DoneStep(w, c, ev, n);
    var more := DoneBy(w, c, ev, n);
    if more == [] {
      assert Done(c, n) + more == Done(c, n);
    } else {
      assert more == [more[0]];
      TimesSnoc(Done(c, n), more[0], id);
    }
  }

  lemma OriginStep(w: World, c: Cluster, mes: seq<M.Event>, ev: Event, id: MsgId)
    requires Posted(c, mes)
    ensures M.OriginOf(mes + MeshEvent(w, c, ev), id) ==
            if MeshEvent(w, c, ev) != [] && ev.Local? && ev.id == id then Some(ev.at) else M.OriginOf(mes, id)
  {
    var more := MeshEvent(w, c, ev);
    if more == [] {
      assert mes + more == mes;
    } else {
      assert more == [more[0]];
      OriginSnoc(mes, more[0], id);
    }
  }

  /** The mesh delivers a message exactly where a node takes it from the mesh. */
  lemma DeliveredStep(w: World, c: Cluster, ev: Event, n: NodeId, id: MsgId)
    requires ev.Read? && CanDo(w, c, ev) ==> ev.id in c.posts
    ensures M.FloodOf(MeshAfter(w, c, ev), id).delivered[n] ==
            M.FloodOf(c.mesh, id).delivered[n]
            + if ev.Read? && DoneBy(w, c, ev, n) != [] && ev.id == id then 1 else 0
  {
  }

  lemma StepCounts(w: World, c: Cluster, mes: seq<M.Event>, ev: Event, n: NodeId, id: MsgId)
    requires Posted(c, mes) && Counted(c, mes, n, id)
    ensures Counted(Step(w, c, ev), mes + MeshEvent(w, c, ev), n, id)
  {
    assert ev.Read? && CanDo(w, c, ev) ==> ev.id in c.mesh.floods && ev.id in c.posts;
    TimesStep(w, c, ev, n, id);
    OriginStep(w, c, mes, ev, id);
    DeliveredStep(w, c, ev, n, id);
    TagIsMade(w, c, mes, ev, n, id);
  }

  /** A node's event is tagged with a message exactly when it originates it, or takes it from the mesh. */
  lemma TagIsMade(w: World, c: Cluster, mes: seq<M.Event>, ev: Event, n: NodeId, id: MsgId)
    requires Posted(c, mes)
    ensures DoneBy(w, c, ev, n) != [] && DoneBy(w, c, ev, n)[0].id == Some(id) <==>
            (ev.Local? && MeshEvent(w, c, ev) != [] && ev.id == id && ev.at == n)
            || (ev.Read? && DoneBy(w, c, ev, n) != [] && ev.id == id)
    ensures ev.Local? && MeshEvent(w, c, ev) != [] && ev.id == id ==> M.OriginOf(mes, id).None?
  {
  }

  lemma {:induction false} RunCounts(w: World, evs: seq<Event>, n: NodeId, id: MsgId)
    ensures Counted(Run(w, evs), MeshEvents(w, evs), n, id)
  {
    if evs != [] {
      var init, ev := evs[..|evs| - 1], evs[|evs| - 1];
      RunCounts(w, init, n, id);
      PostedRun(w, init);
      StepCounts(w, Run(w, init), MeshEvents(w, init), ev, n, id);
    }
  }

  // ---- Every such event broadcasts the posted message ---------------------------------------------------

  /** The message has the frame's text and time; the origin's clock if the frame has no time or zero. */
  predicate PostedAs(e: NodeEvent, post: Broadcast)
    requires e.MessageIn? && post.payload.Chat?
  {
    && post.payload.text == e.msg.text
    && (e.msg.sentAt.Some? && e.msg.sentAt.value != 0.0 ==> post.payload.sentAt == e.msg.sentAt)
    && (e.msg.sentAt.None? || e.msg.sentAt.value == 0.0 ==> post.payload.sentAt == Some(e.now))
  }

  /** The event broadcasts the posted message: as its poster's own frame, named as its poster is, or as
      a relayed message made, as far as the node can see, by a session called like its author. */
  ghost predicate Spreads(l: Life, before: seq<NodeEvent>, e: NodeEvent, post: Broadcast) {
    var b := BroadcastOf(l, before, e);
    && post.payload.Chat? && b.Some? && b.value.room == post.room && b.value.payload == post.payload
    && (if e.RelayIn? then b.value.from == post.payload.author
        else e.MessageIn? && e.sid == post.from && b.value.from == post.from
             && post.payload.author == Name(before, post.from) && PostedAs(e, post))
  }

  /** Event i of the node, if it is tagged with a message, broadcasts just that message. */
  ghost predicate Matches(w: World, c: Cluster, n: NodeId, i: nat) {
    var ts := Done(c, n);
    i < |ts| && ts[i].id.Some? ==>
      ts[i].id.value in c.posts && Spreads(w.lives(n), Events(ts[..i]), ts[i].event, c.posts[ts[i].id.value])
  }

  /** What is posted is a chat message to its room. */
  ghost predicate ChatsOnly(c: Cluster) {
    forall id :: id in c.posts ==> c.posts[id].payload.Chat? && c.posts[id].payload.room == c.posts[id].room
  }

  lemma {:induction false} PostsAreChats(w: World, evs: seq<Event>)
    ensures ChatsOnly(Run(w, evs))
  {
    if evs != [] {
      PostsAreChats(w, evs[..|evs| - 1]);
    }
  }

  lemma MatchesStep(w: World, c: Cluster, mes: seq<M.Event>, ev: Event, n: NodeId, i: nat)
    requires Posted(c, mes) && ChatsOnly(c) && Matches(w, c, n, i)
    ensures Matches(w, Step(w, c, ev), n, i)
  {
    DoneStep(w, c, ev, n);
    var ts, ts' := Done(c, n), Done(Step(w, c, ev), n);
    if i < |ts| {
      assert ts'[..i] == ts[..i] && ts'[i] == ts[i];
    } else if i < |ts'| {
      assert ts'[..i] == ts && ts'[i] == DoneBy(w, c, ev, n)[0];
      if ts'[i].id.Some? {
        NewMatches(w, c, mes, ev, n);
      }
    }
  }

  lemma NewMatches(w: World, c: Cluster, mes: seq<M.Event>, ev: Event, n: NodeId)
    requires Posted(c, mes) && ChatsOnly(c) && DoneBy(w, c, ev, n) != [] && DoneBy(w, c, ev, n)[0].id.Some?
    ensures var t := DoneBy(w, c, ev, n)[0]; var posts := PostsAfter(w, c, ev);
      t.id.value in posts && Spreads(w.lives(n), Events(Done(c, n)), t.event, posts[t.id.value])
  {
  }

  lemma {:induction false} RunMatches(w: World, evs: seq<Event>, n: NodeId, i: nat)
    ensures Matches(w, Run(w, evs), n, i)
  {
    if evs != [] {
      var init := evs[..|evs| - 1];
      RunMatches(w, init, n, i);
      PostedRun(w, init);
      PostsAreChats(w, init);
      MatchesStep(w, Run(w, init), MeshEvents(w, init), evs[|evs| - 1], n, i);
    }
  }

  // ---- At its origin it is the poster's frame, elsewhere a relayed message ---------------------------------

  /** A node's own broadcasts of a message: one at its origin, none elsewhere. */
  ghost predicate OwnAtOrigin(c: Cluster, mes: seq<M.Event>, n: NodeId, id: MsgId) {
    var ts := Done(c, n);
    && (M.OriginOf(mes, id) == Some(n) ==> exists i :: 0 <= i < |ts| && ts[i].id == Some(id) && !ts[i].event.RelayIn?)
    && (M.OriginOf(mes, id) != Some(n) ==> forall i :: 0 <= i < |ts| && ts[i].id == Some(id) ==> ts[i].event.RelayIn?)
  }

  lemma OwnStep(w: World, c: Cluster, mes: seq<M.Event>, ev: Event, n: NodeId, id: MsgId)
    requires Posted(c, mes) && ChatsOnly(c) && OwnAtOrigin(c, mes, n, id)
    ensures OwnAtOrigin(Step(w, c, ev), mes + MeshEvent(w, c, ev), n, id)
  {
    DoneStep(w, c, ev, n);
    OriginStep(w, c, mes, ev, id);
    TagIsMade(w, c, mes, ev, n, id);
    var ts, more := Done(c, n), DoneBy(w, c, ev, n);
    var mes' := mes + MeshEvent(w, c, ev);
    if M.OriginOf(mes', id) == Some(n) {
      if M.OriginOf(mes, id) == Some(n) {
        var i :| 0 <= i < |ts| && ts[i].id == Some(id) && !ts[i].event.RelayIn?;
        assert (ts + more)[i] == ts[i];
      } else {
        assert (ts + more)[|ts|].id == Some(id) && !(ts + more)[|ts|].event.RelayIn?;
      }
    }
  }

  lemma {:induction false} OwnRun(w: World, evs: seq<Event>, n: NodeId, id: MsgId)
    ensures OwnAtOrigin(Run(w, evs), MeshEvents(w, evs), n, id)
  {
    if evs != [] {
      var init := evs[..|evs| - 1];
      OwnRun(w, init, n, id);
      PostedRun(w, init);
      PostsAreChats(w, init);
      OwnStep(w, Run(w, init), MeshEvents(w, init), evs[|evs| - 1], n, id);
    }
  }

  // ---- What a node hands to the mesh -------------------------------------------------------------------------

  /** The step posts a message of node `n`. */
  predicate Originates(w: World, c: Cluster, ev: Event, n: NodeId) {
    ev.Local? && ev.at == n && MeshEvent(w, c, ev) != []
  }

  /** The messages a step posts at a node. */
  function PostsIn(w: World, c: Cluster, ev: Event, n: NodeId): seq<Broadcast> {
    if Originates(w, c, ev, n) then [PostOf(w, c, n, ev.event).value] else []
  }

  /** The messages a node posted, in order. */
  function PostedAt(w: World, evs: seq<Event>, n: NodeId): seq<Broadcast> {
    if evs == [] then []
    else
      var init := evs[..|evs| - 1];
      PostedAt(w, init, n) + PostsIn(w, Run(w, init), evs[|evs| - 1], n)
  }

  /** The relay_message call for a posted message. */
  function RelayCall(b: Broadcast): Option<Relay> {
    match b.payload
    case Chat(text, author, _, Some(at)) => Some(Relay(b.room, text, author, at))
    case _ => None
  }

  /** The calls are those of the messages, one by one. */
  ghost predicate CallsFor(relays: seq<Relay>, posts: seq<Broadcast>) {
    |relays| == |posts| && forall i :: 0 <= i < |posts| ==> RelayCall(posts[i]) == Some(relays[i])
  }

  lemma OwedSnoc(l: Life, es: seq<NodeEvent>, e: NodeEvent)
    ensures var b := BroadcastOf(l, es, e);
      && (b.Some? && !e.RelayIn? ==> RelayCall(b.value).Some?)
      && RelaysOwed(l, es + [e]) ==
         RelaysOwed(l, es) + if b.Some? && !e.RelayIn? then [RelayCall(b.value).value] else []
  {
    assert (es + [e])[..|es|] == es;
  }

  lemma EventsAppend(ts: seq<Tagged>, t: Tagged)
    ensures Events(ts + [t]) == Events(ts) + [t.event]
  {
    assert (ts + [t])[..|ts|] == ts;
  }

  /** What a node does in a step is a post exactly if it is a broadcast of its own. */
  lemma PostIsOwn(w: World, c: Cluster, ev: Event, n: NodeId)
    requires w.lives(n).meshed
    ensures var more := DoneBy(w, c, ev, n);
      if more == [] then !Originates(w, c, ev, n)
      else
        var b := BroadcastOf(w.lives(n), Events(Done(c, n)), more[0].event);
        && more == [more[0]]
        && (Originates(w, c, ev, n) <==> b.Some? && !more[0].event.RelayIn?)
        && (Originates(w, c, ev, n) ==> PostOf(w, c, n, ev.event) == b)
  {
  }

  lemma CallsAppend(relays: seq<Relay>, posts: seq<Broadcast>, b: Broadcast)
    requires CallsFor(relays, posts) && RelayCall(b).Some?
    ensures CallsFor(relays + [RelayCall(b).value], posts + [b])
  {
  }

  lemma OwedStep(w: World, c: Cluster, ev: Event, n: NodeId, posts: seq<Broadcast>)
    requires w.lives(n).meshed && CallsFor(RelaysOwed(w.lives(n), Events(Done(c, n))), posts)
    ensures CallsFor(RelaysOwed(w.lives(n), Events(Done(Step(w, c, ev), n))), posts + PostsIn(w, c, ev, n))
  {
    DoneStep(w, c, ev, n);
    PostIsOwn(w, c, ev, n);
    var ts, more := Done(c, n), DoneBy(w, c, ev, n);
    if more == [] {
      assert ts + more == ts && posts + [] == posts;
    } else {
      EventsAppend(ts, more[0]);
      OwedSnoc(w.lives(n), Events(ts), more[0].event);
      if Originates(w, c, ev, n) {
        CallsAppend(RelaysOwed(w.lives(n), Events(ts)), posts, PostOf(w, c, n, ev.event).value);
      } else {
        assert posts + [] == posts;
      }
    }
  }

  lemma {:induction false} OwedForPosts(w: World, evs: seq<Event>, n: NodeId)
    requires w.lives(n).meshed
    ensures CallsFor(RelaysOwed(w.lives(n), Events(Done(Run(w, evs), n))), PostedAt(w, evs, n))
  {
    if evs != [] {
      var init := evs[..|evs| - 1];
      OwedForPosts(w, init, n);
      OwedStep(w, Run(w, init), evs[|evs| - 1], n, PostedAt(w, init, n));
    }
  }

  /** The relay_message calls a meshed node really makes are its posts in the mesh, one by one in order. */
  lemma NodesPostWhatTheyRelay(w: World, evs: seq<Event>, n: NodeId)
    requires w.lives(n).meshed
    ensures CallsFor(NodeRun(w.lives(n), Events(Done(Run(w, evs), n))).relays, PostedAt(w, evs, n))
  {
    OwedForPosts(w, evs, n);
    RelaysExactlyOnce(w.lives(n), Events(Done(Run(w, evs), n)));
  }

  // ---- Main result ------------------------------------------------------------------------------------------

  /** Once no frame of a message is in flight (and no cache forgot it too early), every node reachable
      from its origin, the origin included, has broadcast it in exactly one event, and no other node
      in any. */
  lemma BroadcastOncePerNode(w: World, evs: seq<Event>, id: MsgId, origin: NodeId, n: NodeId)
    requires M.OriginOf(MeshEvents(w, evs), id) == Some(origin)
    requires M.Retains(w.graph, w.maxSize, MeshEvents(w, evs), id)
    requires M.FloodOf(Run(w, evs).mesh, id).flight == multiset{}
    ensures Times(Done(Run(w, evs), n), id) == if M.Reachable(w.graph, origin, n) then 1 else 0
  {
    var mes := MeshEvents(w, evs);
    MeshIsRun(w, evs);
    RunCounts(w, evs, n, id);
    M.DeliveredExactlyOnce(w.graph, w.maxSize, mes, id, origin, n);
    M.ReachableSelf(w.graph, origin);
  }

  /** The only event of `ts` tagged with the message. */
  ghost predicate OnlyAt(ts: seq<Tagged>, id: MsgId, i: nat) {
    i < |ts| && ts[i].id == Some(id) && forall j :: 0 <= j < |ts| && j != i ==> ts[j].id != Some(id)
  }

  lemma {:induction false} NoneIfZero(ts: seq<Tagged>, id: MsgId)
    requires Times(ts, id) == 0
    ensures forall j :: 0 <= j < |ts| ==> ts[j].id != Some(id)
  {
    if ts != [] {
      NoneIfZero(ts[..|ts| - 1], id);
    }
  }

  lemma {:induction false} OneIfOnce(ts: seq<Tagged>, id: MsgId) returns (i: nat)
    requires Times(ts, id) == 1
    ensures OnlyAt(ts, id, i)
  {
    var n := |ts| - 1;
    if ts[n].id == Some(id) {
      NoneIfZero(ts[..n], id);
      i := n;
    } else {
      i := OneIfOnce(ts[..n], id);
    }
  }

  lemma EventsSnoc(ts: seq<Tagged>, i: nat)
    requires i < |ts|
    ensures Events(ts[..i + 1]) == Events(ts[..i]) + [ts[i].event]
  {
    assert ts[..i + 1][..i] == ts[..i];
  }

  /** Who a node leaves out of a broadcast in the room: at its origin the poster, whom it knows by its
      session; elsewhere the session called like the author, the only name a relayed frame carries. */
  function LeftOut(post: Broadcast, atOrigin: bool): string
    requires post.payload.Chat?
  {
    if atOrigin then post.from else post.payload.author
  }

  /** The event before which the node had done `before` enters the message in the log of every session
      then in its room but the one left out, and no other log gets anything. */
  ghost predicate EntersLogs(l: Life, before: seq<NodeEvent>, e: NodeEvent, post: Broadcast, leftOut: string) {
    forall sid :: MeantLog(l, before + [e], sid) ==
      MeantLog(l, before, sid)
      + if RoomOf(l, before, sid) == Some(post.room) && sid != leftOut then [post.payload] else []
  }

  lemma SpreadEntersLogs(l: Life, before: seq<NodeEvent>, e: NodeEvent, post: Broadcast)
    requires Spreads(l, before, e, post)
    ensures EntersLogs(l, before, e, post, LeftOut(post, !e.RelayIn?))
  {
    assert (before + [e])[..|before|] == before;
  }

  /** Each admitted client message enters the logs of every reachable node in exactly one event.  At its
      origin that is its poster's MESSAGE frame, and every other session then in the room logs it.
      Elsewhere it is a relayed frame, and every session then in the room logs it unless it is called like
      the author.  The author is the name the origin knew the poster by. */
  lemma LoggedExactlyOnce(w: World, evs: seq<Event>, id: MsgId, origin: NodeId, n: NodeId) returns (i: nat)
    requires M.OriginOf(MeshEvents(w, evs), id) == Some(origin)
    requires M.Retains(w.graph, w.maxSize, MeshEvents(w, evs), id)
    requires M.FloodOf(Run(w, evs).mesh, id).flight == multiset{} && M.Reachable(w.graph, origin, n)
    ensures var c := Run(w, evs); var ts, l := Done(c, n), w.lives(n);
      && OnlyAt(ts, id, i) && id in c.posts && c.posts[id].payload.Chat?
      && var before, e, post := Events(ts[..i]), ts[i].event, c.posts[id];
         && Events(ts[..i + 1]) == before + [e]
         && (if n == origin
             then e.MessageIn? && e.sid == post.from && post.payload.author == Name(before, post.from)
                  && PostedAs(e, post)
             else e.RelayIn? && e.text == post.payload.text && e.sentAt == post.payload.sentAt)
         && EntersLogs(l, before, e, post, LeftOut(post, n == origin))
  {
    var c := Run(w, evs);
    var ts := Done(c, n);
    BroadcastOncePerNode(w, evs, id, origin, n);
    i := OneIfOnce(ts, id);
    RunMatches(w, evs, n, i);
    OwnRun(w, evs, n, id);
    EventsSnoc(ts, i);
    SpreadEntersLogs(w.lives(n), Events(ts[..i]), ts[i].event, c.posts[id]);
  }

  /** The code takes a relayed message to have no maker on other nodes.  It has two kinds: there a session
      called like the author, though someone else, misses the message, and a copy of the poster's own
      session that an earlier visit left in the room logs it, unless the poster is known by its id. */
  lemma LeftOutElsewhere(w: World, evs: seq<Event>, id: MsgId, origin: NodeId, n: NodeId) returns (i: nat)
    requires M.OriginOf(MeshEvents(w, evs), id) == Some(origin) && n != origin
    requires M.Retains(w.graph, w.maxSize, MeshEvents(w, evs), id)
    requires M.FloodOf(Run(w, evs).mesh, id).flight == multiset{} && M.Reachable(w.graph, origin, n)
    ensures var c := Run(w, evs); var ts, l := Done(c, n), w.lives(n);
      && OnlyAt(ts, id, i) && id in c.posts && c.posts[id].payload.Chat?
      && var before, after, post := Events(ts[..i]), Events(ts[..i + 1]), c.posts[id];
         && MeantLog(l, after, post.payload.author) == MeantLog(l, before, post.payload.author)
         && (RoomOf(l, before, post.from) == Some(post.room) ==>
               (MeantLog(l, after, post.from) == MeantLog(l, before, post.from) + [post.payload] <==>
                post.payload.author != post.from))
  {
    i := LoggedExactlyOnce(w, evs, id, origin, n);
    var c := Run(w, evs);
    var before, post := Events(Done(c, n)[..i]), c.posts[id];
    assert MeantLog(w.lives(n), before, post.from) + [post.payload] != MeantLog(w.lives(n), before, post.from);
  }

  /** A session that is in the room on two reachable nodes, as after a move, logs the message on both. */
  lemma EveryCopyLogs(w: World, evs: seq<Event>, id: MsgId, origin: NodeId, n: NodeId, n': NodeId, sid: Sid)
    returns (i: nat, i': nat)
    requires M.OriginOf(MeshEvents(w, evs), id) == Some(origin) && n != n'
    requires M.Retains(w.graph, w.maxSize, MeshEvents(w, evs), id)
    requires M.FloodOf(Run(w, evs).mesh, id).flight == multiset{}
    requires M.Reachable(w.graph, origin, n) && M.Reachable(w.graph, origin, n')
    ensures var c := Run(w, evs); var ts, ts', l, l' := Done(c, n), Done(c, n'), w.lives(n), w.lives(n');
      && OnlyAt(ts, id, i) && OnlyAt(ts', id, i') && id in c.posts && c.posts[id].payload.Chat?
      && var before, before', post := Events(ts[..i]), Events(ts'[..i']), c.posts[id];
         RoomOf(l, before, sid) == Some(post.room) && RoomOf(l', before', sid) == Some(post.room)
         && sid != LeftOut(post, n == origin) && sid != LeftOut(post, n' == origin) ==>
           && MeantLog(l, Events(ts[..i + 1]), sid) == MeantLog(l, before, sid) + [post.payload]
           && MeantLog(l', Events(ts'[..i' + 1]), sid) == MeantLog(l', before', sid) + [post.payload]
  {
    i := LoggedExactlyOnce(w, evs, id, origin, n);
    i' := LoggedExactlyOnce(w, evs, id, origin, n');
  }

  /** Every reachable node enters the message in its logs as the poster's frame said it: with its text, and
      with the time the frame carried, if any and not zero, else the origin's clock at that frame; whatever
      the clocks of the other nodes say. */
  lemma TextAndTimeAreKept(w: World, evs: seq<Event>, id: MsgId, origin: NodeId, n: NodeId) returns (o: nat, i: nat)
    requires M.OriginOf(MeshEvents(w, evs), id) == Some(origin)
    requires M.Retains(w.graph, w.maxSize, MeshEvents(w, evs), id)
    requires M.FloodOf(Run(w, evs).mesh, id).flight == multiset{} && M.Reachable(w.graph, origin, n)
    ensures var c := Run(w, evs); var os, ts := Done(c, origin), Done(c, n);
      && OnlyAt(os, id, o) && OnlyAt(ts, id, i) && os[o].event.MessageIn?
      && id in c.posts && c.posts[id].payload.Chat?
      && var e, post := os[o].event, c.posts[id];
         && EntersLogs(w.lives(n), Events(ts[..i]), ts[i].event, post, LeftOut(post, n == origin))
         && post.payload.text == e.msg.text
         && (e.msg.sentAt.Some? && e.msg.sentAt.value != 0.0 ==> post.payload.sentAt == e.msg.sentAt)
         && (e.msg.sentAt.None? || e.msg.sentAt.value == 0.0 ==> post.payload.sentAt == Some(e.now))
  {
    M.ReachableSelf(w.graph, origin);
    o := LoggedExactlyOnce(w, evs, id, origin, origin);
    i := LoggedExactlyOnce(w, evs, id, origin, n);
  }
}
