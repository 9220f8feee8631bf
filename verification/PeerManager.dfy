/** One node's end of the mesh (node/mesh.py, PeerManager): link registration and teardown,
    `_flood`, `relay_message` and the RELAY branch of the read loop.  Its methods are the
    single-node halves of the steps of MeshFlood. */
module PeerManagers {
  import opened Base
  import opened DedupCaches
  import opened MeshFlood
  import Registry = OwnerRegistry

  type Writer = nat
  datatype RelayFrame = RelayFrame(id: Id, room: string, text: string, fromSession: string, sentAt: Option<real>)
  /** A RELAY frame written to the registered link of a peer. */
  datatype Sent = Sent(peer: Node, writer: Writer, frame: RelayFrame)

  /** The frames as hops of the flood of their message. */
  function Hops(src: Node, sent: seq<Sent>): multiset<Hop> {
    if sent == [] then multiset{}
    else Hops(src, sent[..|sent| - 1]) + multiset{Hop(src, sent[|sent| - 1].peer)}
  }

  /** The frames of `batch` are one flood to exactly these peers. */
  ghost predicate Covers(src: Node, batch: seq<Sent>, peers: set<Node>) {
    Hops(src, batch) == Fan(src, peers)
  }

  lemma CoversAppend(src: Node, batch: seq<Sent>, peers: set<Node>, s: Sent)
    requires Covers(src, batch, peers) && s.peer !in peers
    ensures Covers(src, batch + [s], peers + {s.peer})
  {
    assert (batch + [s])[..|batch|] == batch;
    FanAdd(src, peers, s.peer);
  }

  ghost predicate AllVia(batch: seq<Sent>, frame: RelayFrame, writers: map<Node, Writer>) {
    forall s :: s in batch ==> s.frame == frame && s.peer in writers && s.writer == writers[s.peer]
  }

  function Excluded(peer: Option<Node>): set<Node> {
    match peer case None => {} case Some(p) => {p}
  }

  /** Part of a flood over the peer list `items`: `todo` is still to be written to. */
  ghost predicate Progress(src: Node, frame: RelayFrame, items: map<Node, Writer>, targets: set<Node>,
                           todo: set<Node>, batch: seq<Sent>) {
    && todo <= targets <= items.Keys
    && AllVia(batch, frame, items)
    && Covers(src, batch, targets - todo)
  }

  lemma ProgressStart(src: Node, frame: RelayFrame, items: map<Node, Writer>, targets: set<Node>)
    requires targets <= items.Keys
    ensures Progress(src, frame, items, targets, targets, [])
  {
    FanSize(src, targets - targets);
  }

  lemma ProgressStep(src: Node, frame: RelayFrame, items: map<Node, Writer>, targets: set<Node>,
                     todo: set<Node>, batch: seq<Sent>, peer: Node)
    requires Progress(src, frame, items, targets, todo, batch) && peer in todo
    ensures Progress(src, frame, items, targets, todo - {peer}, batch + [Sent(peer, items[peer], frame)])
  {
    CoversAppend(src, batch, targets - todo, Sent(peer, items[peer], frame));
    assert targets - (todo - {peer}) == (targets - todo) + {peer};
  }

  lemma FanAdd(src: Node, peers: set<Node>, p: Node)
    requires p !in peers
    ensures Fan(src, peers + {p}) == Fan(src, peers) + multiset{Hop(src, p)}
  {
    FanSize(src, peers);
    FanSize(src, peers + {p});
    var hops := set q | q in peers :: Hop(src, q);
    var more := set q | q in peers + {p} :: Hop(src, q);
    assert more == hops + {Hop(src, p)};
    assert Hop(src, p) !in hops;
  }

  class PeerManager {
    const nodeId: Node
    const dedup: DedupCache
    var peerWriters: map<Node, Writer>
    var allWriters: set<Writer>
    /** Calls of the deliver_locally callback. */
    var delivered: seq<RelayFrame>
    var sent: seq<Sent>
    ghost var links: seq<Registry.Event<Node, Writer>>

    ghost predicate Valid()
      reads this, dedup
    {
      dedup.Valid() && peerWriters == Registry.Run(links)
    }

    constructor (nodeId: Node, maxSize: int := DEFAULT_MAX_SIZE)
      ensures Valid() && fresh(dedup) && this.nodeId == nodeId && dedup.maxSize == maxSize
      ensures peerWriters == map[] && delivered == [] && sent == [] && dedup.queried == []
    {
      this.nodeId := nodeId;
      dedup := new DedupCache(maxSize);
      peerWriters, allWriters, delivered, sent := map[], {}, [], [];
      links := [];
    }

    /** Handshake done: the link is registered under the peer's id. */
    method LinkUp(peer: Node, writer: Writer)
      requires Valid()
      modifies this
      ensures Valid() && links == old(links) + [Registry.Open(peer, writer)]
      ensures peerWriters == old(peerWriters)[peer := writer] && allWriters == old(allWriters) + {writer}
      ensures delivered == old(delivered) && sent == old(sent)
    {
      ghost var es := links + [Registry.Open(peer, writer)];
      assert es[..|es| - 1] == links;
      peerWriters := peerWriters[peer := writer];
      allWriters := allWriters + {writer};
      links := es;
    }

    /** The finally block of a link: it clears only its own registration. */
    method LinkDown(peer: Node, writer: Writer)
      requires Valid()
      modifies this
      ensures Valid() && links == old(links) + [Registry.Close(peer, writer)]
      ensures forall p :: p in old(peerWriters) && (p != peer || old(peerWriters)[p] != writer) ==>
                p in peerWriters && peerWriters[p] == old(peerWriters)[p]
      ensures peerWriters.Keys == old(peerWriters).Keys -
                (if peer in old(peerWriters) && old(peerWriters)[peer] == writer then {peer} else {})
      ensures allWriters == old(allWriters) - {writer}
      ensures delivered == old(delivered) && sent == old(sent)
    {
      ghost var es := links + [Registry.Close(peer, writer)];
      assert es[..|es| - 1] == links;
      if peer in peerWriters && peerWriters[peer] == writer {
        peerWriters := peerWriters - {peer};
      }
      allWriters := allWriters - {writer};
      links := es;
    }

    /** One frame to every registered peer but the excluded one, each over its current link. */
    method Flood(frame: RelayFrame, exclude: Option<Node>) returns (batch: seq<Sent>)
      modifies `sent
      ensures sent == old(sent) + batch && AllVia(batch, frame, peerWriters)
      ensures Covers(nodeId, batch, peerWriters.Keys - Excluded(exclude))
    {
      var items, before := peerWriters, sent;
      var todo := items.Keys - Excluded(exclude);
      ghost var targets := todo;
      batch := [];
      ProgressStart(nodeId, frame, items, targets);
      while todo != {}
        invariant sent == before + batch
        invariant Progress(nodeId, frame, items, targets, todo, batch)
      {
        var peer :| peer in todo;
        ProgressStep(nodeId, frame, items, targets, todo, batch, peer);
        batch := batch + [Sent(peer, items[peer], frame)];
        sent := before + batch;
        todo := todo - {peer};
      }
      assert targets - todo == items.Keys - Excluded(exclude);
    }

    /** This node's share of a mesh state: its query history and its registered peers. */
    ghost predicate Agrees(g: Graph, s: Mesh)
      reads this, dedup
    {
      && History(s, nodeId) == dedup.queried
      && Peers(g, nodeId) == peerWriters.Keys
    }

    /** relay_message under a fresh id: for every mesh state this node agrees with, the frames
        written are the flood the mesh starts, and the node agrees with the next state. */
    method RelayMessage(frame: RelayFrame, ghost g: Graph, ghost s: Mesh)
      requires Valid() && Agrees(g, s) && frame.id !in s.floods
      modifies `sent, dedup
      ensures Valid() && Agrees(g, Step(g, dedup.maxSize, s, Originate(nodeId, frame.id)))
      ensures old(sent) <= sent && AllVia(sent[|old(sent)|..], frame, peerWriters)
      ensures FloodOf(Step(g, dedup.maxSize, s, Originate(nodeId, frame.id)), frame.id).flight ==
              Hops(nodeId, sent[|old(sent)|..])
    {
      var _ := dedup.SeenBefore(frame.id);
      var batch := Flood(frame, None);
      assert sent[|old(sent)|..] == batch;
    }

    /** The RELAY branch of the read loop of the link to `peer`: for every mesh state this node
        agrees with and in which the frame is in flight to it, the node delivers, floods and
        remembers exactly as the mesh steps. */
    method OnRelay(peer: Node, frame: RelayFrame, ghost g: Graph, ghost s: Mesh)
      requires Valid() && Agrees(g, s) && Hop(peer, nodeId) in FloodOf(s, frame.id).flight
      modifies `sent, `delivered, dedup
      ensures var s' := Step(g, dedup.maxSize, s, Receive(frame.id, Hop(peer, nodeId)));
        && Valid() && Agrees(g, s')
        && old(sent) <= sent && AllVia(sent[|old(sent)|..], frame, peerWriters)
        && FloodOf(s', frame.id).flight ==
             FloodOf(s, frame.id).flight - multiset{Hop(peer, nodeId)} + Hops(nodeId, sent[|old(sent)|..])
        && (if FloodOf(s', frame.id).delivered == FloodOf(s, frame.id).delivered
            then delivered == old(delivered)
            else delivered == old(delivered) + [frame])
    {
      LruExact(dedup.maxSize, dedup.queried, frame.id);
      var duplicate := dedup.SeenBefore(frame.id);
      if duplicate {
        return;
      }
      delivered := delivered + [frame];
      var batch := Flood(frame, Some(peer));
      assert sent[|old(sent)|..] == batch;
    }
  }
}
