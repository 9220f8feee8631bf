# ClusterTalk: a verified model

ClusterTalk is a chat cluster: clients talk to nodes through a load balancer, nodes relay room
broadcasts to each other over a mesh, and every session survives reconnects, crashes and moves
between nodes. This project models its four state machines and its wire format in Dafny and proves
what they are for: at-least-once on the wire, exactly-once in processing, and what becomes of durable
messages in a crash: recovery brings them all back but in the cases named exactly below.

Where the program changes objects in place, the model has classes with the same fields and methods
(`DedupCache`, `PeerManager`, `SessionState`, `OutboxStore`, `SessionManager`, `ChatNode`,
`LoadBalancer`, `StreamReader`); each method is proved equal to a step of a state machine over
values, and the guarantees are proved about all runs of those machines.

| file | content |
|---|---|
| `Base.dfy` | options, addresses, ordered enumerations of finite sets |
| `DedupCache.dfy` | the bounded LRU set of message ids, exact for every history |
| `MeshFlood.dfy` | the relay flood over a whole mesh: delivery, exactly-once, termination, cost |
| `MeshWindow.dfy` | how many messages may be about before a cache forgets one |
| `MeshLaps.dfy` | with one more, floods that go on as long as one likes |
| `PeerManager.dfy` | one node's end of the mesh, tied to the steps of the flood |
| `Heartbeat.dfy` | when a peer link is declared dead |
| `OwnerRegistry.dfy` | "newest owner wins" registries |
| `SessionState.dfy` | sequence numbers, outbox, replay, inbound watermark |
| `Persistence.dfy` | write queue, group commit, tables |
| `Tables.dfy` | each row read off the writes to it; how soon a write is durable |
| `SessionManager.dfy` | sessions in memory and on disk, recovery, migration |
| `Durability.dfy` | memory mirrors disk plus queue, through crashes and restarts |
| `Crashes.dfy` | what is on disk after a crash at any write of any life of a node |
| `SessionRows.dfy` | what the durable row of a session says: the memory after its last durable save |
| `Recovery.dfy` | what recovery makes of it at every watermark: the session restored, the messages lost |
| `NodeBroadcast.dfy`, `NodeSteps.dfy` | what a node does with each event, and what that does to each session |
| `NodeRuns.dfy` | whole lives of a node, from any disk: each session is the run of its history |
| `NodeGuarantees.dfy`, `NodeWire.dfy` | logs, exactly-once processing, ACKs and frames |
| `NodeHandshakes.dfy` | which session a client gets, how it is greeted and replayed to |
| `NodeMessages.dfy` | text, time and log rows of an admitted message |
| `NodeStarts.dfy` | where the sessions of a life come from; lives as runs of the durable layer |
| `Connections.dfy` | which socket a session is served on |
| `ChatNode.dfy` | the node object |
| `Cluster.dfy` | nodes and mesh together: one broadcast per message and node, and who logs it there |
| `BackendPool.dfy` | registration leases, epochs and operator removals |
| `Health.dfy` | health, pauses and epochs read off the events |
| `Routing.dfy`, `Sticky.dfy` | sticky choice, rotation, fairness; sticky mappings over runs |
| `ClientTable.dfy`, `Rebalance.dfy` | known clients and their homes; failover and failback |
| `Placement.dfy` | pool and clients together: when placement is up to date |
| `LoadBalancer.dfy` | the load balancer object with its connect retry loop |
| `Framing.dfy` | frames over a byte stream |

`dafny verify dfyconfig.toml` checks everything.

## Assumptions

- Each `async` method runs atomically, including the disk read inside `get_or_create`; the connect
  loop of the load balancer is the exception: while an attempt is awaited other tasks may change
  health, pause flags, the rotation and sticky mappings, and register, end and remove backends.
- Socket writes do not raise. SQLite commits are atomic and do not fail.
- Message ids are fresh; a room broadcast is identified by its relay id.
- Payloads are opaque values; orjson is a pair of functions with `loads(dumps(p)) == p` and a
  non-empty output.
- Clocks are parameters; heartbeat ticks come exactly every five seconds.
- A dict is a map, with its key order kept where the code iterates in that order.
- `host:port` strings are pairs of host and port.

## Where the code differs from its comments, or from what one would expect

- **Small caches.** Exactly-once delivery in the mesh holds if and only if no cache forgets an id
  while a frame of it can still reach it (`AtMostOnceIffRetained`). It is enough that between a
  message's origin and its last frame at most `max_size` messages are about, however many there were
  before (`FewMessagesAreRetained`); with one more, for every cache size, a message can be delivered
  by its own origin (`SmallCacheRedelivers`), and that many messages can chase each other round the
  mesh without end although no other is ever sent (`FloodNeedNotEnd`).
- **Relayed messages and names.** A relayed frame carries its author's display name, and the other
  node leaves out the session of that name. The comment at node/server.py:852-855 says that this skips
  nobody wrongly, but any client may call its session so: then it never gets the message
  (`NamesakeMissesRelay`, `LeftOutElsewhere`). And a copy of the poster's own session that an earlier
  visit left on that node does log the poster's message, unless the poster has no other name than its
  id; a recipient with copies on two nodes logs it on both (`EveryCopyLogs`). `LoggedExactlyOnce` says
  who logs what.
- **Coming back to a node.** A node that a session moved away from keeps its copy and goes on sending
  to it. A client that comes back finds that copy, not what the other node had, so seqs can be given
  out twice (`MigrationBackReusesSeqs`); `ReturnNumbersOnIff` says exactly when numbers go on.
- **Heartbeat.** A peer is safe if and only if its answers take less than 10 s, twice the
  ping interval, although the grace is 12 s (`ToleratedDelay`).
- **Superseded connections.** A connection that a newer handshake superseded is closed 50 ms later
  and is read until then. Its frames count for the session: a seq it takes is lost to the new
  connection (`EvictedConnectionTakesSeq`), and a frame it repeats after the handshake is broadcast a
  second time (`FrameIsBroadcastAgainAfterHandshake`). `ExactlyOnceOnConnection` says exactly when a
  frame of the newest connection is broadcast once.
- **Splitting a send.** If a crash falls between `save_outbound` and `save_session` of one send, the
  restored counter equals the restored seq; the next send overwrites it in memory while the upsert
  keeps the old payload on disk; and a session whose first send is split is recovered without that
  message (`SplitSendBreaksRecovery`). It stays so on disk through later crashes until the session is
  loaded again.
- **Durable messages can be lost.** Messages to a client and from it are logged under the same key and
  seqs, and with a positive durable watermark recovery puts the log over the outbox. An unacked
  broadcast whose seq the client used for a frame of its own is then replaced by that frame, with no
  send split anywhere (`UnackedMessageIsLost`, a run of seven events). `UnackedSurviveCrashIff` says
  exactly when every durable unacked message survives a crash.
- **Other messages come back.** In the same way an acked message can come back
  (`AckedMessageComesBack`, reached in `AckedMessageComesBackInARun`), and so can the client's own
  frames, under seqs at or above the counter (`LoggedFrameAboveCounter`). Split sends and a log that
  says other than the outbox are all that keeps a crash from being recovered faithfully
  (`CrashIsCleanIff`).
- **Sessions named like rooms.** Room logs share a table with session logs under keys `room:...`, so a
  client that calls its session that has its recovery mixed with a room's log;
  `CleanDiskGivesSoundBases` excludes such ids.
- **Homes move.** `_migrate_client_state` puts an entry over whatever stood under its new id. A user
  who logs in a second time from another port can so get another home (`SecondLoginMovesHome`);
  `HomeSurvivesIff` says exactly when a home stays.
- **Configured backends can be removed.** The comment at ingress/lb.py:133-135 says static entries
  are never removed; a node that registers under such an address makes it dynamic, and its leaving
  removes it (`ConfiguredBackendIsRemoved`). The model follows the code.
- **Removed backends.** `Backend` objects are compared by their fields, so after
  `admin_remove_backend` the end of an old registration can remove a new backend. `TeardownStealsIff`
  says exactly when, `StealsAfterReturnIff` for a node that came back, and `LeaseSafety` states the
  pool law for all runs with that exception; without operator removals there is none
  (`UnremovedIsUndisturbed`).
- **Stale placement.** Registrations, their ends, NODE_STATUS frames and failed connections change
  the pool without rebalancing, although the docstring at ingress/lb.py:800-804 says clients are
  reassigned whenever the server set changes: the entries of the clients of a server marked down so
  stay there (`UncheckedFailureIsStale`; after a failed connection their relays are cut, which drops
  them), and those of a returned one stay away (`RegistrationIsStale`), until something else
  rebalances. `UpToDateIff` says exactly when placement is up to date.
- **Older live links.** When the newest of two links to one peer closes, the older one is not
  registered again (`NewestOwnerLaw` states the exact rule).

## Model

| member | source | states |
|---|---|---|
| `DedupCaches.DedupCache.SeenBefore` | node/dedup_cache.py:43-55 | answers True exactly for the `max_size` most recently queried distinct ids, and never outgrows its bound |
| `DedupCaches.LruExact` | node/dedup_cache.py:39-55 | after every history, membership in the ordered dict is "among the `max_size` most recently queried distinct ids" |
| `DedupCaches.AfterIsTail` | node/dedup_cache.py:43-55 | the bounded dict is the tail of the unbounded one, for every history |
| `DedupCaches.AgreesWithUnboundedSet` | node/dedup_cache.py:39-55 | it agrees with an ever-growing set until more than `max_size` distinct ids were queried, and forgets one from then on |
| `MeshFlood.FloodInvariant` | node/mesh.py:366-436 | along every interleaving: only reachable nodes handle a message, every peer of a handling node has it or has a frame coming, each handling node but the origin delivered once, and the frame account balances |
| `MeshFlood.DeliveredExactlyOnce` | node/mesh.py:366-436 | once nothing is in flight, every node reachable from the origin delivered exactly once and nobody else did |
| `MeshFlood.AtMostOnceIffRetained` | node/mesh.py:366-385 | nobody delivers twice and the origin never delivers, if and only if no cache forgot the id too early |
| `MeshFlood.ForgottenIsRedelivered` | node/dedup_cache.py:51-55 | an id forgotten too early is delivered a second time or at its origin |
| `MeshWindow.FewMessagesAreRetained` | node/dedup_cache.py:39-55 | if since a message's origin the events are about at most `max_size` messages, no cache forgets it, whatever happened before and under every schedule |
| `MeshFlood.FloodTerminates` | node/mesh.py:381-436 | for a message no cache forgets too early, frames read plus frames in flight never exceed the peer links of the mesh, so its flood dies out |
| `MeshLaps.FloodNeedNotEnd` | node/dedup_cache.py:51-55 | for every cache size and every number r, a run of `max_size` + 1 messages, none sent later, in which each is delivered r times at each of three nodes and is still on its way |
| `MeshFlood.FloodCost` | node/mesh.py:427-436 | a finished flood wrote the degrees of the reached nodes less (reached nodes - 1) frames |
| `MeshFlood.FullMeshCost` | node/mesh.py:427-436 | in a full mesh of n nodes exactly (n-1)^2 frames, whatever the order |
| `MeshWindow.SmallCacheRedelivers` | node/dedup_cache.py:51-55 | for every cache size, a run with `max_size` + 1 messages in which a message is delivered by its own origin |
| `PeerManagers.PeerManager.Flood` | node/mesh.py:427-436 | writes exactly one RELAY frame to every registered peer but the excluded one |
| `PeerManagers.PeerManager.RelayMessage` | node/mesh.py:413-425 | one Originate step of the flood |
| `PeerManagers.PeerManager.OnRelay` | node/mesh.py:366-385 | one Receive step of the flood: deliver and flood on if unseen, drop otherwise |
| `PeerManagers.PeerManager.LinkUp` | node/mesh.py:266-274 | the registry of peer links follows the newest-owner rule |
| `PeerManagers.PeerManager.LinkDown` | node/mesh.py:313-321 | teardown clears the entry only if this link is still the one on file |
| `OwnerRegistry.NewestOwnerLaw` | node/mesh.py:313-321 | in every run an entry is on file exactly for the newest link of its key, while that link is open |
| `Heartbeat.HeartbeatLoop` | node/mesh.py:387-408 | stops at the first tick that finds more than 12 s of silence |
| `Heartbeat.ToleratedDelay` | node/mesh.py:105-106 | no peer answering within d seconds is ever declared dead, if and only if d < 10 |
| `Heartbeat.SilentPeerDies` | node/mesh.py:387-408 | a peer that falls silent is declared dead more than 12 s and at most 17 s after its last PONG |
| `SessionStates.OutboxIsSentMinusAcked` | node/session_state.py:95-116 | in every run from a new, recovered or adopted session the outbox is exactly what it had and what was numbered since, less what was acked; numbers go on from the counter without gaps |
| `SessionStates.ReplayIsOrdered` | node/session_state.py:135-144 | replay is strictly ascending, and is everything buffered above the given seq |
| `SessionStates.ReplayIsUnacked` | node/session_state.py:135-144 | in every such run replay is the complete ascending list of the unacked seqs above n, with their payloads |
| `SessionStates.MarkedKeepsWatermark` | node/session_state.py:175-182 | processing one seq keeps "largest k with 1..k processed, and exactly the processed seqs above k" |
| `SessionStates.InboundIsExact` | node/session_state.py:148-182 | once inbound tracking is clear, watermark and sparse set are exact after any duplicated, reordered frames |
| `SessionStates.SendingsAreRecorded` | node/session_state.py:95-133 | in every run a buffered message has the time of its last sending or resending and the number of its resends |
| `SessionStates.SessionState.PrepareOutbound` | node/session_state.py:95-108 | allocates the next seq and buffers the message under it |
| `SessionStates.SessionState.ReplayFrom` | node/session_state.py:135-144 | the loop that takes the least seq left yields the replay list, whose order and completeness `ReplayIsOrdered` gives |
| `SessionStates.SessionState.MarkInboundProcessed` | node/session_state.py:175-182 | the loop moves the watermark past every consecutive seq seen and prunes what it passed |
| `Persistence.OutboxStore.ApplyBatch` | node/persistence.py:214-292 | one commit is the one-at-a-time fold of its operations |
| `Persistence.OutboxStore.WriterTurn` | node/persistence.py:186-212 | one turn of the writer loop |
| `Persistence.OutboxStore.RunWriterLoop` | node/persistence.py:186-212 | the loop after `stop()` |
| `Persistence.GroupCommit` | node/persistence.py:186-212 | however the queue is cut into batches, at every moment the tables are the fold of a prefix of what was accepted and the rest waits in order |
| `Persistence.EffectiveIsFold` | node/persistence.py:214-292 | tables plus waiting operations are the fold of everything accepted |
| `Persistence.ExitCommitsEverything` | node/persistence.py:177-212 | when the loop has exited, every operation put before the stop marker is committed, in order |
| `Persistence.StoppingLoopTerminates` | node/persistence.py:177-212 | after `stop()` every schedule that has as many turns as there were entries waiting, with two to spare, and one more for each entry put meanwhile, has ended the loop, for good |
| `TableRows.AcceptedBecomesDurable` | node/persistence.py:186-212 | after as many turns as entries were waiting, whatever is put meanwhile and whatever the clock says, the next due turn has committed everything accepted before |
| `TableRows.DueTurnCommits` | node/persistence.py:196-210 | a turn with the flush interval over commits all that was taken off the queue |
| `TableRows.EarlyTurnCommitsNothing` | node/persistence.py:203-210 | a turn before that commits nothing unless the store is stopping |
| `TableRows.SessionRowIsLastSave` | node/persistence.py:217-231 | a session row is the last one saved |
| `TableRows.OutboxRowIsByWrites` | node/persistence.py:233-250 | an outbox row has the payload of the first save since its last deletion, the time of the last, and counts the others as retries |
| `TableRows.LogRowIsLastSave` | node/persistence.py:281-289 | a log row is the last one saved under its key and seq |
| `TableRows.RoomRowIsFirstSave` | node/persistence.py:266-278 | a room row is the first one saved |
| `TableRows.UserRowIsFirstSave` | node/persistence.py:253-264 | a user row is the first one saved |
| `SessionManagers.SessionManager.GetOrCreate` | node/session_manager.py:45-64 | the live session, the one on disk, or a fresh one |
| `SessionManagers.SessionManager.RecoverOrCreate` | node/session_manager.py:66-100 | counter, room and outbox rows, plus message-log rows above a positive watermark |
| `SessionManagers.SessionManager.SendMessage` | node/session_manager.py:115-132 | numbers, buffers and queues outbox row, log row and session row in that order; all other sessions untouched |
| `SessionManagers.SessionManager.HandleAck` | node/session_manager.py:134-139 | forgets the message and queues its deletion only if it was buffered |
| `SessionManagers.SessionManager.ReceiveMessage` | node/session_manager.py:141-163 | True exactly for a first arrival, which is marked, logged and persisted |
| `SessionManagers.SessionManager.SetRoom` | node/session_manager.py:102-113 | moves the session and persists it |
| `SessionManagers.SessionManager.SnapshotSession` | node/session_manager.py:189-218 | a snapshot from memory, else from disk, else None |
| `SessionManagers.SessionManager.HydrateFromSnapshot` | node/session_manager.py:220-244 | adopts the snapshot, in place of any session of that id, and queues its session row and the rows of the adopted outbox |
| `SessionManagers.SessionManager.SessionIdsInRoom` | node/session_manager.py:261-267 | the loop over the dict lists exactly those known in the room, in dict order, each once |
| `SessionManagers.FilteredInOrder` | node/session_manager.py:261-267 | the sessions of a room are listed in dict order |
| `SessionManagers.SnapshotIff` | node/session_manager.py:203-218 | there is a snapshot exactly of a session in memory or with a row on disk |
| `SessionManagers.MigrationPreserves` | node/session_manager.py:189-244 | hydrating B from A's snapshot keeps counter, watermark, room and outbox; B snapshots and replays the same; in every continuation on B the k-th send gets the k-th number after A's counter, so no migrated seq is reused |
| `SessionManagers.MigrationFromDisk` | node/session_manager.py:203-244 | the same for a snapshot read from A's disk, whatever its watermark |
| `Durability.StepKeepsSimulation` | node/session_manager.py:102-171 | every operation, writer turn and crash keeps "tables plus queued writes mirror every loaded session" |
| `Durability.MemoryMirrorsDisk` | node/session_manager.py:102-244 | the same over whole runs from an empty database, through any number of crashes |
| `Durability.CrashFreeRunsMirror` | node/session_manager.py:102-244 | until the first crash the simulation holds without any condition on loads |
| `Durability.RecoveryIsFaithfulIffClean` | node/session_manager.py:66-100 | recovery meets the tables if and only if no outbox row lacks a session row or reaches the counter, and a positive watermark finds only unacked rows in the log |
| `Crashes.DiskIsAPrefix` | node/persistence.py:186-212 | in every life, through any number of crashes, the disk is the fold of a prefix of the writes queued since the last crash over the disk that crash left |
| `Crashes.WholeIffNotSplit` | node/session_manager.py:126-132 | at every crash point of every life no durable seq is above its session's counter, and all are below it if and only if the last crash that touched the session did not split a send of it |
| `SessionRows.DurableWatermark` | node/session_manager.py:131-171 | at every crash point of every life the row of a session has the counter, watermark and room it had in memory right after its last event whose row is durable: a send, an admitted frame, a room change or an adoption; without one there is no row |
| `Durability.RecoveredMessage` | node/session_manager.py:82-98 | a recovered message has the payload, time and retry count of its outbox row; one from the log the logged payload and time and no retries |
| `Recoveries.LogIsDurablyLogged` | node/session_manager.py:129-160 | at every crash point of every life the log row under a seq of a session is the last message durably logged there in any life: sent to the client, admitted from it, or written by a room of that name |
| `Recoveries.CrashRecovery` | node/session_manager.py:66-132 | for every crash point of every run, every session and every watermark: under the durable counter, watermark and room exactly the durable unacked rows and what was durably logged above a positive watermark, the logged message where both have one; while all loads were clean, unacked seqs are at most the counter, and strictly below it if and only if the last crash that touched the session did not split a send of it |
| `Recoveries.UnackedSurviveCrashIff` | node/session_manager.py:66-100 | every durable unacked message survives a crash with its payload if and only if the session row is durable (or nothing is) and no other message was durably logged last under the seq of an unacked row above a positive watermark |
| `Durability.UnackedSurviveIff` | node/session_manager.py:86-98 | the same condition on the tables |
| `Recoveries.CrashKeepsMemory` | node/session_manager.py:66-132 | unless the crash splits an event of this session, recovery gives back the counter, room and outbox it had in memory before the crash point, and what the log adds; it gives back just that outbox if and only if the log agrees with it; a session not loaded in this life has the rows of the previous crash |
| `Recoveries.CrashIsCleanIff` | node/session_manager.py:66-132 | a crash leaves a faithful recovery if and only if the last crash that touched the session did not split a send of it and what recovery takes from the log is unacked anyway |
| `Recoveries.SplitSendBreaksRecovery` | node/session_manager.py:126-132 | what exactly goes wrong when a send was split |
| `Recoveries.UnackedMessageIsLost` | node/session_manager.py:86-98 | a run, all of it durable and no send split, after which memory and disk hold an unacked broadcast and recovery has the client's own frame in its place |
| `Recoveries.LoggedFrameAboveCounter` | node/session_manager.py:86-98 | a run after which the recovered outbox is a frame of the client itself, at any seq above 2, with the counter at 1 |
| `Recoveries.AckedMessageComesBack` | node/session_manager.py:86-98 | once the next inbound message is durable, an acked message above the watermark is recovered into the outbox |
| `Recoveries.AckedMessageComesBackInARun` | node/session_manager.py:86-98 | such a state is reached by two sends, an ACK and one inbound message |
| `NodeBroadcast.BroadcastEffect` | node/server.py:858-886 | a broadcast sends once to every session in the room but the sender, and leaves all others untouched |
| `NodeBroadcast.ReturnNumbersOnIff` | node/server.py:603-614 | a client back from node B finds on A the session in A's memory, else what A's disk recovers, and what B had only if A's memory and disk have no such session; numbers go on from B's if and only if A's copy, if any, has numbered as many |
| `NodeBroadcast.MigrationBackReusesSeqs` | node/session_manager.py:220-244 | whatever A and B had: after a move from A to B and a message from each, seq k stands for B's message on B and for A's on A, and a returning client finds the latter |
| `NodeStarts.NodeIsDurable` | node/server.py:800-904 | every life of a node, after any past, goes on as a crash-free run of the session layer from the disk that past left; if the past's loads were clean, that disk is, and no client poses as a room, all its loads are clean, so the mirror and crash results apply to it |
| `NodeStarts.BaseIsFromDiskOrPeer` | node/session_manager.py:45-100 | however late a node first meets a session, it gets what the disk it started on recovers, or a peer's snapshot if that disk does not know it |
| `NodeStarts.CleanDiskGivesSoundBases` | node/session_manager.py:66-100 | on a clean disk, with honest peers and no session named like a room log, every session is sound when the node first has it |
| `NodeSteps.JoinAgain` | node/server.py:744-750 | a session in the room already joins it again without any change |
| `NodeSteps.OrderIsByLoading` | node/session_manager.py:45-64 | sessions stand in the order they were loaded in |
| `NodeSteps.StepEffects` | node/server.py:800-904 | what each event does to each session: who gets a broadcast, who is renumbered, moved or reset, and who is left alone |
| `NodeRuns.SessionsFollowTheirHistory` | node/server.py:800-904 | in every life, from any disk, each session is the run of its own history from what the node first had of it: the broadcasts meant for it, its ACKs, resends, handshakes and frames |
| `NodeGuarantees.PerRecipientLog` | node/server.py:858-904 | for new, recovered and migrated sessions alike: the seqs after the first counter carry the broadcasts made since into the session's current room by someone else, in order and without gaps; buffered is exactly the first outbox and this log, less what was acked |
| `NodeGuarantees.ReconnectReplaysUnacked` | node/server.py:651-665 | a reconnecting client is replayed exactly the unacked messages of its first outbox and its log, in order |
| `NodeGuarantees.ExactlyOnce` | node/server.py:800-842 | after a handshake, for any duplicated, reordered frames of any of the session's connections: frame k of a connection is broadcast once if k is positive and first arrived there, and never otherwise |
| `NodeGuarantees.ExactlyOnceOnConnection` | node/server.py:565-579 | on the connection of the last handshake a distinct positive seq is broadcast exactly once if and only if no other connection of the session had it taken before |
| `NodeGuarantees.EvictedConnectionTakesSeq` | node/server.py:621-631 | a run in which a superseded connection takes a seq and the new connection's frame is acknowledged and lost |
| `NodeGuarantees.FrameIsBroadcastAgainAfterHandshake` | node/server.py:621-631 | a run in which a frame of a superseded connection is broadcast twice |
| `NodeGuarantees.WatermarkIsExact` | node/session_state.py:148-182 | in every life the watermark is the largest k such that 1..k arrived since the session's last handshake, on whatever connection, the seen set exactly the seqs above it |
| `NodeGuarantees.NamesakeMissesRelay` | node/server.py:888-904 | a run in which a relayed message reaches everyone in the room but the session called like its author |
| `NodeHandshakes.HandshakeGives` | node/server.py:603-640 | after a HELLO or LOGIN the session is the loaded one, else what the node's disk recovers, else the snapshot its mesh found, else a new one in the room asked for; its inbound side is clear |
| `NodeHandshakes.HandshakeAdopts` | node/server.py:555-565 | a session that neither memory nor disk of a meshed node knows and a peer has goes on with the peer's counter, room and unacked messages, in every continuation |
| `NodeHandshakes.HandshakeReplays` | node/server.py:541-665 | in every life a handshake writes one acknowledgement, a HELLO_ACK with the session's room and watermark 0 or a LOGIN_ACK with its room and the watermark from before, and then exactly the unacked messages as MESSAGE frames, in order, on the new connection |
| `NodeMessages.MessageIsBroadcastAs` | node/server.py:815-842 | an admitted frame is broadcast with its text, under the poster's name, into the poster's room, with the time it carries if that is there and not zero, else with the clock |
| `NodeMessages.LogsSayAsPosted` | node/server.py:821 | in every life every entry of every log has the text and time of the event that posted it |
| `NodeMessages.RelaySaysAsPosted` | node/server.py:844-856 | so does every relay call |
| `NodeMessages.LogIsByHistory` | node/server.py:815-842 | in every life, from any disk, the message log holds under each key and seq the last row left there: the client's object under its seq, the copies of the recipients under theirs, the room's copy |
| `NodeMessages.AdmittedIsLogged` | node/session_manager.py:151-162 | as soon as a frame is admitted its session's log has it as the client sent it, and its room's log its text and time |
| `NodeWire.ResendIsOfUnacked` | node/server.py:937-951 | a resend writes the entry of its number on the session's connection if and only if there is one and the entry was not acknowledged |
| `NodeWire.StepWrites` | node/server.py:800-886 | what one event writes: an ACK per MESSAGE frame, each broadcast to every connected recipient under its log number, and a resend of the buffered message on the session's connection |
| `NodeWire.WireGuarantee` | node/server.py:800-886 | in every life each frame is ACKed once, in order, on its connection; if the sessions were sound when first had, each MESSAGE frame ever written carries the entry of its number |
| `NodeWire.RelaysExactlyOnce` | node/server.py:844-856 | a meshed node hands each admitted message to the mesh exactly once, in order |
| `NodeWire.UnmeshedRelaysNothing` | node/server.py:849-856 | a node without a mesh relays nothing |
| `Connections.NewestConnectionIsServed` | node/server.py:955-960 | in every run a session is served on the connection of its last handshake until that is cleaned up; late cleanup of an older one changes nothing |
| `ChatNodes.ChatNode.HandleInboundMessage` | node/server.py:800-842 | ACK, record, and for a first arrival log, broadcast and relay: one MessageIn step |
| `ChatNodes.ChatNode.BroadcastLocal` | node/server.py:858-886 | the loop over recipients delivers to exactly those in the room |
| `ChatNodes.ChatNode.DeliverRelayedMessage` | node/server.py:888-904 | one RelayIn step |
| `ChatNodes.ChatNode.ReplayUnacked` | node/server.py:651-665 | writes the replay list in order |
| `ChatNodes.ChatNode.HandleHello` | node/server.py:591-649 | one Hello step: ask the mesh for an unknown session and adopt it, replace the connection, reset inbound, acknowledge, replay |
| `ChatNodes.ChatNode.HandleLogin` | node/server.py:541-589 | one Login step: the same, acknowledged before the reset |
| `ChatNodes.ChatNode.CleanupConnection` | node/server.py:955-960 | one Drop step |
| `Clusters.BroadcastOncePerNode` | node/mesh.py:366-436 | in a cluster, once no frame of a message is in flight, every node reachable from its origin, the origin included, has broadcast it in exactly one event, and no other node in any |
| `Clusters.LoggedExactlyOnce` | node/server.py:844-904 | each admitted client message is entered in exactly one event of every reachable node: at its origin, the poster's own frame, in the log of every session then in the room but the poster's; elsewhere, a relayed frame, in the log of every session then in the room whose id is not the author name the origin knew the poster by |
| `Clusters.LeftOutElsewhere` | node/server.py:852-904 | on a reachable node other than its origin the session called like the author gets nothing, and a copy of the poster's session in the room logs its own message if and only if the author name is not its id |
| `Clusters.EveryCopyLogs` | node/server.py:858-904 | a session that is in the room on two reachable nodes, and left out on neither, logs the message on both |
| `Clusters.TextAndTimeAreKept` | node/server.py:821-904 | on every reachable node a message is logged with the text of its poster's frame, and with the time that frame carried if any and not zero, else the origin's clock then |
| `Clusters.NodesPostWhatTheyRelay` | node/server.py:844-856 | the messages a meshed node posts in the cluster's mesh are its relay_message calls, one by one, in order |
| `BackendPool.RunKeepsLeases` | ingress/lb.py:623-642 | every run keeps the lease invariant: rising epochs per object, the newest lease of an address carrying its object's epoch and, while undisturbed, holding its pool entry |
| `BackendPool.TeardownStealsIff` | ingress/lb.py:635-641 | in every state, ending a lease removes a member other than its own object if and only if it is open and current, its object left the pool, and some member has equal fields |
| `BackendPool.StepKeepsLeases` | ingress/lb.py:623-642 | each registration, teardown, operator removal, health change and pause keeps it |
| `BackendPool.LeaseSafety` | ingress/lb.py:623-642 | in runs with operator removals: addresses stay distinct; an address ever registered is in the pool if and only if its newest lease is open and nobody disturbed it since; any other if and only if it was configured and not removed |
| `BackendPool.DisturbedIff` | ingress/lb.py:759-773 | an address is disturbed exactly if, since its last registration, an operator removed it or the end of a stale lease stole it |
| `BackendPool.UnremovedIsUndisturbed` | ingress/lb.py:635-641 | an address no operator removed is never disturbed |
| `BackendPool.ConfiguredBackendIsRemoved` | ingress/lb.py:133-136 | a configured backend disappears when a node registers under its address and leaves |
| `BackendPool.StealsAfterReturnIff` | ingress/lb.py:128-144 | after an operator removed a registered node's backend and the node came back, the end of its first lease steals the new backend if and only if the old object still looks new |
| `BackendPool.RemovedBackendLosesItsSuccessor` | ingress/lb.py:635-641 | such a run: the newest lease is open and its address is not in the pool |
| `Health.FieldsAreReadOff` | ingress/lb.py:623-633 | in every run an object is healthy as its newest health event or registration said, paused as the newest operator said, dynamic if it was ever registered, and its epoch counts its registrations |
| `Health.CheckDecides` | ingress/lb.py:466-496 | after a health check a member is routable if and only if it answered and no operator paused it |
| `Health.RoutableByReports` | ingress/lb.py:806 | in every run the routable members are those whose newest report was good and whom no operator paused |
| `Routing.PickIsAdmissible` | ingress/lb.py:847-868 | a session mapped to a healthy, unpaused object that neither is excluded nor equals an excluded one gets it, and the index stays; every other pick is the index's turn among such members in pool order, and moves the index on; None exactly if there are none |
| `Routing.PickIsEligible` | ingress/lb.py:847-868 | so a pick is healthy, not paused and not excluded, and a member unless it is the session's mapping |
| `Sticky.MappingIsNewest` | ingress/lb.py:385-417 | in every run a session is mapped exactly to the object it was mapped to last, unless that was taken down, deregistered or removed since |
| `Sticky.StickySessionStays` | ingress/lb.py:354-356 | while the mapping stands and its object is healthy and not paused, every first pick of the session is that object, and the rotation does not move |
| `Routing.TurnsAre` | ingress/lb.py:866-867 | the closed form of how often a rotation from any index hits each place |
| `Routing.RoundRobinIsFair` | ingress/lb.py:847-868 | over any series of picks, sticky ones mixed in, the k others fall k/n times, rounded down or up, on each of the n routable backends, and only they advance the index |
| `ClientTable.CurrentIsNewestRoute` | ingress/lb.py:541-554 | in every run a client is on the server it was last routed to, or where it was moved since |
| `ClientTable.OrderIsByArrival` | ingress/lb.py:541-564 | clients stand in the order they came in |
| `ClientTable.ActiveIffNewestConnectionOpen` | ingress/lb.py:529-582 | in every run with migrations and clearings a client is active under a connection exactly while a remembering of that connection still counts for it |
| `ClientTable.HomeSurvivesIff` | ingress/lb.py:541-564 | a client's home stays the first backend it was routed to if and only if no clearing, no migration of its entry away and no migration of an entry with another home onto it followed |
| `ClientTable.SecondLoginMovesHome` | ingress/lb.py:1009-1013 | a run in which a second login moves a user's home |
| `Rebalance.RoutableIs` | ingress/lb.py:806 | the routable addresses are distinct, and are those of the healthy members not taken down |
| `Rebalance.SendHome` | ingress/lb.py:808-814 | the first loop: home goes whoever can, the displaced are listed in order |
| `Rebalance.Spread` | ingress/lb.py:815-816 | the second loop: the i-th displaced client to the i-th server, round and round |
| `Rebalance.DisplacedAreDealt` | ingress/lb.py:815-816 | the displaced, in dict order, are dealt to the routable servers: the i-th to the server at i modulo their number |
| `Rebalance.RoutableInPoolOrder` | ingress/lb.py:806 | the routable servers are listed in pool order |
| `Rebalance.EveryoneIsPlaced` | ingress/lb.py:799-816 | every active client is on a routable server, at home if home is routable; with no server, nowhere |
| `Rebalance.FailoverIsEven` | ingress/lb.py:815-816 | each routable server takes its share of the displaced, rounded down or up |
| `Rebalance.PlacementIsDetermined` | ingress/lb.py:799-816 | placement depends on homes and the routable list only, not on where clients were |
| `Rebalance.RebalanceIsIdempotent` | ingress/lb.py:799-816 | rebalancing twice changes nothing more |
| `Rebalance.DownThenUpRestoresPlacement` | ingress/lb.py:725-757 | while a server is down no active client is on it; after down and up every active client is where it was |
| `Placements.RebalancedIsPlaced` | ingress/lb.py:799-816 | the table rebalancing computes is determined: it is `Placed`, the rebalanced table as a function |
| `Placements.PlacementIsOfLast` | ingress/lb.py:799-816 | in every run everyone stays where the last rebalancing put them until the next client comes, goes or moves |
| `Placements.UpToDateIff` | ingress/lb.py:466-496 | till then placement is up to date if and only if rebalancing over today's routable list places every active client as the last one did; it is while that list is the same, and is not for a client whose home came or went |
| `Placements.UncheckedFailureIsStale` | ingress/lb.py:614 | a NODE_STATUS or failed connection that marks a server down leaves the entries of its active clients on it |
| `Placements.RegistrationIsStale` | ingress/lb.py:623-633 | a server that registers (again) does not get the clients whose home it is |
| `LoadBalancers.LoadBalancer.RegisterDynamicBackend` | ingress/lb.py:623-633 | renews the object under the address or adds one, and grants the lease |
| `LoadBalancers.LoadBalancer.DeregisterDynamicBackend` | ingress/lb.py:635-642 | a stale lease changes nothing; a current one removes the first equal backend and its sticky entries |
| `LoadBalancers.LoadBalancer.AdminSetDown` | ingress/lb.py:725-757 | pauses or resumes the server, rebalances, and forgets its sticky entries when it goes down |
| `LoadBalancers.LoadBalancer.AdminRemoveBackend` | ingress/lb.py:759-773 | drops every backend under the address, rebalances and forgets |
| `LoadBalancers.LoadBalancer.CheckBackend` | ingress/lb.py:466-496 | records the health and rebalances exactly when it changed |
| `LoadBalancers.LoadBalancer.RebalanceClients` | ingress/lb.py:799-816 | rebalances the client table over the routable addresses |
| `LoadBalancers.LoadBalancer.PickBackend` | ingress/lb.py:847-868 | the pick of `Routing.Pick`, over the objects |
| `LoadBalancers.LoadBalancer.ConnectWithRetry` | ingress/lb.py:955-971 | terminates once nodes stop registering; every attempt is the pick of its moment, excluding those before it; none is tried twice, whatever flags, mappings, registrations and removals other tasks make meanwhile; connects to the first that accepts; gives up only when every routable member was tried or equals in all fields a backend that was |
| `LoadBalancers.GaveUpAfterTryingAll` | ingress/lb.py:955-971 | when sticky mappings stay in the pool, giving up means each routable member itself was tried, and no address twice |
| `LoadBalancers.LoadBalancer.SetSticky` | ingress/lb.py:385-394 | maps the session to the backend and no other session anywhere else |
| `LoadBalancers.LoadBalancer.RememberClient` | ingress/lb.py:529-554 | one Remember step of the client table |
| `LoadBalancers.LoadBalancer.DropClient` | ingress/lb.py:566-582 | one Drop step of the client table |
| `LoadBalancers.LoadBalancer.MigrateClient` | ingress/lb.py:556-564 | one Migrate step of the client table |
| `LoadBalancers.LoadBalancer.ClearClients` | ingress/lb.py:793-797 | one Clear step of the client table |
| `Framing.LengthRoundTrip` | protocol/framing.py:80-81 | the 4-byte big-endian prefix reads back every uint32 |
| `Framing.LengthIsCanonical` | protocol/framing.py:80-81 | and every 4 bytes are the packing of the number they stand for |
| `Framing.DecodeEncode` | protocol/framing.py:146-156 | decoding an encoded frame gives its type and payload |
| `Framing.RawReadIsExact` | protocol/framing.py:184-225 | each outcome of a raw read has its exact cause, and what was read plus what is left is the stream |
| `Framing.OversizedIsRefused` | protocol/framing.py:215-216 | an oversized frame is refused by its prefix, its body left unread |
| `Framing.CutFrameIsClosed` | protocol/framing.py:202-223 | any proper prefix of a frame gives ConnectionClosed, never a frame |
| `Framing.StreamRoundTrip` | protocol/framing.py:146-245 | repeated reading of concatenated encodings, cut anywhere in a further frame, gives the same frames, each raw frame byte-identical to its encoding, then ConnectionClosed |
| `Framing.EncodingIsInjective` | protocol/framing.py:146-156 | different frame lists have different encodings |
| `Framing.StreamReader.TakeRawFrame` | protocol/framing.py:184-225 | the reader's bytes move exactly as in the raw read |
| `Framing.StreamWriter.WriteFrame` | protocol/framing.py:250-257 | appends exactly the encoding, or nothing if the length does not fit |

## Left out

- Password hashing, the user tables and the REGISTER/LOGIN gate: thin wrappers; a successful login is an event of the node model.
- asyncio scheduling, sockets, timeouts, task cancellation and the raw byte pumps between client and backend.
- Interleavings inside one `async` method, such as two first requests for one session racing in `get_or_create`.
- SQL text, WAL settings and threads: tables are maps with the upsert rules of the statements.
- Redis and its expiry: only the in-memory sticky map is modelled.
- Room capacity and the room list: capacity is checked on JOIN_ROOM only, so no bound holds over runs.
- Which buffered messages are due for a resend (`pending_for_retry`): node runs allow the resend of any buffered message at any time; the times the choice rests on are in `SendingsAreRecorded`.
- SESSION_QUERY/SESSION_STATE frames between nodes: what a query brings back is part of the handshake event.
- The DISCONNECT frame to an evicted connection and the frames of rooms and errors.
- `admin_add_clients`, `admin_simulate`, counters and the dashboard snapshot of the load balancer.
- Connections.NewestConnectionIsServed: says where the node writes; the browser shows every MESSAGE frame it gets, so delivery to a client is at-least-once only.
- MeshFlood.FloodTerminates: the peer graph is fixed during a flood; links that go up or down meanwhile are not modelled.
- Recoveries.CrashRecovery: that unacked seqs stay at the counter or below it, like `CrashKeepsMemory` and `CrashIsCleanIff`, holds while every session read back from disk is one recovery is faithful for (`RecoveryIsFaithfulIffClean`); what a faulty recovery leads to later is shown for the next send only.
- Clusters.LoggedExactlyOnce: no node of the cluster crashes during the run, and the mesh does not change.
- LoadBalancers.LoadBalancer.ConnectWithRetry: nodes register during finitely many attempts; were a new one to register at every attempt, the loop of the program would go on too.
- LoadBalancers.LoadBalancer.constructor: configured addresses are taken to be distinct; the program does not check this.
- `frontend/`, `ingress/ws_bridge.py`, `ingress/admin_server.py` and the start scripts: plumbing.
