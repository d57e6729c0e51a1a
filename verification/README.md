# Verified model of the GiljoAI MCP server's stateful cores

A Dafny model of the parts of the server whose correctness depends on how several
steps, workers or requests interleave, with proofs over all inputs and all runs.

- **WebSocket registry** (`ConnectionRegistry`, `WebSocketManager`, `Envelope`): the five
  dictionaries of one worker's `WebSocketManager`, the class that updates them in place,
  and the event envelope it sends.
- **Cross-worker relay** (`Cluster`): any number of workers, each with a registry, joined by
  LISTEN/NOTIFY. Fan-outs and revocations are tasks that other steps interleave with; a
  published message is one undelivered (message, worker) pair per worker.
- **Broker supervisor** (`BrokerSupervisor`): start, stop, the reconnect loop and the dying
  connection as one event machine, and the broker class that runs it.
- **MCP sessions** (`Sessions`, `MintedIds`): minting, principal binding, debounced extension, the
  resurrection race on the unique constraint, and the reaper, for any number of callers.
- **Request body** (`Transport`): buffer and replay as a refinement of the original stream.
- **PIN lockout** (`PinLockout`, `PinRaces`), **migration bridge** (`SchemaHeal`, `MigrationStamp`),
  **`.env` reconciliation** (`EnvReconcile`, `EnvFile`, `Text`), **tool surface** (`ToolSurface`),
  **notify memo** (`NotifyMemo`), **Cookie header** (`CookieHeader`).

A function over values says what each operation does; the imperative code is a class or a
method with loops, proved to compute that function; the laws are lemmas about the function
over whole runs. One step of a machine is one stretch of the program without an `await`, or
one database statement.

Taken as contracts: the database table is a map with unique keys; asyncpg runs termination
listeners when a connection closes; a gather whose one send raises lets the other sends go on; a
failed statement aborts a PostgreSQL transaction, whose commit then rolls back; the JSON codec
loses nothing; the PIN hash is an equality oracle.
Clocks, socket outcomes, broker outcomes and the process environment are parameters.

## Where the code needs a condition

Each of these is proved as an if-and-only-if, or with a concrete witness.

- An event may reach another tenant when an id that a fan-out still holds is reconnected
  under that other tenant during the fan-out's await (`Cluster.HeldIff`,
  `Cluster.HandoverDuringFanOut`).
- An id that reconnects under another tenant stays in the entity buckets it subscribed to, so
  its new socket is sent the old tenant's entity updates (`ConnectionRegistry.StepKeepsIsolatedIff`,
  `ConnectionRegistry.ReconnectHearsOldTenant`); `broadcast_agent_update` sends such updates
  (api/websocket.py:645-648).
- A send or close that raises past its handlers, which list five exception classes
  (api/websocket.py:217, api/ws_revocation.py:72) while the heartbeat knows of more
  (api/websocket.py:587-596), ends the call: nobody is evicted, nothing is published, and a
  revocation stops half-way (`WebSocketManagers.WebSocketManager.CloseTenantSockets`, `Cluster.RaiseEndsTheRelay`).
- An id registered on two workers receives an event once on each (`Cluster.AtMostOnceAnywhere`,
  `Cluster.TwiceOnTwoWorkers`).
- Reconnecting a live id over subscriptions leaves it in entity buckets for good
  (`ConnectionRegistry.StepKeepsInverseIff`, `ConnectionRegistry.ReconnectLeavesATrace`).
- A wake-up is lost exactly when the connection just installed is already dead
  (`BrokerSupervisor.NextKeepsInvIff`, `BrokerSupervisor.DeadConnectionLosesWakeup`).
- A close that raises in `stop`, which unlike the loop does not catch an OSError there
  (api/broker/postgres_notify.py:91-94, :140-143), leaves the broker half down, and every later
  start returns at once (`BrokerSupervisor.LeftOverIff`, `BrokerSupervisor.RaisingStopBlocksStart`).
- The debounce is marked before the extension commits, so a use within 30 s of a failed, pending
  or overwritten extension may be served with less than 24 h - 30 s left
  (`Sessions.SuppressedUsesMeetIff`, `Sessions.FailedCommitSuppressesTheRetry`).
- The heal reaches v37 only if every statement runs, since one failure aborts the whole
  transaction although the loop reports each failure as skipped; and it is not idempotent when
  an orphan table bears the name of an assignment index (`SchemaHeal.HealReachesV37Iff`,
  `SchemaHeal.HealIsIdempotentIff`, `SchemaHeal.OrphanBearsTheName`).
- A second `.env` pass settles exactly when every desired value is free of surrounding white
  space, which the program's own three values are (`EnvReconcile.SecondRunSettledIff`); and a
  second boot changes nothing exactly when none holds a line separator (`EnvFile.OwnSecondBootIff`).
- Concurrent PIN requests overwrite each other's counts, so the lockout bound grows with the
  number in flight (`PinRaces.WrongComparisonsInFlight`, `PinRaces.ConcurrentRequestsCountOnce`).
- The docstring of `verify_pin` says it modifies nothing (api/endpoints/auth_pin_recovery.py:217);
  it counts failures and locks, and the model follows the code.
- The two session ownership tests agree exactly for callers with a principal
  (`Sessions.OwnershipTestsAgreeIff`).

## Model

| member | source | states |
|---|---|---|
| `ConnectionRegistry.AddTo` | api/websocket.py:104-111 | adding to a bucket adds that one membership and no other, and never leaves an empty bucket |
| `ConnectionRegistry.RemoveFrom` | api/websocket.py:120-126 | removal takes out that one membership and drops a bucket it empties |
| `ConnectionRegistry.RemoveFromAll` | api/websocket.py:127-133 | the scrub takes the client out of all named buckets, nobody else out of any, and leaves no empty bucket |
| `ConnectionRegistry.StepKeepsInv` | api/websocket.py:293-401 | every connect, disconnect, subscribe and unsubscribe keeps: equal domains of the three per-client maps, tenant buckets exactly the registered clients of each non-empty tenant, no empty bucket, every held subscription indexed |
| `ConnectionRegistry.RunKeepsInv` | api/websocket.py:293-401 | the same over every run, in any order, on any ids |
| `ConnectionRegistry.IndexedFanOutIsFullScan` | api/websocket.py:199-204 | in every reachable state the indexed fan-out targets of a tenant equal a filter over all connections by the tenant key their own auth context carries |
| `ConnectionRegistry.StepProjects` | api/websocket.py:293-401 | an operation on one id changes that id's entry as a one-client machine would, and no other id's entry |
| `ConnectionRegistry.RunProjects` | api/websocket.py:293-401 | after any run the entry of an id is that machine's result on the operations on that id alone |
| `ConnectionRegistry.LatestConnectWins` | api/websocket.py:305-319 | after connect(c, w), any disconnects of c naming other sockets, interleaved with anything on other ids, leave registration and subscriptions of c intact, and c indexed under exactly the non-empty tenant key of that connect's context |
| `ConnectionRegistry.IndexedUnderOwnTenant` | api/websocket.py:302-313 | after any run, a connect under a context with a tenant, and any stale operations, the client is a target of that tenant's events and in no other bucket, whatever its user and setup flag |
| `ConnectionRegistry.NotIndexedWithoutTenant` | api/websocket.py:302-313 | a client whose context is empty or has no tenant or an empty one is in no bucket |
| `ConnectionRegistry.MaySubscribeIff` | api/auth_utils.py:316-354 | who may subscribe, on the context's fields: a setup connection always; otherwise exactly a user of a non-empty tenant, to entities of that tenant or of none given |
| `ConnectionRegistry.StaleOpsChangeNothing` | api/websocket.py:332-337 | any number of stale teardowns leaves a registered client exactly as it was |
| `ConnectionRegistry.SubscriptionsStayInTenant` | api/auth_utils.py:316-354 | no run puts a subscription outside its client's tenant into the client's own subscription set, setup connections apart; and nothing else is refused. Delivery reads the entity buckets, see the next rows |
| `ConnectionRegistry.StepKeepsIsolatedIff` | api/websocket.py:305-307 | a step keeps every entity bucket to registered clients of the entity's tenant if and only if it does not connect an id that sits in the bucket of an entity the new context may not hear of |
| `ConnectionRegistry.RunKeepsIsolated` | api/websocket.py:293-401 | the same over every run without such a connect |
| `ConnectionRegistry.UpdatesStayInTenant` | api/websocket.py:480-493 | from boot, over such runs, everyone an entity update is sent to is of the entity's own tenant or a setup connection |
| `ConnectionRegistry.SnapshotMayHear` | api/websocket.py:480-488 | while the buckets are isolated, all registered ids in an update's snapshot may hear of the entity |
| `ConnectionRegistry.AwaitKeepsWaitingIff` | api/websocket.py:487-493 | what happens during an update's awaits leaves all its waiting, registered ids free to hear of the entity if and only if it does not reconnect one of them under a context that may not |
| `ConnectionRegistry.UpdateInProgressStaysInTenant` | api/websocket.py:487-493 | over any operations between an update's snapshot and a send, none of which does that, the send reaches a registration of the entity's tenant |
| `ConnectionRegistry.ReconnectHearsOldTenant` | api/websocket.py:305-310 | witness: subscribe under one tenant, reconnect the id under another, and the new socket is among those the old tenant's entity updates are sent to |
| `ConnectionRegistry.StepKeepsInverseIff` | api/websocket.py:305-307 | the two subscription maps stay exact inverses in a step if and only if it is not a reconnect over live subscriptions |
| `ConnectionRegistry.RunKeepsInverse` | api/websocket.py:349-401 | on runs without such a reconnect the two maps are exact inverses throughout |
| `ConnectionRegistry.DisconnectClearsIff` | api/websocket.py:339-356 | a disconnect that is not stale removes every trace of the client if and only if no entity bucket holds it unrecorded |
| `ConnectionRegistry.DisconnectLeavesNoTrace` | api/websocket.py:339-356 | on runs without a reconnect over live subscriptions, disconnect removes every trace from all five maps |
| `ConnectionRegistry.ReconnectLeavesATrace` | api/websocket.py:307 | witness: subscribe, reconnect under the same id, disconnect, and the entity bucket still holds the id |
| `ConnectionRegistry.EvictKeepsInv` | api/websocket.py:243-244 | evicting a set keeps the invariant, removes exactly those clients, and moves no other client's entry |
| `ConnectionRegistry.EvictOneMore` | api/websocket.py:243-244 | disconnecting one more client by id extends the set eviction by exactly that client, so the removal loop is the set eviction in any order |
| `ConnectionRegistry.RevocationEmptiesTenant` | api/ws_revocation.py:62-75 | after closing a tenant's clients its bucket is gone, nobody registered carries it, and every other client's entry is unchanged |
| `Envelope.EnvelopeCarriesEvent` | api/websocket.py:179-193 | an accepted envelope has exactly the four keys: the event's own type, its timestamp and schema version where given and truthy, and every data field with the tenant |
| `Envelope.AcceptedIff` | api/websocket.py:169-186 | a broadcast is accepted if and only if it names a tenant and a typed event whose data is an object not claiming another tenant |
| `Envelope.RejectedIff` | api/websocket.py:169-186 | and each of the five rejections exactly when its own condition fails and no earlier one does |
| `Envelope.TruthyIff` | api/websocket.py:173-190 | which JSON values count as absent: null, false, zero and the empty text, list and object |
| `Envelope.NormaliseIsFixedPoint` | api/websocket.py:179-193 | normalising an envelope again, at any later time, gives the same envelope, so relayed clients get what local ones got |
| `Envelope.EnvelopeIsTenantBound` | api/websocket.py:183-186 | an envelope made for one tenant is refused for every other |
| `WebSocketManagers.WebSocketManager.constructor` | api/websocket.py:38-56 | a new manager is the empty registry, with no broker and nothing published |
| `WebSocketManagers.WebSocketManager.AttachBroker` | api/websocket.py:58-93 | however often and to whichever broker the manager is attached, exactly one handler of it is subscribed, on the broker attached last, so no message is handled twice; other managers' handlers stay; publishing is enabled if and only if there is more than one worker |
| `WebSocketManagers.WebSocketManager.IndexTenantConnection` | api/websocket.py:104-111 | the in-place insertion is the registry's index function; an empty tenant is never indexed |
| `WebSocketManagers.WebSocketManager.DeindexTenantConnection` | api/websocket.py:113-133 | the keyed removal and the defensive two-loop scrub both compute the registry's removal |
| `WebSocketManagers.WebSocketManager.Connect` | api/websocket.py:293-319 | the five-map result of a connect, the invariant kept, and the superseded socket returned exactly when another one held the id; which tenant that indexes is `ConnectionRegistry.IndexedUnderOwnTenant` |
| `WebSocketManagers.WebSocketManager.Disconnect` | api/websocket.py:324-358 | the five-map result of a disconnect, identity-safe when a socket is named, with the invariant kept |
| `WebSocketManagers.WebSocketManager.CleanUpSubscriptions` | api/websocket.py:349-356 | the loop takes the client out of exactly the buckets of its own subscriptions and drops those it empties |
| `WebSocketManagers.WebSocketManager.Subscribe` | api/websocket.py:360-385 | both maps gain the subscription, or the call is refused with nothing changed |
| `WebSocketManagers.WebSocketManager.Unsubscribe` | api/websocket.py:389-401 | both maps lose the subscription, an emptied bucket goes, the invariant is kept |
| `WebSocketManagers.WebSocketManager.Snapshot` | api/websocket.py:202-204 | a snapshot lists each member of a set once and nothing else |
| `WebSocketManagers.WebSocketManager.DisconnectAll` | api/websocket.py:243-244 | the deferred removal loop is the eviction of the whole set |
| `WebSocketManagers.WebSocketManager.SendAll` | api/websocket.py:206-241 | reached are exactly the registered clients that answer, whatever the others do; failed are exactly the rest of the targets but those whose send raises past the handlers |
| `WebSocketManagers.WebSocketManager.FanOut` | api/websocket.py:206-244 | exactly the answering targets are sent to; all the others are evicted if and only if no send raises, and otherwise nobody is |
| `WebSocketManagers.WebSocketManager.BroadcastEventToTenant` | api/websocket.py:160-279 | exactly the answering targets are reached; if and only if no send raises past the handlers, exactly the others are evicted and one envelope is handed to the broker when enabled; a raise or a rejected event changes nothing |
| `WebSocketManagers.WebSocketManager.CloseAll` | api/ws_revocation.py:62-75 | loop invariant over a snapshot that each disconnect shrinks: after i steps the registry is the first i clients evicted, the count is those of them that closed in time, and none of them raised; the loop ends early only at a close that raises |
| `WebSocketManagers.WebSocketManager.CloseSnapshot` | api/ws_revocation.py:62-75 | every client of the snapshot is deregistered if and only if no close raises; those before a raise are, those that raise are not |
| `WebSocketManagers.WebSocketManager.CloseTenantSockets` | api/ws_revocation.py:34-98 | if and only if no close raises past the handlers, every client of the tenant is deregistered, the result counts those that closed in time, and one control message is handed to the broker when enabled; otherwise the call raises and publishes nothing |
| `WebSocketManagers.WebSocketManager.HandleBrokerMessage` | api/websocket.py:74-91 | an echo changes nothing; a control message evicts the whole tenant if and only if no close raises; an event evicts its failed targets unless a send raises; nothing is ever published |
| `WebSocketManagers.WebSocketManager.NotifyEntityUpdate` | api/websocket.py:476-504 | exactly the registered, answering members of the entity bucket are told, those that fail are evicted, unregistered ids are passed over; while the buckets are isolated, all those told are of the entity's tenant |
| `WebSocketManagers.WebSocketManager.NotifyAll` | api/websocket.py:487-500 | told and failed split exactly the registered ids of the snapshot |
| `WebSocketManagers.NotifiedAreSubscribers` | api/websocket.py:488-491 | while the maps are inverses, an entity update addresses exactly the clients that hold a subscription to it |
| `Cluster.EchoIsHome` | api/websocket.py:75-77 | with distinct non-empty origins the echo guard fires exactly on the worker that published |
| `Cluster.NextKeepsInv` | api/websocket.py:74-91 | every cluster step keeps all registries well-formed, every message's origin its home's, no slot both undelivered and running, and nothing in flight while its home task runs |
| `Cluster.RunKeepsInv` | api/websocket.py:74-91 | the same over every run |
| `Cluster.DebtIsPaidOnce` | api/websocket.py:199-255 | conservation: no step but the origination raises received plus owed for a client and a message |
| `Cluster.AtMostOnce` | api/websocket.py:199-255 | in every run of any number of workers, whatever is reconnected, lost or failed, no worker sends a client a message twice |
| `Cluster.AtMostOnceAnywhere` | api/websocket.py:199-255 | over all the workers together a client receives a message at most once, on runs in which its id is only ever registered on one worker |
| `Cluster.TwiceOnTwoWorkers` | api/websocket.py:199-255 | witness: an id registered on two workers receives one event twice |
| `Cluster.DebtIsKeptIff` | api/websocket.py:199-255 | for a registered, non-excluded client, a step keeps received plus owed at exactly one if and only if it does not fail the client: no failed send to it, no raise for it nor, elsewhere, the first in the home task, no failed publish of the home task, no lost notification to its worker |
| `Cluster.ExactlyOnce` | api/broker/postgres_notify.py:171-229 | once nothing of an event is running or undelivered, every non-excluded client registered on a worker under the tenant throughout and failed by no send, raise, publish or notification has received it from that worker exactly once; a raise for another client on the same worker does not fail it, one on the home worker of the event fails those elsewhere |
| `Cluster.ExactlyOnceAnywhere` | api/broker/postgres_notify.py:171-229 | and exactly once over all the workers together, when its id is only ever registered on that worker |
| `Cluster.ExcludedNeverReceives` | api/websocket.py:202-204 | over any run, the client an event excludes is sent it by no worker |
| `Cluster.HeldIff` | api/websocket.py:202-217 | a step keeps every running task to clients of its own tenant if and only if it hands no id over to another tenant that the task may still act on: still to be sent to, or, when removals count, still to be removed |
| `Cluster.NeverAcrossTenants` | api/websocket.py:202-217 | over runs in which no id an event is still to be sent to changes tenant, every send went to a registration of the event's own tenant |
| `Cluster.HandoverDuringFanOut` | api/websocket.py:206-216 | witness: a fan-out that loses the race to a reconnect under another tenant sends to that tenant |
| `Cluster.OtherTenantsUntouched` | api/ws_revocation.py:62-75 | no step of a fan-out or revocation changes the entry of a client of another tenant, on any worker |
| `Cluster.RevocationReachesAll` | api/websocket.py:79-84 | once a revocation's control messages are all handled, with no close raised on the worker or on its home, no publish failed and no notification lost, the worker has no socket of the tenant that was registered before its handling step |
| `Cluster.RaiseEndsTheRelay` | api/websocket.py:217-255 | witness, for an event and for a revocation: one client whose send or close raises, and the other worker is never told, its client neither sent the event nor closed, and the raising client stays registered |
| `Cluster.InternalStepsDecrease` | api/websocket.py:75-91 | every step that is not a new local call lowers a lexicographic measure, whatever fails |
| `Cluster.RelayComesToRest` | api/websocket.py:75-91 | from every reachable state the relay can run, without a new call, to nothing running and nothing undelivered |
| `Cluster.PublishesAtMostCalls` | api/websocket.py:246-255 | handling never publishes: publishes over any run number at most the locally originated calls |
| `Cluster.SendRound` | api/websocket.py:231-241 | the sends of a fan-out, one after the other, give the event once to exactly the reachable waiting clients, whichever of the others raise, and note the rest as failed |
| `Cluster.FanOutIsBroadcast` | api/websocket.py:160-279 | run without interruption, the cluster's steps have the effect promised by the manager's broadcast method, whichever sends fail or raise |
| `BrokerSupervisor.DelayDoubles` | api/broker/postgres_notify.py:145-161 | doubling under the cap is min(0.5 * 2^k, 30) |
| `BrokerSupervisor.NextKeepsInvIff` | api/broker/postgres_notify.py:55-161 | every event of start, stop, the loop and the connection, closes that raise and connects that leak included, keeps the invariant if and only if it neither installs a dead connection nor stops a start under way |
| `BrokerSupervisor.RunKeepsInv` | api/broker/postgres_notify.py:55-161 | the invariant holds over every run without such an event |
| `BrokerSupervisor.ReachableStates` | api/broker/postgres_notify.py:55-161 | in every state reached from boot by such a run: no lost wake-up; the k-th retry sleeps min(0.5 * 2^k, 30) s; between calls listener, pool and supervisor are all there or none is, if and only if the last stop's closes did not raise |
| `BrokerSupervisor.LeftOverIff` | api/broker/postgres_notify.py:56-57 | something is left over from exactly a close that raises until the next stop; a start in between does nothing |
| `BrokerSupervisor.RunLeavesOverIff` | api/broker/postgres_notify.py:71-102 | the same over every run |
| `BrokerSupervisor.RaisingStopBlocksStart` | api/broker/postgres_notify.py:92-94 | witness: the pool of a start fails, the close in its own stop raises, the listener stays in its field, and no later start does anything |
| `BrokerSupervisor.StopDuringStartEndsSupervisor` | api/broker/postgres_notify.py:71-95 | witness: a stop during the connect of a start leaves listener and pool up with an ended supervisor |
| `BrokerSupervisor.DeadConnectionLosesWakeup` | api/broker/postgres_notify.py:104-123 | witness: a start whose connection is dead when installed leaves the supervisor waiting with nothing to wake it |
| `BrokerSupervisor.ClosingNeverRearms` | api/broker/postgres_notify.py:80-95 | a deliberate close, by stop or by the loop, never raises the lost flag |
| `BrokerSupervisor.OnlyTheListenerWakes` | api/broker/postgres_notify.py:110-112 | a dying connection raises the flag if and only if it is the current one |
| `BrokerSupervisor.SupervisorRecovers` | api/broker/postgres_notify.py:114-161 | a broker that is up but not listening gets listening again within three of its supervisor's own steps, the last of them the first connect that succeeds |
| `BrokerSupervisor.PostgresNotifyBroker.LoseConnection` | api/broker/postgres_notify.py:110-123 | a dying connection is one event of the machine and keeps the invariant: the flag is raised if and only if it was raised or this is the current connection, and then a waiting supervisor can wake |
| `BrokerSupervisor.PostgresNotifyBroker.ConnectListener` | api/broker/postgres_notify.py:104-108 | a connect that succeeds is listened on and watched in one stretch; one that fails sets neither, and leaks its connection exactly when it had opened |
| `BrokerSupervisor.PostgresNotifyBroker.Start` | api/broker/postgres_notify.py:55-69 | all three parts are set up, listening exactly when the connection is live, or after any failure none is left if and only if the close of a connected listener does not raise; a started broker is left alone; the run is one of the event machine |
| `BrokerSupervisor.FailedStartLeavesNothingIff` | api/broker/postgres_notify.py:61-68 | a start that raises is a run of the machine, leaves no listener, pool or supervisor if and only if no close in its own stop raises, and no connection open but one it leaked or could not close |
| `BrokerSupervisor.PostgresNotifyBroker.Stop` | api/broker/postgres_notify.py:71-102 | no listener, pool or supervisor is left if and only if no needed close raises; a raise leaves its field and what comes after it; the lost flag is as it was; the run is one of the event machine |
| `BrokerSupervisor.StopLeavesNothingIff` | api/broker/postgres_notify.py:80-102 | from every state between calls, a stop keeps the invariant and leaves nothing if and only if neither the close of a present listener nor that of a present pool raises |
| `BrokerSupervisor.PostgresNotifyBroker.RetryUntilConnected` | api/broker/postgres_notify.py:145-161 | the loop's sleeps are min(0.5 * 2^k, 30) for k = 0, 1, ... |
| `BrokerSupervisor.ReconnectRuns` | api/broker/postgres_notify.py:121-161 | woken by the lost flag, and after any number of failed attempts, the machine listens again on a new connection, the only one watched, with nothing of the old one left but what a failed close leaves open |
| `BrokerSupervisor.PostgresNotifyBroker.Reconnect` | api/broker/postgres_notify.py:121-161 | a run of the machine: after any number of failed attempts the broker listens again, with the flag down, the supervisor waiting and only the new connection watched |
| `BrokerSupervisor.PostgresNotifyBroker.Publish` | api/broker/postgres_notify.py:171-183 | a payload reaches pg_notify if and only if the broker is started and it has at most 7999 bytes |
| `Sessions.OwnershipTestsAgreeIff` | api/endpoints/mcp_session.py:278-364 | tenant scoping with the in-memory ownership test equals the SQL filter on every row if and only if the caller has a principal |
| `MintedIds.MintedIffPrinted` | api/endpoints/mcp_session.py:83 | an id is accepted if and only if it is a 128-bit value printed in five hexadecimal groups of 8, 4, 4, 4 and 12, and it is printed from exactly one |
| `MintedIds.ShapeByExample` | api/endpoints/mcp_session.py:79-83 | one id of the shape; without its hyphens, in upper case or with a hyphen misplaced it is none |
| `Sessions.FreshIsOwnedIff` | api/endpoints/mcp_session.py:218-229 | a new row carries the binding of the caller it is made for, expires in 24 h, and is owned by exactly the callers of that tenant with that key or, without a key, that user |
| `Sessions.ReadIff` | api/endpoints/mcp_session.py:330-364 | a read hands out the row exactly when it is in the tenant given, the principal's by the in-memory test, and not past its own expiry |
| `Sessions.ReapIff` | api/endpoints/mcp_session.py:408-410 | the reaper takes a row if and only if it was last accessed over 48 h ago, and changes no other |
| `Sessions.DueIff` | src/giljo_mcp/services/debounce.py:51-58 | the debounce lets a key through the first time, and then exactly once 30 s have passed |
| `Sessions.NextKeepsInv` | api/endpoints/mcp_session.py:179-424 | in every interleaved step, extensions computed before they are committed included: minted unique ids, expiry at most 24 h after last access, and no request holds a row that is not its caller's |
| `Sessions.RunKeepsInv` | api/endpoints/mcp_session.py:179-424 | the same over every run of any callers and workers |
| `Sessions.OnlyTheReaperUnbinds` | api/endpoints/mcp_session.py:408-410 | a row leaves or changes its binding in a step if and only if the reaper takes it, and it has then been expired for over 24 h |
| `Sessions.BindingIsStable` | api/endpoints/mcp_session.py:205-236 | over any run that does not reap an id's row, its (tenant, key, user) never changes |
| `Sessions.ServedRowsAreTheCallers` | api/endpoints/mcp_session.py:330-364 | in every reachable state any row handed to a request belongs to its caller, by both ownership tests |
| `Sessions.ResurrectionRace` | api/endpoints/mcp_session.py:271-309 | any callers presenting one id, known or not, in any interleaving without reaping: at most one row, whose caller alone is served it; an answered caller is refused if and only if the id is not printed from a 128-bit value or is bound to another; nobody is left unanswered but by a failed commit of its own |
| `Sessions.RefusedIff` | api/endpoints/mcp_session.py:299-303 | at its reselect a call is refused if and only if the id is bound to another principal or tenant |
| `Sessions.SuppressedUse` | api/endpoints/mcp_auth_middleware.py:578-581 | a debounced use at t finds at least t + 24 h - 30 s on its row, unless its mark's extension is uncommitted or overwritten by an older one |
| `Sessions.CommittedUse` | api/endpoints/mcp_auth_middleware.py:578-580 | a use let through at t is served if and only if its commit succeeds on a row still there, and then leaves exactly t + 24 h, saves its own mark and overwrites exactly the id's later marks |
| `Sessions.CommittedResurrection` | api/endpoints/mcp_session.py:305-309 | a resurrection reaches its use if and only if its extension is committed on a row still there, and then leaves exactly 24 h from its mark |
| `Sessions.RunKeepsBacked` | api/endpoints/mcp_auth_middleware.py:575-580 | over every run, behind each mark under 30 s old whose extension is committed and not overwritten by an older one is a row good for 24 h from the mark, out of the reaper's reach |
| `Sessions.EveryUseLeavesLifetime` | src/giljo_mcp/services/debounce.py:51-58 | in every run from boot, every use at t that is served, at once or after its commit, leaves at least t + 24 h - 30 s, the debounced ones of an unsaved mark apart |
| `Sessions.ExtensionIsKeptIff` | api/endpoints/mcp_auth_middleware.py:578-580 | a row extended since a moment stays so in a step if and only if the step neither commits an extension computed before it nor reaps the row |
| `Sessions.ExtensionIsGainedIff` | api/endpoints/mcp_auth_middleware.py:578-580 | a row not extended since a moment becomes so if and only if the step makes the row or commits an extension computed since |
| `Sessions.ExpiryIsLastWritten` | api/endpoints/mcp_session.py:289-309 | over every run the expiry of a row is 24 h after the extension last committed to it, on whichever worker, was computed; there is no row exactly when none is made or the last one was reaped |
| `Sessions.SuppressedUsesMeetIff` | src/giljo_mcp/services/debounce.py:51-58 | in every run from boot, all uses a mark can still suppress meet the bound if and only if the extension last committed to the row, or its making, was computed no earlier than the mark |
| `Sessions.FailedCommitSuppressesTheRetry` | api/endpoints/mcp_auth_middleware.py:578-580 | witness: the mark outlives the failed commit of its extension, and the retry ten seconds later is served with four hours left |
| `Sessions.TouchKeepsFromReaper` | api/endpoints/mcp_session.py:378-410 | bumping last access keeps a row from the reaper for exactly 48 h from then on, and moves nothing else of it |
| `Sessions.GetIs` | api/endpoints/mcp_auth_middleware.py:510-581 | a look-up hands out the caller's live row; without one, a printed id goes on to be resurrected and any other is refused |
| `Sessions.RequestAlone` | api/endpoints/mcp_auth_middleware.py:510-581 | a request that no other step interleaves with does in the machine what the middleware method promises: refused if and only if its id is printed from no 128-bit value or bound to another, its row the live one or one made good for 24 h, its use extending that row if and only if it is due and commits |
| `Sessions.MCPSessionManager.CreateSession` | api/endpoints/mcp_session.py:179-236 | an insert fails if and only if the id is taken, and then changes nothing |
| `Sessions.MCPSessionManager.GetSession` | api/endpoints/mcp_session.py:311-346 | the row comes back exactly when it is in the tenant, the caller's and not past its own expiry |
| `Sessions.MCPSessionManager.ResurrectSession` | api/endpoints/mcp_session.py:238-309 | refused if and only if the id is printed from no 128-bit value, the caller has no principal, or the id is bound to another; otherwise the caller's own row, 24 h ahead, with its old binding if it had one |
| `Sessions.MCPSessionManager.ApplySessionLifecycle` | api/endpoints/mcp_auth_middleware.py:510-581 | 404 if and only if the id is printed from no 128-bit value or is bound to another principal or tenant; never for the caller's own expired row or an unknown id; a request raises if and only if its extension is due and fails to commit; a served row is extended by 24 h exactly when the debounce lets it, other ids' rows untouched |
| `Sessions.MCPSessionManager.ExtendIfDue` | api/endpoints/mcp_auth_middleware.py:578-580 | an extension is marked if and only if this worker let none through for the id in 30 s, and written if and only if it also commits |
| `Sessions.MCPSessionManager.UpdateSessionData` | api/endpoints/mcp_session.py:378-393 | succeeds exactly on a live row in the tenant, moving last access and not the expiry |
| `Sessions.MCPSessionManager.CleanupExpiredSessions` | api/endpoints/mcp_session.py:408-424 | deletes exactly the rows untouched for 48 h, counts them, and each had been expired for over 24 h |
| `Transport.ReadsWholeBody` | api/endpoints/mcp_transport.py:114-130 | a body within the cap is read as its concatenated chunks, leaving exactly the unread rest of the stream |
| `Transport.AbortsAtFirstExcess` | api/endpoints/mcp_transport.py:123-126 | the read aborts at the first chunk whose running total is over the cap, having consumed just that far |
| `Transport.CutShort` | api/endpoints/mcp_transport.py:117-122 | a disconnect, or any other message, inside a body within the cap ends the read with what has come |
| `Transport.WaitsForMore` | api/endpoints/mcp_transport.py:117-118 | while there is no further message the read goes on waiting |
| `Transport.NeverOverCap` | api/endpoints/mcp_transport.py:123-126 | no stream makes the read return more than the cap |
| `Transport.TooLargeIff` | api/endpoints/mcp_transport.py:114-130 | a whole body is refused as too large if and only if it has more than 5 MiB, however it is cut into chunks, and is read whole otherwise |
| `Transport.BearerTokenIff` | api/endpoints/mcp_auth_middleware.py:465-468 | an Authorization header holds a token exactly when it starts with the word Bearer, in any case, and a space; the token is the rest |
| `Transport.ReadFullBody` | api/endpoints/mcp_transport.py:101-130 | the loop with its running total computes the stream specification, outcome and rest |
| `Transport.ReplayReceive.Receive` | api/endpoints/mcp_transport.py:133-152 | each call yields the head of: the buffered frame, then the original stream |
| `Transport.ReplayReceive.Drain` | api/endpoints/mcp_transport.py:133-152 | over any number of calls the inner app sees the one frame and then exactly the unread stream |
| `Transport.PreAuthGuard` | api/endpoints/mcp_auth_middleware.py:414-475 | 405, 413, 400, 401 in that order, each if and only if its condition on the header fields: 401 exactly when neither a non-empty API key nor a non-empty Bearer token is given; what passes is one frame of at most 5 MiB whatever Content-Length claims, then the unread rest |
| `PinLockout.WrongTimesSorted` | api/endpoints/auth_pin_recovery.py:119-169 | serialised requests make their wrong comparisons in time order |
| `PinLockout.Spacing` | api/endpoints/auth_pin_recovery.py:135-151 | from the fifth on, each wrong comparison comes at least 15 minutes after the one before, across both endpoints |
| `PinLockout.NthWrongComparison` | api/endpoints/auth_pin_recovery.py:119-169 | the n-th wrong comparison, n >= 5, comes at least 15 * (n - 5) minutes after the fifth |
| `PinLockout.WrongComparisonsInDuration` | api/endpoints/auth_pin_recovery.py:231-245 | wrong comparisons within any duration D number at most 5 + floor(D / 15 min) |
| `PinLockout.BoundIsMet` | api/endpoints/auth_pin_recovery.py:231-245 | the bound is tight: a locked account allows k more wrong comparisons in 15 * k minutes, for every k |
| `PinLockout.EpochCountsResets` | api/endpoints/auth_pin_recovery.py:165-177 | the revocation epoch counts exactly the successful resets; without one the password stays and failures never drop |
| `PinLockout.ComparesIff` | api/endpoints/auth_pin_recovery.py:119-135 | when a request compares PINs and with what result, on the fields of record and request |
| `PinLockout.RunWithoutReset` | api/endpoints/auth_pin_recovery.py:135-151 | over any run without a reset: the failures grow by the number of wrong comparisons, the lockout is that of the last one that locks, and PIN, password and epoch stay |
| `PinLockout.LastResetRules` | api/endpoints/auth_pin_recovery.py:164-177 | after any run: the password is the one the last successful reset gave, the failures count the wrong comparisons since it, and the lockout is that of the last locking one since it |
| `PinLockout.UserRecord.VerifyPinAndResetPassword` | api/endpoints/auth_pin_recovery.py:93-198 | for every response the exact condition on the record's fields it is given on, with the minutes left when locked; a reset leaves the new password, no failures, no lockout and the next epoch, and nothing else changes a password |
| `PinLockout.UserRecord.Verify` | api/endpoints/auth_pin_recovery.py:226-247 | for every response the exact condition on the record's fields it is given on, with the attempts or minutes left; only a wrong PIN changes the record, adding one failure and from the fifth on the lockout |
| `PinRaces.SerialRequestIsStep` | api/endpoints/auth_pin_recovery.py:119-169 | a wrong request that no other overlaps does to counter and lockout what the handlers do |
| `PinRaces.NextKeepsBounded` | api/endpoints/auth_pin_recovery.py:135-143 | with at most k requests in flight, each count of failures is read at most k times for every time it is set, in every step of any interleaving |
| `PinRaces.LowReadsBounded` | api/endpoints/auth_pin_recovery.py:135-143 | so over any run at most k + k^2 + k^3 + k^4 wrong comparisons do not set the lockout |
| `PinRaces.LockingsAreSpaced` | api/endpoints/auth_pin_recovery.py:139-141 | and the k-th comparison that sets the lockout after any other comes at least 15 minutes later |
| `PinRaces.WrongComparisonsInFlight` | api/endpoints/auth_pin_recovery.py:119-151 | wrong comparisons in any duration D number at most k + k^2 + k^3 + k^4 + k * (1 + floor(D / 15 min)), which for k = 1 is the bound of serialised requests |
| `PinRaces.ConcurrentRequestsCountOnce` | api/endpoints/auth_pin_recovery.py:132-143 | witness: any number of concurrent wrong requests all compare at one moment and count as a single failure |
| `SchemaHeal.RunsAppended` | startup_support/migration_stamp.py:218-225 | a statement list runs to its end if and only if its parts do in turn, and composes their effects |
| `SchemaHeal.HealRunsIff` | startup_support/migration_stamp.py:176-216 | the seventeen statements run to the end if and only if base tables, columns, indexes and rows allow it, and then leave a schema given in closed form |
| `SchemaHeal.HealedGains` | startup_support/migration_stamp.py:176-211 | in that closed form: the tables left, and the exact columns of each, one gained by each base table, seven on an assignment table that is made |
| `SchemaHeal.HealableIff` | startup_support/migration_stamp.py:176-216 | that condition spelled out on the named tables, columns, indexes and constraints |
| `SchemaHeal.HealReachesV37Iff` | startup_support/migration_stamp.py:168-227 | on every schema, the heal reaches the v37 requirements if and only if the list runs and no name it gives is borne by another object; otherwise a failing heal changes nothing |
| `SchemaHeal.MeetsV37Iff` | startup_support/migration_stamp.py:176-216 | the v37 requirements object by object, equally table by table and index by index |
| `SchemaHeal.HealIsIdempotentIff` | startup_support/migration_stamp.py:171-172 | on every schema, healing twice is healing once unless an orphan table bears the name of an assignment index that can be made again |
| `SchemaHeal.OrphanBearsTheName` | startup_support/migration_stamp.py:195-204 | witness: an index name found on an orphan table is skipped, dropped with the table, and missing after the heal |
| `SchemaHeal.HealOnlyTouchesNamed` | startup_support/migration_stamp.py:176-216 | on every schema, nothing but the named columns, tables, indexes and constraints, and what hangs on a dropped table, changes |
| `MigrationStamp.RevisionMovesIff` | startup_support/migration_stamp.py:49-96 | the recorded revision moves if and only if there is none yet or it is a known legacy one, to the squash boundary or to v37 |
| `MigrationStamp.ChainRevisionsStay` | startup_support/migration_stamp.py:104-115 | no revision of the current chain ever moves |
| `MigrationStamp.HealsIff` | startup_support/migration_stamp.py:62-96 | the eleven legacy revisions by name, and the step heals the schema exactly on them, on v37 and on an empty or absent revision row of an existing table |
| `MigrationStamp.UnknownRevisionsUntouched` | startup_support/migration_stamp.py:117-128 | a revision unknown to this build leaves the whole database as it was |
| `MigrationStamp.StampTwiceIsOnceIff` | startup_support/migration_stamp.py:49-128 | the step run twice equals the step run once if and only if the heal it may run leaves no work |
| `MigrationStamp.BridgeReachesV37Iff` | startup_support/migration_stamp.py:62-96 | a bridged database meets v37 afterwards if and only if its schema can be healed, and records no legacy revision |
| `MigrationStamp.HealSchemaToV37` | startup_support/migration_stamp.py:218-227 | the loop that swallows each failure is, with its commit, all or nothing; the count is full if and only if every statement ran |
| `MigrationStamp.CheckAndStampMigrationVersion` | startup_support/migration_stamp.py:28-128 | the database after the step is the stamped one, and the warning is given exactly for a revision that is neither bridged nor in the chain |
| `EnvReconcile.OneKeyPerLine` | startup.py:716-717 | two keys without '=' that both match a line are the same key |
| `EnvReconcile.SetsIff` | startup.py:717-718 | a line sets a key exactly when it is the key, an equals sign and some value, which is then its value |
| `EnvReconcile.ManagedLineFixed` | startup.py:716-722 | a line of a managed key ends as it was if its value was right, and as that key's desired line otherwise, whatever the other settings |
| `EnvReconcile.UnmanagedLineKept` | startup.py:715-717 | a line of no managed key is unchanged |
| `EnvReconcile.ReconcileMeetsDesired` | startup.py:712-728 | for any lines: every line of a managed key, duplicates included, has the desired value; unmanaged lines keep content and place; a missing key gets exactly one line |
| `EnvReconcile.SecondRunSettledIff` | startup.py:712-728 | a second run finds nothing to do if and only if every desired value is free of surrounding white space |
| `EnvReconcile.SettledIsKept` | startup.py:712-728 | a file with nothing to do is left exactly as it is |
| `EnvReconcile.NumbersArePorts` | startup.py:213-238 | a port number is written as a text of the kind the next rows take, from which it can be read back |
| `EnvReconcile.SecondBootChangesNothing` | startup.py:703-728 | for the program's own three settings, any host, any port and any lines, a second pass over the resulting lines changes nothing |
| `EnvReconcile.OwnLinesMeetDesired` | startup.py:703-728 | afterwards, on any file: every line of the public URL has the served scheme, host and port, every line of the two front-end keys is empty, and each of the three has a line |
| `EnvFile.LinesComeBackIff` | startup.py:712-732 | lines come back from the written file as they were if and only if none holds a line separator |
| `EnvFile.SeparatorIff` | startup.py:712 | the ten line separators |
| `EnvFile.SplitAtSeparator` | startup.py:712 | a line ends at the first separator, a return and a line feed together being one |
| `EnvFile.SecondBootIff` | startup.py:678-732 | for any text and any readable settings, the second boot leaves the file as it is if and only if no desired value holds a line separator |
| `EnvFile.BrokenBootGrows` | startup.py:712-732 | with a line separator in a desired value every boot makes the file longer |
| `EnvFile.OwnSecondBootIff` | startup.py:696-732 | for the program's own settings, any file and port: the second boot changes nothing if and only if the host holds no line separator |
| `EnvFile.PatchEnvFile` | startup.py:712-732 | the pass from the text read to the text in the file, written if and only if it was not settled |
| `EnvReconcile.FixOneLine` | startup.py:716-723 | the inner loop computes the fixed line, the keys seen, whether anything changed, and exports exactly what it rewrote |
| `EnvReconcile.FixAllLines` | startup.py:713-723 | the outer loop rewrites every line in place, sees exactly the keys that have a line, and reports a change if and only if some line was wrong |
| `EnvReconcile.AppendMissing` | startup.py:724-728 | the settings without a line, in order, once each, and exported |
| `EnvReconcile.PatchEnvFromConfig` | startup.py:712-728 | the whole pass gives the reconciled lines, reports a change if and only if the file was not settled, and touches no other environment variable |
| `ToolSurface.AdvertisedIffCallable` | api/endpoints/mcp_sdk_server.py:263-331 | for every request, a tool is advertised if and only if it is registered and calling it passes the gate |
| `ToolSurface.ListedAreTheCallable` | api/endpoints/mcp_sdk_server.py:263-331 | the advertised list is the registered one, in its order and with its duplicates, without exactly the tools whose call would be refused |
| `ToolSurface.DispatchIff` | api/endpoints/mcp_sdk_server.py:296-331 | each refusal exactly on the request fields it stands for, in the order of the gates |
| `ToolSurface.TokensStayInScope` | api/endpoints/mcp_tools/_base.py:301-311 | whatever any request but an API key's is shown or may call has its scope among the request's own |
| `ToolSurface.AgentSurface` | api/endpoints/mcp_tools/_base.py:490-500 | an undeclared JWT with the agent scope is shown exactly the in-scope mapped tools outside the launch gate |
| `ToolSurface.StandardSurface` | api/endpoints/mcp_tools/_base.py:490-500 | an undeclared JWT without it is shown exactly the in-scope tools of the standard profile, less the fence |
| `ToolSurface.DeclaredSurface` | api/endpoints/mcp_tools/_base.py:490-492 | whoever declares a known profile is shown exactly its tools, in scope and fenced as the authentication demands |
| `ToolSurface.NamedSurfaces` | api/endpoints/mcp_tools/_base.py:415-442 | a JWT that declares the orchestrator profile is shown exactly the in-scope tools outside the launch gate, one that declares the full profile all in-scope ones, less the fence |
| `ToolSurface.InMemorySurface` | api/endpoints/mcp_tools/_base.py:301-304 | outside HTTP every registered, mapped tool is shown |
| `ToolSurface.LaunchGateHolds` | api/endpoints/mcp_sdk_server.py:244-260 | a JWT session of a tenant that has not opted in neither sees nor can call a launch-gate tool, whatever profile it declares |
| `ToolSurface.UnknownAuthIsFailClosed` | api/endpoints/mcp_tools/_base.py:490-506 | an unknown authentication is shown nothing unless it declared a known profile, and then only what its scopes allow |
| `ToolSurface.ApiKeySeesEverything` | api/endpoints/mcp_sdk_server.py:341-365 | after the boot check an API key without a declared profile is shown every registered tool, which are the mapped ones |
| `NotifyMemo.MemoIsLastEmitted` | api/endpoints/mcp_auth_middleware.py:152-167 | for any bound and history, the memo is the last emitted keys in order, and bound + 1 consecutive emissions are distinct |
| `NotifyMemo.NotificationsDistinct` | api/endpoints/mcp_auth_middleware.py:143-167 | from boot, the memo is the last min(10000, n) emitted keys and any 10001 consecutive emissions are distinct |
| `NotifyMemo.NotifiedKeys.MarkNotified` | api/endpoints/mcp_auth_middleware.py:152-167 | a key is let through if and only if it is not among the last 10000 let through |
| `CookieHeader.ParseCookies` | api/auth_utils.py:129-136 | the loop computes the fold of the parts, later names winning, parts without '=' ignored |
| `CookieHeader.TakesNothing` | api/auth_utils.py:133-134 | a part without '=' adds nothing |
| `Text.StripUnwraps` | api/auth_utils.py:133-136 | stripping takes off the white space around a text and nothing of the text |
| `Text.SpaceIff` | api/auth_utils.py:133 | which 29 characters are white space |
| `CookieHeader.TakesPair` | api/auth_utils.py:133-136 | a printed pair with any white space before it is read back as that name and value, '=' in the value included |
| `CookieHeader.ParseOfPrint` | api/auth_utils.py:129-136 | parsing a header in the syntax of section 4.2.1 of RFC 6265 with distinct names gives back exactly its names and values |

## Left out

- WebSocketManagers.WebSocketManager.BroadcastEventToTenant: runs without interruption; what other steps do during its awaits is in `Cluster`, and `Cluster.FanOutIsBroadcast` joins the two.
- WebSocketManagers.WebSocketManager.NotifyEntityUpdate: likewise uninterrupted; what may happen between its snapshot and its sends is in `ConnectionRegistry.UpdateInProgressStaysInTenant`.
- WebSocketManagers.WebSocketManager.CloseTenantSockets: likewise uninterrupted; `Cluster.RevocationReachesAll` has the interleaving.
- Cluster.RevocationReachesAll: takes each accepted connection to be a new socket.
- Cluster.AtMostOnceAnywhere: one direction; an id on two workers need not receive twice, as its sends may fail.
- Cluster.ExactlyOnce: a task's publish and its end are one step, so a publish in progress does not interleave.
- WebSocketManagers.WebSocketManager.PublishIfEnabled: a publish that raises past its handler ends the call with the exception; the state is that of a publish that fails.
- BrokerSupervisor.PostgresNotifyBroker.Start: runs with no stop under way; the machine has the overlaps of one start with one stop, but not two stops at once nor a start that fails during a stop.
- BrokerSupervisor.NextKeepsInvIff: a connection that dies between `add_listener` and the stretch that installs it counts as dead when installed.
- Sessions.NextKeepsInv: the wall clock and the debounce's monotonic clock advance together; an insert and the bump of `update_session_data` each read the clock and write in one step; only the commits of extensions can fail.
- Sessions.MCPSessionManager.ApplySessionLifecycle: one worker's requests one after the other; the interleaved form is `Sessions.ResurrectionRace` and `Sessions.RefusedIff`, and `Sessions.RequestAlone` joins the two. The `initialize` branch, which only mints, is `Sessions.MCPSessionManager.CreateSession`.
- SchemaHeal.HealReachesV37Iff: row data appears only as the set of uniqueness rules it breaks; views, foreign keys of the new table and clashes between table and index names are not modelled.
- MigrationStamp.CheckAndStampMigrationVersion: an alembic_version table with several rows, an unreachable database and the outer exception handler are not modelled.
- EnvFile.PatchEnvFile: starts from the decoded text, newlines translated, and ends with the text to write; a failing read or write, encodings and the early returns without a file or for localhost installs are outside.
- PinLockout.UserRecord.VerifyPinAndResetPassword: the edition gate, unknown users, the IP rate limiter (a parameter), refresh-token revocation and the login-lockout clearing; requests are serialised, and `PinRaces` has the wrong ones interleaved between two resets.
- Session contents (`session_data`, client info, harness, project), IP logging and the `last_used` write: bookkeeping.
- `delete_session`, which has no callers, and the JWT audit fields.
- `_wrap_send_with_session_id` and the JSON peeks: the peek is a parameter of `Transport.PreAuthGuard`.
- Content-Length values made of non-ASCII digits.
- Payload serialisation and the handler loop of the broker; the codec is lossless by contract.
- User permission lists: the wildcard branch has the same result as the one after it.
- The contents of tool names, scopes and profiles beyond what the gates read.
- WebSocket authentication other than the Cookie loop; heartbeats, `send_json`, `broadcast`, and the event payload builders.
- The in-memory broker, the event bus, OAuth endpoints, prompts, downloads, installers and the rest of startup.py: thin adapters or process work.
