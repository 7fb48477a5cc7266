# Verification of the battle-room server

A Dafny model of the four components that decide where a battle runs and who takes part in it,
with proofs about them. `dafny verify dfyconfig.toml` checks everything.

| file | contents |
|---|---|
| `Ordering.dfy` | sorting, enumeration of a set in an arbitrary order, filtering, string order |
| `VirtualKeys.dfy` | the text names of virtual ring points |
| `HashRing.dfy` | the consistent-hash ring as a value: lookup specification, histories, disruption |
| `NodeManager.dfy` | the ring object: rebuild loops, sort, bisection |
| `EngineState.dfy` | the pod registry as a value: steps, runs, failure counting, replica bounds, placement |
| `RegistryFields.dfy` | the registry field by field: which steps write it, and what |
| `EngineInstance.dfy` | the registry object and its pod objects |
| `RoomState.dfy` | sessions and rooms, and every command and start step as a function on the room table |
| `RoomRestore.dfy` | what a start-up restores: which snapshots decide, and the rooms, users and sessions afterwards |
| `RoomPlacement.dfy` | who is in which room: the invariant and its preservation |
| `RoomStartup.dfy` | when the rooms and sessions a whole start-up restores agree with one another |
| `RoomLifecycle.dfy` | statuses, unresolved starts and accepted battles: the invariant and its preservation |
| `RoomEvents.dfy` | the events of the table; what each keeps |
| `RoomRuns.dfy` | runs: the invariant of every reachable state and the theorems read off it |
| `RoomLaws.dfy` | laws relating commands, and the bound on how long a start takes |
| `RoomFields.dfy` | the room table field by field: which events write it, and what |
| `RoomForwarding.dfy` | when a forwarded action reaches the engine that accepted the battle |
| `RoomWitnesses.dfy` | concrete runs that reach the situations listed below |
| `Failover.dfy` | one failover run as a pointwise description; soundness, accounting, stability, restore |
| `FailoverChains.dfy` | any number of failover runs one after the other |
| `NodeCleanup.dfy` | registry and failover together: what becomes of rooms on a pod that is deleted |
| `RoomManager.dfy` | the room manager object: every command as a method on objects changed in place |

The functions that specify the steps are not taken on trust: `RegistryFields`, `RoomFields`,
`Failover.RunMovesExactly` and its neighbours, `EngineState.PreferredExactly`, `HashRing.RingSize` and
`VirtualKeys.ItoaReads` say in the fields and constants themselves, without those functions, what each
of them must do.

How the model is laid out. Objects the server changes in place (`NodeManager`, `EngineNode`,
`EngineInstance`, `Session`, `GameRoom`, `RoomManager`) are classes. Each class method is proved to
change the abstract state (`view`, or `State()`) exactly as a function on values says, and the
theorems are proved about those functions over all runs. In the room table object references serve
as identities, so "holds that very session" means reference equality.

What stands for the outside world. CRC32 is an arbitrary function from text to 32-bit numbers.
Go's map iteration is an arbitrary permutation of the keys (`Ordering.Enumerate`), so nothing
proved depends on it. Redis is a map from room id to snapshot. Answers of engines, of the store and
of the dialler are arguments, quantified over. Commands are atomic; a start is split into the
critical section that claims the room, the node assignment, the connection lookup in the
background, and each call to the engine, and these steps interleave with all other events. A
migration includes an oracle for whether the asynchronous destroy erases the snapshot before the
second save, and `SecondRunIsStable` lets it erase any number of them afterwards.

Where the code does not do what one might expect, the exact condition is proved, with a concrete
run or input in which it matters:

* A finished room is not final while its start is unresolved; it waits again exactly when that
  start gives up (`FinishedReopensExactly`; `FinishedCanReopen` is a run of seven events in which it
  does). With none unresolved it stays finished.
* A migrated room is targeted again exactly under the condition of `MigratedRetargeted`: both saves
  failed, the old snapshot survived and names another server (`MigratedCanBeRetargeted` is such a
  run).
* The failover run that precedes the deletion of a pod takes care of a room playing on it exactly
  when some pod is healthy and either this one is not or the room's snapshot names another server
  (`MigrationBeforeCleanup`). `HealthyPodDeleted` is a run that deletes a pod flagged healthy: a
  heartbeat fails and the reconnect with it, a later heartbeat over the old connection raises the
  flag, and the reconnect loop then reports its failure. `RoomLeftOnDeletedPod` is a room that stays
  on that pod.
* A room that no failover moved forwards actions to the engine that accepted its battle exactly when
  its start found the assigned node or fell back to the same one, because the fallback does not write
  the node back (`ForwardingReachesAcceptor`; `ForwardingCanMissAcceptor` is a run after which it
  forwards to an engine that never heard of it). A moved room forwards to the engine it was moved to,
  which has created it too.
* A snapshot restored into a table in use keeps the room invariant exactly when it names one or two
  players and replaces no room that a session names (`RestoredPlacedExactly`;
  `EmptySnapshotMisplaces` is a snapshot that breaks it). For a whole start-up the condition is that
  of `FreshStartExactly`: every wanted snapshot names one or two players, or is replaced by a later
  one of the same room and names none.
* A replica count configured at zero or below never changes (`ReplicaBounds`).

One exact condition is about an arbitrary hash rather than about CRC32: ring lookups do not depend on
map order exactly when no two nodes share a virtual point (`OrderIrrelevantIffNoCollision`). It says
what the hash must provide; no collision of CRC32 on virtual keys is claimed.

Two comments in the source say more than the code does; the model follows the code. The discovery
loop announces that it updates the replica count but only raises the highest known index
(internal/engine/manager.go:456-457). `moved` also counts targeted rooms that are not playing and
are not changed (internal/room/manager.go:701-704); `MovedOf` says so.

## Model

| member | source | states |
|---|---|---|
| VirtualKeys.VirtualKeyInjective | internal/rpc/client.go:82 | different (node id, replica) pairs give different key texts, negative ids included |
| VirtualKeys.ItoaReads | internal/rpc/client.go:82 | an integer is written in decimal that reads back as it, with a sign when negative and no leading zero |
| VirtualKeys.KeyText | internal/rpc/client.go:82 | a key is "node_", the id, "_" and the replica, in that order |
| HashRing.CollisionComesFromHash | internal/rpc/client.go:83 | two nodes can share a ring point only if the hash collides on two different texts |
| HashRing.RingMapSound | internal/rpc/client.go:80-87 | every appended point is in the point map, which names a registered node owning that point, even when points collide |
| HashRing.RingSize | internal/rpc/client.go:80-90 | a rebuilt ring has a hundred points per node, the hashes of its keys 0 to 99, all different and strictly ascending when the hash tells the keys apart |
| HashRing.PointsOrderIrrelevant | internal/rpc/client.go:125-132 | the points, with multiplicity, are a function of the node set, whatever order the map yields |
| HashRing.OrderIrrelevantIffNoCollision | internal/rpc/client.go:125-134 | the owner of every hash is independent of iteration order if and only if no two nodes share a point |
| HashRing.MinimalDisruption | internal/rpc/client.go:69-134 | adding a node changes the owner exactly of the hashes whose successor is one of its points, and they go to it |
| HashRing.StepDisruption | internal/rpc/client.go:69-120 | one step of any run: a registration moves hashes only to a new node, a removal moves only hashes the removed node answered for, re-registering moves none |
| HashRing.RunsStayRebuilt | internal/rpc/client.go:69-134 | after every sequence of registrations and removals the ring is a rebuild of the current node set and nodes are stored under their ids |
| HashRing.LookupRefinesOwner | internal/rpc/client.go:93-108 | a lookup finds nothing iff no node is registered; otherwise it returns the registered node that the rebuild assigns to the successor point |
| HashRing.HistoryIndependence | internal/rpc/client.go:69-134 | two histories ending in the same node set leave the same sorted ring, and without cross-node collisions the same answer for every hash |
| NodeManagement.SearchPoint | internal/rpc/client.go:102 | bisection returns the boundary between points below the hash and points at or above it |
| NodeManagement.BisectionFindsSuccessor | internal/rpc/client.go:102-105 | that boundary with wrap-around is the least point at or after the hash, else the least of all |
| NodeManagement.RingIsOrdered | internal/rpc/client.go:89-90 | a rebuilt ring is sorted and each of its points maps to a registered owner |
| NodeManagement.NodeManager.AppendNodePoints | internal/rpc/client.go:126-131 | the inner loop appends the node's hundred points in order and maps each to it |
| NodeManagement.NodeManager.RebuildRing | internal/rpc/client.go:122-134 | whatever the iteration order, the result is a rebuild of the registered nodes |
| NodeManagement.NodeManager.RegisterNode | internal/rpc/client.go:69-91 | exactly the registration step of the specification: the node is stored or replaced, and the ring rebuilt |
| NodeManagement.NodeManager.RemoveNode | internal/rpc/client.go:110-120 | exactly the removal step: an unknown id changes nothing, a known one is gone and the ring rebuilt |
| NodeManagement.NodeManager.GetNodeByID | internal/rpc/client.go:136-142 | a node is found iff the id is registered, and it carries that id |
| NodeManagement.NodeManager.GetNodeByRoomID | internal/rpc/client.go:93-108 | the bisecting lookup equals the specification; error iff no node; the answer is the registered node mapped to the first point at or after the hash or, past the last point, to the first of all |
| EngineState.RegistryAndRingAgree | internal/engine/manager.go:557-708 | in every state of every run registry and ring list the same pods, the ring with each pod's present address and connection, and no pod has more than one recorded failure |
| EngineState.DeletedPodLeavesRing | internal/engine/manager.go:557-574 | hence the nil-connection guard of deletion always passes and the ring forgets exactly the deleted pod |
| EngineState.LookupsReachLivePods | internal/rpc/client.go:93-108 | hence a ring lookup succeeds iff a pod is registered, never answers with a deleted one, and answers with the pod's present address and connection, after any reconnects |
| EngineState.CounterMatchesHistory | internal/engine/manager.go:518-554 | the stored counter equals the failures reported since the last connect or observed server change, read off the history |
| EngineState.RemovedAtSecondFailure | internal/engine/manager.go:519-540 | a pod leaves the registry iff the server stops or its second such failure is reported; then the reassignment callback ran before, over exactly the pods registered until then |
| NodeCleanup.MigrationBeforeCleanup | internal/engine/manager.go:360-368 | for every run and every room playing on a pod deleted for its second failure, the failover over the registry the callback saw migrates it to a remaining pod or counts it as skipped iff some pod is healthy and this one is not or the snapshot names another server; else the room stays on the deleted pod |
| NodeCleanup.RoomOnFailingPod | internal/room/manager.go:565-591 | the same for any registry, and never both migrated and skipped |
| NodeCleanup.HealthyPodDeleted | internal/engine/manager.go:395-415 | a concrete run of six events, a failed heartbeat first, that deletes a pod while it is flagged healthy |
| NodeCleanup.RoomLeftOnDeletedPod | internal/room/manager.go:570-590 | in that run a playing room on the pod whose snapshot, if any, names the pod's server is left on it |
| EngineState.ReplicaBounds | internal/engine/manager.go:470-516 | replicas never grow and stay at least one, the highest index never falls below replicas - 1 and meets it after each effective shrink, rooms hash inside the count |
| RegistryFields.RegistrationWritten | internal/engine/manager.go:519-708 | a pod is registered by a dial and leaves exactly at a stop or a report that is not its first |
| RegistryFields.HealthWritten | internal/engine/manager.go:764-808 | a dial and an answered heartbeat raise the health flag, an unanswered one lowers it, nothing else writes it |
| RegistryFields.FiguresWritten | internal/engine/manager.go:788-792 | rooms, CPU, capacity and server are those the last answered heartbeat reported |
| RegistryFields.RouteWritten | internal/engine/manager.go:697-698 | address and connection are those of the last dial, in registry and ring |
| RegistryFields.FailuresWritten | internal/engine/manager.go:525-554 | the count is cleared by a dial and by an answer of another server and raised by one by a report |
| RegistryFields.CallbacksWritten | internal/engine/manager.go:352-368 | the callback runs, once and over the present pods, exactly at a report that is not the first, when another server answers, and when a check finds an unhealthy pod with rooms |
| RegistryFields.ReplicasWritten | internal/engine/manager.go:481-516 | the count drops iff a healthy pod of index zero or more exists and all healthy pods lie below the count less one, and then to just above the greatest |
| RegistryFields.MaxIndexWritten | internal/engine/manager.go:470-516 | the highest index follows discoveries upwards and effective shrinks downwards |
| RegistryFields.StatusExactly | internal/engine/manager.go:277-284 | the status lists a pod iff it is healthy or still holds rooms |
| RegistryFields.StopWritten | internal/engine/manager.go:304-319 | a stop forgets every pod, and the ring those that were connected |
| EngineState.PreferredCorrect | internal/engine/manager.go:177-229 | a preferred pod exists iff some pod is healthy and below its capacity; it is such a pod, with CPU below 70 whenever there is one |
| EngineState.PreferredExactly | internal/engine/manager.go:192-216 | the same in the figures reported: healthy, fewer rooms than the capacity or than ten where none is reported, CPU below 70 where some such pod has that |
| EngineState.PreferredRank | internal/engine/manager.go:221-222 | among the equally good pods the chosen one has as many below it as the hash leaves as remainder |
| EngineState.NodeForRoomCorrect | internal/engine/manager.go:157-173 | a room is refused iff every pod is full or unhealthy and the hashed replica is not registered or none is configured |
| EngineState.NodeForRoomExactly | internal/engine/manager.go:157-173 | a pod that can take the room, in the figures reported, wins; otherwise the hashed replica if registered; otherwise none |
| EngineState.StatusCounts | internal/engine/manager.go:263-284 | the listed pods are the healthy ones and the unhealthy ones with rooms, counted once each, in any enumeration order |
| EngineState.CandidateOrders | internal/engine/manager.go:186-216 | filtering in any enumeration order gathers exactly the open pods and exactly the lightly loaded ones |
| EngineState.ChooseSorted | internal/engine/manager.go:221-222 | sorting and indexing by the hash selects a pod that depends on the candidate set and the hash alone |
| EngineManagement.EngineNode.ReplaceConnection | internal/engine/manager.go:764-776 | address and connection replaced, pod healthy, nothing else changed, old connection returned |
| EngineManagement.EngineNode.MarkHealthy | internal/engine/manager.go:778-800 | heartbeat fields stored; a changed non-empty server id is reported and clears the failure count |
| EngineManagement.EngineInstance.constructor | internal/engine/manager.go:102-123 | an empty registry with the configured replicas and highest index replicas - 1 |
| EngineManagement.EngineInstance.ConnectAndRegisterPod | internal/engine/manager.go:672-708 | a failed dial changes nothing; otherwise pod object, ring entry (address and client) and failure count change together as specified, and a sound ring stays sound |
| EngineManagement.EngineInstance.AdoptDiscoveredPod | internal/engine/manager.go:450-457 | a discovered pod is connected and counted in the highest index, never in the replica count |
| EngineManagement.EngineInstance.UpdateMaxPodIndex | internal/engine/manager.go:470-477 | the highest known index becomes the maximum of itself and the pod's |
| EngineManagement.EngineInstance.DeleteNode | internal/engine/manager.go:557-574 | an unknown pod changes nothing; a known one leaves the registry, and the ring when it held a connection |
| EngineManagement.EngineInstance.RecordReconnectFailure | internal/engine/manager.go:519-540 | the counter goes up; the callback runs above one failure and before the deletion at two |
| EngineManagement.EngineInstance.CheckSingleNode | internal/engine/manager.go:577-605 | success iff the pod is known, connected and answered; health, status and callback change as specified |
| EngineManagement.EngineInstance.HighestHealthyIndex | internal/engine/manager.go:482-495 | the greatest non-negative index of a healthy pod, or -1 |
| EngineManagement.EngineInstance.ShrinkReplicaCountIfNeeded | internal/engine/manager.go:481-516 | the replica count drops to just above that index when it is larger, with the highest index, and otherwise stays |
| EngineManagement.EngineInstance.DropConnections | internal/engine/manager.go:304-315 | the ring loses exactly the pods that held a connection |
| EngineManagement.EngineInstance.Shutdown | internal/engine/manager.go:300-322 | no pod remains in the registry, and the ring has lost those that were connected |
| EngineManagement.EngineInstance.GetStatus | internal/engine/manager.go:255-297 | lists each healthy pod and each unhealthy pod with rooms once, with its snapshot, and counts both kinds |
| EngineManagement.EngineInstance.CheckAndTriggerReassign | internal/engine/manager.go:352-358 | the callback runs iff an unhealthy pod still holds rooms |
| EngineManagement.EngineInstance.PickPreferredNodeForRoom | internal/engine/manager.go:177-229 | the choice is the specified function of pod snapshots and room, whatever the enumeration order |
| EngineManagement.EngineInstance.GetNodeForRoom | internal/engine/manager.go:157-173 | preferred pod, else the hashed replica, else an error, exactly as specified |
| RoomManagement.RoomManager.ConnectSession | internal/handler/websocket.go:39-57 | a known user's session comes back online; otherwise a new session object is registered |
| RoomManagement.RoomManager.DisconnectSession | internal/handler/websocket.go:74-76 | the session goes offline and nothing else changes |
| RoomManagement.RoomManager.UnusedRoomID | internal/room/manager.go:100-106 | the id drawn belongs to no room |
| RoomManagement.RoomManager.CreateRoom | internal/room/manager.go:96-130 | a fresh room object under an unused id holds exactly the creator, not ready |
| RoomManagement.RoomManager.JoinRoom | internal/room/manager.go:133-172 | the four refusals in the source's order, otherwise the player is added not ready; no other object changes |
| RoomManagement.RoomManager.SendDestroyRoomRequestSync | internal/room/manager.go:312-346 | succeeds iff the node is known and one of three tries succeeds, and stops at the first that does |
| RoomManagement.RoomManager.DeleteRoom | internal/room/manager.go:211-244 | the room leaves the table whatever the engine answers; the engine is asked, up to three times, exactly when the room was not waiting and its node is known |
| RoomManagement.RoomManager.LeaveRoom | internal/room/manager.go:175-208 | player and flag removed, session freed; an empty room is deleted, a playing one finished |
| RoomManagement.RoomManager.CleanUpIfStillOffline | internal/room/manager.go:395-413 | an online or unknown user changes nothing; otherwise the user is forgotten and leaves its room |
| RoomManagement.RoomManager.ConvertTeam | internal/room/game.go:363-396 | the stored team is the longest prefix with numeric abilities; success iff that is the whole request |
| RoomManagement.RoomManager.CountReady | internal/room/game.go:401-406 | the number of players whose flag is up |
| RoomManagement.RoomManager.HandleSelectPokemon | internal/room/game.go:238-433 | each refusal in the source's order; a bad ability stores a prefix; a good choice raises the flag and may claim the start |
| RoomManagement.RoomManager.ClaimStart | internal/room/game.go:16-29 | one attempt with the room's sessions begins iff the room was waiting, which then plays |
| RoomManagement.RoomManager.StartGameForSession | internal/room/game.go:221-236 | without a live room nothing happens; otherwise its start is claimed |
| RoomManagement.RoomManager.AdvanceStart | internal/room/game.go:31-98 | node assignment, fallback when the assigned node is gone, three tries, success or return to waiting |
| RoomManagement.RoomManager.BuildBattleInit | internal/room/game.go:110-140 | an error below two sessions, else the request the specification describes, each side with the team of its own player and the room's hash as seed, whatever the iteration order |
| RoomManagement.RoomManager.BattleSideForPlayer | internal/room/game.go:142-171 | the specified side for every number of sessions, whatever the iteration order |
| RoomManagement.RoomManager.ForwardBattleAction | internal/room/game.go:255-297 | when each refusal is answered, in the source's order, and that an action is forwarded iff member, playing, object, side and node are all there; it goes to the room's node, with "a" written for the least player name and "b" otherwise whatever the client wrote; a literal null panics |
| RoomManagement.RoomManager.GatherPlayers | internal/room/manager.go:476-494 | the players are the non-empty union of the three parts of a snapshot |
| RoomManagement.RoomManager.CopySelectedPokemon | internal/room/manager.go:517-532 | the copy has the same members in the same order |
| RoomManagement.RoomManager.MakeSessions | internal/room/manager.go:496-508 | one fresh offline session per player, with the snapshot's room id and team |
| RoomManagement.RoomManager.CopyReady | internal/room/manager.go:505 | a flag for every player, up iff the snapshot says so |
| RoomManagement.RoomManager.RestoreRoomSnapshot | internal/room/manager.go:466-515 | room object, sessions and flags are exactly those the snapshot describes; each session is offline, in that room, with the team selected for its player or none |
| RoomManagement.RoomManager.RestoreWanted | internal/room/manager.go:74-84 | each wanted snapshot in turn is restored into new objects and nothing else happens; afterwards rooms and users are the old ones and those of wanted snapshots, each as its last snapshot says, down to its sessions' room and team, or untouched, with the number restored |
| RoomRestore.RunRestoresAll | internal/room/manager.go:74-84 | any such sequence of restorations leaves the rooms and users that the last snapshots describe |
| RoomStartup.RestoredTogetherExactly | internal/room/manager.go:74-84 | from any table in agreement, a start-up keeps the agreement iff no wanted snapshot replaces a room a session names and each deciding snapshot names one or two players |
| RoomStartup.FreshStartExactly | internal/room/manager.go:74-84 | from an empty table: iff every wanted snapshot names one or two players, or is replaced by a later one and names none |
| RoomStartup.DistinctRoomsExactly | internal/room/manager.go:74-84 | when no wanted snapshot is empty: iff each names at most two players and their room ids are pairwise distinct |
| RoomManagement.RoomManager.RestoreFromStore | internal/room/manager.go:64-93 | no store or no listing changes nothing; otherwise the wanted snapshots are restored in turn and a failover run is applied to the result |
| RoomRestore.LastSnapshotDecides | internal/room/manager.go:74-84 | of several wanted snapshots of one room the last listed decides |
| RoomRestore.LastNamingDecides | internal/room/manager.go:496-508 | of several wanted snapshots naming a user the last listed decides |
| RoomRestore.OnlyWantedUsers | internal/room/manager.go:75-80 | only users named by such snapshots are restored |
| RoomRestore.RestoreOneMore | internal/room/manager.go:466-515 | restoring one more snapshot replaces what its room and its users had and nothing else |
| RoomRestore.OnlyWantedRooms | internal/room/manager.go:75-80 | only snapshots with a room id and the requested node are restored, and a room's is the last of them |
| RoomRestore.CountWantedExactly | internal/room/manager.go:74-84 | the number restored is that of the snapshots with a room id and, if one is asked for, that node |
| RoomRestore.StatusCodes | internal/room/manager.go:469 | 0, 1 and 2 are waiting, playing and finished, other numbers are none of these |
| RoomManagement.RoomManager.PickHealthyNodeForRoom | internal/room/manager.go:712-736 | the hash's choice among the healthy pods other than the excluded one; none iff there is none |
| RoomManagement.RoomManager.CollectTargets | internal/room/manager.go:563-592 | the collected rooms are exactly the targeted ones, each once |
| RoomManagement.RoomManager.SaveAroundDestroy | internal/room/manager.go:668-698 | what the snapshot is after save, destroy and second save, for all their outcomes |
| RoomManagement.RoomManager.VisitTarget | internal/room/manager.go:602-705 | the exit taken is the one the specification decides; only a migration changes anything |
| RoomManagement.RoomManager.ReassignRunningRoomsFromUnavailableNodes | internal/room/manager.go:534-709 | the loop, in any order of rooms, has exactly the pointwise effect of the specification, and returns the two counts |
| Failover.FateUndisturbed | internal/room/manager.go:602-622 | visiting other rooms never changes what will be decided for a room |
| Failover.AfterOneMore | internal/room/manager.go:602-706 | one turn of the loop is one step of the pointwise description, whatever came before |
| Failover.RunIsSound | internal/room/manager.go:534-709 | a run changes node ids and snapshots only, and a node id only for a targeted playing room, to a healthy pod |
| Failover.FateIsSound | internal/room/manager.go:609-622 | a migration goes from a targeted playing room to a healthy pod other than its own, with a store and a snapshot at hand |
| Failover.RunKeepsOtherSnapshots | internal/room/manager.go:668-698 | snapshots of rooms that did not migrate are untouched |
| Failover.MigratedSnapshot | internal/room/manager.go:668-698 | after a migration the snapshot is gone iff the destroy erased it and the second save failed; else it is the relocated one, or the old one iff no save succeeded |
| Failover.RunAccounting | internal/room/manager.go:602-708 | moved plus skipped is the number of targets |
| Failover.StayedPutIsSkipped | internal/room/manager.go:610-661 | a targeted playing room keeps its node iff it was counted as skipped |
| Failover.RunMovesExactly | internal/room/manager.go:563-666 | a run changes a room's node iff the room plays and is displaced, another healthy pod exists, its snapshot loads and encodes, and that pod's engine created the room |
| Failover.RunMovesWhere | internal/room/manager.go:729-735 | the new pod is the healthy one other than the room's own that the hash of its name selects in ascending order |
| Failover.RunSkipsExactly | internal/room/manager.go:609-661 | when a room is counted as skipped, in the outcomes of the calls |
| Failover.RunCountsExactly | internal/room/manager.go:700-705 | when a room is counted as moved, in the outcomes of the calls |
| Failover.TargetedExactly | internal/room/manager.go:563-592 | a room is a target iff an engine and a healthy pod exist and its pod is not healthy or its readable snapshot names another server |
| Failover.InactiveRun | internal/room/manager.go:535-561 | without an engine or a healthy pod a run does nothing and counts nothing |
| Failover.MigratedRetargeted | internal/room/manager.go:570-590 | exactly when the next run targets a migrated room again |
| Failover.UnmovedRetargeted | internal/room/manager.go:570-590 | a room that did not migrate is targeted next time iff it was targeted this time |
| Failover.SecondRunIsStable | internal/room/manager.go:570-590 | with one save per migrated room the next run's playing targets are exactly the playing rooms skipped, whichever snapshots late destroys erase |
| FailoverChains.TargetsOnlyShrink | internal/room/manager.go:570-590 | over any number of runs with an unchanged engine and one save per migration, a later run's playing targets are among those of each earlier run, and among those it skipped |
| FailoverChains.MigratedStaysSettled | internal/room/manager.go:664-698 | a room migrated with a save stays on a healthy pod with no snapshot of another server through all later runs and late destroys |
| FailoverChains.HealthyOrSkipped | internal/room/manager.go:570-661 | after an active run every playing room is on a healthy pod or was counted as skipped |
| Failover.RestoreCommutesWithMigration | internal/room/manager.go:670-679 | restoring the snapshot a migration wrote gives the same players, flags and teams as the loaded one, with only node and status changed |
| Failover.RestoreCommutesWithRun | internal/room/manager.go:466-700 | restoring what a whole run left in the store equals restoring the store before it, up to the migrated room's node and status |
| Failover.RestoredPlayers | internal/room/manager.go:476-494 | the restored players are exactly the non-empty names in any of the snapshot's three parts |
| RoomPlacement.JoinedStaysPlaced | internal/room/manager.go:133-172 | joining keeps sessions, rooms and flags in agreement |
| RoomPlacement.LeftStaysPlaced | internal/room/manager.go:175-208 | leaving the room one is in keeps them in agreement, deletion included |
| RoomPlacement.CleanedStaysPlaced | internal/room/manager.go:395-413 | forgetting an offline user keeps them in agreement |
| RoomPlacement.RestoredPlacedExactly | internal/room/manager.go:466-515 | restoring keeps them in agreement iff the snapshot has one or two players and replaces no room a session names |
| RoomPlacement.EmptySnapshotMisplaces | internal/room/manager.go:466-515 | a snapshot naming nobody restores a room without players |
| RoomEvents.EventKeepsPlaced | internal/room/manager.go:96-208 | every event keeps the agreement of sessions, rooms and flags |
| RoomEvents.EventKeepsLifecycle | internal/room/game.go:15-108 | every event keeps statuses, unresolved starts and accepted battles consistent |
| RoomEvents.EventThins | internal/room/manager.go:151-203 | every event: a room not waiting gains no player, and while live and playing it loses none |
| RoomRuns.EventKeepsBattles | internal/room/game.go:23-44 | every event keeps the roster of a start or battle equal to the players of the playing room |
| RoomRuns.ReachableStatesAreSound | internal/room/manager.go:96-208 | every state of every run satisfies the whole invariant |
| RoomRuns.RoomTableInvariant | internal/room/manager.go:96-208 | in every reachable state flags match players, a room holds one or two sessions under its own id, and a session's room is live and holds that very object |
| RoomRuns.SingleFlightStart | internal/room/game.go:15-108 | at most one unresolved start per room, implying playing or finished; playing with none unresolved means accepted within three tries or restored |
| RoomRuns.AutoStartExactness | internal/room/game.go:399-408 | in every reachable state the counting test holds iff there are two members and each is ready |
| RoomRuns.PlayersFixedWhilePlaying | internal/room/manager.go:151-155 | from one moment of uninterrupted play to another the sessions are the same |
| RoomState.SideOfMeaning | internal/room/game.go:150-170 | side A is the least name, side B the least of the others |
| RoomRuns.BuildInitFits | internal/room/game.go:115-131 | the request names the first two players in name order as sides A and B, each with its own team, and carries the room's hash |
| RoomRuns.SidesAgree | internal/room/game.go:110-171 | throughout uninterrupted play the side written is "a" (or "b") for exactly the player the engine was given as side A (or B) |
| RoomRuns.LaunchedFits | internal/room/game.go:36-48 | at the moment of the assignment the request fits the claimed players, each side with the team its player has then |
| RoomRuns.PlayersOnlyLeave | internal/room/manager.go:151-203 | while a room is not waiting its players only become fewer |
| RoomRuns.FinishedStaysFinished | internal/room/game.go:17-28 | a finished room with no unresolved start stays so in every continuation |
| RoomRuns.FinishedReopensExactly | internal/room/game.go:101-105 | a finished room changes status iff the event is its own unresolved start giving up |
| RoomWitnesses.FinishedCanReopen | internal/room/game.go:41-45 | a concrete run of seven events in which a finished room waits again |
| RoomWitnesses.MigratedCanBeRetargeted | internal/room/manager.go:680-698 | a concrete run of ten events, over a registry reached by a run of five, in which both saves fail and the next run targets the moved room again |
| RoomWitnesses.TwoPodsReached | internal/engine/manager.go:577-605 | the run of the registry that leads to that cluster |
| RoomWitnesses.ForwardingCanMissAcceptor | internal/room/game.go:55-65 | a concrete run of eight events after which a playing room names another node than the one that accepted it |
| RoomState.NextMove | internal/room/game.go:31-98 | a start never changes its battle or target once assigned nor the node it calls once found, and counts its failed tries |
| RoomForwarding.QuietEventKeepsNode | internal/room/game.go:46-48 | apart from node assignments and failovers no event writes a room's node |
| RoomForwarding.RoomsFollowTrails | internal/room/game.go:46-65 | in every run the node of a starting or accepted room is the assigned target or where the last failover moved it |
| RoomForwarding.ForwardingReachesAcceptor | internal/room/game.go:255-297 | in every reachable state actions go to the engine that accepted the battle iff, unmoved, the start found its target or fell back to the same one, or the last failover moved the room there; and to an engine that created the room (that one or the last failover's) iff a failover moved it, or the target was found, or the fallback was the same |
| RoomLaws.LeaveUndoesJoin | internal/room/manager.go:163-203 | a successful join followed by a leave restores the room and every other object |
| RoomLaws.MatchPairsPlayers | internal/room/match.go:16-17 | two different queued users end up, not ready, in one new waiting room |
| RoomLaws.MatchRefusesSelf | internal/room/match.go:16-17 | a user queued twice is left alone in the new room |
| RoomLaws.SecondChoiceStarts | internal/room/game.go:399-431 | an accepted choice starts a battle iff another member was already ready |
| RoomLaws.StartResolvesInFiveSteps | internal/room/game.go:31-98 | in every run a start takes at most five steps and is then resolved |
| RoomLaws.ResolvedStaysResolved | internal/room/game.go:16-29 | a resolved start never becomes unresolved again |
| RoomFields.JoinAnswers | internal/room/manager.go:133-161 | which refusal a join gets, in the source's order, with the limit of two players |
| RoomFields.SelectAnswers | internal/room/game.go:238-370 | which answer a choice gets, in the source's order, with the limit of six |
| RoomFields.StoredTeamExactly | internal/room/game.go:363-396 | the stored team is the longest beginning of the request with numeric abilities, member by member |
| RoomFields.SessionsWritten | internal/room/manager.go:119-204 | every event: a session names the room it made or joined last until it leaves, is online from its user's connection to the next disconnection, and holds the team of its last choice |
| RoomFields.RoomsWritten | internal/room/manager.go:119-204 | every event: players join and leave, flags go down on joining and up on a good choice, and the status is playing after a claim, finished when one of two leaves play, waiting after an aborted start |
| RoomFields.FailsExactly | internal/room/game.go:31-97 | a start is aborted exactly by too few players, no node at the assignment or at the fallback, or the third failing call |
| RoomFields.BeginningsWritten | internal/room/manager.go:108-124 | what a new user's session and a new room begin with |
| RoomFields.TableWritten | internal/room/manager.go:395-413 | every event: a room is in the table from creation or restoration until its last player leaves, a user from a first connection or restoration until forgotten while offline |
| RoomFields.ClaimsBegin | internal/room/game.go:16-29 | a claim begins an attempt with the players of the room |
| RoomFields.AcceptanceWritten | internal/room/game.go:72-82 | a battle is accepted iff the engine called creates the room, with the start's request, players, target, node and number of the call |
| RoomFields.AssignmentWritten | internal/room/game.go:36-49 | an assignment writes the offered node into room and start, with a request that fits and equips the claimed players |

## Left out

- Transport: gRPC, WebSocket, HTTP and Redis calls, timeouts, sleeps, back-off, logging, broadcasts and replies to clients; their outcomes are arguments.
- The snapshot's update time, which is written and never read by the code modelled.
- CRC32 itself; a library function, modelled as any function to 32-bit values. Go's `int` is taken as wide enough for a 32-bit hash, as on 64-bit platforms.
- CPU usage is a real number, so a NaN report is not modelled. Failure counters and pod indices do not wrap.
- Conversion of an ability number to an integer, and JSON text: requests and actions arrive parsed. What a panic on a literal `null` action does to the connection is not modelled.
- A pod's connection and its client are one field, since they are always set and cleared together or replaced together (`closeConn` and `replaceConnection`).
- The registration loop at internal/rpc/client.go:76-90 repeats the rebuild at internal/rpc/client.go:122-134 word for word; both are modelled by the one `RebuildRing`.
- Lock-level interleavings: commands are atomic. A deletion between the three locks of `connectAndRegisterPod`, and a join or select between its check and its update, are not modelled. The start is split into its steps.
- The reconnect flag, the reconnect loop, `ensureConnected`, the heartbeat loop and the discovery loop are represented by arbitrary sequences of the steps they perform.
- `DestroyAllRooms` (shutdown only) leaves session room ids dangling by design; runs end before it.
- The registry does not change during a failover run: `NodeCleanup` composes the two on the registry as the callback sees it.
- `HandleBattleAction` and the router only look up the room before `ForwardBattleAction`; the engine's reply to an action is not modelled.
- RoomManagement.RoomManager.CopySelectedPokemon: equality by value; teams are values here, so that the copy shares no memory with the snapshot is not stated.
- EngineManagement.EngineNode.ReplaceConnection: the error text and the heartbeat time, which only status reports read, are not modelled.
- EngineManagement.EngineNode.MarkHealthy: the error text, the heartbeat time and the memory figure, which only status reports read, are not modelled.
- EngineManagement.EngineInstance.GetStatus: the configuration texts it copies (namespace, service names) are not modelled.
- A session's connection is only "online or not": the exit of an old connection that a newer one has replaced changes nothing in the source and is not an event here.
- Snapshots written by the engine and by other servers appear as an event that may replace the store by anything.
- EngineManagement.EngineInstance.TriggerReassignRooms: only records which pods were registered when the callback ran, because the callback belongs to the room manager.
