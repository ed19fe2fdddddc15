# Verified model of the Couchbase Rust SDK core

This project models the client-side concurrency, routing and arithmetic core of the Couchbase Rust SDK and
proves what that core is for. Concurrent components are state machines: every critical section, atomic
load or store, server call and task completion is one step, and a run is any sequence of such steps by any
number of clients, handlers or callers. A step that is not enabled changes nothing, so "for every event
sequence" is "for every interleaving". Theorems about runs hold in every reachable state.

Where the code updates things in place the model has a class whose methods are the critical sections and
loops of the code. Those of `SetProtocol`, `QueueProtocol`, `CollectionCache`, `AgentManager`,
`ConfigArbitration` and `OrphanReporter` are proved to be steps of the state machine, so that the theorems
about runs are about them; the others are proved against a specification function with theorems of its own.

| module | component |
|---|---|
| `QueueProtocol`, `SetProtocol` | queue and set documents shared by clients that use optimistic CAS loops |
| `EndpointPools`, `Reconfiguration` | connection pools per endpoint, and the make-before-break switch to a new config |
| `Routing`, `ClusterConfig` | from a terse cluster config to endpoint tables, and from a key to an endpoint |
| `ConfigArbitration`, `ConfigApplication`, `ConfigWatcher` | which config wins, which one the agent ends up with, and who is polled when |
| `CollectionCache`, `AgentManager`, `ClientPool` | single-flight maps with a lock-free view, and the round-robin client list |
| `OrphanReporter` | the bounded sample of slowest late responses |
| `MutationState`, `ConnStr`, `Decimal` | token state, connection strings, and their printed forms |
| `Retry`, `Backoff` | the retry loop and its waiting times |
| `SharedDocument`, `Machine`, `Common` | the server document, runs of a state machine, and types and limits that several modules use |
| `Arithmetic`, `Wrappers` | division facts, `Option` and `Result` |

## What the code does not do

Some properties one might expect are false of the code. Lemmas show where they fail and exactly when they hold.

- A failed agent creation leaves its notification entry behind: from then on the bucket has no agent, no
  second creation starts and waiters are not woken. A bucket can be served exactly as long as that has not
  happened (`AgentManager.CreationCanFail`, `AgentManager.ReachableServableIffNotFailed`).
- The version channel can be left behind the stored config when two handlers overlap
  (`ConfigArbitration.OverlapLeavesOldVersion`), exactly when a handler has an old version yet to send
  (`ConfigArbitration.MayEndOldIffOldVersionOutstanding`).
- The agent can be left on an older config than the stored one when applications overlap, exactly as
  `ConfigApplication.MayBeLeftBehindIff` says, and delivering the stored config again does not repair it
  (`ConfigApplication.NoRedeliveryRepairs`).
- Invalidating a collection whose lookup is in flight makes an `expect` fail, which poisons the lock for
  everybody, or leaves an answer in the fast cache that the slow map does not have
  (`CollectionCache.UndisciplinedRunPanics`, `CollectionCache.UndisciplinedRunLeavesStaleAnswer`); an
  invalidation can lead to a panic exactly when the key is in flight
  (`CollectionCache.InvalidationSafeIffNotInFlight`) and to a stale answer exactly when moreover its owner is
  not about to fill in id 0 (`CollectionCache.StaleLoomsIffOwnerCanLeaveStale`).
- Collections in different scopes share a cache entry exactly when a dotted scope name overlaps the other
  collection's name (`CollectionCache.KeysCollideIff`).
- A collection lookup whose task cannot be joined leaves its entry pending: without an invalidation nobody is
  answered for that key any more (`CollectionCache.PendingAnswerableIffInFlight`).
- The switch to a config without an endpoint takes its pool away from an operation that has chosen the endpoint
  and not yet looked up the pool (`Reconfiguration.MayLoseIffNotInNewConfig`), and a data node without a
  key-value port is routed to but has no pool (`Reconfiguration.ReachableIffRoutable`).
- Waiting times fall back to the minimum when the attempt number reaches 2^31
  (`Backoff.NonDecreasingIffNotWrapped`), and a minimum above 2^64 - 1 milliseconds makes the first wait the
  maximum (`Backoff.FirstWaitIsMinimumIff`). A minimum below one millisecond makes every wait a division by zero
  (`Backoff.PanicsIffMinBelowOneMilli`).
- A single orphan report can list more durations than it counts, exactly if the sample size is at least 2
  (`OrphanReporter.OverlistsIffRoomForTwo`); over all reports it cannot (`OrphanReporter.ListedAtMostHandled`).
- Round robin is fair from every counter value exactly if the list length divides 2^64
  (`ClientPool.FairIffLengthDividesRange`).
- An option with an empty value list is lost when a connection string is printed
  (`ConnStr.RoundTripIffEveryOptionHasAValue`), and a scheme separator in an option value moves the end of the
  scheme (`ConnStr.SchemeKeptIffNoSeparatorFollows`).
- The replica index is compared with the number of servers by `>`, so one index too many passes that test
  (`Routing.ErrorsExactly`, `Routing.OneIndexTooManyPasses`). A comment in `parsedconfig.rs` says the management
  port is never missing; the code unwraps it, and the model keeps the panic (`ClusterConfig.AddressesGroup`).

## Model

| member | source | states |
|---|---|---|
| `QueueProtocol.QueueLinearizable` | sdk/couchbase/src/collection_ds.rs:384-451 | In every run of any number of clients the operations, in the order in which they took effect, are a run of a sequential FIFO queue whose content is what `iter` yields for the document: a pop takes the head, and a pop answered not found finds the queue empty. |
| `QueueProtocol.FifoUnderInterleaving` | sdk/couchbase/src/collection_ds.rs:384-436 | Without clears the values popped so far followed by the remaining queue are the values pushed in commit order. |
| `QueueProtocol.FifoLaw` | sdk/couchbase/src/collection_ds.rs:384-436 | The same law for every log of the sequential queue. |
| `QueueProtocol.PopRemovesWhatItReturns` | sdk/couchbase/src/collection_ds.rs:406-436 | A pop call takes effect at most once and its answer says how: it removed the value it returned, it found the queue empty if it answered not found, and it did nothing if it failed or gave up. |
| `QueueProtocol.GivingUpMeansContention` | sdk/couchbase/src/collection_ds.rs:406-436 | A pop that gives up after 16 conflicts was overtaken by at least 16 committed mutations of others. |
| `QueueProtocol.PopAnswers` | sdk/couchbase/src/collection_ds.rs:406-436 | In every run a pop that ends with an error found no document or no element, gave up after its rounds, or lost a server call: a CAS conflict never ends it. |
| `QueueProtocol.ConflictIsRetried` | sdk/couchbase/src/collection_ds.rs:423-429 | A removal that meets another CAS leads to the next round, and after the sixteenth to giving up, and leaves the document alone. |
| `QueueProtocol.GivesUpAfterSixteenRounds` | sdk/couchbase/src/collection_ds.rs:406-436 | Under contention there is a run of n rounds for every n up to 16 after which the pop is in round n, or has given up if n is 16. |
| `QueueProtocol.UndisturbedPop` | sdk/couchbase/src/collection_ds.rs:406-436 | A pop that nobody disturbs takes the head of the queue; without a document it answers DocumentNotFound and on an empty array PathNotFound. |
| `QueueProtocol.NothingLeftEndsCall` | sdk/couchbase/src/collection_ds.rs:415-432 | A removal that meets no document or an empty array ends the call with the corresponding error, not with another round. |
| `QueueProtocol.LostCallEndsCall` | sdk/couchbase/src/collection_ds.rs:408-430 | Any other error of a server call ends the pop with that error and touches nothing else. |
| `QueueProtocol.MatchingCasTakesHead` | sdk/couchbase/src/collection_ds.rs:415-423 | A remove whose CAS matches takes the value seen by its lookup, which is the head of the queue. |
| `QueueProtocol.StepInv` | sdk/couchbase/src/collection_ds.rs:384-451 | Every atomic step keeps the invariant tying document, log and pending calls. |
| `QueueProtocol.PushInv` | sdk/couchbase/src/collection_ds.rs:394-404 | A push keeps the invariant and appends at the tail of the abstract queue. |
| `QueueProtocol.RemoveInv` | sdk/couchbase/src/collection_ds.rs:415-432 | A removal, whether it commits or is refused, keeps the invariant. |
| `QueueProtocol.LookupInv` | sdk/couchbase/src/collection_ds.rs:408-413 | A lookup keeps the invariant; one that finds nothing has found the queue empty. |
| `QueueProtocol.ClearInv` | sdk/couchbase/src/collection_ds.rs:447-450 | Deleting the document keeps the invariant, whatever calls are pending. |
| `QueueProtocol.PushAndClear` | sdk/couchbase/src/collection_ds.rs:394-404 | A push always takes effect, at the tail of the queue, also without a document; after a clear there is no document. |
| `QueueProtocol.Server.Pop` | sdk/couchbase/src/collection_ds.rs:406-436 | The bounded retry loop, with arbitrary foreign steps and perhaps a lost call before each server call, is a run of the state machine, keeps the invariant, has done exactly what it answers, never answers a CAS conflict, and returns the head of the queue if its first round is undisturbed. |
| `QueueProtocol.Server.Attempt` | sdk/couchbase/src/collection_ds.rs:408-432 | One round ends the call, also by any other error of its two server calls, or on a CAS conflict leads to the next round; an undisturbed round takes the head. |
| `QueueProtocol.Server.Rounds` | sdk/couchbase/src/collection_ds.rs:406-436 | At most 16 rounds; the call ends with the first round that is not a CAS conflict, or gives up. |
| `QueueProtocol.Server.LookupLastItem` | sdk/couchbase/src/collection_ds.rs:408-413 | The lookup of the last element with the CAS is the lookup step. |
| `QueueProtocol.Server.RemoveLastItem` | sdk/couchbase/src/collection_ds.rs:415-432 | The CAS-guarded removal is the removal step. |
| `SetProtocol.RefinesMathematicalSet` | sdk/couchbase/src/collection_ds.rs:270-375 | In every run the array stays duplicate-free and every answer so far is the one a mathematical set gives in commit order: insert is false exactly when the value is present, contains is membership, remove erases, and whoever is answered that there is no document finds the set empty. |
| `SetProtocol.RemoveTakesEffectIffOk` | sdk/couchbase/src/collection_ds.rs:298-337 | A remove call takes effect at most once and its answer says how: it erased its value if it answered Ok, it found the set empty if there was no document, and it did nothing otherwise; giving up means 16 foreign mutations. |
| `SetProtocol.RemoveAnswers` | sdk/couchbase/src/collection_ds.rs:298-337 | In every run a remove that ends with an error found no document, gave up after its rounds, or lost a server call: neither a CAS conflict nor a missing index ends it. |
| `SetProtocol.ConflictIsRetried` | sdk/couchbase/src/collection_ds.rs:323-329 | A removal that meets another CAS leads to the next round, and after the sixteenth to giving up, and leaves the document alone. |
| `SetProtocol.UndisturbedRemove` | sdk/couchbase/src/collection_ds.rs:298-337 | A remove that nobody disturbs erases its value and answers Ok, whether it was there or not; without a document it answers DocumentNotFound. |
| `SetProtocol.NoDocumentEndsCall` | sdk/couchbase/src/collection_ds.rs:314-332 | A removal that meets no document ends the call with that error. |
| `SetProtocol.LostCallEndsCall` | sdk/couchbase/src/collection_ds.rs:303-330 | Any other error of a server call ends the remove with that error and touches nothing else. |
| `SetProtocol.CommittedRemoveErases` | sdk/couchbase/src/collection_ds.rs:298-337 | At the commit point of a successful remove the value is absent. |
| `SetProtocol.MatchingCasRemovesValue` | sdk/couchbase/src/collection_ds.rs:315-332 | A removal by index whose CAS matches deletes the value searched for and no other, and keeps the array duplicate-free. |
| `SetProtocol.RemovalErasesIffUnique` | sdk/couchbase/src/collection_ds.rs:308-323 | Removing one index erases the value exactly when it occurred once. |
| `SetProtocol.RunInv` | sdk/couchbase/src/collection_ds.rs:270-375 | Every run keeps the invariant tying document, history and pending calls. |
| `SetProtocol.StepInv` | sdk/couchbase/src/collection_ds.rs:270-375 | Every atomic step keeps that invariant. |
| `SetProtocol.DocumentStep` | sdk/couchbase/src/collection_ds.rs:278-375 | insert, contains and clear keep the invariant. |
| `SetProtocol.OperationsAct` | sdk/couchbase/src/collection_ds.rs:278-375 | insert adds its value and says whether it was new, contains changes nothing and answers membership, clear leaves no document; each leaves its record. |
| `SetProtocol.LastIndex` | sdk/couchbase/src/collection_ds.rs:308-313 | The position found is the last one of the value; none is found exactly when the value is absent. |
| `SetProtocol.FindIndexToRemove` | sdk/couchbase/src/collection_ds.rs:308-313 | The search loop without a break finds the last position. |
| `SetProtocol.Server.Look` | sdk/couchbase/src/collection_ds.rs:303-314 | Reading and searching, after arbitrary foreign steps, is the read step of the state machine; a lost call ends with its error. |
| `SetProtocol.Server.Attempt` | sdk/couchbase/src/collection_ds.rs:303-332 | One round ends the call or, on a CAS conflict, leads to the next round; an undisturbed round on a present document answers Ok. |
| `SetProtocol.Server.TryRemove` | sdk/couchbase/src/collection_ds.rs:314-332 | The CAS-guarded removal, after arbitrary foreign steps, ends the call or leads to the next round; a lost call ends with its error. |
| `SetProtocol.Server.Remove` | sdk/couchbase/src/collection_ds.rs:298-337 | The whole retry loop, lost calls included, is a run of the state machine; it has done exactly what it answers, and the document still refines the set. |
| `EndpointPools.UpdateConserves` | sdk/couchbase-core/src/kvendpointclientmanager.rs:186-261 | An update in either mode keeps the balance: every pool ever created is mapped or closed, never both, closed at most once and mapped at most once. |
| `EndpointPools.After` | sdk/couchbase-core/src/kvendpointclientmanager.rs:186-261 | The balance holds after every sequence of updates. |
| `EndpointPools.RequestedEndpointsServed` | sdk/couchbase-core/src/kvendpointclientmanager.rs:204-232 | A kept endpoint keeps its pool and gets the new target; a new endpoint gets a new pool; both are published. |
| `EndpointPools.TwoPhaseEqualsOne` | sdk/couchbase-core/src/kvendpointclientmanager.rs:234-248 | Add-only and then full with the same targets is one full update; the second call creates nothing. |
| `EndpointPools.NamesDoNotMatter` | sdk/couchbase-core/src/kvendpointclientmanager.rs:210-229 | Two choices of new pool names give maps that differ by an injective renaming that fixes existing pools. |
| `EndpointPools.FreshNames` | sdk/couchbase-core/src/kvendpointclientmanager.rs:210-229 | There are always names for the new pools, so an update can always be made. |
| `EndpointPools.EndpointClientManager.UpdateEndpoints` | sdk/couchbase-core/src/kvendpointclientmanager.rs:186-261 | The drain-and-rebuild loops realize the update, with new names, and keep the balance. |
| `EndpointPools.EndpointClientManager.AssignPools` | sdk/couchbase-core/src/kvendpointclientmanager.rs:204-232 | The locked map is drained, the loop over requested endpoints, in any order, takes and retargets old pools and creates the missing ones, and what is left over is returned. |
| `EndpointPools.EndpointClientManager.CloseAll` | sdk/couchbase-core/src/kvendpointclientmanager.rs:241-248 | Each leftover pool is closed once, in any order. |
| `Reconfiguration.MakeBeforeBreak` | sdk/couchbase-core/src/agent.rs:221-257 | At every step of every run of reconfigurations in which each server list has targets throughout, whatever endpoint a dispatch answers has an open pool in the published map. |
| `Reconfiguration.MakeBeforeBreakForClusters` | sdk/couchbase-core/src/agent.rs:221-257 | The same for runs of cluster configs each data node of which has a key-value port on the network and in the mode in use. |
| `Reconfiguration.DispatchedTargetsReachable` | sdk/couchbase-core/src/agent.rs:221-257 | The same for any configs: whatever endpoint a dispatch answers, if the config in force has a target for it then it has an open pool in the published map. |
| `Reconfiguration.ReachableIffRoutable` | sdk/couchbase-core/src/agent.rs:221-257 | Once a config is fully applied its server list is reachable exactly if every entry has a target. |
| `Reconfiguration.SwitchCanComplete` | sdk/couchbase-core/src/agent.rs:221-257 | Whatever step a switch is at, it can go on and end with its config fully applied. |
| `Reconfiguration.BeginsSwitch` | sdk/couchbase-core/src/agent.rs:208-221 | A switch begins only when none is under way, since updates hold the lock throughout, and touches neither pools nor routing table yet. |
| `Reconfiguration.WatcherFollows` | sdk/couchbase-core/src/agent.rs:243-248 | In every run, except while it is being told, the poller has the endpoints of the config in force. |
| `Reconfiguration.LateLookupStillFindsPool` | sdk/couchbase-core/src/agent.rs:226-231 | Between an operation's look at the routing table and at the pool map its endpoint keeps the same open pool, as long as no config without that endpoint is in its removal phase meanwhile. |
| `Reconfiguration.MayLoseIffNotInNewConfig` | sdk/couchbase-core/src/agent.rs:226-250 | The switch under way can take away the pool of a reachable endpoint if and only if its config does not have the endpoint, whatever step it is at. |
| `Reconfiguration.RemovalLoses` | sdk/couchbase-core/src/kvendpointclientmanager.rs:241-258 | In the removal phase of a config without the endpoint, the remaining closes and the publication end with the pool gone. |
| `Reconfiguration.StepInv` | sdk/couchbase-core/src/agent.rs:221-257 | Every atomic step of the switch keeps the invariant. |
| `Reconfiguration.CloseInv` | sdk/couchbase-core/src/kvendpointclientmanager.rs:241-248 | Closing a leftover pool takes nothing away from the endpoints that the current routing table names. |
| `Reconfiguration.PublishInv` | sdk/couchbase-core/src/kvendpointclientmanager.rs:250-258 | Publishing the new map, in either phase, keeps the invariant. |
| `Reconfiguration.StartInv` | sdk/couchbase-core/src/agent.rs:431-479 | The initial wiring establishes the invariant, for any config. |
| `Reconfiguration.StepsAreUpdate` | sdk/couchbase-core/src/kvendpointclientmanager.rs:186-261 | The steps of one update, with pools closed in any order, add up to the manager's update. |
| `Reconfiguration.RouterFirstWouldBreak` | sdk/couchbase-core/src/agent.rs:226-231 | In the protocol with the swap first, for any two configs and any key routed to a new endpoint, a dispatch after the first step answers an endpoint that has no pool. |
| `Reconfiguration.RouterFirstSafeIffNothingNew` | sdk/couchbase-core/src/agent.rs:226-231 | In that order the first step serves the new config exactly if it has no new endpoint. |
| `Reconfiguration.Agent.constructor` | sdk/couchbase-core/src/agent.rs:431-479 | A new agent has an open pool for every target; its server list is reachable exactly if every entry has a target. |
| `Reconfiguration.Agent.UpdateState` | sdk/couchbase-core/src/agent.rs:221-257 | The whole switch, for any config, leaves the pools of one full update, the new routing table and watcher list, and every target reachable; the server list is reachable exactly if every entry has a target. |
| `Reconfiguration.Agent.AddAndSwap` | sdk/couchbase-core/src/agent.rs:233-248 | After the add-only update and the swap of the routing table the endpoints of the old and of the new config are both served. |
| `Reconfiguration.Agent.ApplyConfig` | sdk/couchbase-core/src/agent.rs:208-219 | The config is overwritten without a comparison and the tables generated from it are in force and served; a missing management port panics and leaves everything else as it was. |
| `Routing.VbucketInRange` | sdk/couchbase-core/src/vbucketmap.rs:58-62 | The vbucket of a key is a row of the map; the remainder fails exactly when the row count is a multiple of 65536. |
| `Routing.VbucketOfBits` | sdk/couchbase-core/src/vbucketmap.rs:58-62 | For a checksum made of a top bit, fifteen middle bits and sixteen low bits, the vbucket is the middle bits modulo the row count, cast to 16 bits. |
| `Routing.ChosenRow` | sdk/couchbase-core/src/vbucketmap.rs:58-62 | A row is the vbucket of a key exactly if the middle bits of its checksum choose it. |
| `Routing.DispatchExactly` | sdk/couchbase-core/src/vbucketrouter.rs:72-91 | A dispatch answers (endpoint, vb) exactly when the middle bits of the checksum choose row vb, the row names for the copy a server that the server list has, and the copy is within the number of servers; InvalidVbucket never arises. |
| `Routing.ErrorsExactly` | sdk/couchbase-core/src/vbucketmap.rs:64-87 | Each error arises exactly when: no bucket, no map, a row count that is a multiple of 65536, a replica index above the number of servers. |
| `Routing.NoServerIff` | sdk/couchbase-core/src/vbucketmap.rs:66-90 | A row without an entry for the copy says that no server is assigned, like an entry of -1. |
| `Routing.RefusedIff` | sdk/couchbase-core/src/vbucketmap.rs:66-90 | The map refuses first an index beyond the number of servers and then a vbucket that it has no row for, and nothing else. |
| `Routing.OneIndexTooManyPasses` | sdk/couchbase-core/src/vbucketmap.rs:65-66 | An index equal to the number of servers passes the test, and a row that is too long is then dispatched to. |
| `ClusterConfig.EndToEndRouting` | sdk/couchbase-core/src/componentconfigs.rs:64-160 | For every terse config that parses and has management ports, a key is dispatched exactly when its map entry is the index of a data node, to the id of that nodesExt entry, on every network and in either mode. |
| `ClusterConfig.TargetOfTerse` | sdk/couchbase-core/src/componentconfigs.rs:86-145 | In terms of the terse config: an endpoint connects to the host and key-value port that its entry shows on the network, the TLS port if and only if TLS is in use, and has no target without that port. |
| `ClusterConfig.EndpointSpelled` | sdk/couchbase-core/src/parsedconfig.rs:159-166 | An endpoint is spelled from the own host name of its entry, in brackets if it holds a colon, and its management port. |
| `ClusterConfig.ServersCounted` | sdk/couchbase-core/src/configparser.rs:37-54 | There are as many servers as legacy nodes, if there are that many entries. |
| `ClusterConfig.MgmtPortsOfTerse` | sdk/couchbase-core/src/parsedconfig.rs:159-166 | No management port is missing exactly if every entry lists services with one. |
| `ClusterConfig.WatcherOfTerse` | sdk/couchbase-core/src/componentconfigs.rs:74-82 | The poller is given the endpoints of all entries in order. |
| `ClusterConfig.ParsedFields` | sdk/couchbase-core/src/configparser.rs:33-116 | Parsing fails exactly for a vbucket bucket with an empty map; revision, epoch, bucket name and bucket type are those of the terse config. |
| `ClusterConfig.RoutingIsNetworkIndependent` | sdk/couchbase-core/src/parsedconfig.rs:156-198 | The routing table does not depend on the network type or on TLS. |
| `ClusterConfig.RoutableIffDataNodesHaveKvPorts` | sdk/couchbase-core/src/componentconfigs.rs:74-145 | Every endpoint of the server list has a target exactly when every data node's endpoint is that of some entry with a key-value port in the mode in use. |
| `ClusterConfig.RoutableIffEachDataNodeHasKvPort` | sdk/couchbase-core/src/componentconfigs.rs:74-145 | For nodes that differ in host name or management port: exactly when each data node has a key-value port itself. |
| `ClusterConfig.ServerListOfTerse` | sdk/couchbase-core/src/configparser.rs:33-64 | The server list is the ids of the first nodesExt entries, as many as there are legacy nodes. |
| `ClusterConfig.EndpointIdentifiesNode` | sdk/couchbase-core/src/parsedconfig.rs:159-166 | Endpoint ids determine host name and management port. |
| `ClusterConfig.TargetsHaveKeys` | sdk/couchbase-core/src/componentconfigs.rs:86-145 | The endpoints with a target are exactly those of the nodes with a key-value port in the mode in use. |
| `ClusterConfig.TargetsExactly` | sdk/couchbase-core/src/componentconfigs.rs:86-145 | The target of an endpoint has the host and port of the last node with that endpoint that has a key-value port in the mode in use. |
| `ClusterConfig.ParseTerseConfig` | sdk/couchbase-core/src/configparser.rs:33-116 | The nested loops compute the parsed config, or the error of an empty vbucket map. |
| `ClusterConfig.AddressesGroup` | sdk/couchbase-core/src/parsedconfig.rs:156-198 | The loop computes the nodes of a network; it panics exactly when a management port is missing. |
| `ClusterConfig.GenFromConfig` | sdk/couchbase-core/src/componentconfigs.rs:56-160 | The tables are generated exactly when no management port is missing. |
| `ClusterConfig.FillTables` | sdk/couchbase-core/src/componentconfigs.rs:74-145 | One loop fills the watcher list, the server list and the target map. |
| `ConfigArbitration.StoredIsFirstMaximum` | sdk/couchbase-core/src/configmanager.rs:188-209 | With unchanged bucket presence and type the stored config is, in every interleaving, the first delivered one with the greatest version, and accepted versions rise strictly. |
| `ConfigArbitration.ChannelNeverAhead` | sdk/couchbase-core/src/configmanager.rs:194-203 | The version on the channel is never ahead of the stored one, although sends may overtake each other or fail. |
| `ConfigArbitration.MayEndOldIffOldVersionOutstanding` | sdk/couchbase-core/src/configmanager.rs:194-203 | In every reachable state, some order of the outstanding sends leaves an old version on the channel if and only if a handler has an old version yet to send, or nothing is left to send and the channel is behind already. |
| `ConfigArbitration.SerializedChannelIsCurrent` | sdk/couchbase-core/src/configmanager.rs:188-209 | If handlers do not overlap and sends succeed, every quiet moment shows the stored version, takeovers included. |
| `ConfigArbitration.OverlapLeavesOldVersion` | sdk/couchbase-core/src/configmanager.rs:194-203 | Two overlapping handlers can leave the older version on the channel with no send outstanding. |
| `ConfigArbitration.VersionFallsIffTakeover` | sdk/couchbase-core/src/configmanager.rs:217-245 | The stored version falls exactly when a bucket takeover brings an older config. |
| `ConfigArbitration.AcceptedIff` | sdk/couchbase-core/src/configmanager.rs:217-245 | A config is accepted exactly if one of the two has a bucket and the other has not, or their buckets differ in type, or its version is newer. |
| `ConfigArbitration.CompareIsLexicographic` | sdk/couchbase-core/src/parsedconfig.rs:201-224 | The comparison is the lexicographic order of epoch and revision. |
| `ConfigArbitration.ConfigManager.Accept` | sdk/couchbase-core/src/configmanager.rs:188-198 | The locked section is the delivery step, and hands on a version exactly when the config was accepted. |
| `ConfigArbitration.ConfigManager.SendVersion` | sdk/couchbase-core/src/configmanager.rs:200-202 | The send after the lock is the send step. |
| `ConfigArbitration.SendEnds` | sdk/couchbase-core/src/configmanager.rs:201-203 | A handler ends with its send, which shows the version it accepted or, if nobody listens, leaves the channel as it was. |
| `ConfigApplication.MayBeLeftBehindIff` | sdk/couchbase-core/src/agent.rs:208-219 | In every state, some order of what is outstanding leaves the agent on another config than the stored one if and only if a task has yet to apply an old config itself, or the last polled config on its way is old, or nothing is outstanding and the agent is behind already. |
| `ConfigApplication.OverlapMayLeaveBehind` | sdk/couchbase-core/src/agent.rs:327-340 | For any two configs accepted one after the other by two handlers, the agent may end up on the older one while the newer one is stored. |
| `ConfigApplication.NoRedeliveryRepairs` | sdk/couchbase-core/src/configmanager.rs:188-209 | An agent that is left behind stays so however often the stored config or an older one is delivered again, on any path. |
| `ConfigApplication.RepairedIffUpdated` | sdk/couchbase-core/src/configmanager.rs:225-245 | A delivery repairs it exactly if the stored config gives way to it. |
| `ConfigApplication.AcceptedIsApplied` | sdk/couchbase-core/src/agent.rs:208-219 | With nothing else on its way an accepted config is stored and then applied, on either path. |
| `ConfigApplication.TakenWaits` | sdk/couchbase-core/src/agent.rs:611-622 | A config that the agent's task has taken is applied before another one is taken. |
| `ConfigApplication.DirectWaits` | sdk/couchbase-core/src/agent.rs:337-339 | A config that a task has yet to apply waits for that task alone. |
| `ConfigApplication.PostingWaits` | sdk/couchbase-core/src/configmanager.rs:255-264 | A polled config that was accepted is posted before another one is handed in. |
| `ConfigApplication.NoticeWaits` | sdk/couchbase-core/src/agent.rs:613-619 | The channel holds what was posted last until it is taken. |
| `ConfigApplication.PostReplaces` | sdk/couchbase-core/src/configmanager.rs:262-262 | A post replaces whatever was not taken yet. |
| `ConfigWatcher.PollingIsRoundRobin` | sdk/couchbase-core/src/configwatcher.rs:80-178 | With a fixed list of n distinct endpoints the k-th poll goes to endpoint k mod n for every pattern of failures, and n + 1 turns make n polls. |
| `ConfigWatcher.TraceIsLegal` | sdk/couchbase-core/src/configwatcher.rs:80-178 | Under any reconfiguration no endpoint is polled twice in a round and a round ends only when every current endpoint was polled in it. |
| `ConfigWatcher.SleepSeparatesPolls` | sdk/couchbase-core/src/configwatcher.rs:146-176 | A sleep separates any two polls. |
| `ConfigWatcher.TurnFollowsTrace` | sdk/couchbase-core/src/configwatcher.rs:80-178 | The trace alone decides the next turn: an empty list is slept over, the first endpoint not polled in this round is polled, and when all were polled a new round begins, after a sleep exactly if all polls of the round failed; only a sleep gives way to a shutdown. |
| `ConfigWatcher.RemainingMembers` | sdk/couchbase-core/src/configwatcher.rs:102-107 | What is left to poll is exactly the current endpoints not polled in this round. |
| `ConfigWatcher.StoppedForever` | sdk/couchbase-core/src/configwatcher.rs:91-100 | After a shutdown nothing happens any more. |
| `ConfigWatcher.Watch` | sdk/couchbase-core/src/configwatcher.rs:80-178 | The loop produces the trace of the model for every sequence of lists, failures and shutdowns. |
| `ConfigWatcher.FindRemaining` | sdk/couchbase-core/src/configwatcher.rs:102-107 | The inner loop computes what is left to poll. |
| `CollectionCache.CacheAgreement` | sdk/couchbase-core/src/collection_resolver_cached.rs:75-233 | In every run without an invalidation of a key in flight the fast cache is exactly the slow entries with a non-zero id, at most one lookup per key is in flight, and no `expect` fails. |
| `CollectionCache.AnswersAreCurrent` | sdk/couchbase-core/src/collection_resolver_cached.rs:204-220 | Every answer, fast or slow, is what the backend last answered for the key since its invalidation. |
| `CollectionCache.FoundIsAnswered` | sdk/couchbase-core/src/collection_resolver_cached.rs:89-95 | A caller that finds the key in the fast cache, or a filled entry, is told what the backend last answered. |
| `CollectionCache.HitNeedsNoLock` | sdk/couchbase-core/src/collection_resolver_cached.rs:211-216 | What the fast cache has is answered at once, without the lock: also after a panic, and nothing else changes. |
| `CollectionCache.FailsOnlyByOwnLookup` | sdk/couchbase-core/src/collection_resolver_cached.rs:114-170 | In every run a caller fails only if its own lookup failed or its own task could not be joined. |
| `CollectionCache.NotFoundGoesOn` | sdk/couchbase-core/src/collection_resolver_cached.rs:86-112 | A caller that does not find the key goes on to the slow map, waits for the owner, or makes a pending entry and looks the key up itself. |
| `CollectionCache.OwnerIsAnswered` | sdk/couchbase-core/src/collection_resolver_cached.rs:131-151 | The owner is told what the backend answered and its entry is filled with it. |
| `CollectionCache.OwnerFails` | sdk/couchbase-core/src/collection_resolver_cached.rs:125-169 | An owner whose lookup failed is told so and its entry goes; one whose task is lost leaves its entry. |
| `CollectionCache.FastExactly` | sdk/couchbase-core/src/collection_resolver_cached.rs:174-197 | In every disciplined run an entry shows in the fast cache, with its id and revision, exactly if its id is not zero. |
| `CollectionCache.InvalidatesOnly` | sdk/couchbase-core/src/collection_resolver_cached.rs:227-232 | An invalidation takes the key out of both maps and leaves all other keys alone. |
| `CollectionCache.InvalidationSafeIffNotInFlight` | sdk/couchbase-core/src/collection_resolver_cached.rs:222-232 | From every state that keeps the invariant, an invalidation can lead to a panic, without any further invalidation, if and only if the key is in flight. |
| `CollectionCache.UndisciplinedRunPanics` | sdk/couchbase-core/src/collection_resolver_cached.rs:130-135 | For every key there is a run in which an invalidation in flight makes the `expect` fail and poisons the lock. |
| `CollectionCache.PoisonedForever` | sdk/couchbase-core/src/collection_resolver_cached.rs:86-86 | After a panic inside a critical section the maps never change again and only what the fast cache holds is still answered. |
| `CollectionCache.PendingAnswerableIffInFlight` | sdk/couchbase-core/src/collection_resolver_cached.rs:114-128 | A pending key can still be answered without invalidating it if and only if its lookup is in flight. |
| `CollectionCache.FailedJoinStrands` | sdk/couchbase-core/src/collection_resolver_cached.rs:125-128 | A lookup task that cannot be joined leaves its entry pending with nobody to fill or drop it. |
| `CollectionCache.StrandedForever` | sdk/couchbase-core/src/collection_resolver_cached.rs:89-112 | As long as that key is not invalidated no caller of it is answered, in any continuation. |
| `CollectionCache.UndisciplinedRunLeavesStaleAnswer` | sdk/couchbase-core/src/collection_resolver_cached.rs:153-169 | For every key there is a run after which the fast cache has an answer that the slow map does not have. |
| `CollectionCache.StaleLoomsIffOwnerCanLeaveStale` | sdk/couchbase-core/src/collection_resolver_cached.rs:130-169 | From every state that keeps the invariant, an invalidation can leave a stale answer behind, without any further invalidation, if and only if the key is in flight and its owner is not about to fill in id 0. |
| `CollectionCache.JoinedKeyInjective` | sdk/couchbase-core/src/collection_resolver_cached.rs:209-209 | Joined keys identify scope and collection when scope names have no dot. |
| `CollectionCache.KeysCollideIffScopesOverlap` | sdk/couchbase-core/src/collection_resolver_cached.rs:209-209 | Two collections in scopes of different name lengths share a cache key exactly if the longer scope name is the shorter one, a dot and a piece, and the other collection name is that piece, a dot and the first collection name. |
| `CollectionCache.KeysCollideIff` | sdk/couchbase-core/src/collection_resolver_cached.rs:209-209 | For all names: two collections share a cache key exactly if they are the same or one of the scopes overlaps the other in that way. |
| `CollectionCache.StepInv` | sdk/couchbase-core/src/collection_resolver_cached.rs:75-233 | Every step but an invalidation in flight keeps the invariant. |
| `CollectionCache.EnterInv` | sdk/couchbase-core/src/collection_resolver_cached.rs:86-107 | Becoming the owner of a lookup keeps the invariant. |
| `CollectionCache.FillInv` | sdk/couchbase-core/src/collection_resolver_cached.rs:131-151 | Filling an entry keeps the invariant. |
| `CollectionCache.DropInv` | sdk/couchbase-core/src/collection_resolver_cached.rs:153-169 | Dropping an entry without a rebuild keeps the invariant. |
| `CollectionCache.Cache.RebuildFastCache` | sdk/couchbase-core/src/collection_resolver_cached.rs:174-197 | The loop publishes exactly the entries with a non-zero id. |
| `CollectionCache.Cache.LookFast` | sdk/couchbase-core/src/collection_resolver_cached.rs:211-216 | The unlocked look is the corresponding step. |
| `CollectionCache.Cache.EnterSlow` | sdk/couchbase-core/src/collection_resolver_cached.rs:86-107 | The first critical section is the entering step, the panic on a poisoned lock included. |
| `CollectionCache.Cache.FillEntry` | sdk/couchbase-core/src/collection_resolver_cached.rs:130-151 | The section after an answer is the filling step; it fails exactly when the step panics. |
| `CollectionCache.Cache.DropEntry` | sdk/couchbase-core/src/collection_resolver_cached.rs:153-169 | The section after a failure is the dropping step; it fails exactly when the step panics. |
| `CollectionCache.Cache.InvalidateEntry` | sdk/couchbase-core/src/collection_resolver_cached.rs:227-232 | The invalidation is the corresponding step; it panics exactly on a poisoned lock. |
| `AgentManager.OneAgentPerBucket` | sdk/couchbase-core/src/ondemand_agentmanager.rs:66-152 | All callers that get a handle for a bucket get the one agent of the slow map, from the one creation started. |
| `AgentManager.CreationStartsAtMostOnce` | sdk/couchbase-core/src/ondemand_agentmanager.rs:99-152 | In every run, failures included, at most one creation starts per bucket, and the fast map only holds agents of the slow map. |
| `AgentManager.FinishesWithinOneMoreRound` | sdk/couchbase-core/src/ondemand_agentmanager.rs:66-87 | A call whose slow load returned Ok returns at its next look at the fast map. |
| `AgentManager.HandleIsTheCreatedAgent` | sdk/couchbase-core/src/ondemand_agentmanager.rs:135-141 | The handle that a caller gets is the agent that a creation for its bucket ended with. |
| `AgentManager.FailsOnlyByOwnCreation` | sdk/couchbase-core/src/ondemand_agentmanager.rs:138-138 | A call fails only by its own creation. |
| `AgentManager.WaiterServed` | sdk/couchbase-core/src/ondemand_agentmanager.rs:112-126 | A waiter whose bucket was notified gets the agent of the bucket at its next look. |
| `AgentManager.LoadDecides` | sdk/couchbase-core/src/ondemand_agentmanager.rs:101-133 | Under both locks an agent that is there is used, a creation under way is waited for, and otherwise one is started and noted. |
| `AgentManager.RebuildPublishesAll` | sdk/couchbase-core/src/ondemand_agentmanager.rs:79-85 | A rebuild publishes the whole slow map. |
| `AgentManager.FailedBucketStaysWithoutAgent` | sdk/couchbase-core/src/ondemand_agentmanager.rs:128-138 | After a failed creation, in every continuation, the bucket has no agent, no creation starts again, no waiter is notified and no call for it returns one. |
| `AgentManager.ReachableServableIffNotFailed` | sdk/couchbase-core/src/ondemand_agentmanager.rs:66-152 | In every reachable state some continuation gives a caller an agent for a bucket if and only if no creation for it has failed. |
| `AgentManager.CreationCanFail` | sdk/couchbase-core/src/ondemand_agentmanager.rs:128-138 | For every bucket there is a run in which its creation fails, after which no run can serve it. |
| `AgentManager.CreatorsExec` | sdk/couchbase-core/src/ondemand_agentmanager.rs:112-138 | Whoever waits for a bucket that has not failed waits for a creation that is under way. |
| `AgentManager.StepInv` | sdk/couchbase-core/src/ondemand_agentmanager.rs:66-152 | Every step keeps the invariant tying maps, callers and creations. |
| `AgentManager.OnDemandAgentManager.LookFast` | sdk/couchbase-core/src/ondemand_agentmanager.rs:72-75 | The unlocked look is the corresponding step. |
| `AgentManager.OnDemandAgentManager.BeginLoad` | sdk/couchbase-core/src/ondemand_agentmanager.rs:101-133 | The first critical section is the loading step. |
| `AgentManager.OnDemandAgentManager.InsertAgent` | sdk/couchbase-core/src/ondemand_agentmanager.rs:140-149 | The second critical section is the inserting step. |
| `AgentManager.OnDemandAgentManager.RebuildFastMap` | sdk/couchbase-core/src/ondemand_agentmanager.rs:79-85 | The rebuilding loop is the corresponding step. |
| `ClientPool.PicksAreFair` | sdk/couchbase-core/src/kvclientpool.rs:231-239 | Any m consecutive picks on an unchanged n-client list hit each client m/n times, rounded down or up, if the counter does not wrap or n divides its range. |
| `ClientPool.FairIffLengthDividesRange` | sdk/couchbase-core/src/kvclientpool.rs:231-239 | Picking is fair from every counter value and for every number of picks if and only if the list length divides 2^64. |
| `ClientPool.WrapSkips` | sdk/couchbase-core/src/kvclientpool.rs:235-236 | For every other length a full turn of picks that starts at the last counter value skips the last client. |
| `ClientPool.WrapCanSkip` | sdk/couchbase-core/src/kvclientpool.rs:235-236 | Across a wrap-around three picks from three clients can skip one. |
| `ClientPool.PublishedIffPresent` | sdk/couchbase-core/src/kvclientpool.rs:207-214 | A client is published exactly when some babysitter has it. |
| `ClientPool.PresentInOrder` | sdk/couchbase-core/src/kvclientpool.rs:207-214 | The published list is in the order of the babysitters. |
| `ClientPool.Changed` | sdk/couchbase-core/src/kvclientpool.rs:200-205 | An event changes no babysitter's identity or position. |
| `ClientPool.Pool.OnStateChange` | sdk/couchbase-core/src/kvclientpool.rs:198-214 | After every event the published list is the present clients in order, and only the named babysitter's entry changed. |
| `ClientPool.Pool.GetClient` | sdk/couchbase-core/src/kvclientpool.rs:231-243 | A pick takes the client at the counter modulo the list length and bumps the wrapping counter; an empty list sends the caller to the slow path. |
| `OrphanReporter.SamplingIsExactTopK` | sdk/couchbase-core/src/orphan_reporter.rs:172-233 | For every interleaving of handlers and ticks the heap is the one multiset of the sample_size longest durations decided since it was last taken. |
| `OrphanReporter.ReportIsSortedTopK` | sdk/couchbase-core/src/orphan_reporter.rs:144-164 | A report has the count swapped out and lists those durations in descending order. |
| `OrphanReporter.CountsAddUp` | sdk/couchbase-core/src/orphan_reporter.rs:144-164 | Reported counts plus the pending count are the responses handled. |
| `OrphanReporter.ListedAtMostHandled` | sdk/couchbase-core/src/orphan_reporter.rs:144-233 | Each response is decided once: the responses decided and the undecided ones are those handled, and the durations listed so far with those in the heap are at most the responses decided. |
| `OrphanReporter.ReportMayListMoreThanItCounts` | sdk/couchbase-core/src/orphan_reporter.rs:146-152 | For any two durations there is a run with a report that counts one response and lists two durations. |
| `OrphanReporter.OverlistsIffRoomForTwo` | sdk/couchbase-core/src/orphan_reporter.rs:146-152 | Some run has a report that lists more durations than it counts if and only if the sample size is at least 2. |
| `OrphanReporter.RecordKeepsTopK` | sdk/couchbase-core/src/orphan_reporter.rs:201-231 | The re-check under the write lock keeps the longest ones whatever happened since the unlocked test. |
| `OrphanReporter.TooShort` | sdk/couchbase-core/src/orphan_reporter.rs:198-199 | A response turned away by the unlocked test does not belong to the sample. |
| `OrphanReporter.NeedsWriteIffRecordChanges` | sdk/couchbase-core/src/orphan_reporter.rs:198-231 | The unlocked test sends a response to the write section exactly if recording it now would change the heap. |
| `OrphanReporter.TopKUnique` | sdk/couchbase-core/src/orphan_reporter.rs:172-233 | The longest ones are determined as a multiset. |
| `OrphanReporter.SharedHeap.Count` | sdk/couchbase-core/src/orphan_reporter.rs:178-178 | Counting is the arrival step. |
| `OrphanReporter.SharedHeap.Check` | sdk/couchbase-core/src/orphan_reporter.rs:186-199 | The check under the read lock is the corresponding step. |
| `OrphanReporter.SharedHeap.Consider` | sdk/couchbase-core/src/orphan_reporter.rs:201-231 | The write section is the corresponding step. |
| `OrphanReporter.SharedHeap.TakeCount` | sdk/couchbase-core/src/orphan_reporter.rs:147-150 | The counter swap is the first step of a tick, which ends there if nothing was counted. |
| `OrphanReporter.SharedHeap.TakeReport` | sdk/couchbase-core/src/orphan_reporter.rs:151-158 | Taking the heap is the second step and yields the report recorded. |
| `MutationState.PerKeyMaximum` | sdk/couchbase/src/mutation_state.rs:97-112 | For every token list the state holds, per bucket and vbucket, the first token with the greatest sequence number. |
| `MutationState.KeysAreThoseSeen` | sdk/couchbase/src/mutation_state.rs:97-136 | The state has exactly the bucket and vbucket pairs that occur in the list. |
| `MutationState.OrderDoesNotMatter` | sdk/couchbase/src/mutation_state.rs:97-136 | Sequence numbers do not depend on the order of the tokens. |
| `MutationState.FoldInStages` | sdk/couchbase/src/mutation_state.rs:114-136 | Folding a concatenation equals folding any listing of the first part's state with the second part. |
| `MutationState.ListingRefolds` | sdk/couchbase/src/mutation_state.rs:114-136 | Folding any listing of a state gives the state. |
| `MutationState.BuiltStatesAreWellFormed` | sdk/couchbase/src/mutation_state.rs:97-112 | In every built state key and token agree on the vbucket. |
| `MutationState.DecodedKeysAgree` | sdk/couchbase/src/mutation_state.rs:200-211 | In every state read from a document key and token agree on the vbucket. |
| `MutationState.DecodeOfEncode` | sdk/couchbase/src/mutation_state.rs:153-220 | Whatever order either side works in, reading the grouped decimal form of a state gives the state. |
| `MutationState.RoundTrip` | sdk/couchbase/src/mutation_state.rs:153-220 | Serializing and deserializing any state built from tokens gives the identical state. |
| `MutationState.FromVec` | sdk/couchbase/src/mutation_state.rs:128-136 | The loop computes the fold. |
| `MutationState.Tokens` | sdk/couchbase/src/mutation_state.rs:114-119 | The listing has every entry once, in some order. |
| `MutationState.Serialize` | sdk/couchbase/src/mutation_state.rs:153-175 | The grouped document has the printed form of every entry and nothing else. |
| `MutationState.Deserialize` | sdk/couchbase/src/mutation_state.rs:177-220 | A document is accepted exactly when all its numbers parse, and then every token comes from an entry and every entry leaves a token. |
| `MutationState.AcceptedIff` | sdk/couchbase/src/mutation_state.rs:200-211 | A document is accepted exactly if every vbucket is spelled as a 16-bit and every uuid as a 64-bit number. |
| `MutationState.DecodedIsSpelled` | sdk/couchbase/src/mutation_state.rs:200-211 | Every token read from a document is spelled by one of its entries, field by field. |
| `Decimal.ParsePrint` | sdk/couchbase/src/mutation_state.rs:203-207 | Decimal printing and parsing are inverse on every value of the type. |
| `Decimal.ParseExactly` | sdk/couchbase/src/mutation_state.rs:203-207 | A text parses to a number exactly if it is an optional plus sign, any zeros and the printed number, and the number is in range. |
| `Decimal.NoLeadingZero` | sdk/couchbase/src/mutation_state.rs:163-166 | The printed form has no leading zero. |
| `Backoff.StaysInRange` | sdk/couchbase-core/src/retrybesteffort.rs:81-107 | The wait always lies between minimum and maximum. |
| `Backoff.ExactWait` | sdk/couchbase-core/src/retrybesteffort.rs:81-107 | Before the exponent wraps the wait is the minimum in whole milliseconds times the whole part of the power, held between minimum and maximum, or the maximum once the milliseconds do not fit 64 bits. |
| `Backoff.WholeMillisWait` | sdk/couchbase-core/src/retrybesteffort.rs:81-107 | For a minimum of whole milliseconds and a maximum below 2^64 - 1 of them the wait is the smaller of the maximum and the minimum times the whole part of the power. |
| `Backoff.WaitsDouble` | sdk/couchbase-core/src/retrybesteffort.rs:81-107 | With factor two each wait is twice the one before it, up to the maximum. |
| `Backoff.PanicsIffMinBelowOneMilli` | sdk/couchbase-core/src/retrybesteffort.rs:85-85 | The division by zero happens exactly when the minimum is below one millisecond, whatever the attempt. |
| `Backoff.NonDecreasing` | sdk/couchbase-core/src/retrybesteffort.rs:81-107 | Below 2^31 attempts waits do not decrease, across all early returns and clamps. |
| `Backoff.NonDecreasingIffNotWrapped` | sdk/couchbase-core/src/retrybesteffort.rs:82-82 | A later wait is at least as long exactly when its exponent has not wrapped, or the earlier one's has, or the factor is one, or minimum and maximum are equal, or the power of the earlier attempt is below two and the minimum fits 64 bits of milliseconds. |
| `Backoff.MinimumIff` | sdk/couchbase-core/src/retrybesteffort.rs:85-106 | Before the exponent wraps the wait is the minimum exactly when the power is below two and the minimum fits 64 bits of milliseconds, or nothing can grow. |
| `Backoff.FirstWaitIsMinimumIff` | sdk/couchbase-core/src/retrybesteffort.rs:92-95 | The first wait is the minimum exactly if the minimum fits 64 bits of milliseconds or is the maximum. |
| `Backoff.WrappedExponentGivesMinimum` | sdk/couchbase-core/src/retrybesteffort.rs:82-82 | From 2^31 attempts on the wait is the minimum. |
| `Backoff.NoOverflow` | sdk/couchbase-core/src/retrybesteffort.rs:85-90 | The guarded 128-bit product does not overflow. |
| `Backoff.MonotoneInFactor` | sdk/couchbase-core/src/retrybesteffort.rs:85-106 | The part after the power is monotone in the power, early returns included. |
| `Retry.Orchestrate` | sdk/couchbase-core/src/retry.rs:225-264 | Over any outcome stream: one more run than retries, each retry after the decided wait, recorded attempts equal retries, the loop ends at the first outcome not to be retried, and the error carries retry information exactly when something was retried. |
| `Retry.RecordedIsRetried` | sdk/couchbase-core/src/retry.rs:200-222 | The recorded reasons are exactly the reasons retried, and attempts count the retries. |
| `Retry.NoRerunAfterClosedInFlight` | sdk/couchbase-core/src/retrybesteffort.rs:48-56 | Under best effort or fail fast a non-idempotent request is never run again after a closed-in-flight error. |
| `Retry.BestEffortRetriesIff` | sdk/couchbase-core/src/retrybesteffort.rs:48-56 | Best effort retries exactly the errors that are not hopeless, save closed-in-flight ones of non-idempotent requests. |
| `Retry.FailFastRetriesIff` | sdk/couchbase-core/src/retryfailfast.rs:26-30 | Fail fast retries exactly the errors that say the client's view of the cluster is outdated. |
| `Retry.ReasonsExactly` | sdk/couchbase-core/src/retry.rs:266-375 | The classification of errors, reason by reason. |
| `Retry.ReasonIffNotHopeless` | sdk/couchbase-core/src/retry.rs:266-375 | Which errors have no reason to be retried. |
| `Retry.OutdatedWaits` | sdk/couchbase-core/src/retry.rs:200-213 | Errors of an outdated view wait 10, 50, 100 and 500 milliseconds and then one second, under every strategy. |
| `Retry.ControlledRises` | sdk/couchbase-core/src/retry.rs:377-386 | The waits of an outdated view start at one millisecond and never fall or exceed one second. |
| `Retry.StrategyWaits` | sdk/couchbase-core/src/retry.rs:214-222 | All other errors wait as the strategy says, best effort by the number of retries so far. |
| `ConnStr.PrintedSpecBack` | sdk/couchbase-connstr/src/lib.rs:105-203 | Reading back a printed spec gives its scheme, its hosts in order with ports, and the options that have a value, in whatever order they were printed. |
| `ConnStr.RoundTripIffEveryOptionHasAValue` | sdk/couchbase-connstr/src/lib.rs:105-203 | The round trip is the identity exactly when no option has an empty value list. |
| `ConnStr.HostsBack` | sdk/couchbase-connstr/src/lib.rs:113-124 | A printed list of delimiter-free names and bracketed literals, with or without ports, is read back in order. |
| `ConnStr.AnySeparators` | sdk/couchbase-connstr/src/lib.rs:153-175 | Hosts may be separated by any mix of commas and semicolons. |
| `ConnStr.BadPortRefused` | sdk/couchbase-connstr/src/lib.rs:166-172 | A port without digits or above 65535 makes the whole string an error. |
| `ConnStr.PortOfDigits` | sdk/couchbase-connstr/src/lib.rs:166-172 | The port is the value of all digits behind the colon. |
| `ConnStr.OptionsBack` | sdk/couchbase-connstr/src/lib.rs:126-141 | The printed options are read back as all pairs, key by key. |
| `ConnStr.PairsConcat` | sdk/couchbase-connstr/src/lib.rs:181-183 | What stands on the two sides of an ampersand is read independently. |
| `ConnStr.PairWithValue` | sdk/couchbase-connstr/src/lib.rs:181-183 | A piece is cut at its first equals sign and both sides are decoded. |
| `ConnStr.PairWithoutValue` | sdk/couchbase-connstr/src/lib.rs:181-183 | A piece without an equals sign is a key with an empty value, and an empty piece is nothing. |
| `ConnStr.SplitBack` | sdk/couchbase-connstr/src/lib.rs:151-157 | The outer expression cuts a printed spec into its scheme, hosts and options, whatever the scheme contains. |
| `ConnStr.SplitOf` | sdk/couchbase-connstr/src/lib.rs:151-157 | Every text of the general form is cut where the form says: scheme, dropped user information, hosts up to the first slash or question mark, dropped path, and the query up to the end of its line. |
| `ConnStr.AuthorityOf` | sdk/couchbase-connstr/src/lib.rs:151-157 | The same without a scheme. |
| `ConnStr.SchemeKeptIffNoSeparatorFollows` | sdk/couchbase-connstr/src/lib.rs:151-156 | The scheme of a printed text is read back exactly when no scheme separator follows it. |
| `ConnStr.SeparatorInOptionMovesScheme` | sdk/couchbase-connstr/src/lib.rs:151-156 | With a separator in an option value everything before it is read as the scheme. |
| `ConnStr.UserInfoIsLongest` | sdk/couchbase-connstr/src/lib.rs:151-152 | What is skipped before the hosts is the longest prefix of the form user, optional colon and password, at sign. |
| `ConnStr.HostExactly` | sdk/couchbase-connstr/src/lib.rs:153-153 | The host taken at a position is the bracketed literal there if there is one, and otherwise the longest run up to a delimiter. |
| `ConnStr.LastSeparator` | sdk/couchbase-connstr/src/lib.rs:151-152 | The scheme ends at the last separator that has no line break before it. |
| `ConnStr.ParseHosts` | sdk/couchbase-connstr/src/lib.rs:158-179 | The loop over host matches computes the address list, or the error of the first bad port. |
| `ConnStr.CollectOptions` | sdk/couchbase-connstr/src/lib.rs:181-190 | The fold gives each key that occurs its values in order, and has no other key. |
| `ConnStr.ParseConnStr` | sdk/couchbase-connstr/src/lib.rs:148-203 | Splitting, host loop and option fold together compute the parsed spec. |

## Left out

- List and map documents, `values`, `len` and the typed content conversion of `collection_ds.rs`: single server calls without a protocol.
- Server replies that are lost or ambiguous: a call that reports a failure is assumed to have had no effect, and the server is assumed to give every mutation a new CAS. `DocumentExists`, which the loops treat like a CAS conflict, is not told apart from it.
- HTTP, query, search, analytics and management components and their endpoint tables: they would add tables built by the same loop.
- The bucket uuid and feature lists of a parsed config, and `dispatch_to_vbucket`.
- The out-of-band fetch loop and its flag: its deliveries are deliveries like any other, and no mutual exclusion of fetches is claimed.
- Wake-ups and cancellation: only safety is claimed. A waiter of the collection cache may wake at any time, a waiter for an agent only after its notification fired.
- `update_auth`, babysitters, sockets and the slow path of `get_client`: a pool is modelled until it is closed.
- An error while closing a pool, which the code logs and ignores: the pool counts as closed.
- CRC-32, JSON text, and percent- and plus-decoding: the hash and the decoder are parameters; the decoder is assumed to leave text without `%` and `+` alone.
- `resolve` and the DNS lookup of connection strings.
- 32-bit overflow of the retry counter and 64-bit overflow of the orphan count.
- The error kinds that the retry loop never retries are one constructor, and so are the four kinds of HTTP requests that could not be sent.
- `Backoff.NonDecreasing`: the floating-point power is an exact real, so rounding of the power is not modelled.
- `OrphanReporter.SamplingIsExactTopK`: the binary heap is the ascending sequence of its durations, and items are represented by their durations, which is all that the code compares.
- `ConnStr.PrintedSpecBack`: the scheme has no line break; hosts are non-empty names without delimiters or bracketed literals and contain no slash, question mark or at sign; option text contains no ampersand, plus, percent sign, line break or scheme separator, and keys no equals sign.
