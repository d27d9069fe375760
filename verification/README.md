# Verified models of the peer's stateful components

Dafny models of six stateful components of the Fabric peer, with proofs over whole runs. Where goroutines share
state, the model is a transition system whose atomic steps are the regions run under a lock, the channel operations
and the blocking calls; a run is any sequence of such steps, and a step that would block is skipped. Where an object
updates its own fields, there is also a class whose methods are proved to make exactly the corresponding steps.

| files | component |
|---|---|
| `GossipClock`, `DiscoveryNode`, `DiscoveryRuns`, `DiscoveryMax`, `DiscoveryExchange`, `DiscoveryPeers`, `DiscoveryDelivery`, `DiscoveryService` | gossip membership |
| `ChaincodeHandler`, `ChaincodeStream`, `ChaincodeNetwork`, `ChaincodeCalls` | the protocol of a chaincode stream, and chaincodes calling chaincodes |
| `ContainerLocks` | reference-counted container locks |
| `Batcher` | the batching emitter |
| `Connection`, `ConnectionStore`, `ConnectionCalls`, `DestinationLocks` | a gossip connection, the store of connections, and what its per-peer locks guarantee |
| `EventHandlers`, `EventHub`, `EventProducer` | the event hub's registry |
| `Options` | the optional value all of them use |

`dafny verify dfyconfig.toml` checks the whole project.

## What the models assume

- Gossip membership: one goroutine handles messages, as in the source; expiry may be called by others at any point
  with any list of ids. Whether an alive message is authentic is a fixed property of the message. Local time is a
  parameter. Peer ids, endpoints and metadata are opaque values.
- Chaincode stream: the chaincode sends one request at a time and waits for its reply; executions on one stream do
  not overlap, no timeout fires, the stream does not fail. State-machine callbacks come in the order before, state
  set, enter, after, and a self-transition runs no enter callback. Launching a container is outside the model, so a
  call to a chaincode that is not running is refused. Outcomes of the ledger are parameters.
- Connection store: peer ids are known when a connection is asked for, and the store is not being shut down.
- Container ids, transaction ids, chaincode names, clients and messages are opaque values compared for equality.

## Findings

Promises that fail are shown failing on a concrete run, and the exact condition under which they hold is proved.

- An alive message newer than the record can be lost: the handler reads the clocks, drops the lock, and the sender
  expires before the write (`LostUpdateExample`). `LostExactlyInRace` says when, for every placement of expiries.
- The destination lock is there to prevent concurrent connection establishment (gossip/comm/conn.go:43-44) and does
  not: `OverlapHappens`. `OneConnectsAtATime` proves the promise for every run in which no call commits while another
  call to the peer may still connect, and `OverlapExactly` that such a commit is exactly what makes it fail.
- The interest key of a client's index is not injective: if one chaincode id followed by "/" begins another, stopping
  the client leaves a registration behind (`CollisionLeavesRegistration`). `KeysDistinguishExactly` and
  `StopsCleanExactly` give the condition on the ids; ids without "/" meet it.
- With a number of iterations that is not positive, the batching emitter never drops a message
  (`NothingExpiresWithoutIterations`).

## Model

| member | source | states |
|---|---|---|
| `GossipClock.IncarnationRoundTrip` | gossip/discovery/discovery_impl.go:704-706 | for all 2^64 incarnation numbers, storing as an instant and reading back with UnixNano is the identity |
| `GossipClock.Stamp` | gossip/discovery/discovery_impl.go:649-653 | a recorded clock reads back as the clock received, with the local time it was seen |
| `GossipClock.RecordsAreOrdered` | gossip/discovery/discovery_impl.go:741-748 | before and same on records are a strict lexicographic order with trichotomy and transitivity on (incarnation, sequence) |
| `DiscoveryNode.IndexOf` | gossip/util/misc.go:33-41 | the first index of a message about a peer, or -1 when there is none |
| `DiscoveryNode.LearnNewAliveKeepsGood` | gossip/discovery/discovery_impl.go:638-683 | learning an unknown alive peer keeps partition and cache agreement |
| `DiscoveryNode.LearnNewDeadKeepsGood` | gossip/discovery/discovery_impl.go:659-682 | learning an unknown dead entry keeps them, also when the entry is about this peer itself |
| `DiscoveryNode.LearnExistingKeepsGood` | gossip/discovery/discovery_impl.go:596-636 | updating a known peer keeps them, also when it expired since it was looked up |
| `DiscoveryNode.ResurrectKeepsGood` | gossip/discovery/discovery_impl.go:390-422 | resurrection moves a dead peer across maps and lists and keeps them |
| `DiscoveryNode.ExpireKeeps` | gossip/discovery/discovery_impl.go:502-540 | expiring any list of ids, repeated or unknown ones included, keeps them and moves exactly the alive ones |
| `DiscoveryNode.ExpireKeepsRecords` | gossip/discovery/discovery_impl.go:516-520 | expiry changes no peer's recorded clock |
| `DiscoveryRuns.NeverPanics` | gossip/discovery/discovery_impl.go:324-388 | in every interleaving of the handler's lock regions with deliveries and expiries both panics and the nil member are unreachable, and alive and dead partition the known peers other than this one |
| `DiscoveryRuns.CachesAgree` | gossip/discovery/discovery_impl.go:596-683 | in the same runs each cached list has one message per recorded peer, with the recorded clock, and nothing else |
| `DiscoveryRuns.HandlerKeepsInv` | gossip/discovery/discovery_impl.go:324-388 | each lock region keeps this, whatever became of the values read in an earlier region |
| `DiscoveryRuns.ClocksNeverGoBack` | gossip/discovery/discovery_impl.go:365-387 | over every interleaved run a recorded clock never decreases and never disappears |
| `DiscoveryRuns.ResurrectedOnlyByNewer` | gossip/discovery/discovery_impl.go:365-373 | a dead peer becomes alive only with a clock strictly newer than its record |
| `DiscoveryRuns.OldMessageIsInert` | gossip/discovery/discovery_impl.go:345-388 | in every run no handler step for a message not newer than the record changes the membership |
| `DiscoveryRuns.RedeliveryIsInert` | gossip/discovery/discovery_impl.go:324-388 | the whole handling of a message that is not newer, not authentic or this peer's own ends, with any expiries in the gaps, in exactly what those expiries alone give |
| `DiscoveryRuns.RegionsRefineAtomic` | gossip/discovery/discovery_impl.go:324-388 | with no interference the four lock regions equal the atomic description of handling a message |
| `DiscoveryRuns.LostExactlyInRace` | gossip/discovery/discovery_impl.go:345-388 | for known and unknown senders, with an expiry in each gap, the record ends as the newer of the two clocks if and only if the sender did not expire between being read alive and being written |
| `DiscoveryRuns.LostUpdateExample` | gossip/discovery/discovery_impl.go:375-388 | a concrete run in which the newer clock is lost |
| `DiscoveryMax.HandleRecords` | gossip/discovery/discovery_impl.go:345-387 | handling a message raises its sender's record to the newer clock and touches no other record |
| `DiscoveryMax.RecordIsMaximum` | gossip/discovery/discovery_impl.go:345-387 | for every sequence of messages and expiries, the recorded clock is the lexicographic maximum authentically received |
| `DiscoveryMax.OrderDoesNotMatter` | gossip/discovery/discovery_impl.go:502-520 | delivery order, redelivery and the placement of expiries do not change what is recorded |
| `DiscoveryExchange.FirstUnknown` | gossip/discovery/discovery_impl.go:302-316 | the dead entry of a response is one the requester does not know, and there is none only when it knows them all |
| `DiscoveryExchange.FirstUnknownIsFirst` | gossip/discovery/discovery_impl.go:302-316 | it is the first unknown one of the cached list: all before it are known |
| `DiscoveryExchange.DeadRegionsRefineAtomic` | gossip/discovery/discovery_impl.go:259-272 | the two regions for a dead entry equal its atomic description |
| `DiscoveryExchange.RoundTellsRevived` | gossip/discovery/discovery_impl.go:240-272 | a dead peer that the responder hears from again is made known to the requester in that round |
| `DiscoveryExchange.RoundProgress` | gossip/discovery/discovery_impl.go:240-272 | each request and response keeps both peers consistent and, while some dead peer is unknown, strictly shrinks the number of unknown ones, whatever the requester goes through before the request and between request and response, also when it is itself listed dead |
| `DiscoveryExchange.DeadPeersGetKnown` | gossip/discovery/discovery_impl.go:296-322 | after as many rounds as the responder had dead peers the requester knows all of those and all that are dead there by then, whatever it received or expired before and during the rounds |
| `DiscoveryPeers.KnownHandle` | gossip/discovery/discovery_impl.go:324-388 | all maps and lists read as one table of peers: an authentic message that is news makes its sender's row exactly what it says, alive, seen now, with its cached message and member entry; no other row and no other message changes anything |
| `DiscoveryPeers.KnownLearnExisting` | gossip/discovery/discovery_impl.go:596-636 | an update of a known peer refreshes clock, time seen, cached message and entry; of one that expired since, only the entry |
| `DiscoveryPeers.KnownResurrect` | gossip/discovery/discovery_impl.go:390-422 | a resurrected peer's row is that of a peer just heard from, and no other row changes |
| `DiscoveryPeers.KnownExpire` | gossip/discovery/discovery_impl.go:502-540 | expiry turns the listed rows dead, keeping clock, time seen, cached message and entry, and changes nothing else |
| `DiscoveryPeers.KnownDeadEntry` | gossip/discovery/discovery_impl.go:259-272 | a dead entry makes an unknown peer known as dead with what it says, and changes nothing about a known one |
| `DiscoveryPeers.KnownInterleaved` | gossip/discovery/discovery_impl.go:324-388 | for every placement of expiries between the handler's lock regions, the exact row of the sender afterwards |
| `DiscoveryPeers.OthersInterleaved` | gossip/discovery/discovery_impl.go:324-388 | in the same interleavings every other row changes only by those expiries |
| `DiscoveryPeers.LearnNewLists` | gossip/discovery/discovery_impl.go:638-683 | over whole lists, the caches take both lists as they are and each map and entry follows the last message about a peer |
| `DiscoveryPeers.HandleKeepsOrder` | gossip/discovery/discovery_impl.go:414-421 | handling keeps the order of the alive list: updates stay in place, a newcomer goes last |
| `DiscoveryPeers.ExpireKeepsOrder` | gossip/discovery/discovery_impl.go:525-531 | the dead list is in the order of death: expiry only adds at its end |
| `DiscoveryDelivery.DeliveryTakesEffect` | gossip/discovery/discovery_impl.go:226-274 | left alone, the handler works off any delivered message completely, a request as the requester's alive message and a response as its alive and then its dead part, and is ready again |
| `DiscoveryDelivery.KnownResponse` | gossip/discovery/discovery_impl.go:296-322 | the exact effect of a response on every row: the responder by its own fresh message and each of its alive peers are heard from, the first unlisted dead peer becomes known as dead, nobody else changes |
| `DiscoveryDelivery.ResponderGetsKnown` | gossip/discovery/discovery_impl.go:319-321 | the peer that answered is known afterwards, with the newer of the two clocks |
| `DiscoveryService.IndexInSlice` | gossip/util/misc.go:33-41 | the search loop finds the first match or -1 |
| `DiscoveryService.GossipDiscovery.constructor` | gossip/discovery/discovery_impl.go:98-134 | a new service knows nobody |
| `DiscoveryService.GossipDiscovery.CreateAliveMessage` | gossip/discovery/discovery_impl.go:571-594 | the sequence number rises by one, so each message is newer than the last, until it wraps at 2^64 |
| `DiscoveryService.GossipDiscovery.LearnNewMembers` | gossip/discovery/discovery_impl.go:638-683 | the loops over both lists equal the model's region |
| `DiscoveryService.GossipDiscovery.UpdateMembers` | gossip/discovery/discovery_impl.go:673-682 | every listed sender gets its table entry, the last message winning |
| `DiscoveryService.GossipDiscovery.LearnExistingMembers` | gossip/discovery/discovery_impl.go:596-636 | the loop equals the model's region, message by message |
| `DiscoveryService.LearnAllExistingRows` | gossip/discovery/discovery_impl.go:596-636 | over a list, an alive peer's row becomes what the last message about it says, seen now |
| `DiscoveryService.GossipDiscovery.ResurrectMember` | gossip/discovery/discovery_impl.go:390-422 | the in-place update equals the model's region |
| `DiscoveryService.GossipDiscovery.ExpireMember` | gossip/discovery/discovery_impl.go:510-531 | one peer moves from alive to dead, or nothing changes if it is not alive |
| `DiscoveryService.GossipDiscovery.ExpireDeadMembers` | gossip/discovery/discovery_impl.go:502-540 | the loop equals the model's expiry, and the members to disconnect are exactly the table entries of the peers that were alive, each once |
| `DiscoveryService.GossipDiscovery.GetDeadMembers` | gossip/discovery/discovery_impl.go:542-555 | exactly the alive peers unseen for longer than the timeout, each once |
| `DiscoveryService.GossipDiscovery.GetKnownPeers` | gossip/discovery/discovery_impl.go:467-476 | exactly the known ids, each once |
| `DiscoveryService.GossipDiscovery.CreateMembershipResponse` | gossip/discovery/discovery_impl.go:296-322 | the nested search loops equal the model's response |
| `DiscoveryService.GossipDiscovery.GetMembership` | gossip/discovery/discovery_impl.go:685-702 | each alive peer exactly once, never this peer, with endpoint and metadata of its cached message; nothing while stopping |
| `DiscoveryService.GossipDiscovery.HandleAliveMessage` | gossip/discovery/discovery_impl.go:324-388 | on an otherwise idle service, equals the atomic description and keeps partition and cache agreement |
| `ChaincodeHandler.NextKeepsInv` | core/chaincode/handler.go:200-288 | every step of the caller, the message loop, a request goroutine or the chaincode keeps control in exactly one place |
| `ChaincodeHandler.NoRequestFails` | core/chaincode/handler.go:514-562 | in every run no request is dropped as a duplicate, rejected by the state machine or worked on without its context, no notification blocks, and nothing reaches the chaincode out of turn |
| `ChaincodeHandler.OneReplyPerRequest` | core/chaincode/handler.go:874-991 | in every run the chaincode has received exactly one reply per request, except for the one it waits for |
| `ChaincodeHandler.ClearedBeforeReply` | core/chaincode/handler.go:897-901 | while a reply is on its way the pending entry is gone, the context is there and the state machine accepts any next request |
| `ChaincodeHandler.OneNotificationPerContext` | core/chaincode/handler.go:465-480 | in every run a context's one-slot channel gets at most one message over its life, contexts exist only while their creator executes, and are gone when it is done |
| `ChaincodeHandler.EveryStepHelps` | core/chaincode/handler.go:514-562 | while the chaincode waits, every possible step lowers the distance to its reply |
| `ChaincodeHandler.SomeStepEnabled` | core/chaincode/handler.go:200-288 | while it waits, some step is possible, unless its request is executing another chaincode |
| `ChaincodeHandler.ReplyArrives` | core/chaincode/handler.go:874-991 | on every schedule the wait ends within as many steps as that distance |
| `ChaincodeHandler.RepliedWithinTen` | core/chaincode/handler.go:874-991 | in every run, on every continuation of ten steps, the wait ends within them |
| `ChaincodeHandler.GetStateOutcome` | core/chaincode/handler.go:514-562 | the steps of a GET_STATE goroutine end in one reply that carries the ledger's outcome, with the tables as they were |
| `ChaincodeHandler.ModifyOutcome` | core/chaincode/handler.go:895-991 | the steps of a PUT_STATE or DEL_STATE goroutine clear the pending entry, then move the state machine back, then send the reply with the outcome |
| `ChaincodeHandler.FinalReachesCaller` | core/chaincode/chaincode_support.go:635-651 | the chaincode's final message becomes the caller's result and leaves nothing in the tables; an error during initialisation ends the stream |
| `ChaincodeHandler.ModifyStarts` | core/chaincode/handler.go:886-893 | a request that modifies gets to work as pending exactly if nothing is pending for its transaction; a duplicate is dropped |
| `ChaincodeHandler.UnmarkedRefused` | core/chaincode/handler.go:874-884 | outside a transaction it is answered with an error through the message loop and never becomes pending |
| `ChaincodeHandler.ContextNeeded` | core/chaincode/handler.go:904-945 | only a state request without its context dereferences nil; a call without one is answered with an error |
| `ChaincodeHandler.BusyIsUndone` | core/chaincode/handler.go:307-348 | a busy state is left, by reply or error, for exactly the state the request was made in, and accepts nothing else meanwhile |
| `ChaincodeHandler.ReadingStays` | core/chaincode/handler.go:307-348 | reading never moves the state machine, and only the stated states accept initialisation, transactions and a late completion |
| `ChaincodeHandler.TransactionArrives` | core/chaincode/handler.go:1220-1240 | a transaction on an idle, ready stream reaches the chaincode in five steps with its context, mark and caller in place |
| `ChaincodeHandler.InitArrives` | core/chaincode/handler.go:1051-1086 | initialisation with arguments reaches the chaincode in three steps, marked as a transaction |
| `ChaincodeHandler.ReadyCompletes` | core/chaincode/handler.go:1051-1086 | without arguments the handler is ready at once and its caller done, leaving nothing in the tables |
| `ChaincodeStream.StreamHandler.constructor` | core/chaincode/handler.go:299-305 | before registration there are no tables |
| `ChaincodeStream.StreamHandler.Register` | core/chaincode/chaincode_support.go:239-244 | registration makes three empty tables |
| `ChaincodeStream.StreamHandler.CreateTxContext` | core/chaincode/handler.go:112-127 | refuses a transaction that has a context, leaving that one in place; otherwise what the protocol's first step does |
| `ChaincodeStream.StreamHandler.DeleteTxContext` | core/chaincode/handler.go:135-141 | removes exactly that context, and before registration nothing |
| `ChaincodeStream.StreamHandler.CreateTXIDEntry` | core/chaincode/handler.go:372-383 | succeeds exactly when nothing is pending for the transaction on a registered handler, and then marks it |
| `ChaincodeStream.StreamHandler.DeleteTXIDEntry` | core/chaincode/handler.go:385-393 | clears exactly that pending mark |
| `ChaincodeStream.StreamHandler.MarkIsTransaction` | core/chaincode/handler.go:396-404 | sets or clears exactly that transaction's mark; fails before registration |
| `ChaincodeStream.StreamHandler.GetIsTransaction` | core/chaincode/handler.go:406-413 | whether the transaction is marked |
| `ChaincodeStream.StreamHandler.DeleteIsTransaction` | core/chaincode/handler.go:415-421 | the protocol's unmarking |
| `ChaincodeStream.StreamHandler.Notify` | core/chaincode/handler.go:465-480 | blocks exactly on a full slot; otherwise the protocol's notification |
| `ChaincodeStream.StreamHandler.Conclude` | core/chaincode/handler.go:1015-1040 | entering ready or end unmarks, then notifies |
| `ChaincodeStream.StreamHandler.RunCallbacks` | core/chaincode/handler.go:349-367 | the callbacks of an accepted message do what the protocol's step says |
| `ChaincodeStream.StreamHandler.HandleMessage` | core/chaincode/handler.go:1173-1199 | rejects exactly what the transition table does not allow, changing nothing but an error reply outside a transaction; otherwise the protocol's step |
| `ChaincodeStream.StreamHandler.HandleGetState` | core/chaincode/handler.go:514-562 | undisturbed, answers once and restores the tables; drops a duplicate without a trace |
| `ChaincodeNetwork.CallingIsBlocked` | core/chaincode/handler.go:945-976 | while a request executes another chaincode nothing moves on its own stream |
| `ChaincodeNetwork.RunKeepsNetInv` | core/chaincode/chaincode_support.go:622-651 | in every run of any number of chaincodes, caller and callee of each nested execution point at each other, under one transaction, one level apart |
| `ChaincodeNetwork.NoRequestFailsAnywhere` | core/chaincode/handler.go:874-991 | nested executions included, no request on any stream fails and each is answered once |
| `ChaincodeNetwork.ChainsAreSimple` | core/chaincode/handler.go:945-976 | in every run the chaincodes of a chain of nested executions are pairwise distinct and share the transaction id, so a chain is no longer than the number of running chaincodes |
| `ChaincodeNetwork.RefusedReentry` | core/chaincode/handler.go:112-127 | in every run a chaincode that is executing the transaction refuses it again: every context stays, every other stream is untouched, the asking request gets an error |
| `ChaincodeNetwork.ChainCannotReenter` | core/chaincode/handler.go:945-976 | in every run the last chaincode of a chain of nested executions is refused like that by every chaincode of the chain, itself included |
| `ChaincodeNetwork.ReturnAnswersCaller` | core/chaincode/handler.go:962-990 | in every run the end of a nested execution answers exactly the request that started it, under the same transaction, frees the callee and touches no other stream |
| `ChaincodeCalls.IdleAccepts` | core/chaincode/chaincode_support.go:622-651 | a registered, ready and idle chaincode accepts every call, whatever it executed before: it starts on the request's transaction for the caller and nobody else moves |
| `ChaincodeCalls.CallOutcome` | core/chaincode/chaincode_support.go:622-651 | in every run a call is accepted if and only if the chaincode asked for is registered, ready and idle, and refused with an error if and only if it is not registered, has ended, is not running yet or executes the same transaction |
| `ChaincodeCalls.JoinedStarts` | core/chaincode/chaincode_support.go:218-249 | a chaincode that registers can be initialised under any transaction, and no other is touched |
| `ChaincodeCalls.OutsideOutcome` | core/chaincode/handler.go:1220-1232 | an execution from outside starts exactly on an idle, ready chaincode and changes nothing where its transaction already runs |
| `ChaincodeCalls.OutsideReturns` | core/chaincode/chaincode_support.go:635-651 | an execution from outside that is over just frees its chaincode |
| `ChaincodeNetwork.SomebodyMoves` | core/chaincode/handler.go:945-976 | the chain of calls down from any execution ends at one whose next step, on its own stream, into a call or back to its caller, changes something and can be taken, except exactly when its request names a busy chaincode that would not refuse it |
| `ChaincodeNetwork.NoCircularWait` | core/chaincode/handler.go:945-976 | the same in every run: nested executions never wait for each other in a circle |
| `ContainerLocks.Enter` | core/container/controller.go:86-98 | registers exactly the returned object for the id, with one more thread counted in |
| `ContainerLocks.DepartCountsOut` | core/container/controller.go:104-119 | unlocking from inside succeeds, frees the object, leaves it counting exactly the other threads, and unregisters it exactly when there are none |
| `ContainerLocks.ArrivalWaits` | core/container/controller.go:86-98 | an arriving thread waits on the object registered for its container, which counts the threads there and this one |
| `ContainerLocks.AcquireEnters` | core/container/controller.go:99-102 | a thread that can acquire gets inside with its object locked; no count and nobody else changes |
| `ContainerLocks.PassesThrough` | core/container/controller.go:247-277 | undisturbed, a thread goes in and out and leaves the map and the others as they were |
| `ContainerLocks.MutualExclusion` | core/container/controller.go:86-119 | after any run of any number of threads at most one thread per container is between lock and unlock |
| `ContainerLocks.CountsAndObjects` | core/container/controller.go:86-119 | after any run no thread has panicked or missed its lock, none waits on an object that left the map, and each count is exactly the number of threads waiting or holding |
| `ContainerLocks.ContainerNeverStuck` | core/container/controller.go:256-267 | for every registered container some thread that wants it can take its next step |
| `ContainerLocks.EveryScheduleDrains` | core/container/controller.go:256-267 | whatever the order in which the threads present get in and leave, the amount of work known beforehand leaves no thread and no lock object |
| `ContainerLocks.Drains` | core/container/controller.go:256-267 | from every reachable state there is such a schedule |
| `ContainerLocks.VMController.EnterContainer` | core/container/controller.go:86-102 | the part under the global mutex equals the model's, with a fresh object exactly when none is registered |
| `ContainerLocks.VMController.UnlockContainer` | core/container/controller.go:104-119 | equals the model's release; missing lock, count panic and unlocked mutex are told apart and change nothing |
| `Batcher.DecrementDropsPrefix` | gossip/gossip/batcher.go:86-97 | the removal loop equals lowering every counter and dropping a prefix, exactly the entries at one |
| `Batcher.EveryMessageHandedExactly` | gossip/gossip/batcher.go:70-97 | with T >= 1, over every run, a message gone was handed over exactly T times, one still there T minus its counter times, and batches keep insertion order |
| `Batcher.NothingExpiresWithoutIterations` | gossip/gossip/batcher.go:86-97 | with T <= 0 no message is ever dropped |
| `Batcher.EmissionHandsBuffer` | gossip/gossip/batcher.go:70-84 | an emission hands every buffered message over once more, in one batch, and no other |
| `Batcher.EmissionsEmpty` | gossip/gossip/batcher.go:61-97 | without Stop, T periodic emissions empty the buffer after any run |
| `Batcher.NothingHandedAfterStop` | gossip/gossip/batcher.go:70-76 | after Stop nothing is ever handed over again, while messages still pile up |
| `Batcher.RunKeepsSteep` | gossip/gossip/batcher.go:128-137 | without Stop, from index B - 1 on counters are strictly increasing and at most T - 1 |
| `Batcher.SizeBound` | gossip/gossip/batcher.go:122-137 | without Stop the buffer seen between operations never exceeds B + T - 2 |
| `Batcher.SizeBoundIsTight` | gossip/gossip/batcher.go:122-137 | the bound is reached for all T and B |
| `Batcher.BatchingEmitter.constructor` | gossip/gossip/batcher.go:46-59 | a new emitter is the start of a run |
| `Batcher.BatchingEmitter.DecrementCounters` | gossip/gossip/batcher.go:86-97 | the in-place loop with its index steps equals the model's removal |
| `Batcher.BatchingEmitter.Emit` | gossip/gossip/batcher.go:70-84 | one callback with the whole buffer in order, then the removal; nothing when stopped or empty |
| `Batcher.BatchingEmitter.Add` | gossip/gossip/batcher.go:128-137 | equals the model's step; a callback exactly when the burst size is reached |
| `Batcher.BatchingEmitter.Stop` | gossip/gossip/batcher.go:118-120 | only sets the flag |
| `Batcher.BatchingEmitter.Size` | gossip/gossip/batcher.go:122-126 | the number of buffered messages |
| `Connection.SendNeverBlocks` | gossip/comm/conn.go:243-258 | for any number of senders, one that passed the length check never blocks on the buffer |
| `Connection.MessagesConserved` | gossip/comm/conn.go:243-310 | in every run the accepted messages are, in order, those sent, at most one that failed, the one in hand and the buffer |
| `Connection.FailedExactly` | gossip/comm/conn.go:289-310 | in every run a message counts as failed if and only if sending it reported an error |
| `Connection.FailureIsLast` | gossip/comm/conn.go:298-303 | the failed message is then that one, the writing loop is over and nothing else fails |
| `Connection.WithoutFailureAllSent` | gossip/comm/conn.go:289-310 | in every run without such an error the accepted messages are those sent, the one in hand and the buffer |
| `Connection.SendOutcome` | gossip/comm/conn.go:243-258 | with room a send is accepted at the end of the buffer, on a full buffer it changes nothing |
| `Connection.WriterDelivers` | gossip/comm/conn.go:289-310 | on a working stream the writing loop sends the oldest message and is back at its start |
| `Connection.LoopsGoRound` | gossip/comm/conn.go:260-310 | a message brings the reading loop round; an error, or a missing stream, ends a loop |
| `Connection.CloseOutcome` | gossip/comm/conn.go:214-237 | the first close sets the flag and puts the one token, a later one changes nothing |
| `Connection.StoppedLoopsEnd` | gossip/comm/conn.go:260-310 | after a close each loop ends, at its check or by taking the token and putting it back |
| `Connection.PuttingTokenNeverBlocks` | gossip/comm/conn.go:214-237 | in every run putting the stop token, first or back, finds the one-slot channel empty |
| `Connection.StoppedLoopsCanLeave` | gossip/comm/conn.go:274-310 | after a close a loop waiting in its select finds the token in the channel or with somebody who can put it there |
| `Connection.GossipConnection.Send` | gossip/comm/conn.go:243-258 | overflow exactly on a full buffer, which is then left alone |
| `Connection.GossipConnection.Close` | gossip/comm/conn.go:214-237 | the first call puts the one token, later ones nothing |
| `ConnectionStore.RunKeepsInv` | gossip/comm/conn.go:58-184 | every interleaving of getConnection, onConnected, closeConn and closeByPKIid keeps the store's invariant |
| `ConnectionStore.EntriesKeyedAndLive` | gossip/comm/conn.go:58-184 | in every run each entry is keyed by its connection's id and that connection is not stopped |
| `ConnectionStore.NoConnectionAbandoned` | gossip/comm/conn.go:58-123 | in every run each connection ever created is in exactly one place: in the map, in flight in exactly one call, or closed |
| `ConnectionStore.ReturnsRightPeer` | gossip/comm/conn.go:58-123 | in every run getConnection returns a connection to the peer asked for |
| `ConnectionCalls.FoundIsReturned` | gossip/comm/conn.go:79-85 | a call that finds a stored connection returns exactly that one and changes nothing else |
| `ConnectionCalls.CommitReturnsStored` | gossip/comm/conn.go:97-122 | a commit returns what the map holds for the peer afterwards, its own connection stored or closed, and nothing if and only if it has none and none is stored |
| `ConnectionCalls.CallConnects` | gossip/comm/conn.go:58-91 | undisturbed, a call for a peer without a connection gets to connect under the peer's lock |
| `ConnectionCalls.CallFinishes` | gossip/comm/conn.go:87-123 | and ends with a new, live, stored connection, or with nothing if it could not connect, dropping its lock |
| `ConnectionCalls.NothingHasCause` | gossip/comm/conn.go:87-123 | in every run a call returns nothing only if its own attempt failed and nothing was stored for the peer when it committed |
| `ConnectionCalls.IncomingIsStored` | gossip/comm/conn.go:158-175 | an incoming connection is stored, live, in place of the peer's current one, which is closed; no other connection or call changes |
| `ConnectionCalls.ClosedIsRemoved` | gossip/comm/conn.go:131-184 | closing by peer and by id do the same: exactly the peer's connection is closed and taken out of the map |
| `DestinationLocks.ProtectedNoOverlap` | gossip/comm/conn.go:70-91 | while every call that may still connect to a peer uses the registered lock, one call at a time connects to it |
| `DestinationLocks.ProtectionLostExactly` | gossip/comm/conn.go:97-98 | that stops holding at a step if and only if the step commits a call while another call to the peer may still connect |
| `DestinationLocks.OneConnectsAtATime` | gossip/comm/conn.go:58-123 | in every run without such a commit no two calls are connecting to the peer at once |
| `DestinationLocks.OverlapExactly` | gossip/comm/conn.go:58-123 | from any reachable protected state, a step can be continued, with no further such commit, to two calls connecting at once if and only if the step is such a commit |
| `DestinationLocks.OverlapHappens` | gossip/comm/conn.go:58-123 | a concrete run with two calls connecting to one peer at once |
| `ConnectionStore.ConnStore.OnConnected` | gossip/comm/conn.go:158-175 | an incoming connection replaces and closes the peer's current one, touching no other entry |
| `ConnectionStore.ConnStore.CloseConn` | gossip/comm/conn.go:131-139 | removes and closes exactly the peer's connection |
| `ConnectionStore.ConnStore.GetConnection` | gossip/comm/conn.go:58-123 | undisturbed, the existing connection, else a new one stored under the peer's id, else nothing |
| `EventHandlers.TriplesDetermineMap` | events/producer/events.go:47-50 | with no empty inner map, the set of triples determines the nested map |
| `EventHandlers.AddTriple` | events/producer/events.go:66-81 | the nested update adds exactly one triple and leaves no inner map empty |
| `EventHandlers.RemoveTriple` | events/producer/events.go:113-125 | the pruning removal removes exactly one triple and leaves no inner map empty |
| `EventHandlers.ChaincodeHandlerList.Add` | events/producer/events.go:52-84 | adds exactly the triple asked for, or fails for exactly the stated reason and changes nothing |
| `EventHandlers.ChaincodeHandlerList.Del` | events/producer/events.go:85-128 | removes exactly the triple asked for, or fails for exactly the stated reason and changes nothing |
| `EventHandlers.ChaincodeHandlerList.Prune` | events/producer/events.go:113-125 | the step-by-step deletions equal the pruned map |
| `EventHandlers.ChaincodeHandlerList.Foreach` | events/producer/events.go:130-157 | each handler is called once per matching triple, the event's name and the catch-all counted separately |
| `EventHandlers.CallAll` | events/producer/events.go:143-145 | every handler of a set exactly once |
| `EventHub.KeyInjective` | events/producer/handler.go:46-59 | over separated chaincode ids equal keys mean equal registrations |
| `EventHub.SlashFreeSeparated` | events/producer/handler.go:46-59 | ids without "/" are separated |
| `EventHub.KeysDistinguishExactly` | events/producer/handler.go:46-59 | keys tell registrations apart if and only if no id followed by "/" begins another |
| `EventHub.IndexAlwaysExact` | events/producer/handler.go:61-84 | over separated ids every client's index matches its registrations exactly after any run of any clients |
| `EventHub.RegisterOutcome` | events/producer/handler.go:61-73 | registering adds exactly what is asked for, to hub and index, unless it is refused or there already; other clients are untouched |
| `EventHub.DeregisterOutcome` | events/producer/handler.go:75-84 | deregistering removes exactly what is asked for, if it is there |
| `EventHub.RegisterRoundTrip` | events/producer/handler.go:61-84 | deregistering undoes registering, hub and index alike, when the key was free |
| `EventHub.EntriesByType` | events/producer/events.go:274-286 | which interests are accepted, and as which kind of registration |
| `EventHub.SeparatedStopsClean` | events/producer/handler.go:86-94 | over separated ids a stopped client is mentioned nowhere |
| `EventHub.CollisionLeavesRegistration` | events/producer/handler.go:46-59 | for any two colliding ids, a run after which stopping leaves a registration |
| `EventHub.StopsCleanExactly` | events/producer/handler.go:40-44 | stopping always clears a client if and only if the ids are separated |
| `EventProducer.GenericHandlerList.Add` | events/producer/events.go:159-168 | adds the handler, or reports that it is there |
| `EventProducer.GenericHandlerList.Del` | events/producer/events.go:170-179 | removes the handler, or reports that it is not there |
| `EventProducer.GenericHandlerList.Foreach` | events/producer/events.go:181-187 | every handler exactly once |
| `EventProducer.EventProcessor.constructor` | events/producer/events.go:239-272 | three empty lists |
| `EventProducer.EventProcessor.RegisterHandler` | events/producer/events.go:274-286 | adds exactly the registration asked for to the right list, refusing unknown types, missing information and repeats |
| `EventProducer.EventProcessor.DeRegisterHandler` | events/producer/events.go:288-300 | removes exactly the registration asked for, or fails and changes nothing |
| `EventProducer.EventHandler.Register` | events/producer/handler.go:61-73 | the loop over a message takes the hub's steps one interest at a time, skipping refused ones |
| `EventProducer.EventHandler.Deregister` | events/producer/handler.go:75-84 | the same for deregistration |
| `EventProducer.EventHandler.DeregisterAll` | events/producer/handler.go:86-94 | removes from the hub exactly what the index names; the index ends empty if it matched the registrations, and otherwise keeps only entries whose registration was missing or named twice |
| `EventProducer.EventHandler.Stop` | events/producer/handler.go:40-44 | takes the hub's stop step |

## Left out

- Range-query paging and the query path between chaincodes (core/chaincode/handler.go:564-872, 1088-1170).
- Registration messages, launching and stopping containers, deregistration and keepalives of chaincode streams.
- Timeouts, stream failure and overlapping executions on one stream: contexts then disappear under pending work.
- The contents of the ledger, proposals and payloads.
- `ChaincodeCalls.CallOutcome`: counts a registered chaincode that is not running yet as refusing, because the branch of Launch that initialises it first (core/chaincode/chaincode_support.go:488-551) is not part of this model.
- `ChaincodeNetwork.SomebodyMoves`: excepts a request for a busy chaincode that would not refuse it, where executions would overlap.
- `ChaincodeNetwork.NoCircularWait`: has the same exception.
- `ChaincodeStream.StreamHandler.HandleGetState`: runs without interference; the run lemmas of `ChaincodeHandler` cover interference.
- `DiscoveryService.GossipDiscovery.HandleAliveMessage`: runs without interference; the run lemmas of `DiscoveryRuns` cover interference.
- `ConnectionStore.ConnStore.GetConnection`: runs without interference; the run lemmas of `ConnectionStore` cover interference.
- `Connection.GossipConnection.Send`: is one undisturbed call; the run lemmas of `Connection` cover concurrent callers.
- `Connection.GossipConnection.Close`: is one undisturbed call, without closing the streams; the run lemmas of `Connection` cover concurrent callers.
- Periodic loops, sending, bootstrap, reconnection and InitiateSync of gossip discovery, and updates of this peer's endpoint and metadata.
- Aliasing of the cached slice in createMembershipResponse (gossip/discovery/discovery_impl.go:319): lists are values.
- Shutdown of the connection store, getConnection without a peer id, readFromStream and delivery of received messages.
- Timing and termination of the emitter's goroutine; the callback itself.
- The event hub's channel, Send and its timeout, and message parsing.
- gRPC, TLS, signatures, certificates, protobuf encoding, configuration and logging.
- orderer, core/ledger, core/committer, core/peer, msp and core/util: wiring, or resting on code outside this model.
