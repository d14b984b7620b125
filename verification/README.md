# A model of the BeamMP server's core, in Dafny

The BeamMP server relays vehicles between players, runs Lua plugins, and keeps a few caches and counters. This
project models the parts in which a mistake would not show in one function alone, and proves what they keep:

* **Vehicle replication.** `Vehicles` is one client's vehicle list under the packet handlers and Lua, as plain values,
  `Outcomes` what the handlers come to slot by slot, and `UnicycleSlot` the exemption from the car limit; `Clients` and `Server` are the client and server objects whose
  methods are proved against it; `Replication` is the join protocol as a state machine, `SplitHandlers` and `SplitRuns`
  the same with the handlers taken apart, and `Sync` its two threads on the objects. `MissedPackets`, `Races` and `Udp` are the
  queue of a joining client, the disconnect and read-timeout races, and the binding of UDP endpoints.
* **The Lua engine.** `LuaEngine` holds the call queues, results and timers as objects; `Timers` is the timer loop
  interleaved with everything beside it, and `Firings` when it gets on. `Freeze` and `FreezeHeap` copy Lua values out of a state, on trees and on a heap
  with cycles; `GlobalEvents` carries event arguments through JSON. `LuaValues` and `Json` are the values themselves.
* **Accounting.** `ConnectionLimiter` and `GuardRuns` count connections, `ResourceManager` caches the hashes of client
  mods, `Profiling` keeps running statistics.
* **Wire and text formats.** `Framing` is the TCP stream with its compression, `PositionPackets` the two parses of a
  position packet, `Console` the splitting of a console line. `Octets` and `Wrappers` hold shared types.

Objects that the server updates in place are classes whose methods are proved against functions on plain values; what
the server promises is then proved of those functions, over every input or every run.

Assumptions that the theorems rest on:

* In `Replication` a packet handler, an `OnDisconnect` and a `RemoveVehicle` are one step each. The server is finer
  grained. It broadcasts edits, paints and deletes before it carries them out (src/TServer.cpp:448-449,
  src/TServer.cpp:478-481, src/TServer.cpp:538-547), and so too the removal of a vehicle by Lua (src/LuaAPI.cpp:318-320)
  and the deletes for a leaving player, whose Lua handlers come in between (src/TNetwork.cpp:968-982). It stores a spawned
  vehicle before it broadcasts it (src/TServer.cpp:401-402). It turns syncing off before it turns synced on
  (src/TNetwork.cpp:1282, src/TNetwork.cpp:1286). `SplitHandlers` gives the one-step assumption up in all these places.
  Syncing is turned on before the set of clients is copied; a copied client that has left is passed over there and one
  that has joined meanwhile may be visited, which covers this too. What remains is that a player ID is searched for and
  set in one step (src/TNetwork.cpp:986, src/TNetwork.cpp:1011).
* A spawn is two steps, with the Lua handlers between them, during which other Lua code may remove vehicles.
* The joining game client applies vehicle packets as the server does: an edit or paint of a vehicle it does not have, or
  with a payload that does not parse, changes nothing.
* Sockets, zlib and SHA-256 are represented by functions that are parameters. JSON and Lua values are trees; the text of
  JSON and the order in which Lua walks a table with string keys are parameters, while a sequence is walked in order.

What the proofs found:

* A Lua veto of a unicycle spawn, or the removal of the unicycle by Lua, leaves the slot reserved, and the client can
  then have one real car more than the limit. These two events, with a limit of at least one, are exactly what it takes
  (`UnicycleSlot.RealCarLimitIff`, `UnicycleSlot.StaleStepIff`).
* With the handlers taken apart a joiner comes out of step in a slot in three ways: its sync shows a vehicle whose change
  or removal was broadcast before syncing began and is not carried out, or whose spawn is not broadcast yet; a spawn is
  broadcast after Lua has removed the vehicle or announced its removal, which misleads every client; or something is
  broadcast in the gap between syncing and synced. Without these its slot is right (`SplitRuns.InStepUnless`), with them
  it is wrong exactly while what it holds differs from the server (`SplitRuns.ReplicaDiffersIff`), and later packets
  mend it in the cases given by `SplitRuns.StaysWrongIff`.
* A best-effort timer with two handlers advances exactly when its Lua state has taken every call for the event by the
  time each handler is offered, the call just accepted included. Otherwise it is put back, and its first handler is
  called over and over and its second never (`Firings.FiringCompletesIff`, `LuaEngine.Engine.FireTimer`).
* `stats()` exchanges minimum and maximum; the labels are right only when all samples are the same, and not even then
  for samples of zero, which are below the starting value of the maximum (`Profiling.LabelsRightIff`).
* `DeComp` says that it doubles its buffer; it takes the larger of the double and the limit, and so goes straight to 30
  MiB (src/Common.cpp:423-424). The model follows the code.
* A mod whose content changes without a later time and without a new size keeps its old hash, a file replaced by an
  older one included. A mod that can be read only in part when it is hashed gets the hash of that part, without an
  exception, and keeps it when it can be read again (`ResourceManager.PartialReadSticks`). A refresh is exact precisely
  when neither happens and hashing succeeds (`ResourceManager.RefreshIsExactIff`).
* "5" parses as the identifiers 5 and 5, because a missing dash makes both parts the whole string. Position packets are
  safe all the same (`PositionPackets.ParsersAgree`).
* Empty console arguments are dropped even when they are quoted (`Console.QuotedListIff`).

## Model

| member | source | states |
|---|---|---|
| Replication.JoinConverges | src/TNetwork.cpp:1236-1289 | after any run of handlers, joins, leaves, visits and deliveries, a synced client with a drained queue holds exactly the server's vehicles of everybody else |
| Replication.JoinerKeepsUp | src/TNetwork.cpp:721-758 | at every moment after the sync, replaying what is queued over what is held gives the server's current state |
| Replication.StepPreserves | src/TNetwork.cpp:1251-1286 | every step of the protocol keeps each slot either unvisited and empty or caught up, whatever was broadcast since the sync began |
| Replication.ReplayTwice | src/TNetwork.cpp:1291-1333 | replaying any list of vehicle packets over a slot that already contains them changes nothing |
| Replication.ReplayIsSummary | src/TServer.cpp:366-557 | any packet list acts on a slot like one keep, repaint, replacement or forced value |
| Replication.HandlerReplay | src/TServer.cpp:366-557 | the packets a handler broadcasts do to every slot what the handler does to the server's own list |
| Replication.LeaveReplay | src/TNetwork.cpp:957-983 | the deletes sent for a leaving player empty all its slots, whether or not they were filled |
| Replication.SnapshotReplay | src/TNetwork.cpp:1264-1278 | a visited client's list, sent as spawns, sets exactly the slots it has |
| SplitRuns.ReplicaDiffersIff | src/TServer.cpp:398-551 | after any interleaving of telling and doing, a synced and drained joiner is wrong about a slot with nothing outstanding exactly when it came out of step there and what it holds, followed through all later packets, is not what the server has |
| SplitRuns.InStepUnless | src/TNetwork.cpp:1251-1286 | a slot never visited too early, never spawned too late and never told about in the gap is right at every drained moment of every run |
| SplitRuns.StaysWrongIff | src/TServer.cpp:421-551 | a slot that is wrong stays wrong exactly when the later packets leave the difference: a spawn or delete always mends it, an edit if both sides have the vehicle, a repaint only if both then look the same |
| SplitRuns.HealsIff | src/TServer.cpp:559-581 | when a packet list brings two different slots to the same state |
| SplitRuns.EarlyVisitIff | src/TNetwork.cpp:957-983 | after any run in which one edit, paint, delete, removal or leaving was told before syncing begins, visiting before it is done ends synced, drained, and wrong exactly when it changes the slot |
| SplitRuns.LateSpawnWrong | src/LuaAPI.cpp:308-334 | a spawn told after Lua removed the vehicle or told its removal leaves the joiner with a vehicle the server does not have or is about to lose |
| SplitRuns.MissedIff | src/TNetwork.cpp:1282-1286 | something told in the gap between syncing and synced makes the slot wrong exactly when it changes what is promised |
| SplitHandlers.FineStepPreserves | src/TServer.cpp:398-551 | every step of telling, doing, visiting and switching keeps, for every slot, that what the joiner will hold is what is promised or what it came out of step with |
| SplitHandlers.DoIsDone | src/TServer.cpp:448-481 | doing what was told changes nothing that was promised, whatever removals by Lua overlap with it |
| SplitHandlers.RemovalIsDone | src/LuaAPI.cpp:318-320 | the same of a removal by Lua, also when the vehicle is gone already or its player has left |
| Sync.GainedIsHeard | src/TNetwork.cpp:1291-1333 | what a handler puts into the joining client's queue is what the replication protocol says it hears |
| Sync.FarewellIsHeard | src/TNetwork.cpp:957-983 | the same of the packets for a leaving player, but for the notice |
| Sync.SyncClient | src/TNetwork.cpp:1236-1289 | the others are told of the new player; the joiner is sent exactly the vehicles of all others, each as a spawn of its owner, so that an empty replica then holds everybody's vehicles; if it is gone before some packet, the sync is given up there |
| Sync.SyncShows | src/TNetwork.cpp:1264-1278 | what is sent once all clients are visited is every other client's vehicles as spawns and nothing else, and received it gives every other client's list |
| Sync.SnapshotsSpawn | src/VehicleData.cpp:34-35 | a message is among those sent exactly when it is the spawn of a vehicle of a client visited, under its owner's ID |
| Sync.DrainQueue | src/TNetwork.cpp:723-752 | delivers the queue in order up to the first failing send, after which the client is disconnected and the rest dropped; nothing while syncing or once disconnected |
| Vehicles.CarLimitHolds | src/TServer.cpp:357-484 | in every run, with vetoes, stale slots and removals by Lua, the counted cars stay within the limit, the list within one more, and identifiers distinct |
| Vehicles.CarStepPreserves | src/TServer.cpp:366-557 | each handler keeps distinct non-negative identifiers, the counted limit, and the identifier of a spawn in progress unused |
| UnicycleSlot.RealCarLimit | src/TServer.cpp:357-364 | as long as no event leaves the unicycle slot stale, the cars that are not unicycles stay within the limit |
| UnicycleSlot.RealCarLimitIff | src/TServer.cpp:357-420 | from any state of any run the real cars can come to exceed the limit, with no further event that makes the slot stale, exactly when the limit is at least one and the slot is not free and holds no unicycle |
| UnicycleSlot.StaleStepIff | src/LuaAPI.cpp:308-334 | from a state with a sound slot, exactly a vetoed reserving spawn and the removal of the slot's vehicle by Lua make that possible |
| UnicycleSlot.SlotStepIff | src/TServer.cpp:357-484 | an event makes the slot stale exactly when it is one of those two |
| UnicycleSlot.SlotInvStep | src/TServer.cpp:357-364 | the slot's identifier never exceeds the limit, and with a limit of zero points at nothing but a unicycle |
| UnicycleSlot.RemovalRaisesLimit | src/LuaAPI.cpp:308-334 | a client with only a unicycle cannot exceed the limit, and can once Lua has removed it, unless the limit is zero |
| UnicycleSlot.VetoRaisesLimit | src/TServer.cpp:398-417 | after a first unicycle spawn that Lua vetoes, one real car too many can be reached, unless the limit is zero |
| Vehicles.BroadcastIsMutation | src/TServer.cpp:400-557 | applying what a handler broadcasts to the list gives the list the handler leaves |
| Vehicles.ApplyOpIsEffect | src/TServer.cpp:559-581 | an operation changes its own slot as a replica would and no other slot |
| Outcomes.EditOutcome | src/TServer.cpp:421-467 | an edit that no plugin objects to replaces the stored document with the one sent; one that is objected to, or that takes the unicycle out of its slot, deletes the vehicle; every other vehicle stays |
| Outcomes.PaintOutcome | src/TServer.cpp:521-551 | a repaint stores the paints sent, every other field of the document and every other vehicle being as before |
| Outcomes.SpawnOutcome | src/TServer.cpp:357-420 | a spawn is stored and announced exactly when no plugin objects, it parses, and there is room or it is a unicycle for the free slot |
| Outcomes.DeleteOutcome | src/TServer.cpp:468-485 | a delete takes the one vehicle and frees the slot if it was in it |
| Outcomes.RemovalOutcome | src/LuaAPI.cpp:308-334 | a removal by Lua takes the vehicle if there is one with a document, and leaves the slot alone |
| Vehicles.OpenIdExists | src/Client.cpp:44-58 | every finite set of identifiers leaves a least free one |
| Vehicles.OpenIdBound | src/Client.cpp:44-58 | if all identifiers below some number are used, the set has at least that many |
| Vehicles.DeleteKeepsDistinct | src/Client.cpp:26-37 | deleting removes exactly one identifier and keeps the rest distinct |
| Clients.Client.GetOpenCarID | src/Client.cpp:44-58 | the passes end with the least non-negative unused identifier, which is at most the number of vehicles |
| Clients.Client.AddNewCar | src/Client.cpp:60-63 | the vehicle joins the end of the list |
| Clients.Client.DeleteCar | src/Client.cpp:26-37 | the first vehicle with the identifier goes, the others keep their order |
| Clients.Client.GetCarData | src/Client.cpp:110-121 | the stored configuration, or null when there is none; the list is unchanged even on the deleting path |
| Clients.Client.SetCarData | src/Client.cpp:123-134 | the first vehicle with the identifier gets the new configuration, the others nothing |
| Clients.Client.GetCarCount | src/Client.cpp:136-146 | all vehicles but the one whose identifier is in the unicycle slot |
| Clients.Client.EnqueuePacket | src/Client.cpp:152-155 | the packet joins the end of the queue |
| Clients.Client.Disconnect | src/Client.cpp:79-103 | succeeds exactly for the caller that finds the client connected, and then closes the socket |
| Server.Server.OpenID | src/TNetwork.cpp:985-1003 | the least non-negative ID no client has, for any order in which the passes visit the clients |
| Server.Server.AssignID | src/TNetwork.cpp:1005-1011 | choosing and setting an ID as one step keeps all player IDs distinct |
| Server.Server.SendToAll | src/TNetwork.cpp:1291-1333 | exactly the synced and syncing clients, without the sender unless asked, gain the packet at the end of their queues |
| Server.Server.SpawnVehicleBegin | src/TServer.cpp:375-379 | chooses the identifier that the first step of a spawn reserves |
| Server.Server.CheckSpawn | src/TServer.cpp:357-364 | allows a spawn below the limit or into the free unicycle slot, which it takes at once, before any veto is looked at |
| Server.Server.SpawnVehicleEnd | src/TServer.cpp:398-416 | accepted exactly when no plugin objects, it parses, and there is room or a free slot for a unicycle; then it is stored and everyone listening gains the spawn, and otherwise it goes back to its owner, followed by its delete |
| Server.Server.Apply | src/TServer.cpp:559-581 | an edit replaces the configuration of a vehicle that exists when it parses, and is ignored otherwise |
| Server.Server.EditVehicle | src/TServer.cpp:421-467 | without an objection the vehicle holds the document sent and every other listening client gains the edit; with one the vehicle is gone and everyone listening gains its delete; anything but one's own vehicle is ignored |
| Server.Server.DeleteVehicle | src/TServer.cpp:468-485 | one's own vehicle is gone, the slot free, and everyone listening gains the delete |
| Server.Server.PaintVehicle | src/TServer.cpp:521-551 | one's own vehicle with paints holds the paints sent and is otherwise unchanged, and the others gain the repaint; it ends in an exception exactly when it would be stored and does not parse |
| Server.Server.RemoveVehicle | src/LuaAPI.cpp:308-334 | takes a vehicle that exists, every other one and the slot staying, and everyone listening gains the delete |
| Server.Server.OnDisconnect | src/TNetwork.cpp:957-983 | everyone else gains a delete for every vehicle and then the notice; the client is gone and has no vehicles |
| MissedPackets.NothingLost | src/TNetwork.cpp:721-758 | in every interleaving, while connected, delivered, in flight and queued together are the packets ever enqueued, in order |
| MissedPackets.NothingDrainedWhileSyncing | src/TNetwork.cpp:733-745 | no packet leaves the queue before syncing is over |
| MissedPackets.DiscardIsTerminal | src/TNetwork.cpp:745-752 | the queue is only thrown away of a client that is disconnected for good, and nothing is delivered after |
| MissedPackets.EverythingDelivered | src/TNetwork.cpp:733-752 | the looper of a connected and synced client with a queue starts at its next check, and left alone with a working socket delivers everything ever enqueued, in order |
| Races.OneDisconnectWins | src/Client.cpp:79-103 | when all of any number of concurrent callers have returned, exactly one was told that it won, and it alone closed the socket |
| Races.DisconnectOnlyForward | src/Client.cpp:79-103 | the disconnect state never goes back, in any interleaving |
| Races.PromiseSetOnce | src/TNetwork.cpp:839-884 | the read's promise is set at most once, exactly once when both handlers have run, to a timeout exactly when the timeout won, and otherwise to what the read came to |
| Udp.Dispatch | src/TNetwork.cpp:183-228 | a datagram whose first byte is an ID and one, and whose second is a colon, binds the unbound client of that ID if its magic follows, and no other; from a bound client's endpoint what follows is parsed as that client's and nobody else's |
| Udp.DispatchedIff | src/TNetwork.cpp:170-185 | which datagrams are looked at at all |
| Udp.ProofBinds | src/TNetwork.cpp:193-217 | ID, colon and the 64 bytes issued bind the client to the sender's endpoint |
| Udp.BoundParses | src/TNetwork.cpp:218-224 | the payload of a bound client's datagram is what follows two bytes, and is parsed from its endpoint only |
| Udp.BindsExactlyOnProof | src/TNetwork.cpp:193-217 | in every run the endpoint changes exactly on a datagram of 66 bytes with the client's number and the magic issued |
| Udp.BoundForever | src/TNetwork.cpp:193-217 | once bound, a client's endpoint never changes and its magic stays empty |
| Udp.ParsedOnlyFromProver | src/TNetwork.cpp:218-224 | payloads are parsed only from the endpoint bound before |
| Udp.ProverOf | src/TNetwork.cpp:1017-1028 | every bound endpoint goes back to an earlier datagram that proved the magic issued |
| Freeze.RoundTrip | src/TLuaEngine.cpp:542-573 | a frozen value thaws to its string-key projection, and to itself exactly when every table followed is all strings or all positive integers |
| Freeze.ThawIsProjection | src/TLuaResult.cpp:191-252 | at any depth, thawing what freezing gives is the projection |
| Freeze.ProjectionIsIdentityIff | src/TLuaResult.cpp:214-248 | the projection loses nothing exactly when all tables are uniform |
| Freeze.NumberFrozen | src/TLuaResult.cpp:199-205 | a number leaves the state as an int exactly when it is whole and in the range of int, and as a double otherwise |
| Freeze.FreezeThawFreeze | src/TLuaResult.cpp:191-252 | freezing what was thawed gives the same frozen value again |
| FreezeHeap.FreezeRecursive | src/TLuaResult.cpp:191-252 | on a heap that may have cycles the recursion ends and gives the frozen value, or fails |
| FreezeHeap.FreezeTable | src/TLuaResult.cpp:208-248 | the loop over one table tells sequences from other tables, fills gaps with nil, and skips keys of other types |
| FreezeHeap.FreezeIsFreezeOfUnfolding | src/TLuaResult.cpp:191-252 | sharing and cycles make no difference: freezing a heap value is freezing the tree it unfolds to |
| FreezeHeap.FailsIffObstacle | src/TLuaResult.cpp:191-252 | freezing fails exactly when a followed path is longer than 64 or ends at an unsupported value |
| FreezeHeap.SelfReferenceFails | src/TLuaResult.cpp:191-200 | a table that contains itself under a followed key cannot be frozen |
| GlobalEvents.ArgumentsRoundTrip | src/TLuaEngine.cpp:465-506 | an argument list arrives as it was sent, nils and trailing nils in place, exactly when every argument is nil or a faithful value other than the one that stands for nil |
| GlobalEvents.ArgumentsArrive | src/TLuaEngine.cpp:474-506 | what arrives for each argument: functions and the like as nil in their places, and the one string that stands for nil as nil too |
| GlobalEvents.NumberEncoded | src/LuaAPI.cpp:750-757 | a number is written as an integer exactly when it is whole and in the range of int |
| GlobalEvents.EntriesShape | src/LuaAPI.cpp:784-804 | a table whose keys are all numbers, whole or not, becomes an array, and any other an object |
| GlobalEvents.SurvivesIffFaithful | src/LuaAPI.cpp:696-804 | a value survives encoding and decoding exactly when its tables are dense sequences or have non-empty names, and nest no deeper than 100 |
| GlobalEvents.JsonEncodeRecursive | src/LuaAPI.cpp:696-782 | the routine adds to the JSON exactly the entry that the encoding says, or nothing |
| GlobalEvents.JsonEncodeTable | src/LuaAPI.cpp:784-804 | the two loops over a table give its encoding, array or object |
| GlobalEvents.JsonDecodeRecursive | src/TLuaEngine.cpp:809-855 | filling tables entry by entry gives the decoded value |
| LuaEngine.LuaResult.MarkReadySuccess | src/TLuaResult.cpp:127-133 | ready with the frozen value, or an exception that leaves it unready |
| LuaEngine.LuaResult.MarkReadyError | src/TLuaResult.cpp:151-157 | ready with an error |
| LuaEngine.StateThread.EnqueueFunctionCall | src/TLuaEngine.cpp:1160-1166 | the call joins the end of the queue with a fresh unready result |
| LuaEngine.StateThread.EnqueueFunctionCallFromCustomEvent | src/TLuaEngine.cpp:1140-1158 | refused exactly when best effort and a call for the event waits, and then nothing changes |
| LuaEngine.StateThread.TriggerLocalEvent | include/TLuaEngine.h:176-190 | every handler's call joins the queue, in order, each with its own result |
| LuaEngine.StateThread.TakeCall | src/TLuaEngine.cpp:1220-1229 | the first call is taken; executed, running and waiting calls stay the calls ever enqueued |
| LuaEngine.StateThread.FinishCall | src/TLuaEngine.cpp:1230-1282 | the call's result becomes ready, for the first and only time, and without an error exactly when its value could be frozen |
| LuaEngine.AnyObjects | src/TServer.cpp:385-396 | a plugin objects exactly when some handler ended without an error and returned an int other than zero |
| LuaEngine.Engine.CheckResults | src/TLuaEngine.cpp:83-104 | drops ready results and keeps the order of the rest |
| LuaEngine.UnreadyExactly | src/TLuaEngine.cpp:83-104 | no unready result is ever dropped from the check list, and no ready one kept |
| LuaEngine.Engine.CancelEventTimers | src/TLuaEngine.cpp:1314-1328 | erasing one by one removes all timers of that event and state |
| LuaEngine.RemainingExactly | src/TLuaEngine.cpp:1314-1328 | the timers left are exactly those of another event or state |
| LuaEngine.Engine.FireTimer | src/TLuaEngine.cpp:106-132 | uninterrupted, a precise timer gets all its handlers accepted and a best-effort one at most one; it advances exactly when all were accepted |
| Timers.AtMostOneBestEffort | src/TLuaEngine.cpp:1140-1158 | in every run, whatever else is enqueued or taken, a queue holds at most one call per event that a best-effort timer put there |
| Timers.EveryFiring | src/TLuaEngine.cpp:106-132 | in every run each firing has accepted a prefix of its handlers, listed exactly their results for checking, and reset its timer exactly when that was all of them |
| Timers.PassedOverIff | src/TLuaEngine.cpp:1340-1343 | a look at a timer passes it over exactly when less than its interval has gone by |
| Timers.NoResultForgotten | src/TLuaEngine.cpp:83-104 | in every run an accepted call's result stays in the check list until it is ready |
| Firings.AcceptedIff | src/TLuaEngine.cpp:117-129 | in every reachable firing of a best-effort timer the next handler is accepted exactly when the state has taken every call ever issued for the event |
| Firings.FiringCompletesIff | src/TLuaEngine.cpp:106-132 | whatever happens between its offers, a best-effort firing accepts all handlers and advances its timer exactly when the state takes every call in time, and leaves the timer as it was otherwise |
| Firings.NextHandlerRefused | src/TLuaEngine.cpp:117-129 | while a call for the event waits and the state takes none, the next handler is refused and the timer stays expired |
| Timers.StepPreserves | src/TLuaEngine.cpp:106-132 | every step keeps queues in issue order and every call either waiting or taken |
| ConnectionLimiter.Limiter.Create | src/TConnectionLimiter.cpp:24-35 | refused exactly when a limit is zero |
| ConnectionLimiter.Limiter.TryAcquire | src/TConnectionLimiter.cpp:37-51 | refuses exactly when the guards alive, in all or for the address, have reached the limit; otherwise one more is alive |
| ConnectionLimiter.Limiter.Release | include/TConnectionLimiter.h:69-82 | one connection fewer, with every counter still exact; the tests against underflow never fail |
| ConnectionLimiter.Limiter.CountersAgree | include/TConnectionLimiter.h:69-82 | total, sum of buckets and number of live guards are equal, and every bucket is its address's guards |
| ConnectionLimiter.ScanBuckets | src/TConnectionLimiter.cpp:60-67 | the largest bucket and the number of saturated ones |
| ConnectionLimiter.Limiter.GetStats | src/TConnectionLimiter.cpp:53-69 | reports the live connections, the true maximum and the saturated buckets |
| ConnectionLimiter.Guard.Release | src/TConnectionLimiter.cpp:90-96 | drops its own connection once; a second call does nothing |
| ConnectionLimiter.Guard.MoveFrom | src/TConnectionLimiter.cpp:77-88 | the target's connection is dropped and the other's handed over; moving a guard to itself changes nothing |
| GuardRuns.CountersAreLiveGuards | src/TConnectionLimiter.cpp:37-96 | in every run of acquiring, moving, self-moving and destroying any number of guards, all counters are those of the guards alive and within the limits |
| GuardRuns.NoUnderflow | include/TConnectionLimiter.h:69-82 | in every run a live guard's bucket and the total are positive, so no guard against underflow is needed |
| ResourceManager.RefreshIsExactIff | src/TResourceManager.cpp:61-205 | after any run, and whatever can be read now, a refresh lists every mod once with the hash of its current content, database in agreement, exactly when every mod that looks as when it was hashed has the hash of what was read then, and every other is hashed without an exception and has the hash of what can be read |
| ResourceManager.PartialReadSticks | src/TResourceManager.cpp:131-152 | a new mod of which only a part with another hash could be read stays wrong in a later refresh that could read all of it |
| ResourceManager.RefreshIsExact | src/TResourceManager.cpp:61-205 | after any run in which new content has a later time and what is hashed is read whole, the list is exact |
| ResourceManager.StepPreserves | src/TResourceManager.cpp:61-241 | every edit, deletion, restart, refresh and change of protection keeps each entry describing the file that was hashed for it, and the list in agreement |
| ResourceManager.ResourceManager.RefreshFiles | src/TResourceManager.cpp:61-205 | the walk over the folder and the sweep of unmarked entries give the new list and database, from what can be read of each file |
| ResourceManager.FeedDigest | src/TResourceManager.cpp:131-152 | the chunks fed to the digest are the file's content, cut at the size it had |
| ResourceManager.ResourceManager.SetProtected | src/TResourceManager.cpp:207-241 | the flag is set in the first mod of the name and in its database entry, and nowhere else |
| ResourceManager.ListingHas | src/TResourceManager.cpp:81-182 | a mod is listed exactly when it is a regular .zip that is cached or was hashed, with that hash and flag |
| ResourceManager.ModsAreZipFiles | src/TResourceManager.cpp:84-91 | the mods are the regular files named something and then ".zip" |
| ResourceManager.HashIsCurrentIff | src/TResourceManager.cpp:93-98 | over any database, an entry gives the hash of the current content exactly when what was read for it, or is read now if time or size show a change, has that hash |
| ResourceManager.ProtectionLasts | src/TResourceManager.cpp:93-111 | protection survives refreshes that find the file unchanged and ends with the next rehash |
| Profiling.UnitExecutionTime.AddSample | src/Profiling.cpp:36-43 | the fields remain the sums, extremes and count of all samples so far |
| Profiling.UnitExecutionTime.GetStats | src/Profiling.cpp:22-34 | the mean by its definition, the root of the mean squared deviation, and the mean between the extremes, which are reported exchanged |
| Profiling.VarianceIs | src/Profiling.cpp:32-33 | the mean of the squares less the squared mean is the mean squared deviation |
| Profiling.MeanBetween | src/Profiling.cpp:26-30 | the mean lies between any bounds of the samples |
| Profiling.LabelsRightIff | src/Profiling.cpp:26-28 | the reported minimum is at most the reported maximum exactly when all samples are one and the same within the range of the starting values |
| Profiling.ExtremesAreSamplesIff | src/Profiling.cpp:40-41 | a tracked extreme is a sample exactly when some sample is no further out than its starting value |
| Framing.StreamRoundTrip | src/TNetwork.cpp:596-698 | packets sent through either path are received as the same list, however the byte stream is cut into chunks |
| Framing.ResponsesRoundTrip | src/TNetwork.cpp:1216-1234 | reliable responses of any kinds and lengths are received as sent, compressed or not |
| Framing.ResponsePayload | src/TNetwork.cpp:1216-1234 | which reliable responses go out compressed: those above 400 bytes that are of kind O or T or above 1000 bytes |
| Framing.CutOffReceived | src/TNetwork.cpp:620-698 | a stream that ends anywhere delivers exactly the packets whose frames have arrived completely |
| Framing.ArrivesIff | src/TNetwork.cpp:640-698 | an uncompressed packet arrives as sent exactly when it is under the limit and does not start like a compressed one of something else |
| Framing.FrameRejected | src/TNetwork.cpp:643-660 | a packet at or over the limit gets its sender kicked, a header that turned negative included |
| Framing.Int32RoundTrip | src/TNetwork.cpp:605-609 | the four header bytes read back as the length, or as a negative number when it does not fit |
| Framing.LittleEndian | src/TNetwork.cpp:605-609 | the header's bytes are the length, least significant byte first |
| Framing.Stream.Read | src/TNetwork.cpp:631-672 | reading n bytes is independent of the chunks they come in, and fails exactly when the stream is too short |
| Framing.TCPRcv | src/TNetwork.cpp:620-706 | a plain packet below 4096 bytes, or 100 MiB for a client with a name, is returned as it is; one of that size or more gets the client kicked, with the reason sent unless it is syncing |
| Framing.TCPClient | src/TNetwork.cpp:777-801 | a named client's sendable packets with payloads below 100 MiB are all handed on, however the stream is cut; the loop ends at the first empty or failing packet, and then the client is disconnected |
| Framing.DeComp | src/Common.cpp:395-440 | ends after at most two attempts: five times the input but at most 15 MiB, and then 30 MiB |
| Framing.AcceptsExactly | src/Common.cpp:395-440 | compressed data of any ratio is accepted exactly when its output is at most 30 MiB |
| Framing.NeverTooLarge | src/Common.cpp:395-440 | no input, well-formed or not, yields more than 30 MiB |
| PositionPackets.ParsersAgree | src/TServer.cpp:595-627 | whenever both parses of a position packet succeed they give the same player and vehicle |
| PositionPackets.DispatchedIffColonBeforeBrace | src/TServer.cpp:294-313 | a packet that would be stored is dispatched exactly when a colon stands right before its brace |
| PositionPackets.PositionRoundTrip | src/TServer.cpp:595-627 | a packet made of any two identifiers in the range of int and data that starts with a brace is parsed back by both |
| PositionPackets.PidVidRoundTrip | src/TServer.cpp:41-56 | printed identifiers parse back |
| PositionPackets.ParsesIff | src/TServer.cpp:41-56 | exactly which strings parse as identifiers, and to what: numerals in the range of int around the first dash, or one numeral for both |
| PositionPackets.DispatchPosition | src/TServer.cpp:294-313 | relayed exactly when the colon parse names the sender; stored exactly when it is relayed and the brace parse succeeds, and then under the sender's own vehicle |
| PositionPackets.HandlePosition | src/TServer.cpp:644-648 | stores the data under the parsed vehicle, or nothing |
| Console.ParseInvertsQuoting | src/TConsole.cpp:352-405 | a command and any arguments in quotes they do not contain, or bare, with any blanks between, parse back to the command and the arguments that are not empty |
| Console.QuotedListIff | src/TConsole.cpp:391-402 | a list put in double quotes parses back to itself exactly when no argument is empty |
| Console.UnclosedQuoteIff | src/TConsole.cpp:376-395 | a quote that is never closed stays in its word, and is dropped exactly when it is the whole word |
| Console.ParseCommand | src/TConsole.cpp:352-405 | the nested loops end on every line and give its command and arguments |
| Console.ParseArgs | src/TConsole.cpp:361-404 | the two pointers never part from the argument list: what is parsed and what the rest parses to is the whole |
| Console.SkipCharacter | src/TConsole.cpp:372-390 | the seeker jumps to the closing quote if there is one, and over one character otherwise |

## Left out

- Finer interleavings than those of SplitHandlers: a player ID is searched for and set in one step.
- The game client itself: it is taken to apply vehicle packets as the server does, with malformed edits and paints ignored.
- Server.Server.SpawnVehicleEnd: the Lua events after a handler are not modelled, and sending to the owner always succeeds.
- Server.Server.EditVehicle: takes the identifiers and the document that a packet's text parses to; the text of vehicle packets is not modelled.
- A paint packet without a bracket is ignored like one whose identifiers do not parse.
- Vehicle resets, switches and trailers ('r', 't', 'm' packets): they are relayed and change no state.
- MaxCars changed while the server runs: the limit is fixed in a run.
- Packets other than vehicle and position packets, and what parsing one does to the client that sent it: Framing.TCPClient stops at handing it on.
- Framing.TCPRcv: a read that times out is a stream that ends; writing the packet of a kick always succeeds.
- Framing.DeComp: an allocation that fails is not modelled; the decompressor is a function of input and capacity.
- The compressor's own failure: Comp always returns something.
- Udp.Dispatch: of a datagram of one byte from a bound endpoint the server erases two bytes; here its payload is empty.
- FreezeHeap.FreezeTable: a number that is not whole within 2^-52 of one counts as no index here; a sparse index never makes the array allocation fail.
- Conversion of Lua numbers: a number converts to int when it is whole and in the range of int.
- GlobalEvents.ArgumentsRoundTrip: the text of JSON, and with it strings that are not UTF-8, is not modelled; numbers pass through unchanged.
- LuaEngine.Engine.FireTimer: the state takes no call meanwhile; module Timers has the interleavings.
- TriggerEvent over several states: it is TriggerLocalEvent for each state but one.
- Script loading queue, plugin folders and the rest of the Lua API: plumbing around the queues modelled.
- ConnectionLimiter.Guard.MoveFrom: that guards cannot be copied is a precondition; GuardRuns has whole runs of several guards.
- ResourceManager.ResourceManager.RefreshFiles: files do not change during a refresh, and their time and size can always be read; mods.json is a value, so bytes left behind a shorter text written over a longer one, which the lenient parser ignores, are not modelled, and neither is a database that cannot be read or written.
- ResourceManager.RefreshIsExactIff: a run starts without a database; one left by an earlier run is a run with a restart.
- Profiling.UnitExecutionTime.GetStats: real numbers instead of doubles, with the square root and the range of the type as parameters.
- Console.ParseCommand: blanks are those of the C locale.
- Sockets, accept loops, TLS, the HTTP server and client, heartbeat, settings, authentication, mod downloads, eviction of stale clients, the player limit and console commands.
