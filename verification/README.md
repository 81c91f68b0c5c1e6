# A verified model of the ICP runtime and the industrial adapters

The runtime keeps a set of protocol adapters, polls them in turn, and keeps the latest
snapshot of every piece of equipment in a cache. This project models that runtime and
five of the adapters it polls (mock, Modbus TCP, REST, EtherNet/IP, MQTT), together with
the session objects under EtherNet/IP and MQTT, and proves what holds of them in every
run and for every behaviour of the field devices.

Check it with `dafny verify dfyconfig.toml` (Dafny 4.11).

## How the source is modelled

- Objects whose methods update fields are classes with those fields: `AdapterManager`,
  `LiveStateCache`, `PollScheduler`, `GenericEquipment`, each adapter, `EipSession`,
  `MqttSession` and the process-wide `ClientIdRegistry`. Each method is proved against a
  function or predicate of the old state; the laws are lemmas about those functions.
- What the outside world decides is an argument: the answer of a device to a read, of a
  broker to a connect, of the tag library to a create, the choice of a hash map's order.
  A statement over all arguments is a statement over all behaviours.
- The adapter interface is `AdapterContract`: an adapter's observable state as a value
  (`AdapterView`) and the functions `AfterConnect`, `AfterDisconnect`, `AfterPoll`,
  `AfterCommand`, `AfterLinkFailure` and `AfterClear` of a reply. The runtime is proved
  against the contract, and every operation of the five adapters is proved to be one of
  those steps (`View() == AfterConnect(old(View()), ...)` and so on).
- Every method of the manager and of the cache holds one mutex for its whole body, so it
  is one atomic step. The one exception is `removeAdapter`, which lets go of the mutex
  before it disconnects the adapter it took out; nothing can reach that adapter through
  the manager any more, so removal is one step too. A command runs outside the manager's lock and is a step of its own
  in `IcpRuns`. The network thread's callbacks in the MQTT session are atomic steps under
  the session's mutex; those that run while `receive` waits are part of its argument. The
  poll worker and its start and stop calls are split at every load and store of the flag
  in `SchedulerThread`.
- Numbers are reals. The word written to a Modbus register, the 32-bit integer written to
  a tag and the decimal text of an index are spelled out.

## Main results

- **Runtime.** A poll pass leaves one closed form of the cache (`PassSettles`), which is
  spelled out in the fields of the equipment and of the answers (`PassLeavesFields`), and the
  order the hash map gives plays no part exactly if exposed ids are disjoint
  (`OrderIrrelevantIff`). Right after a pass the cache answers what the manager's
  first-match scan would (`CacheAgreesWithManager`), for a Connected adapter exactly if it
  lists no id twice (`AlwaysAgreesIff`). In every reachable state each entry shows its
  owner's equipment as the last pass that refreshed it left it (`EntryShowsLastRefresh`).
  Over every run, ids stay disjoint
  exactly unless a connect binds ids in use and then fails (`RunDisjointIff`); the MQTT
  adapter's first connect can do that, because it binds before it subscribes
  (`DisjointBrokenByFailedSubscribe`). Machine faults are never invented and never lost
  by communication trouble (`NoInventedFault`, `QuietRunKeepsFault`, `FaultIsLastRead`).
  A Faulted adapter keeps its ids reserved (`ReservationHolds`). The worker thread's life
  cycle is safe in every interleaving (`EveryRunIsSafe`).
- **Polling adapters.** A poll leaves a cut through the reading plan, and the adapter is
  Faulted exactly when the cut is before the end (`Poll` of Modbus, REST, EtherNet/IP).
  By what the device answered: the cut ends at the first read that fails
  (`PollEndsAtFirstFailure`), and telemetry, operational state and machine fault show the
  last answer within it and otherwise what they were (`PollShowsTelemetry`,
  `PollChangesStateOnlyByReading`, `PollChangesFaultOnlyByReading`).
- **EtherNet/IP.** Handles are conserved through every connect, failed or not; tag keys
  can be read back for every equipment id (`KeyRoundTrip`); the table can be created
  exactly when no two mappings clash and the library creates each tag (`KeysDistinctIff`,
  `Connect`). A command reaches the device tag its first mapping names (`Execute`), an
  integer tag with the nearest integer (`DintIsNearest`).
- **MQTT.** The bounded queue that drops its oldest message shows the same values as a
  lossless one whenever the last writer is among the last 4096 arrivals
  (`SessionShowsLossless`, on the adapter object, whose history its methods pin down to
  the messages that really arrived). For given arrivals it does so in every interleaving
  exactly then, or if no arrival writes anything new (`AlwaysLosslessIff`). A connect
  succeeds exactly if the session opens and each merged subscription is acknowledged
  (`Connect`). After a poll an item's fault, state and telemetry are what the last message
  taken on their topic says (`PollShowsLastMessage`, `PollShowsLastPoint`). Client ids are never shared on one broker
  (`RunKeepsClaims`). The subscriptions are one per topic at the largest level asked for.
- **Values.** The substitution scan is the leftmost split and join, and when one scan is
  enough is settled exactly for any token and replacement (`TokenIsGoneIff`) and for
  number texts in plain words (`OneScanIsEnoughIff`). Register quantisation rounds to the
  nearest word and round-trips. A value set on the mock stays until it is overwritten.

Findings where the code does less than one might expect:

- An MQTT connect that fails to subscribe, with nothing kept from a fault, leaves its new
  equipment exposed without the collision check
  (industrial/src/MqttIndustrialAdapter.cc:462-472, icp/src/AdapterManager.cc:77-84).
  It happens exactly if the session opens and an acknowledgement is missing (`Connect`),
  which some broker brings about wherever a topic is mapped (`SomeBrokerRefuses`).
- With an id exposed by two adapters, in whatever states, there are two visiting orders
  that never leave the same cache (`OrderMattersOnCollision`).
- If one adapter lists an id twice, the cache keeps the last item and the manager finds
  the first. While the adapter is Connected a poll can then tell them apart
  (`PollThatDisagrees`); while it is Faulted they agree exactly if the first and the last
  item of each id look the same (`AlwaysAgreesIff`).
- The client key joins host, port and id with a line break. Two different clients share a
  key exactly if one's host runs on, after the other's host and port and a line break,
  into the other's id (`SameKeyIff`, `ClientKeyNeedsPlainHosts`), which needs a host with
  a line break.
- Rewriting the password in an error text leaves no password behind exactly if the
  password does not begin inside "[redacted]" and no start of it can run on into that
  text (`TokenIsGoneIff`); for the password "red" it does not (`RedSurvives`).
- A new topic's level is clamped when it is first listed but not when it is raised; the
  session clamps again, so the broker sees the right level (`ClampedIsEffective`).

## Model

| member | source | states |
|---|---|---|
| AdapterContract.AfterConnect | industrial/include/virtual_factory/industrial/IndustrialAdapter.hh:47-60 | a connect is Connected afterwards exactly if it answered true, and keeps "Disconnected shows nothing, Connected has no error text" |
| AdapterContract.AfterPoll | industrial/include/virtual_factory/industrial/IndustrialAdapter.hh:58-64 | a poll never changes which ids are exposed, and changes nothing but the error text unless the adapter was Connected |
| AdapterContract.AfterCommand | industrial/src/ModbusIndustrialAdapter.cc:77-120 | a command, run outside the manager's lock, never changes which ids are exposed |
| AdapterContract.FirstIsLast | icp/src/LiveStateCache.cc:71-78 | with distinct ids the item a first-match scan finds is the one an overwriting loop keeps |
| GenericEquipments.GenericEquipment.AddCapability | equipment/src/GenericEquipment.cc:95-101 | a name is added once, at the end, and the list stays free of repetitions |
| GenericEquipments.GenericEquipment.SetTelemetry | equipment/src/GenericEquipment.cc:103-111 | exactly the named point changes |
| GenericEquipments.GenericEquipment.SetFault | equipment/src/GenericEquipment.cc:113-116 | exactly the machine fault changes |
| GenericEquipments.GenericEquipment.SetOperationalState | equipment/src/GenericEquipment.cc:118-121 | exactly the operational state changes |
| GenericEquipments.GenericEquipment.Execute | equipment/src/GenericEquipment.cc:43-72 | accepted exactly if the command is a capability; only start and stop change anything, and only the operational state |
| GenericEquipments.BindAll | industrial/src/ModbusIndustrialAdapter.cc:304-311 | newly allocated items, one per mapping in mapping order, stopped, without fault or telemetry, with capabilities and then commands |
| GenericEquipments.BindAnewSameIds | industrial/src/ModbusIndustrialAdapter.cc:304-311 | binding anew for mappings of the same ids exposes the same ids |
| GenericEquipments.CapabilitiesAreUnion | equipment/src/GenericEquipment.cc:95-101 | adding names keeps the list, adds what is missing and nothing else, and repeats none |
| GenericEquipments.MappedCapabilities | industrial/src/ModbusIndustrialAdapter.cc:36-44 | newly bound equipment can do what its mapping lists and what it maps commands for, each once |
| IndustrialAdapters.IndustrialAdapter.EquipmentById | industrial/src/ModbusIndustrialAdapter.cc:263-278 | the first exposed item with the id, or none; none while Disconnected |
| LiveStateCaches.LiveStateCache.UpdateFromAdapter | icp/src/LiveStateCache.cc:43-79 | afterwards the adapter's entries are exactly its exposed ids, each with the id, type, state, fault, telemetry, protocol, link state and error text of its last item of that id; entries of other adapters under other ids are untouched, and stale still means not Connected |
| LiveStateCaches.LiveStateCache.PruneAdapter | icp/src/LiveStateCache.cc:48-69 | erasing while iterating removes exactly the adapter's entries it no longer exposes |
| LiveStateCaches.LiveStateCache.Overwrite | icp/src/LiveStateCache.cc:71-78 | each exposed id shows, field by field, the last item of it, every other entry stays |
| LiveStateCaches.LiveStateCache.MarkAdapterCommunication | icp/src/LiveStateCache.cc:81-101 | only the communication fields of the adapter's entries change; machine faults and telemetry stay |
| LiveStateCaches.LiveStateCache.RemoveAdapterEquipment | icp/src/LiveStateCache.cc:103-117 | exactly the adapter's entries go |
| LiveStateCaches.LiveStateCache.EquipmentById | icp/src/LiveStateCache.cc:125-135 | the entry of the id, or none |
| LiveStateCaches.RefreshShowsBound | icp/src/LiveStateCache.cc:13-39 | a refresh leaves every bound item in the cache, field by field, and no other entry of the adapter, none at all if it is Disconnected |
| AdapterManagers.AdapterManager.AddAdapter | icp/src/AdapterManager.cc:15-38 | refuses null, empty and duplicate ids, each with its own result, and otherwise adds exactly the adapter |
| AdapterManagers.AdapterManager.RemoveAdapter | icp/src/AdapterManager.cc:40-60 | the adapter leaves the manager and ends Disconnected; no other adapter changes |
| AdapterManagers.AdapterManager.ConnectAdapter | icp/src/AdapterManager.cc:62-92 | the adapter's own connect, undone by a disconnect if an exposed id is taken; every other adapter is untouched; the result says which way it went and names a shared id and its other owner |
| AdapterManagers.AdapterManager.KeepOrRollBack | icp/src/AdapterManager.cc:84-92 | a collision leaves the candidate Disconnected, otherwise nothing changes |
| AdapterManagers.AdapterManager.CheckEquipmentIdCollisions | icp/src/AdapterManager.cc:209-238 | a collision is reported if and only if another adapter exposes one of the candidate's ids, whatever order the map gives |
| AdapterManagers.AdapterManager.DisconnectAdapter | icp/src/AdapterManager.cc:94-105 | exactly that adapter is disconnected, or it is not found |
| AdapterManagers.AdapterManager.DisconnectAll | icp/src/AdapterManager.cc:107-117 | every adapter is disconnected |
| AdapterManagers.AdapterManager.EquipmentById | icp/src/AdapterManager.cc:145-161 | finds an item if and only if some adapter exposes the id; with disjoint ids there is one adapter it can come from |
| AdapterManagers.ConnectThenCheck | icp/src/AdapterManager.cc:77-91 | connecting in place and checking afterwards is the step on values |
| AdapterManagers.ReplaceKeepsDisjointIff | icp/src/AdapterManager.cc:209-238 | replacing one adapter's state keeps ids disjoint exactly if none of its ids is exposed elsewhere: the check is the right one |
| AdapterManagers.ConnectKeepsDisjointIff | icp/src/AdapterManager.cc:77-91 | a connect through the manager keeps ids disjoint exactly unless the adapter binds taken ids and then fails |
| AdapterManagers.TakenIff | icp/src/AdapterManager.cc:209-238 | the check fires exactly if some item of the list is bound by another adapter that is not Disconnected |
| AdapterManagers.ConnectOutcome | icp/src/AdapterManager.cc:62-92 | what a connect leaves of the adapter for each way it can go: Connected with what it bound or kept, Disconnected with nothing if an id is bound elsewhere, or Faulted with the reason; every other adapter as it was |
| AdapterManagers.DisconnectOutcome | icp/src/AdapterManager.cc:94-117 | disconnecting one or all leaves nothing bound and no error text, also of a Faulted adapter |
| AdapterManagers.ResultTellsState | icp/src/AdapterManager.cc:62-92 | the result of a connect tells the state the adapter is left in, and a collision names an id and an adapter that has it bound |
| PollSchedulers.PollScheduler.PollOnce | icp/src/PollScheduler.cc:53-57 | one visit per adapter in some order; the cache is the fold of the visits and, with disjoint ids, the closed form, stated field by field from the adapters' equipment and what the field answered; cache keys and stale flags stay right |
| PollSchedulers.PollScheduler.PollAdapterLocked | icp/src/PollScheduler.cc:86-111 | the three-way dispatch on the connection state |
| PollSchedulers.VisitAt | icp/src/PollScheduler.cc:86-111 | key by key, what one visit does to the cache: a snapshot, an entry left alone, marked, or gone |
| PollSchedulers.VisitSettles | icp/src/PollScheduler.cc:53-57 | one more visit extends the closed form by one adapter |
| PollSchedulers.PassSettles | icp/src/PollScheduler.cc:53-57 | after a pass over disjoint adapters, in any order: an exposed id has its owner's current snapshot, an old entry of an unregistered owner is kept, of a Faulted owner exposing nothing is kept and marked, and any other is gone |
| PollSchedulers.SettledInOneWay | icp/src/PollScheduler.cc:53-57 | the closed form describes exactly one cache |
| PollSchedulers.PassLeavesFields | icp/src/LiveStateCache.cc:13-39 | after a pass over disjoint adapters every bound item's entry shows the state, telemetry and fault the pass read for it, or those it had, with its type, owner, protocol, and the link state and error text after the poll; an id nobody exposes keeps its entry, marked if its owner is Faulted with nothing bound, or loses it |
| PollSchedulers.OrderDoesNotMatter | icp/src/AdapterManager.cc:196-207 | with disjoint ids any two visiting orders leave the same cache |
| PollSchedulers.TwoOwnersCollide | icp/src/PollScheduler.cc:53-57 | two registered Connected adapters can be in a state with one id exposed twice |
| PollSchedulers.OrderMattersOnCollision | icp/src/PollScheduler.cc:53-57 | with an id exposed by any two registered adapters there are two orders that leave different caches, whatever the cache was and whatever is read |
| PollSchedulers.OrderIrrelevantIff | icp/src/AdapterManager.cc:196-207 | every two orders leave the same cache from every start and for every reading, if and only if exposed ids are disjoint |
| PollSchedulers.CacheAgreesWithManager | icp/src/AdapterManager.cc:145-161 | right after a pass, an exposed id has its owner's snapshot, which is that of what the owner's first-match lookup finds if ids are distinct inside the owner |
| PollSchedulers.AlwaysAgreesIff | icp/src/AdapterManager.cc:145-161 | after every pass the cache agrees with the manager on an adapter's ids, if and only if, while Connected, it lists no id twice and, otherwise, the first and the last item of each id look the same |
| PollSchedulers.PollAgreesIff | icp/src/LiveStateCache.cc:71-78 | for one Connected adapter, the last item and the first item of each id look the same after every poll if and only if no id is listed twice |
| PollSchedulers.PollThatDisagrees | icp/src/LiveStateCache.cc:71-78 | with an id listed twice, a poll after which the manager finds a machine fault and the cache shows none |
| PollSchedulers.PassKeepsAdapterInvariants | icp/src/PollScheduler.cc:86-101 | a pass keeps registration and disjointness |
| PollSchedulers.PassKeepsCacheOk | icp/src/LiveStateCache.cc:81-101 | a pass keeps every key equal to its entry's id and stale equal to "not Connected" |
| IcpRuns.StepKeepsRegistered | icp/src/AdapterManager.cc:15-60 | every step keeps each adapter under its own non-empty id and within the interface's promise |
| IcpRuns.StepKeepsDisjointIff | icp/src/AdapterManager.cc:62-117 | any step other than the one named keeps ids disjoint, and that one breaks it |
| IcpRuns.RunDisjointIff | icp/src/AdapterManager.cc:62-92 | over every run, ids are disjoint throughout exactly if no connect binds ids exposed elsewhere and then fails |
| IcpRuns.DisjointBrokenByFailedSubscribe | industrial/src/MqttIndustrialAdapter.cc:462-472 | a run in which an MQTT adapter's failed first subscribe leaves an id exposed twice |
| IcpRuns.RunKeepsCacheOk | icp/src/LiveStateCache.cc:43-117 | in every reachable state each cache key equals its entry's id and stale holds exactly when the entry is not Connected |
| IcpRuns.StepShowsRefresh | icp/src/LiveStateCache.cc:43-117 | a step gives an entry its owner's current snapshot if it refreshes it, and otherwise changes its communication fields at most |
| IcpRuns.EntryShowsLastRefresh | icp/src/LiveStateCache.cc:13-39 | in every reachable state, for every entry, there is a last pass that refreshed it, and its type, machine fault, operational state and telemetry are those of its owner's last item of that id right after that pass |
| IcpRuns.StepFaultComesFrom | icp/src/PollScheduler.cc:103-110 | a machine fault shown after a step was shown before it or read as true during it |
| IcpRuns.NoInventedFault | icp/src/PollScheduler.cc:103-110 | in every run from the empty runtime, a machine fault in the cache or on an adapter was read as true for that id in an earlier pass |
| IcpRuns.QuietStepKeepsFault | icp/src/LiveStateCache.cc:89-100 | a step that neither reads a fault nor binds equipment leaves the machine fault as it was, in the cache and on the adapters |
| IcpRuns.QuietRunKeepsFault | icp/src/LiveStateCache.cc:89-100 | no run of link failures, failed connects, partial polls, commands, disconnects and removals changes a machine fault |
| IcpRuns.PassMakesFaultAgree | icp/src/LiveStateCache.cc:18-22 | right after a pass the cache and the owner agree on the machine fault, so the row above applies from there |
| IcpRuns.StepKeepsReservation | industrial/src/ModbusIndustrialAdapter.cc:313-317 | a Faulted adapter keeps what it bound through every step but its own release |
| IcpRuns.FaultedKeepsReservation | industrial/src/ModbusIndustrialAdapter.cc:247-261 | the same over whole runs |
| IcpRuns.ReservationHolds | icp/src/AdapterManager.cc:84-89 | at the end of such a run another adapter taking one of the ids ends Disconnected, and the adapter's own reconnect with ids it still exposes is not refused for a collision; the three ReconnectTakesOwnIds rows show that the polling adapters reconnect with such ids |
| FaultHistory.OpChangesFaultOnlyByReading | industrial/src/ModbusIndustrialAdapter.cc:155-163 | one operation on a bound adapter changes an item's fault to the value it read, or not at all |
| FaultHistory.FaultIsLastRead | industrial/src/ModbusIndustrialAdapter.cc:132-166 | after any sequence of polls, failed connects, kept reconnects, commands and link failures, an item's fault is the last fault read since it was bound, and false if none was, for equipment bound by a connect that then failed too |
| SchedulerThread.StepKeepsOk | icp/src/PollScheduler.cc:21-46 | the life-cycle invariant is kept by every load, store, spawn, join and worker step |
| SchedulerThread.EveryRunIsSafe | icp/src/PollScheduler.cc:21-84 | for one sequential caller and every interleaving: at most one live worker, no joinable thread assigned over, at most one pass begun after the flag turned false, none alive after stop() returned, one alive after start() returned |
| SchedulerThread.OneLatePass | icp/src/PollScheduler.cc:72-84 | in every run no two passes begin while the flag stays false |
| SchedulerThread.RunningWorkerPolls | icp/src/PollScheduler.cc:72-84 | while the flag is true a live worker never leaves and is in a pass at one of every four steps |
| SchedulerThread.StoppedWorkerLeaves | icp/src/PollScheduler.cc:72-84 | with the flag false a worker is gone after exactly its distance, four steps at most, so the join always ends |
| PollCut.CutIsUnique | industrial/src/ModbusIndustrialAdapter.cc:292-301 | for given outcomes of the reads there is one cut a poll can leave |
| PollCut.RefreshedOneMore | industrial/src/ModbusIndustrialAdapter.cc:292-301 | a complete refresh moves the cut to the next item, an incomplete one ends there with later items unchanged |
| PollCut.Store | industrial/src/ModbusIndustrialAdapter.cc:134-163 | a value read goes where its point says, extending the read prefix by one |
| PollCut.CutIsPoll | industrial/src/ModbusIndustrialAdapter.cc:280-302 | leaving a cut is a poll of the adapter contract whose fault reads are those within the cut |
| PollCut.PartialRefreshKeepsFault | industrial/src/ModbusIndustrialAdapter.cc:134-163 | a refresh that stops before the fault point leaves the machine fault as it was |
| PollCut.RefreshKeepsNames | industrial/src/ModbusIndustrialAdapter.cc:134-142 | a refresh removes no telemetry name and changes none it did not read |
| PollCut.RefreshShowsLastRead | industrial/src/ModbusIndustrialAdapter.cc:134-142 | a name mapped several times shows the value of its last point within the cut |
| PollCut.CutFault | industrial/src/ModbusIndustrialAdapter.cc:155-163 | through a poll an item's fault is the value read if its refresh was complete, and otherwise what it was |
| PollCut.CutState | industrial/src/ModbusIndustrialAdapter.cc:144-153 | through a poll an item runs if its state point lies within the cut and read non-zero, is stopped if it read zero, and otherwise is what it was |
| PollCut.CutShowsLastRead | industrial/src/ModbusIndustrialAdapter.cc:134-142 | through a poll a name some point within the cut maps shows what the last of them read |
| PollCut.CutKeepsUnread | industrial/src/ModbusIndustrialAdapter.cc:134-142 | and one that none maps keeps its point or stays without one |
| ModbusAdapters.ModbusAdapter.Connect | industrial/src/ModbusIndustrialAdapter.cc:207-234 | binds anew and is Connected exactly if host and port are set and the server accepts; a failure keeps what was bound |
| ModbusAdapters.ModbusAdapter.Disconnect | industrial/src/ModbusIndustrialAdapter.cc:236-245 | nothing bound, session closed, no error text |
| ModbusAdapters.ModbusAdapter.ReadDouble | industrial/src/ModbusIndustrialAdapter.cc:366-411 | succeeds exactly on a mapped reference, an open session and an answer; the value by table |
| ModbusAdapters.ModbusAdapter.ReadBoolean | industrial/src/ModbusIndustrialAdapter.cc:319-364 | the same reads as "not zero" |
| ModbusAdapters.ModbusAdapter.RefreshFromServer | industrial/src/ModbusIndustrialAdapter.cc:132-166 | telemetry in mapping order, then state, then fault, up to the first read that fails |
| ModbusAdapters.ModbusAdapter.Poll | industrial/src/ModbusIndustrialAdapter.cc:280-302 | from Connected, the cut of the reading plan, Faulted exactly if it is before the end, the exposed list unchanged; a poll of the contract |
| ModbusAdapters.PollChangesFaultOnlyByReading | industrial/src/ModbusIndustrialAdapter.cc:155-163 | through a poll an item's fault is its fault coil if its whole refresh succeeded, else unchanged |
| ModbusAdapters.PollChangesStateOnlyByReading | industrial/src/ModbusIndustrialAdapter.cc:144-153 | through a poll an item runs or is stopped as its state coil answered, if that lies within the cut, else it is what it was |
| ModbusAdapters.PollShowsTelemetry | industrial/src/ModbusIndustrialAdapter.cc:134-142 | a telemetry name shows the word answered, or zero or one for a coil or discrete input, for its last mapping within the cut |
| ModbusAdapters.PollKeepsUnread | industrial/src/ModbusIndustrialAdapter.cc:134-142 | a name no mapping within the cut has keeps its point, or stays without one |
| ModbusAdapters.PollEndsAtFirstFailure | industrial/src/ModbusIndustrialAdapter.cc:280-302 | a poll ends at the first read that is not answered or whose telemetry reference is not mapped, and reads everything if there is none |
| ModbusAdapters.BindsAsMapped | industrial/src/ModbusIndustrialAdapter.cc:304-311 | what a connect binds for each mapping: its id and type, stopped, without fault or telemetry, with the capabilities listed and the commands mapped |
| ModbusAdapters.ReconnectTakesOwnIds | industrial/src/ModbusIndustrialAdapter.cc:304-317 | a Faulted adapter with equipment bound would rebind exactly the ids it still exposes |
| ModbusAdapters.ModbusAdapter.WriteBoolean | industrial/src/ModbusIndustrialAdapter.cc:413-445 | which word reaches the wire, when none does, and that a failure faults the link |
| ModbusAdapters.ModbusAdapter.WriteDouble | industrial/src/ModbusIndustrialAdapter.cc:447-485 | the same for numbers, by table |
| ModbusAdapters.ModbusAdapter.Execute | industrial/src/ModbusIndustrialAdapter.cc:77-120 | from Connected only; what is written goes to the target of the first mapping of this very command, and only to a mapped coil or holding register; accepted exactly if the write was acknowledged; equipment state untouched |
| ModbusAdapters.ModbusAdapter.FindCommand | industrial/src/ModbusIndustrialAdapter.cc:89-97 | the loop finds the first mapping of this very command, and none exactly if no mapping has its name |
| ModbusAdapters.CommandWordMeans | industrial/src/ModbusIndustrialAdapter.cc:447-468 | a plain command writes one; a set command the truth of its parameter into a coil, and into a register the clipped parameter to within one half |
| Domain.SetCommandIff | industrial/src/ModbusIndustrialAdapter.cc:18-21 | a set command is "set_" with a non-empty name behind it |
| ModbusAdapters.QuantisedIsNearest | industrial/src/ModbusIndustrialAdapter.cc:464-468 | the word is within one half of the clipped value and no other word is nearer, ties going up |
| ModbusAdapters.QuantisedIsMonotone | industrial/src/ModbusIndustrialAdapter.cc:464-468 | a larger parameter never writes a smaller word |
| ModbusAdapters.ReadWriteRoundTrip | industrial/src/ModbusIndustrialAdapter.cc:393-400 | writing back what was read from a holding register restores the word |
| RestAdapters.RestAdapter.Connect | industrial/src/RestIndustrialAdapter.cc:354-410 | binds anew and is Connected exactly if the origin is configured and the health request or the probe succeeds |
| RestAdapters.RestAdapter.Probe | industrial/src/RestIndustrialAdapter.cc:361-404 | the origin answers, or the adapter is Faulted |
| RestAdapters.RestAdapter.PerformMappedGet | industrial/src/RestIndustrialAdapter.cc:498-518 | a body exactly for a non-empty path and a success, else Faulted |
| RestAdapters.RestAdapter.RefreshFromServer | industrial/src/RestIndustrialAdapter.cc:244-313 | the read prefix of the item's plan; a failure has faulted the adapter or left its error text empty |
| RestAdapters.ItemsAt | industrial/src/RestIndustrialAdapter.cc:270-310 | which JSON pointer decides which point of the plan |
| RestAdapters.RestAdapter.Poll | industrial/src/RestIndustrialAdapter.cc:456-481 | the cut of the plan; Connected afterwards exactly if every refresh succeeded: the guarded fault swallows no failure; Connected still implies an empty error text |
| RestAdapters.PollChangesFaultOnlyByReading | industrial/src/RestIndustrialAdapter.cc:299-310 | through a poll an item's fault is its fault pointer if its whole refresh succeeded, else unchanged |
| RestAdapters.PollChangesStateOnlyByReading | industrial/src/RestIndustrialAdapter.cc:285-297 | through a poll an item runs or is stopped as its state pointer answered, if that lies within the cut, else it is what it was |
| RestAdapters.PollShowsTelemetry | industrial/src/RestIndustrialAdapter.cc:270-283 | a telemetry name shows the number found by its pointer in the document fetched for the item, for its last mapping within the cut |
| RestAdapters.PollKeepsUnread | industrial/src/RestIndustrialAdapter.cc:270-283 | a name no mapping within the cut has keeps its point, or stays without one |
| RestAdapters.PollEndsAtFirstFailure | industrial/src/RestIndustrialAdapter.cc:244-313 | a poll ends at the first item without path, answer or document, or with a pointer that is empty or finds nothing of its kind, and completes if there is none |
| RestAdapters.BindsAsMapped | industrial/src/RestIndustrialAdapter.cc:483-496 | what a connect binds for each mapping: its id and type, stopped, without fault or telemetry, with the capabilities listed and the commands mapped |
| RestAdapters.ReconnectTakesOwnIds | industrial/src/RestIndustrialAdapter.cc:483-496 | a Faulted adapter with equipment bound would rebind exactly the ids it still exposes |
| RestAdapters.RestAdapter.Execute | industrial/src/RestIndustrialAdapter.cc:192-232 | which request is sent, from the first mapping of this very command, by POST, PUT or PATCH only, with the number in place of every token; accepted exactly on success; Faulted exactly on a failed write |
| RestAdapters.RestAdapter.FindCommand | industrial/src/RestIndustrialAdapter.cc:204-212 | the loop finds the first mapping of this very command, and none exactly if no mapping has its name |
| RestAdapters.RestAdapter.PerformMappedWrite | industrial/src/RestIndustrialAdapter.cc:520-541 | one request exactly for a write method and a non-empty path; true exactly on its success, else Faulted |
| RestAdapters.RestAdapter.Disconnect | industrial/src/RestIndustrialAdapter.cc:412-421 | nothing bound, no error text |
| TextReplace.Find | industrial/src/RestIndustrialAdapter.cc:48 | the first occurrence at or after a position, and none before it |
| TextReplace.FindNext | industrial/src/RestIndustrialAdapter.cc:48 | the search computes it |
| TextReplace.ReplaceAll | industrial/src/RestIndustrialAdapter.cc:41-54 | the loop of finds and replaces ends and computes the leftmost non-overlapping replacement, for any token and text |
| TextReplace.ReplacedIsCutAndGlued | industrial/src/MqttIndustrialAdapter.cc:70-83 | replacing is cutting at the token and joining with the text |
| TextReplace.CutIsExact | industrial/src/MqttIndustrialAdapter.cc:77-81 | joining the pieces with the token gives the text back, each cut is the leftmost, and no piece holds the token |
| TextReplace.NothingSurvives | industrial/src/MqttIndustrialAdapter.cc:592-601 | for any token and replacement: if the token cannot begin in the replacement nor run on into it, no token is left, whatever the text |
| TextReplace.TokenIsGoneIff | industrial/src/MqttIndustrialAdapter.cc:592-601 | and if and only if: otherwise there is a text in which it is left or formed anew |
| TextReplace.RedSurvives | industrial/src/MqttIndustrialAdapter.cc:592-601 | for the password "red" the rewritten text still holds it |
| TextReplace.OneScanIsEnough | industrial/src/MqttIndustrialAdapter.cc:70-83 | a text without braces that is not part of the token leaves no token behind |
| TextReplace.OneScanIsEnoughIff | industrial/src/MqttIndustrialAdapter.cc:70-83 | for texts without braces, every template is free of the token after one scan exactly if the text is not part of the token |
| TextReplace.NumberIsSubstitutedOnce | industrial/src/MqttIndustrialAdapter.cc:73-82 | a number text has a character the token lacks: no token is left, and a second scan changes nothing |
| EipSessions.EipSession.Open | industrial/src/eip_session.cc:18-32 | the old handles are destroyed first; open exactly if host, port and type are set |
| EipSessions.PlcLibrary.Create | industrial/src/eip_session.cc:66-79 | a handle that is not live becomes live, for the device tag named, or none does |
| EipSessions.PlcLibrary.Destroy | industrial/src/eip_session.cc:77 | only a live handle may be destroyed, and it alone goes |
| EipSessions.EipSession.CreateTag | industrial/src/eip_session.cc:45-87 | succeeds exactly if open, named, new and created with a good status, and then the handle is one of the device tag named; a failure leaves table and live handles as they were; handles outside the table never change |
| EipSessions.EipSession.DestroyAllTags | industrial/src/eip_session.cc:89-100 | exactly the table's handles are destroyed, each once, in any order |
| EipSessions.EipSession.Close | industrial/src/eip_session.cc:34-38 | no handle of the session stays live |
| EipSessions.EipSession.FindTag | industrial/src/eip_session.cc:338-347 | an entry in the table is always found: none has a destroyed handle |
| EipSessions.EipSession.ReadBool | industrial/src/eip_session.cc:102-135 | fails exactly on an unknown key or a failed read; the value by the tag's own type, converted |
| EipSessions.EipSession.ReadDint | industrial/src/eip_session.cc:137-170 | fails exactly on an unknown key or a failed read; the value by the tag's own type, converted |
| EipSessions.EipSession.ReadReal | industrial/src/eip_session.cc:172-205 | fails exactly on an unknown key or a failed read; the value by the tag's own type, converted |
| EipSessions.ReadingsAgree | industrial/src/eip_session.cc:102-205 | the truth read from a tag is "not zero" of the number read from it, and the integer is that number without its fraction, for every tag type |
| EipSessions.EipSession.Write | industrial/src/eip_session.cc:207-316 | what is put into which handle, by the tag's own type, and when it succeeds |
| EipSessions.WrittenIsReadBack | industrial/src/eip_session.cc:207-316 | what is written to a tag of any type is read back from it as far as the type can hold it |
| TagKeys.KeyRoundTrip | industrial/src/EtherNetIpIndustrialAdapter.cc:409-413 | id, role and index can be read back from the key for every id, one with separators included |
| Texts.ParsedDecimal | industrial/src/EtherNetIpIndustrialAdapter.cc:412 | the decimal text of an index gives the index back |
| TagKeys.KeyIsInjective | industrial/src/EtherNetIpIndustrialAdapter.cc:409-413 | different slots have different keys |
| TagKeys.EntriesOfOneAreDistinct | industrial/src/EtherNetIpIndustrialAdapter.cc:361-405 | one mapping never asks for a key twice |
| TagKeys.ClashIff | industrial/src/EtherNetIpIndustrialAdapter.cc:361-405 | two mappings share a key exactly if they have one id and both map the same kind of point |
| TagKeys.KeysDistinctIff | industrial/src/eip_session.cc:59-63 | the duplicate-key failure is unreachable exactly if no two mappings clash |
| EipAdapters.DistinctIdsNeverClash | industrial/src/EtherNetIpIndustrialAdapter.cc:356-407 | with distinct ids the table is created exactly if every tag is named and the library creates it |
| EipAdapters.EipAdapter.CreateMappedTags | industrial/src/EtherNetIpIndustrialAdapter.cc:356-407 | the entries before the first that cannot be created are in the table with their types and nothing else is; complete exactly if all can be |
| EipAdapters.EipAdapter.OpenWithTags | industrial/src/EtherNetIpIndustrialAdapter.cc:240-265 | a complete table or none at all, no foreign handle touched |
| EipAdapters.EipAdapter.Connect | industrial/src/EtherNetIpIndustrialAdapter.cc:222-271 | Connected exactly if the configuration is complete and every tag can be created; after a failure no handle of the adapter is live |
| EipAdapters.EipAdapter.Disconnect | industrial/src/EtherNetIpIndustrialAdapter.cc:273-282 | no handle of the adapter is live, all others are |
| EipAdapters.AllHeldIsAllTags | industrial/src/EtherNetIpIndustrialAdapter.cc:361-405 | a complete table has, for every slot a poll or a command looks up, an entry of the mapped type |
| EipAdapters.AllHeldIsAllNamed | industrial/src/EtherNetIpIndustrialAdapter.cc:361-405 | and a handle of the device tag mapped for the slot |
| EipAdapters.EipAdapter.ReadDouble | industrial/src/EtherNetIpIndustrialAdapter.cc:415-453 | the value of the tag's own type; only the library can make it fail |
| EipAdapters.EipAdapter.ReadBoolean | industrial/src/EtherNetIpIndustrialAdapter.cc:455-487 | "not zero" of it |
| EipAdapters.EipAdapter.RefreshFromDevice | industrial/src/EtherNetIpIndustrialAdapter.cc:135-178 | the read prefix of the item's plan; no unknown tag and no conversion between types |
| EipAdapters.EipAdapter.Poll | industrial/src/EtherNetIpIndustrialAdapter.cc:315-339 | the cut of the plan, Faulted exactly if it is before the end; a poll of the contract; the table stays complete |
| EipAdapters.PollChangesFaultOnlyByReading | industrial/src/EtherNetIpIndustrialAdapter.cc:164-175 | through a poll an item's fault is its fault tag if its whole refresh succeeded, else unchanged |
| EipAdapters.PollChangesStateOnlyByReading | industrial/src/EtherNetIpIndustrialAdapter.cc:151-162 | through a poll an item runs or is stopped as its state tag answered, if that lies within the cut, else it is what it was |
| EipAdapters.PollShowsTelemetry | industrial/src/EtherNetIpIndustrialAdapter.cc:137-149 | a telemetry name shows what its tag answered, as the tag's type reads it, for its last mapping within the cut |
| EipAdapters.PollKeepsUnread | industrial/src/EtherNetIpIndustrialAdapter.cc:137-149 | a name no mapping within the cut has keeps its point, or stays without one |
| EipAdapters.PollEndsAtFirstFailure | industrial/src/EtherNetIpIndustrialAdapter.cc:315-339 | a poll ends at the first read the library fails, and reads everything if it fails none |
| EipAdapters.BindsAsMapped | industrial/src/EtherNetIpIndustrialAdapter.cc:341-354 | what a connect binds for each mapping: its id and type, stopped, without fault or telemetry, with the capabilities listed and the commands mapped |
| EipAdapters.ReconnectTakesOwnIds | industrial/src/EtherNetIpIndustrialAdapter.cc:341-354 | a Faulted adapter with equipment bound would rebind exactly the ids it still exposes |
| EipAdapters.CommandIndex | industrial/src/EtherNetIpIndustrialAdapter.cc:89-99 | the first mapping of a command |
| EipAdapters.EipAdapter.WriteDouble | industrial/src/EtherNetIpIndustrialAdapter.cc:489-525 | the payload by type, rounded half away from zero into 32 bits for an integer tag |
| EipAdapters.EipAdapter.WriteBoolean | industrial/src/EtherNetIpIndustrialAdapter.cc:527-562 | the payload by type |
| EipAdapters.DintIsNearest | industrial/src/EtherNetIpIndustrialAdapter.cc:511-515 | the integer a set command sends for a parameter that fits 32 bits is within one half of it, no integer is nearer, and ties go away from zero |
| EipAdapters.DintSendsIntegers | industrial/src/EtherNetIpIndustrialAdapter.cc:511-515 | an integer parameter of 32 bits is sent unchanged, any other integer as the 32-bit integer congruent to it |
| EipAdapters.PayloadMeans | industrial/src/EtherNetIpIndustrialAdapter.cc:100-127 | a plain command sends one; a set command the number to a real tag and its truth to a bool tag |
| EipAdapters.EipAdapter.Execute | industrial/src/EtherNetIpIndustrialAdapter.cc:77-127 | a mapped command always finds its tag, a handle of the device tag its first mapping names; what is written into it; a failed write faults the link and nothing else |
| MockAdapters.DeviceIndex | industrial/src/MockIndustrialAdapter.cc:284-295 | the first device with the id |
| MockAdapters.MockAdapter.FindConfig | industrial/src/MockIndustrialAdapter.cc:284-295 | the loop finds that device |
| MockAdapters.MockAdapter.AddDevice | industrial/src/MockIndustrialAdapter.cc:120-131 | appends a device with an unused id, which keeps the coupling |
| MockAdapters.MockAdapter.AddCapability | industrial/src/MockIndustrialAdapter.cc:133-150 | adds it once to the device |
| MockAdapters.MockAdapter.SetSourceTelemetry | industrial/src/MockIndustrialAdapter.cc:152-169 | exactly the named source point of the device changes |
| MockAdapters.MockAdapter.SimulateCommunicationFailure | industrial/src/MockIndustrialAdapter.cc:171-175 | Faulted, with everything bound kept |
| MockAdapters.MockAdapter.ClearCommunicationFailure | industrial/src/MockIndustrialAdapter.cc:177-185 | only a Faulted adapter is cleared, and then nothing is bound |
| MockAdapters.MockAdapter.Connect | industrial/src/MockIndustrialAdapter.cc:207-224 | refused while Faulted; otherwise each item starts with its device's source telemetry |
| MockAdapters.MockAdapter.Disconnect | industrial/src/MockIndustrialAdapter.cc:226-231 | nothing bound, sources kept |
| MockAdapters.MockAdapter.CopySourceTelemetry | industrial/src/MockIndustrialAdapter.cc:98-105 | the item's telemetry overridden by its source, in any order |
| MockAdapters.MockAdapter.Poll | industrial/src/MockIndustrialAdapter.cc:266-282 | after a poll from Connected each item shows exactly its source; a poll of the contract |
| MockAdapters.MockAdapter.Execute | industrial/src/MockIndustrialAdapter.cc:54-86 | a set command on a capability writes item and source alike with the unit kept; any other is the equipment's own: an accepted start leaves it Running, a stop Stopped |
| MockAdapters.MockAdapter.OwnCommand | industrial/src/MockIndustrialAdapter.cc:85 | the equipment decides: an accepted start leaves it Running, an accepted stop Stopped, anything else as it was; the source is left alone |
| MockAdapters.SetWritesBoth | industrial/src/MockIndustrialAdapter.cc:66-83 | a set command writes one point to the item and to its own device alike, with the unit the item showed, and changes nothing else |
| MockAdapters.ConfiguresOneDevice | industrial/src/MockIndustrialAdapter.cc:120-169 | adding a device, a capability or a source point changes that device alone, and a device is added only under an unused id |
| MockAdapters.BindsAsDevice | industrial/src/MockIndustrialAdapter.cc:207-224 | what a connect binds for each device: its id and type, stopped, without fault, with the device's capabilities and source telemetry |
| MockAdapters.StepKeepsCoupled | industrial/src/MockIndustrialAdapter.cc:54-105 | every operation keeps each item paired with its device and its names within the source's |
| MockAdapters.StepKeepsPoint | industrial/src/MockIndustrialAdapter.cc:319-336 | an operation that does not overwrite a point keeps it in source and item |
| MockAdapters.SetValueSurvives | industrial/src/MockIndustrialAdapter.cc:66-83 | a value set by set_X stays X's value, in source and item, through any polls, failures, disconnects and reconnects, until X is set again |
| MqttQueue.EventKeepsHistory | industrial/src/mqtt_session.cc:114-125 | an arrival or a take keeps the queue a suffix of the arrivals and the taken messages an increasing selection that misses nothing recent |
| MqttQueue.QueueIsSuffix | industrial/src/mqtt_session.cc:466-486 | for every interleaving of arrivals and takes the queue is a suffix of the arrivals and the taken messages an in-order subsequence |
| MqttQueue.BurstThenDrain | industrial/src/mqtt_session.cc:118-123 | after a burst nobody polled, draining yields exactly the last 4096 arrivals |
| MqttQueue.LateBurstTakes | industrial/src/mqtt_session.cc:118-123 | arrivals taken one by one and then a burst nobody polls: taken are the former and the last 4096 of the burst |
| MqttMessages.MessageWritesSlot | industrial/src/MqttIndustrialAdapter.cc:325-368 | a message changes a telemetry name, state or fault exactly as its last matching mapping says |
| MqttMessages.LastWriterWins | industrial/src/MqttIndustrialAdapter.cc:325-368 | after a list of messages each slot holds what its last writer wrote, or its old value |
| MqttMessages.MessageSetsSignals | industrial/src/MqttIndustrialAdapter.cc:343-367 | a message whose topic is a mapped signal's and whose payload parses sets the fault, or starts the item, if the number is not zero, and clears or stops it if it is zero; any other leaves it |
| MqttMessages.MessageSetsPoint | industrial/src/MqttIndustrialAdapter.cc:327-341 | a name shows the number by the last of its mappings that the message reaches |
| MqttMessages.SignalsShowLastMessage | industrial/src/MqttIndustrialAdapter.cc:343-367 | after any messages the fault and the state are what the last message on their topic that parses says |
| MqttMessages.SignalsKeptUndecided | industrial/src/MqttIndustrialAdapter.cc:343-367 | and what they were if there is none |
| MqttMessages.PointShowsLastMessage | industrial/src/MqttIndustrialAdapter.cc:327-341 | after any messages a telemetry name shows the number of the last message that reaches one of its mappings |
| MqttMessages.PointKeptUnreached | industrial/src/MqttIndustrialAdapter.cc:327-341 | and keeps its point, or stays without one, if none does |
| MqttMessages.LossyShowsLossless | industrial/src/mqtt_session.cc:114-125 | if the last consumed arrival that writes a slot is among the last 4096, the slot shows what applying every consumed arrival would show |
| MqttMessages.DrainedSessionShowsLossless | industrial/src/mqtt_session.cc:114-125 | the same for every interleaving that ends with the queue empty |
| MqttMessages.BurstShowsLosslessIff | industrial/src/mqtt_session.cc:118-123 | for a burst nobody polls and a last write that changes the slot, the values agree if and only if the last writer is among the last 4096 |
| MqttMessages.AlwaysLosslessIff | industrial/src/mqtt_session.cc:114-125 | for any arrivals and slot: every interleaving that ends with the queue empty shows the lossless value if and only if the last writer is among the last 4096, or none writes anything but what the slot held |
| MqttSessions.MqttSession.OnMessage | industrial/src/mqtt_session.cc:114-125 | the newest message is at the end and a full queue loses its oldest |
| MqttSessions.MqttSession.OnConnectionLost | industrial/src/mqtt_session.cc:56-75 | lost, not connected, with an error text, an earlier one kept |
| MqttSessions.MqttSession.Connect | industrial/src/mqtt_session.cc:215-324 | up exactly if a client id is given and the broker accepts, host and port having been checked by the adapter; the queue starts empty |
| MqttSessions.MqttSession.Close | industrial/src/mqtt_session.cc:326-345 | nothing of the session is left |
| MqttSessions.MqttSession.IsConnected | industrial/src/mqtt_session.cc:347-356 | session, flag and library must all say so |
| MqttSessions.MqttSession.Subscribe | industrial/src/mqtt_session.cc:358-397 | one request at the clamped level; true exactly if acknowledged |
| MqttSessions.MqttSession.Receive | industrial/src/mqtt_session.cc:435-487 | an error exactly if the link is lost before or during the wait; otherwise the front of the queue with what arrived, or nothing |
| MqttAdapters.MqttAdapter.EnterFault | industrial/src/MqttIndustrialAdapter.cc:582-602 | session closed, client id released, Faulted, and the reason with the password rewritten by the same scan, gone unless the password can survive its replacement |
| MqttAdapters.MqttAdapter.Disconnect | industrial/src/MqttIndustrialAdapter.cc:479-490 | nothing bound, client id released |
| MqttAdapters.MqttAdapter.Connect | industrial/src/MqttIndustrialAdapter.cc:414-477 | a connect succeeds if and only if host, port and topics are valid, the client key is free, the broker accepts and it acknowledges each subscription of the merge; equipment is bound by a connect that fails if and only if only an acknowledgement was missing and nothing was kept from a fault; a failure leaves the registry as it was, a success adds a key nobody held and starts a session from what the equipment shows and what arrived while it subscribed |
| MqttAdapters.MqttAdapter.OpenSession | industrial/src/MqttIndustrialAdapter.cc:421-460 | succeeds exactly if broker and topics are valid, the key is free and the broker accepts |
| MqttAdapters.OpenableIff | industrial/src/MqttIndustrialAdapter.cc:421-460 | what a connect needs before it subscribes, spelled out: host and port, an accepting broker, no mapped topic with a '+' or a '#', and a key of host, port and id that nobody holds |
| MqttAdapters.MqttAdapter.BindAndSubscribe | industrial/src/MqttIndustrialAdapter.cc:462-476 | equipment kept after a fault or bound anew, then subscribed; succeeds exactly if each subscription is acknowledged; which of the four outcomes happened |
| MqttAdapters.MqttAdapter.SubscribeMappedTopics | industrial/src/MqttIndustrialAdapter.cc:648-713 | succeeds exactly if the broker acknowledges each subscription of the merge, the wildcard branches being unreachable; the requests sent are then one per mapped topic at the largest clamped level, and otherwise end at the first one refused |
| MqttAdapters.MqttAdapter.SubscribeEach | industrial/src/MqttIndustrialAdapter.cc:703-711 | the merge is sent in order at clamped levels up to the first refusal |
| MqttAdapters.SomeBrokerRefuses | industrial/src/MqttIndustrialAdapter.cc:470-472 | wherever a topic is mapped, a broker may accept the client and refuse its subscriptions, so the connect that binds and then fails does happen |
| MqttAdapters.MqttAdapter.Deliver | industrial/src/mqtt_session.cc:77-130 | a message between polls is appended to the session's arrivals and changes nothing the adapter shows |
| MqttAdapters.MqttAdapter.LoseLink | industrial/src/mqtt_session.cc:56-75 | a lost link is noticed by the next poll and changes nothing the adapter shows before |
| MqttAdapters.MqttAdapter.Poll | industrial/src/MqttIndustrialAdapter.cc:523-571 | the session's history gains exactly the rounds the poll completes, each with what arrived in it and the message it took; at most 512, fewer only if the queue is empty or the link is down; Faulted if and only if the link is found down; a poll of the contract |
| MqttAdapters.CompletesOnce | industrial/src/MqttIndustrialAdapter.cc:545-570 | what happens around a poll settles how many rounds it completes |
| MqttAdapters.RoundsAreEvents | industrial/src/mqtt_session.cc:466-486 | the history of rounds is that of their arrivals and takes in order, so the results over every interleaving hold of the object's sessions |
| MqttAdapters.MqttAdapter.NextMessage | industrial/src/mqtt_session.cc:435-487 | the history gains exactly what arrived, unless the receive fails, and the message is the front of the queue |
| MqttAdapters.MqttAdapter.ApplyToItem | industrial/src/MqttIndustrialAdapter.cc:325-368 | every matching telemetry mapping, then the state, then the fault |
| MqttAdapters.MqttAdapter.ApplyMessage | industrial/src/MqttIndustrialAdapter.cc:730-737 | every item gets the message once |
| MqttAdapters.MqttAdapter.Execute | industrial/src/MqttIndustrialAdapter.cc:279-313 | what is published to which topic, that of the first mapping of this very command, non-empty and without wildcards; accepted exactly if published; Faulted exactly if the publish failed |
| MqttAdapters.MqttAdapter.FindCommand | industrial/src/MqttIndustrialAdapter.cc:291-299 | the loop finds the first mapping of this very command, and none exactly if no mapping has its name |
| MqttAdapters.MqttAdapter.PublishCommand | industrial/src/MqttIndustrialAdapter.cc:715-728 | the body with the number in place of every token, at the clamped level; a failed publish faults the link, any other changes nothing |
| MqttAdapters.SessionShowsLossless | industrial/src/MqttIndustrialAdapter.cc:523-571 | in any session of the adapter object, whose start and arrivals Connect, Deliver and Poll pin down: whenever the queue is empty, a slot whose last writer is among the last 4096 arrivals, or that none writes, shows what applying every arrival would show |
| MqttAdapters.MessagesArePoll | industrial/src/MqttIndustrialAdapter.cc:356-367 | applying messages is a poll of the contract whose fault reads are the last fault values parsed |
| MqttAdapters.PollShowsLastMessage | industrial/src/MqttIndustrialAdapter.cc:523-571 | through a poll the fault and the state of an item are decided by the last message taken on their topic that parses, and unchanged without one |
| MqttAdapters.PollShowsLastPoint | industrial/src/MqttIndustrialAdapter.cc:523-571 | through a poll a telemetry name shows the number of the last message taken that reaches it |
| MqttAdapters.BindsAsMapped | industrial/src/MqttIndustrialAdapter.cc:573-580 | what a connect binds for each mapping: its id and type, stopped, without fault or telemetry, with the capabilities listed and the commands mapped |
| MqttAdapters.PollIsContractPoll | industrial/src/MqttIndustrialAdapter.cc:545-570 | the change between two points of a session is the contract's poll for the messages taken in between |
| MqttSubscriptions.MaxQosIsLargest | industrial/src/MqttIndustrialAdapter.cc:665-676 | the level given to a topic is the largest clamped level asked for |
| MqttSubscriptions.MaxQosIgnoresOrder | industrial/src/MqttIndustrialAdapter.cc:680-700 | the order of the mappings plays no part |
| MqttSubscriptions.CollectTopics | industrial/src/MqttIndustrialAdapter.cc:655-700 | computes the merge of all requests one after the other: distinct topics, all that are asked for, at a level that clamps to the largest; fails exactly on a wildcard |
| MqttSubscriptions.AddKeepsMerged | industrial/src/MqttIndustrialAdapter.cc:656-678 | one add keeps that, though only the first level of a topic is clamped |
| MqttSubscriptions.MergeAllIsMerged | industrial/src/MqttIndustrialAdapter.cc:680-700 | the merge of any requests has each asked topic once, at a level that clamps to the largest |
| MqttSubscriptions.OnlyAskedTopics | industrial/src/MqttIndustrialAdapter.cc:680-700 | nothing is subscribed that no mapping asks for |
| MqttSubscriptions.ClampedIsEffective | industrial/src/mqtt_session.cc:376-377 | clamped by the session, the merged levels are the largest clamped levels |
| MqttSubscriptions.ClampIsNearestLevel | industrial/src/MqttIndustrialAdapter.cc:51-62 | the levels 0, 1 and 2 are kept and any other goes to the nearest of them |
| MqttSubscriptions.AllWantedIff | industrial/src/MqttIndustrialAdapter.cc:680-700 | what is merged is what the telemetry, state and fault mappings ask for, all of it and nothing else |
| MqttSubscriptions.SubscribedIff | industrial/src/MqttIndustrialAdapter.cc:648-713 | the topics the broker is asked for are exactly the non-empty ones some mapping names, each at a level from 0 to 2 no smaller than any level from 0 to 2 asked for it |
| MqttSubscriptions.ValidateMappedTopics | industrial/src/MqttIndustrialAdapter.cc:604-646 | true exactly if no mapped topic, of commands too, has a wildcard |
| MqttSubscriptions.WildcardIff | industrial/src/MqttIndustrialAdapter.cc:64-68 | a topic is refused exactly if it holds a '+' or a '#' |
| MqttSubscriptions.ValidTopicsIff | industrial/src/MqttIndustrialAdapter.cc:604-646 | a mapping passes exactly if no topic it asks for, and none of its commands, holds one |
| MqttSubscriptions.ValidatedTopicsHaveNoWildcards | industrial/src/MqttIndustrialAdapter.cc:661-664 | after the check the merge meets no wildcard |
| MqttClientIds.ClientKeyIsInjective | industrial/src/MqttIndustrialAdapter.cc:29-32 | for hosts without a line break, different clients have different keys |
| MqttClientIds.ClientKeyNeedsPlainHosts | industrial/src/MqttIndustrialAdapter.cc:29-32 | with a line break in a host, two different clients have one key |
| MqttClientIds.SameKeyIff | industrial/src/MqttIndustrialAdapter.cc:29-32 | two clients have one key if and only if they are the same or one's host runs on into the other's id |
| MqttClientIds.Sanitized | industrial/src/MqttIndustrialAdapter.cc:34-49 | never empty, safe characters only |
| MqttClientIds.SanitizedKeepsSafe | industrial/src/MqttIndustrialAdapter.cc:34-49 | letters, digits, '-' and '_' are kept and every other character becomes '-', so sanitizing twice is sanitizing once |
| MqttClientIds.GeneratedIdsDiffer | industrial/src/MqttIndustrialAdapter.cc:745-747 | generated ids differ whenever their serial numbers do, whatever the adapter ids |
| MqttClientIds.ClientIdRegistry.SanitizeClientFragment | industrial/src/MqttIndustrialAdapter.cc:34-49 | the loop computes the sanitized text |
| MqttClientIds.ClientIdRegistry.ResolveClientId | industrial/src/MqttIndustrialAdapter.cc:739-748 | the configured id, or a generated one with a fresh serial number |
| MqttClientIds.ClientIdRegistry.Claim | industrial/src/MqttIndustrialAdapter.cc:750-762 | granted exactly if free, and claimed afterwards either way |
| MqttClientIds.ClientIdRegistry.Release | industrial/src/MqttIndustrialAdapter.cc:764-774 | exactly the key goes |
| MqttClientIds.ActKeepsClaims | industrial/src/MqttIndustrialAdapter.cc:750-774 | claiming, finishing a connect and dropping keep the claimed keys equal to those of the active ids, one adapter each |
| MqttClientIds.ConnectClaims | industrial/src/MqttIndustrialAdapter.cc:431-477 | a whole connect: a taken key changes nothing, a free one stays claimed exactly if the connect succeeds |
| MqttClientIds.DropFrees | industrial/src/MqttIndustrialAdapter.cc:764-774 | a fault or disconnect of an adapter that is up frees its key and no other |
| MqttClientIds.RunKeepsClaims | industrial/src/MqttIndustrialAdapter.cc:414-490 | in every reachable state of the process, however connects interleave, the claimed keys are exactly those of adapters with an active id, and an adapter outside connect that is not up holds none |
| MqttClientIds.GeneratedAreDistinct | industrial/src/MqttIndustrialAdapter.cc:739-748 | the ids generated along one run are pairwise distinct, refused claims included |
| MqttClientIds.NoSharedClientId | industrial/src/MqttIndustrialAdapter.cc:750-762 | two adapters connected or connecting to one broker have different client ids |
| MqttClientIds.FailedClaimFreesNothing | industrial/src/MqttIndustrialAdapter.cc:432-436 | a refused claim leaves the key with its holder |

## Left out

- Foreign libraries (Paho, libmodbus, libplctag, libcurl, nlohmann/json): each is an oracle, a handle allocator or a parse function given from outside.
- OPC UA, PROFINET and PROFIBUS adapters, Hilscher sessions, the conveyor, the Gazebo plugin and AdapterFactory: the same shapes again, stubs, or wiring.
- One interface type for the adapters: the runtime is proved against `AdapterContract` on values and each adapter against the same functions, but they are not instances of one type. What that leaves out is dynamic dispatch and aliasing of one adapter object under two entries.
- Raw pointers handed out by `adapter()`, `equipmentById()` and `allEquipment()`: lookups give values, so a pointer kept across a rebind is not modelled, nor is a connect on the raw pointer, which bypasses the manager; adding an adapter that is not Disconnected is excluded from runs.
- `adapterIds`, `adapterCount`, `allEquipment`, and the cache's `clear`, `equipment` and `size`: easy members.
- Timestamps (`observedAtUtc`) and the order of telemetry points inside a snapshot: a snapshot's telemetry is a map.
- Time: poll timeouts, keep-alive, the interval, and when a condition variable wakes; a wait may end at any moment. `setInterval` is not modelled.
- The time `MqttSession::close` spends with its closing flag set, during which callbacks do nothing: close is one step.
- NaN, infinities, the rounding of float and double, and the undefined or implementation-defined results of converting numbers that do not fit; the generated serial number does not wrap.
- The wording of error texts beyond empty or not, and which of several texts is stored, except for the password rewriting in the MQTT adapter.
- URLs, TLS, credentials, base paths, and the tag attribute string but for the name of the tag in it.
- Devices of the mock adapter are looked up by position or id; the source's bound items hold pointers into the device vector, which `addDevice` may move.
