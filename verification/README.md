# Verified model of the Spyre DRA driver

A Dafny model of the parts of the Spyre dynamic-resource-allocation driver in which mistakes are hardest to
see: how devices are grouped by topology, how device health travels from a gRPC stream to the published
resource slice through several goroutines, and how claims are prepared and unprepared on a disk that a crash
may catch between any two writes. `dafny verify dfyconfig.toml` checks the whole project.

## Topology groups

`Addresses` defines Go's order on strings and `PeerGraph` the reference notion: connected components of an
undirected graph in which an edge counts only between known devices, each component named by its smallest
address. `UnionFind` is the forest of `tier_groups.go` as a class that changes its parent map in place.
`TierGroups` runs it over the three growing edge sets. Go's random map order is a nondeterministic choice
(`:|`), so that the result does not depend on it is a theorem: the methods promise component names, and
`ComponentNamesAreUnique` says there is only one such map. `GroupsByReachability` states the result from the peer
maps of the topology alone.

`NumaLabels` is the greedy labelling of `pcitopo.go`. Its result does depend on the iteration order, so the
method promises the greedy labelling of some order; `NumaLeaders` says what that is in terms of the topology. Two
exact conditions say when it agrees with tier 0 for *every* order. When peers are mutual, it does if and only if the
PF devices of each tier-0 group all list one another in peers_0 (`LabellingAgreesIffCliques`;
`MissingPeerIsMislabelled` builds an order that goes wrong otherwise). For all topologies, one-sided entries
included, it does if and only if no group can be labelled piecewise by devices none of which reaches the whole
group (`NumaOrders.LabellingAgreesIffNoPatchwork`).

## Device health

`DeviceHealth` holds the data and the methods of the client, the monitor and the device table.
`HealthProtocol` is the transition system: `Start`, any number of listeners and reconnectors and the update
loop interleave over the two atomic flags, the mutex-protected map and the one-slot channel. Quit, context
cancellation and a recovered panic may hit a listener at any receive. The methods are linked to the steps:
`ReceiveIsSetAndNotify` and `LoopTurnIsProcessUpdate` show that each is an uninterrupted run of them.
`HealthPublishing` says the main results of the schedule of actions itself: which state each published device shows,
given the reports that were received.

Two results go against what a reader of the code may expect. A stream failure need not lead to a reconnection
(`ReconnectionCanBeMissed`): the reconnector can run before the listener's deferred `running.Store(false)`, take
the stale flag for success and leave. And the configured initial backoff enters every wait already multiplied
(`Reconnect.ClosedForm`): the first wait is `initial * multiplier`, because the backoff is advanced after the
first failed attempt and before the first wait.

## Claims

`ClaimProtocol` has one action per durable write, each of which may fail, plus crashes and restarts. The ghost
field `used` holds the UUIDs handed out so far; a new one is fresh, which is an assumption about the UUID source,
since the folder creation accepts an existing folder. The state machine loads the checkpoint at the start of an
operation and writes it back whole, as the code does. `ClaimDriver.DeviceState` is the driver object: its fields
are the checkpoint, the specs and the folders, every method changes them one write at a time, and its ghost
history is at all times a run of the protocol from an empty node (`Valid`), so all protocol theorems hold of it.
`CrashAnywhere` covers a process that dies inside a method: it gives the state from which the next process is
constructed and started with `NewDeviceState`.

Two properties fail. The cleaner does not always spare mounted folders: it skips a spec that it cannot read, and
then takes the folders of that spec for unmounted. `SkippedClaimLosesItsFolders` builds the run, for any held claim
on a node that is down, and `PassRemovesIffSkipped` says that a pass removes the folders of a claim exactly when it
could not read its spec. Isolation of claims and possession of folders are therefore stated with the removals that
break them as the exact condition (`RunsLeaveOthersAlone`, `ReachableStatesAreConsistent`), and
`ReadClaimsAreNotStripped` rules these out for a claim whose spec is readable in every pass. Secondly, a metrics
folder can leave the cleaner's reach, because the cleaner finds metrics folders only through their config siblings
and removes the config folder first. `CrashesStrandAMetricsFolder` builds such a run from any idle state, and
`MetricsFoldersAreFindableIffNeverStranded` says exactly which actions cause it. The comment at
internal/state/state.go:208-213 says that `CleanZombieConfigFolders` can clean up an orphaned spec file; the code
removes only folders, and the model follows the code.

## Configuration and pseudo devices

`SenlibConfig` rewrites a JSON tree. Generating from the output again changes nothing and only the documented
keys change. `SenlibValues` says what is written under each key and when there is no configuration. `SenlibReading`
is the way back, through Go's decoder, which matches keys to struct fields up to case. The file reads back as the
same bus ids exactly when the template gives the struct's types to the keys that the rewrite does not overwrite, and
no further key that folds to GENERAL.sen_bus_id and is decoded later holds another list
(`ReadBackIffTemplateDecodes`, with a witness for either failure). `PseudoDevices` expands a topology into PF and VF
devices and tabulates them under their names, over the facts about walks and repeats in `AddressLists`; `Decimal` is
the number text that both the NUMA labels and the function numbers go through.

## Model

| member | source | states |
|---|---|---|
| Addresses.Trichotomy | pkg/topology/types/pcitopo/tier_groups.go:132-137 | Go's `<` on addresses is a total order: of two addresses exactly one of less, equal, greater holds |
| Addresses.LessIsTransitive | pkg/topology/types/pcitopo/tier_groups.go:132-137 | the address order is transitive |
| Addresses.LessIsLexicographic | pkg/topology/types/pcitopo/tier_groups.go:132-137 | a comes before b exactly when it is a proper prefix of b or has the smaller character at the first place where they differ |
| UnionFind.BelowShrinks | pkg/topology/types/pcitopo/tier_groups.go:117-122 | the set of known addresses below x strictly shrinks along parents, so recursive find terminates |
| UnionFind.CompressionKeepsRoots | pkg/topology/types/pcitopo/tier_groups.go:117-122 | path compression keeps the forest shape, the root of every key and the set of roots |
| UnionFind.RootsAreUnique | pkg/topology/types/pcitopo/tier_groups.go:117-122 | a forest has only one root map, so "the root" that find returns is well defined |
| UnionFind.ChainIsClimb | pkg/topology/types/pcitopo/tier_groups.go:117-122 | the chain that find compresses holds exactly the addresses met when following parents from x |
| UnionFind.CompressedAre | pkg/topology/types/pcitopo/tier_groups.go:117-122 | after find(x) exactly the addresses met on the way from x hang directly from the root |
| UnionFind.LinkMovesOneTree | pkg/topology/types/pcitopo/tier_groups.go:132-137 | hanging the larger root below the smaller joins their two trees, changes no other root and loses exactly one root |
| UnionFind.MergeRepresents | pkg/topology/types/pcitopo/tier_groups.go:124-138 | if the trees are the components of an edge set, after a union they are the components with that edge added |
| UnionFind.UnknownEdgeRepresented | pkg/topology/types/pcitopo/tier_groups.go:125-127 | skipping an unknown neighbour is right: its edge adds no connection |
| UnionFind.RootsNameComponents | pkg/topology/types/pcitopo/tier_groups.go:86-101 | the roots of a representing forest are the smallest addresses of the components |
| UnionFind.UnionFind.Find | pkg/topology/types/pcitopo/tier_groups.go:117-122 | returns the root; afterwards exactly the addresses of x's chain hang directly from it and every root is unchanged |
| UnionFind.UnionFind.Union | pkg/topology/types/pcitopo/tier_groups.go:124-138 | unknown neighbours change nothing; else the two trees become one under the smaller root, counted when the roots differed |
| UnionFind.UnionFind.Groups | pkg/topology/types/pcitopo/tier_groups.go:140-146 | for every iteration order the result is the root map |
| UnionFind.UnionFind.constructor | pkg/topology/types/pcitopo/tier_groups.go:109-115 | every address starts as its own root |
| TierGroups.ConnectedComponents | pkg/topology/types/pcitopo/tier_groups.go:86-101 | for every order the result names each connected component by its smallest address; groups number the devices minus the processed edges whose known ends were not connected by the edges before them |
| TierGroups.UnionEdge | pkg/topology/types/pcitopo/tier_groups.go:91-99 | one neighbour: the forest then represents the edges with this one added, and the merge count grows exactly when the edge joins known addresses that were not connected |
| TierGroups.BuildAdjacency | pkg/topology/types/pcitopo/tier_groups.go:62-72 | PF and VF entries with their peer sets, a VF entry replacing a PF entry at the same address |
| TierGroups.GenerateTierGroupsFromTopo | pkg/topology/types/pcitopo/tier_groups.go:47-60 | the three maps name the components of the three tiers' peer graphs; in terms of the topology: two known addresses share a group if and only if a path joins them whose hops are entries of peers_0, of peers_0 and peers_1, or of all three maps, and the group is named by its first member in dictionary order |
| TierGroups.NamesGroupByReachability | pkg/topology/types/pcitopo/tier_groups.go:36-46 | naming the components of a tier means grouping by reachability over the entries of the PF and VF peer maps |
| TierGroups.KeysUpToTier | pkg/topology/types/pcitopo/tier_groups.go:75-84 | the active peer maps list exactly the neighbours of the tier |
| PeerGraph.SameGroupIffConnected | pkg/topology/types/pcitopo/tier_groups.go:36-46 | two known addresses have the same group ID if and only if a path of peer edges joins them |
| PeerGraph.UnknownNeighboursLinkNothing | pkg/topology/types/pcitopo/tier_groups.go:125-127 | edges to unknown addresses never link two devices |
| PeerGraph.ComponentNamesAreUnique | pkg/topology/types/pcitopo/tier_groups.go:86-90 | only one map names the components, so iteration orders leave no trace |
| TierGroups.TiersAreDeterministic | pkg/topology/types/pcitopo/tier_groups.go:86-90 | any two runs give the same three maps |
| TierGroups.TiersAreNested | pkg/topology/types/pcitopo/tier_groups.go:20-24 | equal groups stay equal at the next tier, representatives only go down and are compatible, groups never get more |
| NumaLabels.GenerateNumaInfoMapFromTopo | pkg/topology/types/pcitopo/pcitopo.go:107-125 | the result is the greedy labelling for some order of all devices, a device's peers taking its number and later ones overwriting |
| NumaLeaders.LabelsComeFromLeaders | pkg/topology/types/pcitopo/pcitopo.go:107-125 | devices that find themselves unlabelled take 0, 1, 2, ... in turn, and every address has the number of the last of them that is it or lists it in peers_0; no other address has a label |
| NumaLabels.CliquesAreLabelledByGroup | pkg/topology/types/pcitopo/pcitopo.go:114-123 | when each device's peers are its tier-0 group, every order gives the tier-0 partition with labels exactly 0..k-1 for k groups |
| NumaLabels.LabellingAgreesIffCliques | pkg/topology/types/pcitopo/pcitopo.go:114-123 | with mutual peers: agreement with tier 0 for every order if and only if every tier-0 group's PFs form a clique; NumaOrders.LabellingAgreesIffNoPatchwork drops mutuality |
| NumaLabels.CliquesAgreeForEveryOrder | pkg/topology/types/pcitopo/pcitopo.go:114-123 | when the PFs of every tier-0 group form a clique, every order agrees with tier 0, without any assumption on other peer entries |
| NumaOrders.LabellingAgreesIffNoPatchwork | pkg/topology/types/pcitopo/pcitopo.go:114-123 | for every topology, one-sided entries included: agreement with tier 0 for every order if and only if no group can be labelled by devices that take a number in turn and none of which reaches the whole group |
| NumaOrders.GroupAgreesIffLastReaches | pkg/topology/types/pcitopo/pcitopo.go:114-123 | for a given order, the PFs of a group end with one label if and only if the last of them to take a number lists all the others |
| NumaLabels.MissingPeerIsMislabelled | pkg/topology/types/pcitopo/pcitopo.go:114-123 | a missing peer entry inside a tier-0 group yields an order that labels the group wrongly |
| NumaLabels.CliqueTopologiesAgree | pkg/topology/types/pcitopo/pcitopo.go:107-125 | on disjoint cliques in peers_0 without PF/VF crossings, whatever order the generation took, two PFs share a NUMA label if and only if they share their tier-0 group |
| NumaLabels.CliquePeersAreGroups | pkg/topology/types/pcitopo/pcitopo.go:114-123 | disjoint cliques in peers_0 without PF/VF crossings make clique-shaped tier-0 groups |
| Decimal.AtoiOfItoa | internal/discovery/discovery.go:131-138 | a label written by Itoa reads back as the same number |
| Decimal.ItoaIsInjective | pkg/topology/types/pcitopo/pcitopo.go:117-121 | different NUMA numbers have different labels |
| Decimal.ItoaIsPositional | pkg/topology/types/pcitopo/pcitopo.go:117-121 | Itoa writes the decimal digits of n by position, without a leading zero |
| Decimal.AtoiReads | internal/discovery/discovery.go:131-138 | Atoi accepts exactly an optional sign and digits whose value fits 64 bits, and gives that value |
| DeviceHealth.MapsEqual | internal/health/health_state.go:94-105 | comparing lengths and looking up one map's keys decides equality |
| DeviceHealth.LastEntryCounts | internal/health/health_client.go:276-284 | of several entries for one address in a report the last counts |
| DeviceHealth.ReportedAddresses | internal/health/health_client.go:276-284 | a report speaks of exactly the addresses of its entries |
| DeviceHealth.StateNameIsName | internal/health/health_state.go:48-53 | the published name is the state without the prefix DEVICE_STATE_ when it has it |
| DeviceHealth.InitHealthInfo | internal/health/health_state.go:72-79 | exactly the allocatable addresses, all ONLINE, with a listed device's type |
| DeviceHealth.NamesOf | internal/health/health_state.go:62-70 | every address with the name of its state, which is the state less the prefix DEVICE_STATE_ |
| DeviceHealth.StampTwice | internal/state/state.go:101-129 | stamping the same states again changes nothing |
| DeviceHealth.UpdateChan.Trigger | internal/health/health_state.go:107-115 | after a trigger a token is in the slot, whether or not one was there |
| DeviceHealth.SpyreHealthClient.SetAndNotify | internal/health/health_client.go:272-302 | the map becomes the report's; a token is left unless nothing changed; a missing device ID changes nothing |
| DeviceHealth.SpyreHealthClient.UpdateHealths | internal/health/health_client.go:180-188 | the keys stay, an address that the client knows takes the client's value and every other one keeps its own |
| DeviceHealth.DeviceTable.UpdateDeviceStates | internal/state/state.go:101-129 | the deviceState attribute of listed devices becomes the given state and nothing else changes; the answer is true exactly when the table changed |
| DeviceHealth.DeviceTable.Devices | internal/state/state.go:131-141 | lists every device of the table exactly once |
| DeviceHealth.DeviceHealthMonitor.ProcessUpdate | internal/health/device_health.go:84-102 | one turn consumes the token: each device takes the client's value or keeps its base value, the table shows its name, and the slice is published when the table changed |
| HealthProtocol.ThreadStepKeeps | internal/health/health_client.go:165-173 | every step of Start, listeners and reconnectors keeps the flag and exclusion invariants |
| HealthProtocol.ListenersExcludeEachOther | internal/health/health_client.go:191-268 | in every interleaving at most one listener is live and at most one reconnector is inside; a live listener means running |
| HealthProtocol.ReportsAreAppliedInOrder | internal/health/health_client.go:244-266 | reports are applied stream by stream and in message order; the client's map is the last one applied |
| HealthProtocol.NoLostUpdate | internal/health/device_health.go:84-102 | with no notification pending and the loop waiting, monitor and every published deviceState reflect the latest report over the base, all other attributes as first published |
| HealthProtocol.LatestReportGetsPublished | internal/health/device_health.go:84-102 | from every reachable state with the loop alive and the mutex free, at most nine loop steps publish the latest report |
| HealthPublishing.PublishedIsLatest | internal/health/device_health.go:84-102 | said of the schedule: with no token, no listener about to leave one and the loop waiting, every published deviceState is the name of the state in the last entry for the device in the latest usable report, ONLINE when there is none, all else as first published |
| HealthPublishing.MonitorIsLatest | internal/health/health_client.go:180-188 | the monitor's map likewise |
| HealthPublishing.LoopPublishesLatest | internal/health/device_health.go:84-102 | at most nine loop steps from any reachable state publish the latest report, said of the schedule |
| HealthProtocol.LoopCatchesUp | internal/health/device_health.go:84-102 | the loop alone reaches "waiting on an empty channel" in boundedly many steps |
| HealthProtocol.ReceiveIsSetAndNotify | internal/health/health_client.go:272-302 | the two protocol steps of a report have the effect of the method |
| HealthProtocol.LoopTurnIsProcessUpdate | internal/driver/driver.go:123-132 | the protocol steps of one loop turn have the effect of the method, publishing only on change |
| HealthProtocol.ReconnectionCanBeMissed | internal/health/health_client.go:233-249 | a fault-free run in which a stream failure ends with nobody listening and nobody retrying |
| HealthPublishing.StartLeavesSomebody | internal/health/health_client.go:165-173 | in every run, once Start is done it has left a listener or a reconnector |
| HealthPublishing.FailedStartLeavesReconnector | internal/health/health_client.go:165-173 | whichever call of Start's registration fails, a reconnector is left to run |
| HealthPublishing.GoroutinesAreStarted | internal/health/health_client.go:230-268 | listeners come from successful registrations only, reconnectors from failing streams and a failed Start only |
| HealthPublishing.ReconnectorFares | internal/health/health_client.go:305-357 | a second reconnector leaves at once, a quit ends the attempts, a failed call leads to the next attempt while there is one, a registration to the end |
| HealthPublishing.UnusableReportEndsListener | internal/health/health_client.go:233-249 | a report with a missing device ID stores nothing and ends its listener |
| Reconnect.AttemptReconnect | internal/health/health_client.go:305-357 | ends at the first success, at the first attempt that quit or cancellation stops, or after maxReconnectAttempts Register calls; one wait before each but the first, each wait being the one before it (at first the initial backoff) times the multiplier, without its fraction and at most the maximum |
| Reconnect.WaitsNeverShrink | internal/health/health_client.go:349-353 | for every multiplier of at least 1 waits never shrink and never exceed the maximum |
| Reconnect.ClosedForm | internal/health/health_client.go:313-354 | for an integer multiplier m the wait before attempt n+1 is min(max, initial * m^n) |
| Reconnect.TotalWaitIsBounded | internal/health/health_client.go:327-353 | one run waits at most (attempts - 1) * max in total |
| Reconnect.TotalWaitIsAttained | internal/health/health_client.go:327-353 | a run that starts at the maximum waits exactly that long each time |
| ClaimProtocol.StepKeepsInv | internal/state/state.go:158-224 | every write, failure, crash and cleaner step, skipped specs included, keeps the invariants of specs, checkpoint and folders |
| ClaimProtocol.ReachableStatesAreConsistent | internal/state/state.go:206-221 | in every reachable state each checkpointed claim has its spec listing its devices, no two specs share a folder, and a held claim untouched by Unprepare has both folders if and only if the cleaner has not stripped it |
| ClaimProtocol.ReachableSpecsAreComplete | internal/handler/config/config.go:73-95 | in every reachable state a spec mounts the config folder of one id at the config path and the metrics folder of the same id at the metrics path, and names the recorded devices in order |
| ClaimProtocol.EmptyEntriesCountAsAbsent | internal/state/state.go:170-172 | Prepare sets to work and Unprepare does nothing exactly when the entry is missing or empty |
| ClaimProtocol.RunsRefine | internal/state/state.go:158-224 | over every run with crashes the non-nil checkpoint entries go through exactly the committed Prepare and Unprepare operations, each in one step |
| ClaimProtocol.RepeatedPrepareChangesNothing | internal/state/state.go:170-172 | until its Unprepare commits, across crashes and restarts, a repeated Prepare finds the same devices and writes nothing |
| ClaimProtocol.StepLeavesOthersAlone | internal/handler/cdi.go:298-318 | a step changes entry, spec or folders of a claim it does not work on if and only if it is the cleaner removing a folder of a spec that this pass could not read |
| ClaimProtocol.RunsLeaveOthersAlone | internal/state/state.go:192-224 | whole runs on other claims, crashes and cleaning included, leave a claim untouched if and only if they contain no such removal |
| ClaimProtocol.ReadClaimsAreNotStripped | internal/handler/cdi.go:274-284 | a claim whose spec is readable in every pass that reaches the removals is never stripped |
| ClaimProtocol.CleanerSparesMountedFolders | internal/handler/cdi.go:298-305 | a removal of the cleaner takes a folder that a spec mounts if and only if it is for that folder and this pass could not read that spec |
| ClaimProtocol.PassRemovesIffSkipped | internal/handler/cdi.go:263-307 | a whole pass with successful removals removes the folders of a claim's spec if and only if it could not read that spec |
| ClaimProtocol.SkippedClaimLosesItsFolders | internal/handler/cdi.go:274-280 | whenever the node is down, a restart that cannot read a held claim's spec can remove both its folders while the claim stays checkpointed |
| ClaimProtocol.PassLeavesOnlyMountedConfigFolders | internal/handler/cdi.go:263-307 | after any history, a pass whose config removals succeed leaves no unmounted config folder |
| ClaimProtocol.PassLeavesOnlyStrandedFolders | internal/handler/cdi.go:298-305 | when all its removals succeed, the unmounted folders it leaves are exactly the metrics folders stranded before it |
| ClaimProtocol.CleanerLeavesOnlyMountedFolders | internal/handler/cdi.go:263-307 | over a run whose removals succeed and in which no crash falls between the cleaner's two, a finished pass leaves only mounted folders, metrics ones included, and metrics folders stay findable throughout |
| ClaimProtocol.StrandedStep | internal/handler/cdi.go:298-305 | exactly the listed actions put a metrics folder out of the cleaner's reach, and none brings it back |
| ClaimProtocol.MetricsFoldersAreFindableIffNeverStranded | internal/handler/cdi.go:298-318 | a metrics folder is mounted, has its config sibling or is the cleaner's next removal if and only if no such action happened |
| ClaimProtocol.CrashesStrandAMetricsFolder | internal/handler/cdi.go:301-304 | from any idle state two crashes can strand a metrics folder |
| ClaimProtocol.UnprepareConverges | internal/state/state.go:192-224 | after any interruptions, with any work on other claims in between, one successful Unprepare leaves no entry and neither folder; a leftover spec needs a crash or failure right after the checkpoint write and mounts nothing that exists |
| ClaimDriver.PrepareDevices | internal/state/state.go:226-267 | fails if and only if the claim is not allocated or names an unknown device of this driver; else the result describes exactly this driver's entries of the allocation, in order, each with its request, pool, device, address and kind |
| ClaimDriver.PreparedDevicesAreUnique | internal/state/state.go:226-267 | the claim and the table determine the prepared devices |
| ClaimDriver.CrashAnywhere | internal/state/state.go:206-213 | dying after any write of a method leaves a state of the protocol from which the next process can be constructed |
| ClaimDriver.DeviceState.constructor | internal/state/state.go:60-98 | a new process takes over the disk that any earlier run, ended by a crash, has left |
| ClaimDriver.DeviceState.Prepare | internal/state/state.go:158-190 | a held claim's devices with nothing written, else folders, spec and checkpoint entry of exactly this claim; a failed write leaves just what came before it |
| ClaimDriver.DeviceState.CreateClaimSpecFile | internal/handler/cdi.go:119-177 | folders first, then the spec that mounts them; stops at the first failed write |
| ClaimDriver.DeviceState.GetConfigMetricsMount | internal/handler/config/config.go:73-95 | config folder, config file, metrics folder of the same name, in this order |
| ClaimDriver.FoldersMadeAre | internal/handler/config/config.go:76-93 | the config folder stays when a later write fails, the metrics folder needs all three writes |
| ClaimDriver.DeviceState.Unprepare | internal/state/state.go:192-224 | the spec's folders, then the checkpoint entry, then the spec; an unheld claim is a success with nothing written |
| ClaimDriver.DeviceState.UnprepareDevices | internal/handler/cdi.go:311-318 | removes exactly the host-mounted folders of the spec, or none when it cannot be read |
| ClaimDriver.RemovedFoldersAre | internal/handler/cdi.go:311-318 | of a claim's two folders exactly those whose removal succeeds are removed |
| ClaimDriver.DeviceState.CommitUnprepare | internal/state/state.go:206-221 | the checkpoint loses the claim's entry first, then its spec goes; a failed checkpoint write keeps both, a failed spec removal keeps the spec only |
| ClaimDriver.DeviceState.NewDeviceState | internal/handler/cdi.go:263-307 | removes exactly the config folders that no readable spec mounts and their metrics siblings, each unless its removal fails, and nothing when a directory cannot be walked |
| ClaimDriver.ZombiesAre | internal/handler/cdi.go:298-305 | a folder goes exactly when its removal succeeds, a config folder of its name is on disk and no readable spec mounts that |
| SenlibConfig.GenerateConfigContent | internal/handler/config/senlib_config_generator.go:108-201 | the assignment-by-assignment rewrite gives the specified outcome, including errors and the panic on a non-object SNT_MCI chain |
| SenlibValues.OutcomesAre | internal/handler/config/senlib_config_generator.go:108-201 | each error, the panic and success with their conditions on the template |
| SenlibValues.DevicesAreWritten | internal/handler/config/senlib_config_generator.go:122-129 | sen_bus_id holds the bus ids in order and doom is true exactly for a VF |
| SenlibValues.EnabledPaths | internal/handler/config/senlib_config_generator.go:141-151 | with metrics enabled: a path of its own for one id, "unknown" for none or an empty one, the shared paths for several |
| SenlibValues.DisabledPaths | internal/handler/config/senlib_config_generator.go:152-157 | with an enable flag other than true: the local paths |
| SenlibValues.MissingMetricsAreMade | internal/handler/config/senlib_config_generator.go:162-186 | without METRICS.general one is made that disables metrics, with the local paths |
| SenlibValues.UnspecifiedMetricsStay | internal/handler/config/senlib_config_generator.go:135-136 | METRICS.general without enable: METRICS and the multi-device path stay as they are |
| SenlibValues.MultiPathStays | internal/handler/config/senlib_config_generator.go:142-157 | with one device or none the multi-device path stays |
| SenlibValues.SwitchIsWritten | internal/handler/config/senlib_config_generator.go:261-280 | SNT_MCI.DCR.MCI_CTRL.ENABLE_RISCV is "0x0" for a PF, and a VF leaves SNT_MCI alone |
| SenlibConfig.ModifyRISCVContent | internal/handler/config/senlib_config_generator.go:261-280 | VF changes nothing; PF sets the switch at the end of the chain, or panics exactly when a present link is no object |
| SenlibConfig.OnlyDocumentedKeysChange | internal/handler/config/senlib_config_generator.go:95-107 | on success, level by level, nothing but the documented keys differs |
| SenlibConfig.GeneratingAgainChangesNothing | internal/handler/config/senlib_config_generator.go:108-201 | generating from the output with the same devices gives it back |
| SenlibReading.ReadBackIffTemplateDecodes | internal/handler/config/senlib_config_generator.go:218-231 | reading fails if and only if a key that stays does not fit the struct, keys matching up to case included; it gives the same bus ids in order if and only if it does not fail and no place decoded later holds another list |
| SenlibReading.FoldsLetterByLetter | internal/handler/config/senlib_config_generator.go:218-231 | a key matches a field name when they agree up to ASCII case, the long s and the Kelvin sign counting as s and k |
| SenlibReading.RootFieldTypes | internal/handler/config/senlib_config_generator.go:76-80 | GENERAL, METRICS and RISCV are objects |
| SenlibReading.GeneralFieldTypes | internal/handler/config/senlib_config_generator.go:61-65 | sen_bus_id is a list of strings, multi_aiu_config_path a string, doom a flag |
| SenlibReading.MetricsGeneralFieldTypes | internal/handler/config/senlib_config_generator.go:71-74 | enable is a flag and path a string |
| SenlibReading.LowerCaseKeyOverrides | internal/handler/config/senlib_config_generator.go:218-231 | a template with a second, lower-case general object is read back as that object's bus ids |
| SenlibReading.UnreadableOutputExists | internal/handler/config/senlib_config_generator.go:61-65 | a template whose generated file cannot be read back |
| PseudoDevices.GeneratePseudoDevices | internal/discovery/discovery.go:97-129 | PFs, VFs and the missing siblings of each PF in some order, each with its NUMA number, generated VFs with their PF's |
| PseudoDevices.ListCovers | internal/discovery/discovery.go:97-129 | the list covers exactly the PFs, the VFs and the two siblings of every PF |
| PseudoDevices.ListedDevicesAreRight | internal/discovery/discovery.go:97-129 | without a clash, a listed PF is no VF and every other device is one; listed devices have their own NUMA number, generated ones that of their PF |
| PseudoDevices.NothingIsGeneratedOnS390x | internal/discovery/discovery.go:109-113 | on s390x the list is the PFs and the VFs |
| PseudoDevices.SiblingsAre | internal/discovery/discovery.go:114-122 | the siblings are the address up to the last dot with 1 and 2; none without a dot |
| PseudoDevices.ListRepeatsNothingIffNoClash | internal/discovery/discovery.go:114-127 | the list repeats no address if and only if no two sources give the same one |
| PseudoDevices.CanonicalTopologiesDoNotClash | internal/discovery/discovery.go:109-127 | canonical addresses with PFs at function 0 and PF and VF keys apart never clash |
| PseudoDevices.LookupReadsLabel | internal/discovery/discovery.go:131-138 | looking up a generated NUMA label gives its number |
| PseudoDevices.LookupGivesLabel | internal/discovery/discovery.go:131-138 | the number of the label, and 0 without a label or with one that is no number |
| PseudoDevices.SiblingsHaveFunctions1And2 | pkg/utils/device_utils.go:40-50 | the generated siblings have function index 1 and 2 |
| PseudoDevices.FunctionIndexIs | pkg/utils/device_utils.go:40-50 | the number after the last dot, and -1 without a dot or number |
| PseudoDevices.NamingIsInjective | pkg/utils/device_utils.go:52-55 | canonical addresses with equal device names are equal |
| PseudoDevices.NameReplacesSeparators | pkg/utils/device_utils.go:52-55 | a name has no colon or dot and differs from the address only by dashes in their places |
| PseudoDevices.NamingCollides | pkg/utils/device_utils.go:52-55 | two other strings share a name |
| PseudoDevices.NewAllocatableDevices | pkg/types/allocatable_device.go:87-120 | under each name the last device that has it, with its position as index and state ONLINE |
| PseudoDevices.TableHasEveryDeviceOnce | pkg/types/allocatable_device.go:95-119 | canonical addresses without repeats give one entry per device with indices 0..n-1 |
| PseudoDevices.CanonicalTopologyIsTabulated | pkg/types/allocatable_device.go:87-120 | from a canonical topology with PFs at function 0 and PF and VF keys apart: exactly one entry per PF, VF and sibling, under its own name, with distinct indices 0..n-1 |

## Left out

- gRPC, TLS and socket setup, kubelet registration, the liveness probe, flags, sysfs and ghw discovery: operating-system and library calls with nothing to prove.
- JSON text, checkpoint checksums and CDI spec text: file writes are taken as atomic with an exact round trip, and spec names as injective in the claim UID.
- Folder paths are a kind and a UUID: the config and metrics host paths are taken as different directories, and joining and splitting paths is not modelled.
- CreateNewConfigFolder's ten attempts are one step that succeeds with a fresh UUID or fails.
- Specs of other vendors in the CDI directory and the common spec mount none of the modelled folders and are not part of the disk.
- UnprepareConverges: assumes that the interrupted Unprepares of the claim can read its spec and remove its folders (crashes and failed writes are free, and so is all that happens to other claims), because a failed removal is only logged by the code.
- CleanerLeavesOnlyMountedFolders: assumes successful removals and no crash between the cleaner's two; the two PassLeaves lemmas and StrandedStep state what happens otherwise.
- LabellingAgreesIffCliques: PF and VF keys are apart, since a VF entry replaces a PF entry's peers in the tier-0 graph only; the same holds for LabellingAgreesIffNoPatchwork.
- NoLostUpdate: publishing is taken to succeed; the code only logs a failed publish and does not retry.
- Eventual reconnection is not claimed; ReconnectionCanBeMissed shows a run without it. Which connection the deferred Close hits is not modelled.
- ReadBackIffTemplateDecodes: a null element of a bus id list that is decoded over an earlier list keeps what the reused slice memory holds, which is not modelled; templates whose last list has one are excluded.
- ClosedForm: durations are unbounded integers and the multiplier a real number, so float64 rounding and int64 overflow are not modelled.
- Claims without a device of this driver leave an empty entry that both operations treat as absent; theorems about held claims do not cover them.
- Full leak freedom is not claimed: a Prepare that crashes between spec and checkpoint, followed only by Unprepare, keeps its spec and folders until the claim is prepared again.
- GetDeviceEnvs, the per-device environment, the topology file copy, the pod info files, GetOpaqueDeviceConfigs and the attribute stamping helpers: single-branch assignments.
- The uuidMap of ConfigHandler: written after both mounts exist and only read by GetMountedPath, which no modelled operation calls.
