# HighBarV3: a verified model of its core

HighBarV3 is a skirmish AI for a real-time strategy engine together with a gRPC gateway that streams
the match to clients and takes commands from them. This project models the parts of it that carry state
through many steps, in Dafny, and proves what they promise. `dafny verify dfyconfig.toml` checks all of it.

**Terrain areas** (`Connectivity`, `AreaModel`, `AreaTops`, `AreaNumbering`, `AreaFrontier`, `SeaLake`,
`GridAnalyzer`, `ChokePoints`, `AreaGroups`, `TerrainAnalysis`). The grid analyzer classifies unwalkable water, grows
areas tile by tile in descending altitude, merges and renumbers them, and derives choke points and groups of
accessible areas. The in-place floods are methods of a class over the grid; what they compute is stated with connected
components.

**State stream** (`RingBuffer`, `SubscriberSlot`, `StreamProtocol`). The ring and the slot are classes. The
protocol of engine, subscribers and evictions is a state machine whose steps are the critical sections of
the source; its theorems hold for every interleaving.

**Script compiler** (`JitModel`, `JitLayout`, `JitLinking`, `JitPlan`, `JitControl`, `JitSimulation`,
`JitExactness`, `JitCompiler`, `JitExamples`, `X64Encoding`). The compile loop marks branch targets, patches
forward jumps, fuses operations and batches pushes. The compiled code is proved to follow the interpreter under
a condition on bytecode and fusion policy that is proved exact, and the emitted bytes are proved against
a decoder written from the Intel Software Developer's Manual, volume 2A, sections 2.1.5 and 2.2.1.

**Command path** (`Commands`, `CommandQueue`, `CommandValidator`, `CommandStreams`). Validation and admission
of batches, the bounded queue, the submit stream, and the single AI slot.

**Schedulers and arbiters** (`ActionScheduler`, `ThreatMap`, `SnapshotTick`, `AdminController`). The round
robin over units, the fan-out that redraws the threat map, the snapshot cadence, and the admin leases.

## Where the code differs from its documentation or intent

- The top of an area is documented as its highest tile (`GridAnalyzer.h`, lines 145-149). It is the first
  tile of the absorbing area. `AreaTops.TopsStayHighest` says exactly which step loses the property, and
  `AreaTops.TopNeedNotBeHighest` is a row of tiles on which it is lost. The row takes altitudes as given: it is
  not shown for altitudes that `ComputeAltitude` computes.
- A tile where three or four areas meet is entered in the frontier between two of them only; the others get no entry
  from it (`AreaFrontier.SettlingSetsBeside`, an if-and-only-if). Areas that met as those two and stayed apart always
  become neighbours (`TerrainAnalysis.MeetingAreasAreLinked`).
- Unsubscribing is documented to end all `TryPush` calls on a slot (`DeltaBus.h`, lines 40-43).
  `StreamProtocol.UnsubscribedSlotIsStillOffered` is a run with a later call; the slot, evicted before, refuses it.
  `StreamProtocol.LeftSlotIsOfferedExactly` has the exact condition, and an evicted slot receives nothing
  (`StreamProtocol.EvictedSlotOnlyDrains`).
- Compiled code is right if and only if control finds the stack as the code it comes to expects it
  (`JitControl.Sound`, exact by `JitExactness.SoundIsExact`): nothing reserved at a push that reserves its own run
  and at a stub, and a closing return wherever the end can be reached. The condition is about the plan of the
  function, `JitPlan.PlanOf`, which depends on bytecode and fusion policy alone. It holds when no branch enters a run
  of pushes behind its first one and the last operation is a return (`JitControl.SoundWhenUnbroken`). Three short
  functions fail it. A stub leaves bytes reserved behind, and a run that no branch enters takes them for its own
  (`JitExamples.StaleRunIsMisplaced`). The way out of a division makes the run behind it look reachable, so that a
  push a branch goes to gets no stub (`JitExamples.ExitsRunIsMisplaced`). A script call makes the run behind it look
  unreachable although it runs on, so that control falls into a stub with bytes reserved
  (`JitExamples.CallsRunIsMisplaced`).
- When the pointer of a fused pointer push is null, control goes back in front of the push with the push already
  done (`JitSimulation.NullExitMisplaces`). The simulation holds for runs in which no such pointer is null.
- R12 is refused as an index register although it is encodable (`X64Encoding.OperandDecodes`). A branch within
  3 or 4 bytes of the lower end of the 32-bit range wraps, and a conditional branch beyond the range is taken
  always (`X64Encoding.JumpReads`; exact in `X64Encoding.JumpDecodes`).
- The ring requires rising numbers but accepts any number while its head number is 0
  (`StreamRing.RingBuffer.Push`).
- A lease whose heartbeat frame and lifetime add up to 0 never expires, and one that ends past frame 2^32 expires
  early; `Administration.SweepIsExact` is exact.
- A coordinator's batch is admitted without a look at its commands; `CommandStreams.AdmittedEntriesDispatch` says
  exactly when the engine can dispatch all it queues.

## Model

| member | source | states |
|---|---|---|
| Connectivity.ComponentIsReachability | src/circuit/map/GridAnalyzer.cpp:741-829 | the component a flood fills, defined by closed sets, is the set of tiles linked to its origin by 4-connected paths |
| Connectivity.ConnectedMeansLinked | src/circuit/map/GridAnalyzer.cpp:741-829 | an area without a closed proper part is one in which any two tiles are linked by a path inside it, and conversely |
| GridAnalysis.GridAnalyzer.constructor | src/circuit/map/GridAnalyzer.h:237-252 | every tile starts walkable, unassigned and without altitude |
| GridAnalysis.GridAnalyzer.LoadData | src/circuit/map/GridAnalyzer.cpp:492-501 | exactly the unwalkable tiles get area 0 and the undecided water altitude; all others are untouched |
| GridAnalysis.GridAnalyzer.FindNeighboringAreas | src/circuit/map/GridAnalyzer.cpp:716-733 | the first positive id in the order of the four neighbours and the least other one, 0 for none, in both directions |
| GridAnalysis.GridAnalyzer.ChooseNeighboringArea | src/circuit/map/GridAnalyzer.cpp:735-739 | the two ids of a pair take turns, the lesser first, whichever order they are given in |
| GridAnalysis.GridAnalyzer.FloodAreaId | src/circuit/map/GridAnalyzer.cpp:795-814 | terminates and recolours exactly the connected component of the start tile among the tiles of its id |
| GridAnalysis.GridAnalyzer.ReplaceAreaIds | src/circuit/map/GridAnalyzer.cpp:795-829 | recolours one component, and renames the id in the frontier or, for a tiny zone, removes its entries |
| GridAnalysis.GridAnalyzer.RenameFrontier | src/circuit/map/GridAnalyzer.cpp:817-822 | every mention of the old id becomes the new one, nothing else changes |
| AreaModel.NewAreaGrows | src/circuit/map/GridAnalyzer.cpp:749-751 | starting an area keeps the growth invariant: areas connected, counted exactly, holding their top, sizes adding up |
| AreaModel.JoinedAreaGrows | src/circuit/map/GridAnalyzer.cpp:753-755 | a tile beside an area joins it and the growth invariant is kept |
| AreaModel.MergedAreasGrow | src/circuit/map/GridAnalyzer.cpp:772-777 | absorbing an adjacent area keeps the growth invariant; the absorbed area owns no tile afterwards |
| AreaModel.RenamingKeepsEntries | src/circuit/map/GridAnalyzer.cpp:817-822 | frontier entries keep naming two live areas, lying in one and touching both, when an area is renamed |
| AreaModel.GrowStepKeepsGrowth | src/circuit/map/GridAnalyzer.cpp:741-793 | every step of the growth, whatever the merge decisions, keeps the whole invariant on areas and frontier |
| GridAnalysis.GridAnalyzer.Place | src/circuit/map/GridAnalyzer.cpp:743-786 | processing one tile is one whole-area step (start, join, merge or frontier) and keeps the invariant |
| GridAnalysis.GridAnalyzer.PlaceBetween | src/circuit/map/GridAnalyzer.cpp:757-786 | between two areas the tile makes one absorb the other, whose id is then on no tile, or joins one of them and is entered between the two |
| GridAnalysis.GridAnalyzer.Merge | src/circuit/map/GridAnalyzer.cpp:772-777 | the flood from the top of the absorbed area reaches all of it and nothing else |
| GridAnalysis.GridAnalyzer.GrowAreas | src/circuit/map/GridAnalyzer.cpp:741-786 | at every point of every descending order each area is connected, its size its exact number of tiles, the sizes adding up to the tiles processed; every tile is settled as its neighbours demand, and the tiles between two areas go to them in turn |
| AreaFrontier.GrowStepSettles | src/circuit/map/GridAnalyzer.cpp:748-785 | what a tile visibly does: it starts an area, joins one, makes the area with fewer tiles vanish exactly when that has too few tiles or too low a top or a top is hardly higher than the tile, or else is entered between the two |
| AreaFrontier.SidesAlternate | src/circuit/map/GridAnalyzer.cpp:735-739 | of the tiles entered between two areas over a whole run the first, third, fifth, ... belong to the lesser id, the others to the greater |
| AreaFrontier.SettlingSetsBeside | src/circuit/map/GridAnalyzer.cpp:716-733 | a tile beside the one being settled ends up in its area or with an entry between their areas if and only if its area is one of the two found; where more than two areas meet the others get no entry |
| AreaFrontier.ApartSince | src/circuit/map/GridAnalyzer.cpp:741-822 | from then on, through all merges and renamings, two areas that met at a tile are one area or have the entry of that tile between them |
| AreaFrontier.GrownFrontierIsComplete | src/circuit/map/GridAnalyzer.cpp:788-790 | dropping obsolete entries loses none between areas that ended up different |
| AreaFrontier.RenumberedFrontierIsComplete | src/circuit/map/GridAnalyzer.cpp:816-828 | renumbering loses only the entries of tiny zones |
| GridAnalysis.GridAnalyzer.ComputeTempAreas | src/circuit/map/GridAnalyzer.cpp:741-793 | afterwards all walkable tiles are in valid areas whose sizes add up to their number, the frontier names two different live areas per entry, in nonincreasing altitude, and has an entry wherever two areas met that stayed apart |
| AreaTops.TopsStayHighest | src/circuit/map/GridAnalyzer.cpp:741-786 | every top stays the highest tile of its area through a step if and only if the tile does not make an area absorb one with a higher top |
| AreaTops.AbsorbKeepsPeaks | src/circuit/map/GridAnalyzer.cpp:664-669 | merging two areas with correct tops gives a correct top if and only if the absorbed top is not the higher one |
| AreaTops.TopNeedNotBeHighest | src/circuit/map/GridAnalyzer.h:145-149 | for altitudes taken as given, a four-tile row on which the area top is not the tile of highest altitude, contrary to the documented meaning of GetTop |
| AreaNumbering.RenumberOne | src/circuit/map/GridAnalyzer.cpp:839-853 | each renumbering target is on no tile when it is assigned, so renaming never fuses two areas |
| AreaNumbering.RenumberFrontier | src/circuit/map/GridAnalyzer.cpp:816-828 | the frontier after handling one more area is the frontier renumbered, entries of tiny zones gone; no entry names the new id when it is assigned |
| AreaNumbering.RenumberingIsInjective | src/circuit/map/GridAnalyzer.cpp:836-853 | two areas end up with the same id exactly when they are the same area |
| AreaNumbering.RenumberingKeepsAreas | src/circuit/map/GridAnalyzer.cpp:836-853 | two tiles share an id after renumbering exactly when they did before |
| AreaNumbering.RenumberedIsNumbered | src/circuit/map/GridAnalyzer.cpp:832-857 | positive ids are exactly 1..N, each a connected area of the listed size and top; tiny zones have their own connected ids <= -2 |
| AreaNumbering.RenumberedFrontierIsNumbered | src/circuit/map/GridAnalyzer.cpp:816-828 | entries still name two different areas, lie in one, touch both, and come in nonincreasing altitude |
| AreaNumbering.FrontierIsListed | src/circuit/map/GridAnalyzer.cpp:832-857 | the final frontier names ids in 1..N only |
| GridAnalysis.GridAnalyzer.CreateAreas | src/circuit/map/GridAnalyzer.cpp:832-857 | the renumbering loop computes that numbering, frontier and list of areas; tiles share an id after it exactly when they did before, and the frontier stays complete for listed areas |
| GridAnalysis.GridAnalyzer.ComputeAreas | src/circuit/map/GridAnalyzer.cpp:682-687 | no walkable tile is left unassigned, unwalkable ones stay 0, and numbering, frontier and its completeness are as promised |
| SeaLake.LakeTestIsExact | src/circuit/map/GridAnalyzer.cpp:551-554 | the test on the truncated tile list and the bounding box decides exactly the true size, width and border conditions |
| SeaLake.OneClassPerComponent | src/circuit/map/GridAnalyzer.cpp:518-563 | all tiles of a 4-connected unwalkable component get one class, lake exactly when the component fits; other tiles are untouched |
| SeaLake.RemainingComponent | src/circuit/map/GridAnalyzer.cpp:518-563 | components of undecided water do not change while other components are being decided |
| GridAnalysis.GridAnalyzer.FloodWater | src/circuit/map/GridAnalyzer.cpp:524-549 | the flood covers exactly the component, with its bounding box and its truncated list |
| GridAnalysis.GridAnalyzer.DecideComponent | src/circuit/map/GridAnalyzer.cpp:524-560 | one component more is classified, by its true size and extent |
| GridAnalysis.GridAnalyzer.DecideSeasOrLakes | src/circuit/map/GridAnalyzer.cpp:518-563 | terminates with every undecided tile classified by its own component and all other altitudes unchanged |
| ChokePoints.AddToClusters | src/circuit/map/GridAnalyzer.cpp:185-200 | in coordinates: a tile that touches no end of a cluster starts one, otherwise the first cluster with a touching end gains it at the nearer end and the others stay |
| ChokePoints.AttachClusters | src/circuit/map/GridAnalyzer.cpp:185-200 | the same of the clustering function, for any clusters and tile |
| ChokePoints.ClusterFrontier | src/circuit/map/GridAnalyzer.cpp:180-200 | the clusters of a pair arise from its frontier tiles one after the other in that way |
| ChokePoints.ClustersArise | src/circuit/map/GridAnalyzer.cpp:180-200 | every clustering has such a history |
| ChokePoints.ClustersSplit | src/circuit/map/GridAnalyzer.cpp:180-200 | clusters are 8-connected paths whose altitude falls off to both ends, and together hold exactly the frontier tiles |
| ChokePoints.ChokePointsPartitionFrontier | src/circuit/map/GridAnalyzer.cpp:149-207 | a tile is in the choke points of a pair exactly once if the frontier has it between the two areas, and not at all otherwise |
| ChokePoints.Dispatch | src/circuit/map/GridAnalyzer.cpp:149-159 | the frontier is split by unordered pair of areas, in order, losing nothing |
| ChokePoints.BuildMatrix | src/circuit/map/GridAnalyzer.cpp:160-207 | exactly the pairs with frontier tiles get choke points, one per cluster |
| ChokePoints.LinkAreas | src/circuit/map/GridAnalyzer.cpp:212-225 | two areas are linked, both ways, exactly when they have a choke point |
| ChokePoints.CreateChokePoints | src/circuit/map/GridAnalyzer.cpp:141-226 | the choke point matrix and a symmetric area graph that agree with the frontier |
| AreaGroups.ReachesCoincide | src/circuit/map/GridAnalyzer.h:134-137 | accessibility through choke points is symmetric and transitive |
| AreaGroups.AreaGraph.VisitGroup | src/circuit/map/GridAnalyzer.cpp:298-309 | everything accessible from the start, which is itself not marked at first, and nothing else gets the id |
| AreaGroups.AreaGraph.UpdateGroupIds | src/circuit/map/GridAnalyzer.cpp:291-314 | two areas get the same group id exactly when one is accessible from the other; ids are positive; it terminates |
| TerrainAnalysis.AccessibleAreasAreWalkable | src/circuit/map/GridAnalyzer.h:134-137 | areas joined by a chain of frontiers lie on one 4-connected piece of walkable ground |
| TerrainAnalysis.FindAreas | src/circuit/map/GridAnalyzer.cpp:455-458 | loading, water, given altitudes and area growth together: every 4-connected body of unwalkable tiles is a lake exactly when it fits one and a sea otherwise; exactly the walkable tiles are numbered, the areas being those that settling one tile after the other leaves; the frontier is valid and complete |
| TerrainAnalysis.GroupAreas | src/circuit/map/GridAnalyzer.cpp:459-460 | choke points and groups of any numbered areas: a group is exactly a chain of shared frontiers, and units can walk within it |
| TerrainAnalysis.Analyze | src/circuit/map/GridAnalyzer.cpp:448-460 | the whole pipeline, from walkability to seas and lakes, areas, choke points and groups, with all of the above about the resulting grid; listed areas that met at a tile are neighbours |
| TerrainAnalysis.MeetingAreasAreLinked | src/circuit/map/GridAnalyzer.cpp:212-225 | listed areas that met at a tile and ended up different are neighbours in the area graph |
| StreamRing.RingBuffer.constructor | src/circuit/grpc/RingBuffer.cpp:12-18 | an empty ring |
| StreamRing.RingBuffer.Push | src/circuit/grpc/RingBuffer.cpp:20-33 | accepted exactly when the last number is 0 or lower; a refusal changes nothing; the ring holds the newest entries of the history |
| StreamRing.RingBuffer.CopyNewest | src/circuit/grpc/RingBuffer.cpp:57-72 | the newest entries, oldest first, through any wrap-around |
| StreamRing.RingBuffer.GetFromSeq | src/circuit/grpc/RingBuffer.cpp:35-73 | the answer is a function of the whole push history, with 64-bit wrap-around |
| StreamRing.ReplayIsComplete | src/circuit/grpc/RingBuffer.cpp:35-73 | for any rising numbers, gaps and leading zeros allowed, an answer is a suffix of the history holding every newer entry |
| StreamRing.ReplayIsExact | src/circuit/grpc/RingBuffer.cpp:35-73 | for consecutive numbers it is exactly (from, head], and absent exactly when the ring is empty, the number is ahead, a newer entry was overwritten, or from + 1 wraps |
| StreamSlot.SubscriberSlot.TryPush | src/circuit/grpc/SubscriberSlot.cpp:11-25 | accepted exactly when not evicted and below capacity, which the queue never exceeds; a refusal only counts a drop |
| StreamSlot.SubscriberSlot.BlockingPop | src/circuit/grpc/SubscriberSlot.cpp:27-39 | first in, first out; it ends only when evicted and drained |
| StreamSlot.SubscriberSlot.Evict | src/circuit/grpc/SubscriberSlot.cpp:41-46 | the first eviction wins and the queue stays |
| StreamProtocol.PumpActionKeepsInv | src/circuit/grpc/HighBarService.cpp:388-473 | every step of a pump (ring replay, baseline, pop, forward, end) keeps the stream invariant |
| StreamProtocol.EngineActionKeepsInv | src/circuit/grpc/DeltaBus.cpp:12-42 | listing the live slots and ending a publication keep it |
| StreamProtocol.DeliverKeepsInv | src/circuit/grpc/DeltaBus.cpp:33-35 | delivering to a slot keeps it, accepted or refused |
| StreamProtocol.EvictSlowKeepsInv | src/circuit/grpc/DeltaBus.cpp:34-40 | evicting a slow subscriber keeps it |
| StreamProtocol.SubscribeKeepsInv | src/circuit/grpc/DeltaBus.cpp:44-52 | a subscription at any moment keeps it |
| StreamProtocol.NextKeepsInv | src/circuit/grpc/HighBarService.cpp:388-473 | every step of the engine, of any client and of any eviction keeps the invariant |
| StreamProtocol.StreamIsGapFree | src/circuit/grpc/HighBarService.cpp:388-473 | in every interleaving each client has received start + 1, start + 2, ... without gap or repetition, start being the number resumed from or the head of its baseline |
| StreamProtocol.ResumeIsHonoured | src/circuit/grpc/HighBarService.cpp:394-434 | in every run a client that asks the ring is replayed, and never gets a baseline, if and only if it named a number above 0, not ahead of the head, whose successors the ring still holds; otherwise it is sent nothing but on top of a baseline no older than that moment; it goes live only with everything up to then |
| StreamProtocol.SlotsAreBounded | src/circuit/grpc/SubscriberSlot.cpp:11-25 | in every run no slot holds more than its capacity |
| StreamProtocol.DeliveryIsExact | src/circuit/grpc/DeltaBus.cpp:33-40 | in every run an offered slot takes the newest number exactly when it is live and has room, and only otherwise is the engine about to evict it |
| StreamProtocol.EvictionIsExact | src/circuit/grpc/SubscriberSlot.cpp:41-46 | in every run a live slot is evicted exactly by an eviction of its own or by the engine, as a slow consumer |
| StreamProtocol.RegistryIsExact | src/circuit/grpc/DeltaBus.cpp:44-73 | in every run exactly the clients that have subscribed and not unsubscribed are registered |
| StreamProtocol.HistoryIsPushed | src/circuit/grpc/RingBuffer.cpp:20-33 | in every run the history is what the engine pushed, in order, numbered from 1 |
| StreamProtocol.DrainedClientIsCurrent | src/circuit/grpc/HighBarService.cpp:388-473 | a live, registered client whose queue is drained while the engine is idle has received everything up to the head |
| StreamProtocol.EvictedSlotOnlyDrains | src/circuit/grpc/SubscriberSlot.cpp:11-46 | an evicted slot receives nothing more; what is queued is still drained in order |
| StreamProtocol.LeftSlotIsOfferedExactly | src/circuit/grpc/DeltaBus.cpp:54-73 | in every run, once a slot has left the registry it can still be offered an update if and only if the publication under way has listed it, and then at most once |
| StreamProtocol.LeftSlotIsOfferedAtMostOnce | src/circuit/grpc/DeltaBus.cpp:12-73 | from then on the number of offers is bounded by whether the slot is still listed |
| StreamProtocol.ListedSlotCanBeOffered | src/circuit/grpc/DeltaBus.cpp:33-41 | from every state that lists a slot some continuation of the engine offers it the update |
| StreamProtocol.UnsubscribedSlotIsStillOffered | src/circuit/grpc/DeltaBus.h:40-43 | a run in which TryPush is called on a slot after Unsubscribe evicted and removed it |
| JitModel.FindTotalPushBatchSize | platform/angelscript/jit/as_jit.cpp:3148-3177 | the bytes of the run of pushes starting there |
| JitCompilation.JitCompiler.MarkTargets | platform/angelscript/jit/as_jit.cpp:416-437 | exactly the branch targets are marked |
| JitCompilation.JitCompiler.Resolve | platform/angelscript/jit/as_jit.cpp:843-860 | the position gets its address and exactly the jumps that wait for it are patched to it |
| JitCompilation.JitCompiler.DoJump | platform/angelscript/jit/as_jit.cpp:743-783 | a branch ahead waits in the list of its target, a branch back goes to recorded code, and only a target without code leaves for the interpreter |
| JitLinking.ResolvedJumpsHold | platform/angelscript/jit/as_jit.cpp:856-860 | patching keeps every jump aimed at, or listed under, its own target |
| JitLinking.TableAdvances | platform/angelscript/jit/as_jit.cpp:815-866 | a fused group passes over no branch target |
| JitLinking.ReservesAdvance | platform/angelscript/jit/as_jit.cpp:1180-1186 | as long as no stub is emitted with bytes reserved, what is reserved is nothing or exactly the pushes still to come |
| JitPlan.KeptAdvances | platform/angelscript/jit/as_jit.cpp:815-877 | every group emitted, its reserve and what the compiler takes for reachable are a function of bytecode and fusion policy; ways out and script calls count in it; stubs have nothing reserved when no branch enters a run |
| JitLinking.AllLinked | platform/angelscript/jit/as_jit.cpp:815-860 | past the last operation no patch is pending and every jump goes to the code of its own target |
| JitCompilation.JitCompiler.PushPrep | platform/angelscript/jit/as_jit.cpp:1180-1275 | one reservation for the run, then stores at descending offsets; the reserved bytes shrink by each push |
| JitCompilation.JitCompiler.EmitPlainPush | platform/angelscript/jit/as_jit.cpp:978-995 | the fused load and 4-byte push reserves its whole run |
| JitCompilation.JitCompiler.EmitPushPlains | platform/angelscript/jit/as_jit.cpp:936-958 | the fused pointer push uses reserved bytes if there are any and leaves none; its way out, at the push, makes the code behind it count as reachable |
| JitCompilation.JitCompiler.Choose | platform/angelscript/jit/as_jit.cpp:862-877 | fusion never takes in an operation that a branch goes to |
| JitCompilation.JitCompiler.CompileOp | platform/angelscript/jit/as_jit.cpp:815-877 | one operation or fused group more: layout, jump table, pending jumps, entries and reserves stay in step |
| JitCompilation.JitCompiler.CompileFunction | platform/angelscript/jit/as_jit.cpp:815-3104 | for every well-formed function and policy the planned groups are emitted, no patch is pending, every jump goes to the code of its own target; without stubs that have bytes reserved the reserves are right everywhere; the code is sound when no branch enters a run and the end is closed |
| JitCompilation.JitCompiler.EmitSingle | platform/angelscript/jit/as_jit.cpp:1167-3085 | one operation by itself; an entry or an operation with a way out of its own makes the code behind it count as reachable, a return or a script call as unreachable |
| JitSimulation.PushAdvances | platform/angelscript/jit/as_jit.cpp:1180-1275 | a batched push does to stack pointer and memory what a single push does |
| JitSimulation.FusedAdvances | platform/angelscript/jit/as_jit.cpp:978-995 | the fused groups of plain operations and pushes do what their operations do one by one |
| JitSimulation.PushPlainsAdvances | platform/angelscript/jit/as_jit.cpp:936-958 | the fused pointer push and its two operations do what the three do one by one, if the pointer is not null |
| JitSimulation.NullExitMisplaces | platform/angelscript/jit/as_jit.cpp:945-949 | if it is null, control goes back at the push with the stack pointer already moved and the pointer stored |
| JitSimulation.BranchAdvances | platform/angelscript/jit/as_jit.cpp:743-783 | a branch of the compiled code, conditional or not, goes where the interpreter goes |
| JitSimulation.RunsFollow | platform/angelscript/jit/as_jit.cpp:815-3104 | from any point of a sound function, for every meaning of the operations and of their ways out, however long native code runs, it meets the interpreter then or later, in corresponding or handed-back state, the interpreter moving at least one operation for two native steps; no fused pointer push meets a null pointer |
| JitSimulation.EntryFollows | platform/angelscript/jit/as_jit.cpp:815-877 | the same from every entry of the function, with the stack pointer of the interpreter |
| JitControl.BranchIntoRunIsUnsound | platform/angelscript/jit/as_jit.cpp:1180-1186 | control that arrives, with nothing reserved, at a push behind another push makes a function unsound |
| JitControl.SoundWhenTargetsReserveNone | platform/angelscript/jit/as_jit.cpp:815-877 | right reserves, none in front of stubs and branch targets, and a closed end make a function sound |
| JitControl.PathsAreAwake | platform/angelscript/jit/as_jit.cpp:545-549 | without script calls, control only comes to code the compiler takes for reachable, to stubs and to entries; so the closing return is there |
| JitControl.SoundWhenUnbroken | platform/angelscript/jit/as_jit.cpp:1180-1186 | so does it when no branch enters a run behind its first push and the end is closed: the last operation returns or always branches, or nothing is a script call |
| JitExactness.UnsoundParts | platform/angelscript/jit/as_jit.cpp:1180-1275 | an unsound function has an entry, a meaning and a time from which on native code never again meets the interpreter |
| JitExactness.SoundIsExact | platform/angelscript/jit/as_jit.cpp:815-3104 | compiled code follows the interpreter from every entry and for every choice of conditional branches if and only if pushes and stubs find reserved what they expect and a reachable end is closed |
| JitExamples.StaleRunIsMisplaced | platform/angelscript/jit/as_jit.cpp:819-831 | a nine-word function in which the stub of a cold branch target leaves bytes reserved, so that a later run which no branch enters is misplaced |
| JitExamples.CompileStale | platform/angelscript/jit/as_jit.cpp:819-831 | the compiler does emit that code: the push becomes a bare store that moves no stack pointer |
| JitExamples.ExitsRunIsMisplaced | platform/angelscript/jit/as_jit.cpp:2220-2228 | an eight-word function in which the way out of a division makes a cold run look reachable, so that a branch into it misplaces a push |
| JitExamples.CompileExits | platform/angelscript/jit/as_jit.cpp:2220-2228 | the compiler does emit that code: the push the branch goes to is a bare store |
| JitExamples.CallsRunIsMisplaced | platform/angelscript/jit/as_jit.cpp:586-601 | a seven-word function in which a script call that runs on makes the run behind it look unreachable, so that control is handed back with bytes reserved |
| JitExamples.CompileCalls | platform/angelscript/jit/as_jit.cpp:721-741 | the compiler does emit that code: the push behind the call is a stub |
| X64Encoding.OperandDecodes | platform/angelscript/jit/virtual_asm_x64.cpp:371-428 | every encoded memory operand is read back as itself, with the RSP, R12, RBP and R13 cases; refused exactly for an illegal scale and index registers 4 and 12 |
| X64Encoding.InstructionDecodes | platform/angelscript/jit/virtual_asm_x64.cpp:371-459 | prefixes, opcode and operand of a whole instruction are read back as written |
| X64Encoding.LoadDecodes | platform/angelscript/jit/virtual_asm_x64.cpp:431-459 | an address beyond 2 GB is first loaded into R11, and only then |
| X64Encoding.JumpDecodes | platform/angelscript/jit/virtual_asm_x64.cpp:586-603 | a branch to any address is read back with its own condition and destination if and only if it stays clear of the lower end of the 32-bit range or is unconditional and beyond it |
| X64Encoding.JumpReads | platform/angelscript/jit/virtual_asm_x64.cpp:586-603 | otherwise it goes 4 GB too far, or, conditional and beyond the range, always to its destination |
| X64Encoding.CodeBuffer.PrepLongJump | platform/angelscript/jit/virtual_asm_x64.cpp:548-556 | a long jump whose displacement is still open |
| X64Encoding.CodeBuffer.EndLongJump | platform/angelscript/jit/virtual_asm_x64.cpp:558-584 | the patched jump goes to the next byte emitted and all other bytes stay; refused with nothing changed when the distance does not fit |
| X64Encoding.CodeBuffer.PrepShortJump | platform/angelscript/jit/virtual_asm_x64.cpp:533-538 | a short jump whose displacement is still open |
| X64Encoding.CodeBuffer.EndShortJump | platform/angelscript/jit/virtual_asm_x64.cpp:540-546 | patched to go here when the distance fits a byte, refused with nothing changed otherwise |
| X64Encoding.CodeBuffer.Jump | platform/angelscript/jit/virtual_asm_x64.cpp:586-603 | the emitted branch, near or far, and exactly when it is the one asked for |
| Commands.ArmsArePartitioned | proto/highbar/commands.proto:14-98 | every arm of the command message is bound to a unit or game-wide, never both; exactly fifteen arms, all bound, are supported |
| CommandQueues.BatchIsContiguous | src/circuit/grpc/CommandQueue.cpp:32-46 | in what was queued every accepted batch is contiguous and in order |
| CommandQueues.CommandQueue.constructor | src/circuit/grpc/CommandQueue.cpp:15-16 | an empty queue |
| CommandQueues.CommandQueue.TryPush | src/circuit/grpc/CommandQueue.cpp:18-30 | accepted exactly below capacity; everything drained followed by the queue stays the concatenation of the accepted batches |
| CommandQueues.CommandQueue.TryPushBatch | src/circuit/grpc/CommandQueue.cpp:32-46 | the whole batch if it fits, otherwise nothing changes; the same conservation law and bound |
| CommandQueues.CommandQueue.Drain | src/circuit/grpc/CommandQueue.cpp:48-65 | the front of the queue, up to the maximum or all for 0; nothing lost, repeated or reordered |
| CommandQueues.BuildEntries | src/circuit/grpc/CommandQueue.cpp:99-111 | one entry per command: entry i has index i, command i, the number and client command id of the batch, the session and the target |
| CommandQueues.EntriesCarry | src/circuit/grpc/CommandQueue.cpp:99-111 | the same of the function that gives the entries |
| CommandQueues.QueueReadsBatch | src/circuit/grpc/CommandQueue.cpp:32-46 | wherever an accepted batch lies in what was ever queued its entries read 0, 1, 2, ... with its commands, session and number |
| CommandQueues.AdmitCommandBatch | src/circuit/grpc/CommandQueue.cpp:77-119 | admitted whole exactly when it has 1 to 64 commands, a target below 2^31, a number and a client command id other than 0, and fits; otherwise refused with the first broken rule, changing nothing; what is queued carries index and provenance |
| CommandStreams.AdmittedEntriesDispatch | src/circuit/grpc/CommandQueue.cpp:77-119 | what an admitted coordinator batch queues can be dispatched if and only if every command is game-wide or names the positive target of the batch |
| CommandStreams.AdmittedNeedNotDispatch | src/circuit/grpc/CommandQueue.cpp:89-92 | a batch for unit 0 is admitted, and its unit commands have no target |
| CommandValidation.ValidateBatch | src/circuit/grpc/CommandValidator.cpp:381-503 | accepted exactly when every rule, spelled out, holds for the batch and every command; otherwise nothing is accepted and the first problem is reported with its index and a code whose defect is there |
| CommandValidation.AdmissibleMeansAcceptable | src/circuit/grpc/CommandValidator.cpp:381-503 | the checks one after the other admit exactly the batches that satisfy all rules on correlation, basis, targets, admin arms, supported arms, options, states, positions, definitions and ownership |
| CommandValidation.IssueIsDefect | src/circuit/grpc/CommandValidator.cpp:222-379 | the code reported for a command names a defect it has |
| CommandValidation.AcceptedCommandDispatches | src/circuit/grpc/CommandDispatch.h:33-75 | a command of an accepted batch dispatches to -1 if it is game-wide and otherwise to its own positive unit, live and owned |
| CommandValidation.StrictMeansSupported | src/circuit/grpc/CommandValidator.cpp:303-312 | in strict mode every accepted command is of one of fifteen arms, bound to the unit of its batch, with options of three bits and a position on the map where it takes one |
| CommandStreams.SubmitStream.constructor | src/circuit/grpc/HighBarService.cpp:736-740 | a stream that has read nothing |
| CommandStreams.SubmitStream.HandleEndOfStream | src/circuit/grpc/HighBarService.cpp:743-761 | the acknowledgement counts exactly the batches read, all accepted, with one accepted result for each, naming its batch |
| CommandStreams.SubmitStream.HandleBatch | src/circuit/grpc/HighBarService.cpp:763-854 | a batch is enqueued exactly when its number is above the last, it is admissible and fits; what is enqueued is always a prefix of what was read, with strictly rising numbers, nothing after the first rejection; every entry pushed carries its index and provenance and dispatches to -1 or its own positive unit; counters and result of every batch are exact |
| CommandStreams.SubmitStream.Judge | src/circuit/grpc/HighBarService.cpp:763-845 | order, validity and room decide in this sequence, each with its own status and issue; only then is the batch pushed, whole |
| CommandStreams.ReceivedHolds | src/circuit/grpc/HighBarService.cpp:743-854 | every outcome of a batch keeps the invariant of the stream |
| CommandStreams.AdmissibleEntriesDispatch | src/circuit/grpc/CommandDispatch.h:33-75 | all queue entries of a valid batch have a dispatch target: -1 if game-wide, otherwise their own positive unit |
| CommandStreams.NextKeepsHolder | src/circuit/grpc/HighBarService.cpp:1283-1290 | the AI slot is taken exactly when one stream or handshake holds it, never by two |
| CommandStreams.NextKeepsInv | src/circuit/grpc/HighBarService.cpp:690-761 | every step of any stream or handshake keeps slot, calls and pushes consistent |
| CommandStreams.SessionsNeverInterleave | src/circuit/grpc/HighBarService.cpp:717-741 | in every run at most one AI stream is open, and the batches of different sessions reach the queue one session after another, each rising strictly |
| CommandStreams.SlotGoesToOneCall | src/circuit/grpc/HighBarService.cpp:717-741 | in every run a call that starts gets the slot, and is open, exactly when it is wired and nobody holds the slot, and keeps it until it is deleted; likewise a handshake until it releases it |
| CommandStreams.PushIsExact | src/circuit/grpc/HighBarService.cpp:763-854 | in every run a batch an open call reads is pushed, and the call stays open, exactly when it is admitted and its number is above 0 and above all the call has pushed |
| ActionScheduling.ActionScheduler.AddActionUnit | src/circuit/CircuitAI.h:179 | the unit goes to the end of the list |
| ActionScheduling.ActionScheduler.UpdateActions | src/circuit/CircuitAI.cpp:1672-1695 | terminates, also when updates add units; starts where the last call stopped, or at the front; exactly the units found dead are removed; survivors keep their order; visited and remaining units are together those there were and those added; at most n / 32 + 1 units are updated, and that many unless the end is reached |
| ActionScheduling.CallInNumbers | src/circuit/CircuitAI.cpp:1672-1695 | one call in numbers: updates within the quota and not below it unless the end is reached, and one unit fewer per dead one |
| ActionScheduling.AddedIsKept | src/circuit/CircuitAI.cpp:1688-1692 | a unit that an update adds is looked at later in the call or still in the list |
| ActionScheduling.RemoveAdvances | src/circuit/CircuitAI.cpp:1683-1686 | overwriting a dead unit with the last one loses and repeats nobody |
| ActionScheduling.UpdateAdvances | src/circuit/CircuitAI.cpp:1688-1692 | an update and the units it adds keep the account of visited and remaining units |
| ActionScheduling.CallMakesProgress | src/circuit/CircuitAI.cpp:1678-1694 | a call that ends inside the list has moved by at least its quota |
| ActionScheduling.SweepEndsInTime | src/circuit/CircuitAI.cpp:64-64 | with nothing added, a sweep from the front takes at most 32 calls, however the list shrinks |
| ActionScheduling.SweepVisitsOnce | src/circuit/CircuitAI.cpp:1672-1695 | at any point of a sweep the visits so far and the units ahead are exactly the units at its start |
| ActionScheduling.FinishedSweepIsComplete | src/circuit/CircuitAI.cpp:1672-1695 | a finished sweep has visited every unit exactly once and kept the living in order |
| ThreatMapping.FillKeepsInv | src/circuit/map/ThreatMap.cpp:603-610 | a drawer clears its own layers of the buffer that is not read |
| ThreatMapping.DrawKeepsInv | src/circuit/map/ThreatMap.cpp:612-620 | drawing one enemy keeps the layer equal to a lone thread drawing the enemies so far |
| ThreatMapping.FinishKeepsInv | src/circuit/map/ThreatMap.cpp:652-655 | the countdown stays the number of unfinished jobs and the last one posts |
| ThreatMapping.ApplyKeepsInv | src/circuit/map/ThreatMap.cpp:692-715 | the swap publishes exactly the sequential drawing result |
| ThreatMapping.NextKeepsInv | src/circuit/map/ThreatMap.cpp:603-715 | every step of the update, its drawers and the application keeps the invariant |
| ThreatMapping.ReadersSeeSequential | src/circuit/map/ThreatMap.cpp:603-715 | at every moment of every run readers see the complete result of drawing one set of enemies sequentially |
| ThreatMapping.AirLayersShowThreats | src/circuit/map/ThreatMap.cpp:337-373 | in every run the air layer of a role shows exactly the hostile enemies of unknown kind and those that reach the air from where they are, each drawn once and in order |
| ThreatMapping.GroundLayersShowThreats | src/circuit/map/ThreatMap.cpp:337-373 | its surface, amphibious and swimming layers show exactly the hostile enemies of unknown kind and those that reach land or water |
| ThreatMapping.SharedLayersShowAll | src/circuit/map/ThreatMap.cpp:671-688 | the cloak and shield layers show every enemy, hostile before peaceful |
| ThreatMapping.AppliedIsPublished | src/circuit/map/ThreatMap.cpp:657-706 | in every run what readers see changes only when an update is applied, to the enemies that update began with |
| ThreatMapping.ReadBufferIsUntouched | src/circuit/map/ThreatMap.cpp:603-715 | no step writes the buffer readers use; only the application switches it |
| ThreatMapping.PostedOnceWhenDone | src/circuit/map/ThreatMap.cpp:652-670 | the application is posted exactly once per update, exactly when the body and all 2R drawers are done |
| ThreatMapping.UpdateNeverStuck | src/circuit/map/ThreatMap.cpp:657-690 | until it is applied some step of an update is possible |
| ThreatMapping.EveryStepCounts | src/circuit/map/ThreatMap.cpp:657-690 | whatever the interleaving, every step brings the update nearer by exactly one |
| SnapshotCadence.SnapshotTick.constructor | src/circuit/grpc/SnapshotTick.cpp:12-22 | configured with the base cadence |
| SnapshotCadence.SnapshotTick.RequestSnapshot | src/circuit/grpc/SnapshotTick.h:82-85 | a request is pending until the next pump; several coalesce |
| SnapshotCadence.SnapshotTick.Pump | src/circuit/grpc/SnapshotTick.cpp:24-76 | the decision and the new schedule; the 32-bit doubling with its overflow guard is exact for every cadence |
| SnapshotCadence.CadenceIsBackoff | src/circuit/grpc/SnapshotTick.cpp:24-76 | at every frame the cadence is min(base * 2^k, 1024) for k over-cap emissions in a row, lies in [base, 1024], and the deadline has not passed |
| SnapshotCadence.EmissionsAreTimely | src/circuit/grpc/SnapshotTick.cpp:24-76 | a frame emits exactly when requested or due, never more than 1024 frames after the last emission; an unforced stamp is the exact distance |
| SnapshotCadence.EveryWindowEmits | src/circuit/grpc/SnapshotTick.cpp:24-76 | every window of 1024 frames after frame 0 holds an emission |
| Administration.AdminController.constructor | src/circuit/grpc/AdminController.cpp:14-15 | no leases, an empty log, the next audit id 1 |
| Administration.AdminController.Validate | src/circuit/grpc/AdminController.cpp:147-307 | the first check that rejects, in order, among role, run mode, values, staleness and lease conflict, with its status and issue code; each status exactly when its condition, spelled out, holds |
| Administration.ValidationExplains | src/circuit/grpc/AdminController.cpp:147-307 | only operators, admins and the test harness may act; accepted exactly when enabled, sensible, based on a frame at most 300 back, and unopposed |
| Administration.AdminController.Execute | src/circuit/grpc/AdminController.cpp:309-335 | the verdict; a lease of one lifetime for the caller on pause or global speed exactly when executed; one audit event with its fields |
| Administration.AdminController.Audit | src/circuit/grpc/AdminController.cpp:357-374 | one event more, with the next id |
| Administration.AdminController.Heartbeat | src/circuit/grpc/AdminController.cpp:337-345 | only the owner of an existing lease extends it, by one lifetime in 32 bits; no other lease changes |
| Administration.AdminController.ExpireLeases | src/circuit/grpc/AdminController.cpp:347-355 | exactly the leases past their end are erased, in whatever order the sweep walks |
| Administration.NextKeepsInv | src/circuit/grpc/AdminController.cpp:309-374 | leases exist on the exclusive controls only and end one lifetime after the last heartbeat; audit ids are 1..n |
| Administration.RejectedOnlyAudits | src/circuit/grpc/AdminController.cpp:314-319 | a rejected action changes the audit log only |
| Administration.OwnerChangesOnlyByTaking | src/circuit/grpc/AdminController.cpp:290-345 | a control keeps its owner through a step exactly unless an expired lease is swept or another caller executes with the release policy |
| Administration.LeasesChangeHandsFairly | src/circuit/grpc/AdminController.cpp:290-355 | over every stretch of every run a control leaves its owner only through such a step |
| Administration.EveryActionIsAudited | src/circuit/grpc/AdminController.cpp:309-374 | the log has exactly one event per executed or rejected action, in order, each with its verdict |
| Administration.SweepIsExact | src/circuit/grpc/AdminController.cpp:347-355 | a sweep removes a lease exactly when its lifetime has passed, if and only if 0 < heartbeat + lifetime <= 2^32 |

## Left out

- Altitude computation and sector aggregation (`ComputeAltitude`, `SetAreaIdInSectors`): altitudes are an input of the area growth.
- `SortTiles`: the processing order is an input, any order of the unassigned tiles in nonincreasing altitude without repetition.
- The altitude ratio test of the merge is single-precision arithmetic; it is the parameter `nearPeak`, and every result holds for all such tests.
- Tiles are kept in maps by position, altitude and area id apart; the row-major array and the source position of a tile are not modelled.
- Choke point nodes (middle, ends, size), the corridor flag of temporary areas, and areas' bounding boxes and sector counts.
- Script operations other than pushes and branches keep an arbitrary effect; fused ones keep their joint effect. A fused comparison, whose code does not keep the result of the comparison for later operations, is taken to keep it. Where an operation leaves for the interpreter is an arbitrary function of the machine state; a script call is one operation, with the callee inside it, and a call that never goes on in compiled code counts as handing control back. Switch tables, register caching and page changes are not modelled.
- The 32-bit width of the reserved push bytes is not modelled; addresses of compiled code are instruction indices in the simulation and byte offsets in the encoder.
- Blocking and waking (condition variables), mutexes below the level of their critical sections, and the subscriber and drop counters of the service.
- Payload contents, serialization, authentication, health files, logging and the completion queues of the gateway; the numbering 1, 2, 3, ... and push-before-publish order of the engine thread are taken from `src/circuit/module/GrpcGatewayModule.cpp`, lines 847-869.
- Dispatch of a command to the engine, retry hints, field paths and texts of command issues.
- Whether an enemy is in the water, and what the weapons of a unit reach, are inputs of the threat map; so is what drawing does to a layer.
- ThreatMapping.NextKeepsInv: one enemy drawn on the layers of one job is one step, and drawing is an arbitrary function per layer; an update is queued only when none is under way, as the map manager and its callers ensure.
- SnapshotCadence.CadenceIsBackoff: one pump per frame from frame 0, without wrap-around of the frame counter.
- CommandValidation.StrictMeansSupported: the list of supported arms and the option mask are those of the capability provider, taken as constants.
- The influence map, which repeats the threat map's scheme.
- StreamRing.RingBuffer.constructor: a capacity of 0, which the source refuses with an exception, is a precondition.
- The cap of four observers and the handshake's schema check; of the handshake only its momentary claim of the AI slot is modelled.
- Profiler marks and debug drawing.
- AreaTops.TopNeedNotBeHighest: the altitudes of its row are given, not computed by `ComputeAltitude`, which is not modelled.
- X64Encoding.CodeBuffer.EndLongJump: one page of code; the trampoline written for a jump from another page more than 2 GB away, and the space set aside for it, are not modelled.
- CommandStreams.SubmitStream.HandleEndOfStream: the validation mode of a result is not modelled.
- Administration.AdminController.Audit: the 64-bit width of the event id is not modelled.
- Administration.AdminController.Validate: field paths and texts of an issue are not modelled.
