# A verified model of the Setu consensus core

Setu validators order events in a DAG, fold pending events into anchors, vote on each anchor as a
consensus frame, and apply the anchor's events to the shared state once the frame has a quorum. This
project models that core in Dafny and proves what the pieces promise each other, over all inputs and
over whole runs.

* **The DAG and its collector.** `DagModel` says on values what each operation does to the five indexes
  and defines the collector's result as a least closed set. `DagClass.Dag` does the work in place.
* **Three layers.** `Layers` is the DAG manager as interleaved lock sections: adders that ask DAG, cache and
  store for their parents and then write, anchors that are persisted, flagged, cached and swept. `LayersInv`
  is the invariant, `LayersTheorems` what a user may rely on, `Frontier` where new events may attach; `LostEvent` is a
  run that breaks a promise, `Reinsertion` is about ids that come back, `CacheFill` about what the cache is filled with.
  `RecentCache` is the cache, `DagManagerClass.DagManager` the manager in place; each of its calls is shown to
  be a run of `Layers`.
* **Folding and applying.** `Order`, `FoldPolicy`, `Router`, `StateApply` and `Overlay` are canonical order,
  same-key policy, routing, application of committed events and speculative overlay; `Effects` reads the effect of an
  event off its changes. `BuilderModel` and
  `AnchorBuilderClass.AnchorBuilder` are the anchor builder, on values and in place; `Agreement` compares a
  leader with a follower, `Choosing` says what an anchor is built from.
* **Frames.** `ManagerModel` and `ConsensusManagerClass.ConsensusManager` are the consensus manager, on values
  and in place. `Lifecycle` and `Calls` are about single engine calls, `Outcomes` says in numbers how they end and
  `Proposals` what they propose, `Judged` is about frames whose votes decide them, `LifecycleRuns` about runs of them, `Forgotten` and
  `Copies` are such runs, `Votes` is about the order of messages. `Once` and `Wait` follow every event, `Twice`,
  `StaleCheck` and `ChainGuard` say when an event is folded twice. `Completion` is what happens after a frame is final,
  `Announcements` joins the two. A call is *careful* if, before it makes a frame final, trimming is going to
  leave that frame as the newest, and, when the node has no build for it, the frame names no event twice, its events
  are all pending and none of them is in the open build.

Hashes are terms: two digests are equal exactly when they were made from equal content. Event ids are
numbers, ordered as fixed-width hexadecimal strings are. Clocks, storage results, network messages and the
order in which hash maps list their contents are parameters, so every theorem holds for all of them.
Asynchronous code is one step per lock section.

## Where the code does not do what is said of it

* A node can fold an event twice: a frame of its own that it has given up is accepted again when it comes back
  final, although the open build may be over the same events, and the fallback then makes that build final, too.
  `Twice.FoldedTwice` is such a run, `Twice.CarefulIff` (with `Twice.NewestIff`) the exact condition, `ChainGuard.OwnFramesOnce` what it comes
  down to for own frames; under it `Once.ExactlyOnce` and `Wait.BoundedWait` hold. The chain-root check alone does
  not help: in that run it passes. It is also made before the lock under which the frame is applied, and
  `StaleCheck.AppliedOnMovedChain` is a run in which the chain moves in between.
* A frame that ends with a quorum does not always rid the overlay of its own events. The frame's id covers the
  anchor's id, and nothing checks that the latter is made from the anchor's events, so a finalized copy of a pending
  frame may name other events; what is stored for the frame is then replaced by those. `Copies.WrongCopyLeavesEntries` is such
  a run, `Copies.CopyClearsIff` and `Lifecycle.OverlayClearedIff` give the exact condition, and `LifecycleRuns.RunClears` holds
  over runs whose copies name the events of the frame the node has.
* With every anchor persisted before its own sweep, the three layers can still lose an event: the engine marks
  a frame's events final before they are persisted, so the sweep of a child's anchor can cascade to a
  parent whose own anchor is not yet stored. `LostEvent.SweepCanLoseAnEvent` is such a run;
  `LayersTheorems.SweepLosesNothingIff` is the exact condition for one sweep, `LayersTheorems.RefinesOneMapIff` for a
  run, and `LayersTheorems.LayersRefineOneMap` holds over runs whose sweeps start with all marked events persisted.
* A finalized outcome does not always name the last entry of the finalized list, and a frame can become final
  twice: `Forgotten.FinalTwiceAndNotNewest` is a run of both. `Lifecycle.FinalizedIsNewest` gives the exact condition
  for the first, and `Twice.AnotherIsMarked` says what is marked then. The second takes a call that forgets the frame
  (`LifecycleRuns.ForgetsIff`, `LifecycleRuns.FinalOnlyOnce`), and after it the frame is final again iff it comes with a quorum and can be applied
  (`LifecycleRuns.FinalAgainIff`); anchors that carry the root they are applied on never are (`LifecycleRuns.ChainedFinalOnce`).
* The comment in the collector's loop says a parent that fails may succeed later; active children of survivors never
  change during the loop (`DagModel.ActiveChildrenConstant`).
* The modification tracker is keyed by object id alone, while writes are kept apart by subnet and object id.
  Kept events commute on cells, verdicts and root (`StateApply.KeptEventsCommute`) but on the tracker only as
  `StateApply.KeptCommuteIff` says; `StateApply.KeptNeedNotCommute` has two that do not.
* Insertion looks for duplicates in the DAG only, so an event can come back at another depth
  (`Reinsertion.ReinsertionCanChangeDepth`); `Reinsertion.ReinsertionKeepsDepthIff` says when it does not.
* With every vote in, a frame can be left undecided until it times out: when exactly two thirds approve, neither
  threshold is met (`Outcomes.QuorumExcludesRejection`).
* A frame whose votes decide it can stay pending: a proposal that brings a vote in the node's own name, or for which one
  has waited, is not classified on arrival. `Judged.JudgedIff` is the exact condition for a call, `Judged.AlwaysJudgedIff`
  for a run, `Judged.CanBeOverlooked` a frame with a quorum that stays.
* An event that deletes a cell of the state and creates it again is refused, since a creation looks into the state also
  after the event's own earlier changes (`Effects.VerdictIs`).
* The conflict check creates empty trees for the subnets it looks into, so an event that is refused can change the
  root: `StateApply.RefusedMovesRoot` has such events, `StateApply.ConflictKeepsRootIff` and `StateApply.SkippedKeepRootIff` say
  exactly when the root stays.

## Model

| member | source | states |
|---|---|---|
| DagClass.Dag.AddEvent | consensus/src/dag.rs:56-96 | refuses a duplicate, then the first missing parent, leaving the DAG alone; otherwise enters the event one level below its deepest parent in every index |
| DagClass.Dag.DepthOver | consensus/src/dag.rs:65-78 | the first parent not in the DAG, or a depth that exceeds every parent's and is one more than some parent's |
| DagClass.Dag.AddEventWithDepth | consensus/src/dag.rs:238-275 | same entry at a depth computed earlier, refusing duplicates only |
| DagClass.Dag.LinkParents | consensus/src/dag.rs:252-264 | exactly the in-DAG parents get the event as a child and stop being tips |
| DagClass.Dag.FinalizeEvents | consensus/src/dag.rs:199-206 | exactly the named in-DAG events become Finalized and leave the pending set |
| DagClass.Dag.RemoveEvent | consensus/src/dag.rs:291-315 | removes iff the event is there without active children; then it is gone from every index, its parents' child sets included |
| DagClass.Dag.GcFinalizedEvents | consensus/src/dag.rs:321-361 | with Finalized targets: what is removed is the least set that holds every collectable target and, with an event, its collectable parents, whatever the queue order; `removed` is its size; `retained` is 0 iff no target is left; terminates |
| DagModel.GcSetClosed | consensus/src/dag.rs:321-361 | that least set is itself closed, so it is a fixpoint and not just a bound |
| DagModel.GcSetIs | consensus/src/dag.rs:321-361 | a closed set contained in all closed sets is the least one |
| DagModel.GcSetCollectable | consensus/src/dag.rs:330-357 | nothing active and no parent of an active event is ever in it |
| DagModel.GcSetIsReached | consensus/src/dag.rs:321-361 | the collector takes exactly what walks from a target along parent edges, through Finalized events without active children, reach |
| DagModel.ActiveChildrenConstant | consensus/src/dag.rs:211-223 | taking out Finalized events changes no survivor's active children |
| DagClass.Dag.GetAncestors | consensus/src/dag.rs:417-441 | exactly the ids at the end of some path of parent edges through in-DAG events, dangling ids included |
| DagClass.Dag.IsAncestor | consensus/src/dag.rs:388-414 | true iff the ids differ and such a path exists, so it agrees with membership in the ancestor set |
| RecentCache.RecentEventCache.Put | consensus/src/recent_cache.rs:165-185 | the id is found with the new value and is the most recent; at most the least recently used line is lost, and only for a new id in a full cache; all others are found as before, in the same order |
| RecentCache.RecentEventCache.Get | consensus/src/recent_cache.rs:190-198 | what was stored; a hit becomes the most recent line, every id is found as before, and the others keep their order |
| RecentCache.RecentEventCache.Contains | consensus/src/recent_cache.rs:201-203 | true iff some line has the id |
| LayersInv.StepKeeps | consensus/src/dag_manager.rs:223-564 | every lock section keeps the layer invariant: children complete, active events hold their in-DAG parents, store and cache agree with first depths, pending is exactly the active events |
| LayersInv.RunKeeps | consensus/src/dag_manager.rs:223-564 | so does every run of interleaved sections |
| LayersInv.SweepIsSafe | consensus/src/dag.rs:321-361 | a sweep leaves every active event and each of its in-DAG parents, still linked |
| LayersTheorems.GcNeverLeaks | consensus/src/dag_manager.rs:504-564 | after any run, every event in the DAG reaches, through child edges, an event that is unfinalized or whose anchor's sweep has not run |
| LayersTheorems.EdgesDeepen | consensus/src/dag_manager.rs:283-379 | a child is strictly deeper than each of its parents, and an in-DAG parent lists it |
| Frontier.FloorAnswerIs | consensus/src/dag_manager.rs:344-379 | with all parents found, the first that was not in the DAG and lies further below than configured is refused; the event passes, at the deeper of its own depth and the floor, iff there is none |
| Frontier.WriteErrorIs | consensus/src/dag_manager.rs:389-439 | the write section refuses the first parent that was found in the DAG and has been collected since, then a duplicate, and otherwise writes |
| Frontier.CrossDepthIsBounded | consensus/src/dag_manager.rs:344-379 | over every run, an event lies at most the configured distance below each parent it did not find in the DAG |
| Frontier.FrontIsExact | consensus/src/dag.rs:238-275 | over every run, the tips are exactly the events of the DAG that no inserted event names as a parent, the DAG is as deep as the deepest event ever inserted, and the floor is above every anchor being swept |
| CacheFill.AnchorIsCached | consensus/src/dag_manager.rs:504-564 | after an anchor's events were entered, each of the last ones that fit is found with depth, anchor and parents |
| CacheFill.WarmUpLoads | consensus/src/dag_manager.rs:598-632 | after warming up, every persisted event is found that has fewer events after it in the given anchors than the cache has lines |
| LayersTheorems.AddIsSafe | consensus/src/dag_manager.rs:389-439 | however resolving and writing interleave with finalization and sweeps, parents found in the DAG stay there while the event is active, and depth strictly grows along every in-DAG edge |
| LayersTheorems.SweepKeepsActive | consensus/src/dag.rs:321-361 | the sweep section, seen from any reachable node, takes no active event and no parent of one |
| LayersTheorems.LookupSound | consensus/src/dag_manager.rs:249-277 | whatever layer answers, the depth is the one the event was first inserted with |
| LayersTheorems.SweepLosesNothingIff | consensus/src/dag_manager.rs:504-564 | a sweep loses no event iff no walk upwards from its targets, through Finalized events without active children, leads to an event that is not persisted |
| LayersTheorems.SweepKeepsAnswersIff | consensus/src/dag_manager.rs:504-564 | the same condition is exact for what a user sees: every inserted id is still answered with its first depth |
| LayersTheorems.PersistedIsGuarded | setu-validator/src/persistence.rs:197-345 | it holds at every sweep of a run in which each sweep starts with all events marked final persisted |
| LayersTheorems.LayersRefineOneMap | consensus/src/dag_manager.rs:223-277 | over every such run, query and existence test answer as one map from every inserted id to its first depth, through cascades, eviction and warm-up |
| LayersTheorems.RefinesOneMapIff | consensus/src/dag_manager.rs:504-564 | over any run of the code, the layers answer as that one map at every point iff every sweep of the run met the walk condition |
| LayersTheorems.NoFalseMiss | consensus/src/dag_manager.rs:249-277 | also with other sections between its three, a query never misses a parent that was there when it began |
| Reinsertion.ReinsertionKeepsDepthIff | consensus/src/dag_manager.rs:283-379 | after any run, an event that has left the DAG and is inserted again keeps its first depth iff the floor is not above it; without parents, iff the DAG is as at the start |
| Reinsertion.ReinsertionCanChangeDepth | consensus/src/dag.rs:238-248 | a run in which an event is folded, swept and inserted again at another depth, since insertion looks for duplicates in the DAG only |
| LostEvent.SweepCanLoseAnEvent | consensus/src/engine.rs:542-545 | a run, allowed by every guard in the code, after which an inserted event is in no layer |
| DagManagerClass.DagManager.Exists | consensus/src/dag_manager.rs:223-246 | true iff some enabled layer has the id |
| DagManagerClass.DagManager.QueryParent | consensus/src/dag_manager.rs:249-277 | the depth the three layers give, and the call is a run of its lock sections |
| DagManagerClass.DagManager.ResolveParents | consensus/src/dag_manager.rs:283-379 | ends with the first parent no layer has; else, at the depth the parents and the floor give, with the first that has left the DAG and lies too far below; else with all parents and that depth; and the call is a run of its sections |
| DagManagerClass.DagManager.AddEvent | consensus/src/dag_manager.rs:389-439 | refused as resolving is, or as a duplicate in the DAG, and otherwise inserted at that depth; the call is a run of an adder with that end |
| DagManagerClass.DagManager.UpdateMinDepth | consensus/src/dag_manager.rs:474-483 | the floor becomes the larger of the two |
| DagManagerClass.DagManager.OnAnchorFinalized | consensus/src/dag_manager.rs:504-564 | the call is the run floor, flag, fill, sweep; its counts are those of the least set, the floor ends above the anchor, and the anchor's last events that fit are cached |
| Order.SortByVlc | consensus/src/merkle_integration.rs:29-40 | a sorted permutation of its input |
| Order.SortedIsUnique | consensus/src/merkle_integration.rs:29-40 | with distinct ids there is only one sorted permutation |
| Order.SortedByTimeThenId | consensus/src/merkle_integration.rs:29-40 | sorted is by logical time, and by id where the times are equal |
| Order.SortForgetsOrder | consensus/src/merkle_integration.rs:29-40 | so the sorted list does not depend on the order of arrival |
| Order.EventsRootForgetsOrder | consensus/src/merkle_integration.rs:49-66 | nor does the events root |
| FoldPolicy.CollectEventWriteKeys | consensus/src/anchor_builder.rs:65-80 | exactly the cells its changes are about, each in the subnet the change targets, else the event's own, else the root; none unless it executed successfully |
| FoldPolicy.WriteKeysAre | consensus/src/anchor_builder.rs:65-80 | the same of the specification function |
| FoldPolicy.ApplyStrictSameKeyFoldPolicy | consensus/src/anchor_builder.rs:99-130 | the loop computes the canonical selection; kept and deferred partition the input as multisets |
| FoldPolicy.ScanDisjoint | consensus/src/anchor_builder.rs:112-127 | no two kept events write a common cell |
| FoldPolicy.ScanDefers | consensus/src/anchor_builder.rs:112-127 | every deferred event conflicts with a smaller kept one |
| FoldPolicy.FoldIsStable | consensus/src/anchor_builder.rs:99-130 | the kept set is stable: conflict-free, and whoever is left out is blocked by a smaller member |
| FoldPolicy.FoldIsCanonical | consensus/src/anchor_builder.rs:99-130 | it is the only stable set, and every permutation of the input gives the same lists |
| FoldPolicy.KeptIsSorted | consensus/src/anchor_builder.rs:99-130 | kept events are in canonical order without repeated ids |
| StateApply.ApplyCommittedEvents | storage/src/state/manager.rs:1130-1346 | the loop applies the canonically sorted events one by one with their verdicts |
| Effects.VerdictIs | storage/src/state/manager.rs:1182-1280 | refused iff some change expects another value than the last earlier change of the event gave that cell, else the state, or creates a cell that is in the state or that such a change filled; the object is that of the first such change; applied iff executed successfully and there is none |
| Effects.EffectWrites | storage/src/state/manager.rs:985-1111 | an applied event leaves in each cell what its last change about it says, absence included, and in every other cell what was there; any other event changes nothing |
| Effects.TreesAre | storage/src/state/manager.rs:426-440 | an applied event makes trees for its own subnet and those its changes are in, a refused one for those its check reads before it stops |
| Effects.StepTracks | storage/src/state/manager.rs:1286-1294 | the tracker names the event and the depth for exactly the objects an applied event changes |
| Effects.AppliedInOrder | storage/src/state/manager.rs:1166-1178 | in a list, each event is judged in the state that those before it in logical time leave, and the last one acts on that state |
| StateApply.ApplyForgetsOrder | storage/src/state/manager.rs:1166-1178 | state, tracker and verdicts do not depend on the order in which the events are handed over |
| StateApply.EffectIsLocal | storage/src/state/manager.rs:1180-1346 | verdict and writes of an event depend on its own cells only, and it changes no other |
| StateApply.IndependentActAlone | storage/src/state/manager.rs:1180-1346 | events without common cells each get the verdict and write the values they would alone |
| StateApply.KeptEventsCommute | consensus/src/anchor_builder.rs:99-130 | events kept by the policy give the same cells, subnets, verdicts, depth and root in every order of application |
| StateApply.KeptCommuteIff | storage/src/state/manager.rs:940-943 | the whole result, modification tracker included, is the same for all orders of the kept events iff no object id is changed by two of those that apply |
| StateApply.KeptNeedNotCommute | storage/src/state/manager.rs:940-943 | two creations of one object id, in the root subnet and in an app subnet: the policy keeps both, and their order shows in the result |
| StateApply.ConflictKeepsRootIff | storage/src/state/manager.rs:1180-1346 | an event refused for a stale read leaves the state root alone iff every subnet its check reads from already has a tree |
| StateApply.SkippedKeepRootIff | storage/src/state/manager.rs:1180-1346 | the same for a whole list in which no event applies |
| StateApply.RefusedMovesRoot | storage/src/state/manager.rs:387-392 | on a node's first state, where only the root and governance subnets have trees, an event that expects a value nobody wrote is refused, and moves the root iff it is in another subnet |
| Router.RouteEvents | consensus/src/router.rs:82-115 | every bucket holds exactly its own events in order of arrival, and no bucket is empty |
| Router.RouteIsRight | consensus/src/router.rs:82-115 | the same of the specification function the builder stores |
| Router.RoutedWhere | consensus/src/router.rs:82-115 | which bucket an event is in, by its kind and the type byte of its subnet |
| Router.AllEvents | consensus/src/anchor_builder.rs:187-197 | listing the buckets, in any order of the maps, gives back every routed event as often as it went in |
| Overlay.ClearingIsExact | storage/src/state/speculative_overlay.rs:174-190 | no entry of the cleared events is left, and the entries of all others are as before, in order |
| BuilderModel.SelectForgetsOrder | consensus/src/anchor_builder.rs:536-603 | the events chosen do not depend on how the pending set is listed |
| BuilderModel.SelectedAreDistinct | consensus/src/anchor_builder.rs:536-603 | chosen events are pending, not in flight, and without repeated ids |
| Choosing.SelectedIsCapacity | consensus/src/anchor_builder.rs:536-603 | of the one stable set of free events as many are chosen as there is room for, in canonical order, and every one left out comes after every chosen one |
| Choosing.PreparesIff | consensus/src/anchor_builder.rs:536-603 | a build is ready iff logical time has moved far enough and enough stable events are free; otherwise the error names the cause and the numbers |
| Choosing.HeartbeatIff | consensus/src/anchor_builder.rs:1372-1424 | the same of the heartbeat, which waits for wall-clock time |
| Choosing.ReadySays | consensus/src/anchor_builder.rs:631-707 | every ready anchor names the chosen events in order, lies at the DAG's depth, follows the anchor the chain stands at, and commits to those ids, to the chain root and to the state they lead to at any depth |
| BuilderModel.PreparedIsWellBuilt | consensus/src/anchor_builder.rs:631-707 | a prepared anchor names its folded events, its buckets hold them, and its chain root extends the snapshot's |
| BuilderModel.CommitForgetsOrder | consensus/src/anchor_builder.rs:732-875 | a leader's commit does not depend on the order in which the buckets come out |
| BuilderModel.FollowForgetsOrder | consensus/src/anchor_builder.rs:885-1039 | nor does a follower's application depend on the order of the events |
| BuilderModel.CommitMovesChain | consensus/src/anchor_builder.rs:732-875 | a successful leader commit moves the chain as synchronizing with its anchor would; a refused one not at all |
| Outcomes.CommitEnds | consensus/src/anchor_builder.rs:732-875 | a leader's commit goes through iff the chain has not moved and the store takes it; readers see the new state then and not before; each refusal names its cause and what it leaves written |
| Outcomes.FollowEnds | consensus/src/anchor_builder.rs:885-1039 | the same of a follower: all events there, the declared root reached, the store takes them |
| Outcomes.FollowerAcceptsIff | consensus/src/anchor_builder.rs:885-1039 | what a leader prepared, a follower with the events accepts iff it arrives at the same trees and cells |
| Outcomes.CommitReports | consensus/src/anchor_builder.rs:406-450 | after a commit, exactly the build's events are reported: stale with the object iff refused, failed with the reason iff execution failed, else applied; genesis events always as applied |
| Outcomes.FollowReports | consensus/src/anchor_builder.rs:406-450 | the same after a follower's |
| BuilderModel.CommitClearsOverlay | consensus/src/anchor_builder.rs:732-875 | on success, snapshot mismatch and storage failure alike the overlay loses exactly the build's events |
| BuilderModel.FollowClearsOverlayIff | consensus/src/anchor_builder.rs:885-1039 | for any list of events handed over, and on success, missing events, root mismatch and storage failure alike: the overlay loses exactly the anchor's events iff the list has another length or differs from the anchor in no event the overlay knows |
| AnchorBuilderClass.AnchorBuilder.constructor | consensus/src/anchor_builder.rs:342-356 | an empty chain over the given state |
| AnchorBuilderClass.AnchorBuilder.ListPending | consensus/src/dag.rs:150-155 | some listing of the pending events, minus those in flight |
| AnchorBuilderClass.AnchorBuilder.PrepareBuild | consensus/src/anchor_builder.rs:536-603 | changes nothing, and gives the same well-built anchor or error for every listing of the pending set |
| AnchorBuilderClass.AnchorBuilder.PrepareBuildHeartbeat | consensus/src/anchor_builder.rs:1372-1424 | the same under the wall-clock guard |
| AnchorBuilderClass.AnchorBuilder.PrepareInternal | consensus/src/anchor_builder.rs:631-707 | anchor, buckets, snapshot and chain root over the given events, with the state root of a scratch copy |
| AnchorBuilderClass.AnchorBuilder.IngestOutcomes | consensus/src/anchor_builder.rs:406-450 | exactly the applied events are reported, each by its verdict |
| AnchorBuilderClass.AnchorBuilder.CommitBuild | consensus/src/anchor_builder.rs:732-875 | state, snapshot, reports, overlay, chain and result are those of committing the prepared list, though the loop runs over hash-map buckets |
| AnchorBuilderClass.AnchorBuilder.ApplyFollowerFinalizedCf | consensus/src/anchor_builder.rs:885-1039 | verify on a scratch copy, then apply; every refusal leaves state and chain as they were, a storage failure only the chain |
| AnchorBuilderClass.AnchorBuilder.SynchronizeFinalizedAnchor | consensus/src/anchor_builder.rs:1438-1453 | the chain stands after the anchor; an anchor without roots leaves the chain root |
| Agreement.RoundAgrees | consensus/src/anchor_builder.rs:631-1039 | what an aligned leader prepares and commits, a follower that has the events accepts with the same verdicts |
| Agreement.LeaderAndFollowerAgree | consensus/src/anchor_builder.rs:631-1039 | over whole runs no follower misses an event or a root, and state, reports, chain root, depth, fold time, last anchor and count stay equal |
| Agreement.ChainIsFold | consensus/src/anchor_builder.rs:1475-1478 | then the chain root is the left fold of the chain hash over the anchors |
| Agreement.ChainTellsApart | types/src/consensus.rs:141-160 | two histories lead to one chain root iff they are equally long and agree, place by place, in id, depth, predecessor, roots and times |
| Agreement.ChainedDistinct | consensus/src/anchor_builder.rs:1475-1478 | among anchors each of which carries the root it is applied on no two are equal |
| Agreement.SnapshotDetectsCommits | consensus/src/anchor_builder.rs:501-517 | a snapshot verifies iff nothing was committed since it was taken |
| Agreement.SnapshotMissesIff | consensus/src/anchor_builder.rs:501-517 | for anchors of any kind: commits go unnoticed iff they end with an anchor like the one the snapshot was taken at and leave the chain root |
| ConsensusManagerClass.ConsensusManager.constructor | consensus/src/folder.rs:207-222 | nothing pending, nothing final |
| ConsensusManagerClass.ConsensusManager.CollectInFlightEventIds | consensus/src/folder.rs:382-396 | exactly the ids named by an open build or stored for a received frame |
| ConsensusManagerClass.ConsensusManager.TryCreateCf | consensus/src/folder.rs:285-345 | no frame while a build is open; otherwise the frame and the new state are the same for every listing of the pending set |
| ConsensusManagerClass.ConsensusManager.TryCreateCfHeartbeat | consensus/src/folder.rs:347-375 | the same for the heartbeat |
| Proposals.CreatesIff | consensus/src/folder.rs:285-375 | a frame is created iff no build is open, the time guard is met and enough stable events are in no open build and stored for no frame |
| Proposals.CreatedIsNow | consensus/src/folder.rs:333-345 | the new frame's anchor is over such events, within the capacity; its id is made of round, anchor, proposer and time |
| Proposals.EveryBuildIsNow | consensus/src/folder.rs:382-396 | over every run, whenever a build is opened, its anchor names no event stored for a frame pending at that moment, stays within the capacity, and follows the last anchor that became final on the root it left |
| Proposals.CapacityHolds | consensus/src/anchor_builder.rs:576-577 | at every point of every run no open build names more events than the capacity |
| Proposals.BufferIsDrained | consensus/src/folder.rs:431-447 | over every run, votes wait in the buffer only for frames that are not there or that the node made itself |
| Proposals.ReadersSeeState | consensus/src/anchor_builder.rs:732-875 | while the store takes everything, readers see the written state at every point of a run |
| ConsensusManagerClass.ConsensusManager.ApplyCfStateChanges | consensus/src/folder.rs:936-947 | the anchor's events found in the DAG are kept for the frame |
| ConsensusManagerClass.ConsensusManager.ReceiveCf | consensus/src/folder.rs:431-447 | a new frame gets the votes it brought plus the first buffered vote of everyone else; a known one is left alone |
| ConsensusManagerClass.ConsensusManager.ReceiveFinalizedCf | consensus/src/folder.rs:449-466 | the frame's votes, read from its table in any order, only fill gaps, then the frame is classified; a finalized one is ignored |
| ConsensusManagerClass.ConsensusManager.ReceiveVote | consensus/src/folder.rs:516-533 | first vote counts, early votes are buffered, then the frame is classified |
| ConsensusManagerClass.ConsensusManager.ApplyFinal | consensus/src/folder.rs:582-673 | commit as leader, on a snapshot mismatch apply as follower, without a build apply the stored events; the failure names the path |
| ConsensusManagerClass.ConsensusManager.ClassifyFinalization | consensus/src/folder.rs:546-713 | quorum before rejection before timeout; the whole new state and the outcome are those of the specification |
| ConsensusManagerClass.ConsensusManager.GcFinalizedCfs | consensus/src/folder.rs:726-757 | drops persisted frames oldest first, as many as exceed the limit, and forgets their anchors |
| ConsensusManagerClass.ConsensusManager.CleanupTimeoutCfs | consensus/src/folder.rs:770-799 | exactly the timed-out frames go, with builds, events, votes and failure record; the count is theirs |
| Calls.DoKeeps | consensus/src/engine.rs:795-1199 | every engine call, whatever frames and votes it brings, keeps: at most one open build, builds and stored events belong to pending frames, pending and finalized ids are disjoint, finalized ids do not repeat |
| Lifecycle.ClassifyKeeps | consensus/src/folder.rs:546-713 | classification keeps it too, whatever the outcome |
| Outcomes.ClassifyEnds | consensus/src/folder.rs:546-713 | the outcome in numbers: final or failed iff three times the approvals exceed twice the validators, by whether the anchor can be applied; else rejected iff three times the rejections exceed them; else timed out iff the clock is past creation plus timeout |
| Judged.JudgedIff | consensus/src/engine.rs:1076-1135 | after a call no pending frame has votes that decide it, iff the call did not bring a proposal whose votes decide it and among which the node's own already was |
| Judged.AlwaysJudgedIff | consensus/src/engine.rs:795-1199 | the same over every run |
| Judged.CanBeOverlooked | consensus/src/engine.rs:1099-1135 | a lone validator gets a frame as a proposal with its own vote in it: the frame has its quorum and stays pending |
| Outcomes.FailureSays | consensus/src/folder.rs:582-673 | a failure names frame, anchor and depth, and its path and cause are what build, chain and stored events say |
| Outcomes.FailureIsLast | consensus/src/folder.rs:569-713 | over every run, the failure on record is that of a call after which no frame became final and none failed |
| Outcomes.CleanupTakesLate | consensus/src/folder.rs:770-799 | cleaning up takes exactly the frames past their timeout, with build, events, votes and failure record |
| Outcomes.TrimmedIdsAre | consensus/src/folder.rs:726-757 | trimming forgets that an anchor is persisted iff it drops a frame of it |
| Lifecycle.RetainsNewestIff | consensus/src/folder.rs:726-757 | trimming leaves the newest frame last iff it is not persisted or enough older ones are |
| Lifecycle.FinalizedIsNewest | consensus/src/folder.rs:542-543 | after a finalized outcome the last finalized frame is the one named iff the list was short, its anchor not yet persisted, or enough older ones persisted |
| Forgotten.FinalTwiceAndNotNewest | consensus/src/folder.rs:726-757 | a run from an empty manager in which a trimmed frame is marked persisted again and comes back: it becomes final twice, and the second time another frame is the newest |
| Lifecycle.FailClosed | consensus/src/folder.rs:569-713 | chain metadata changes iff the outcome is finalized, and then by the frame's anchor |
| Lifecycle.OverlayClearedIff | consensus/src/folder.rs:569-673 | on every path a frame with quorum can take, fallback included, the overlay loses exactly its events iff the node has built the frame, or what is stored for it is incomplete or differs from it in no event the overlay knows |
| Copies.WrongCopyLeavesEntries | consensus/src/engine.rs:1177-1199 | a run from an empty manager: a frame is received, comes back as a finalized copy with the same ids and another event, which passes the engine's checks of id, quorum, votes and chain root, ends with a quorum, and leaves its own event in the overlay |
| Copies.CopyClearsIff | consensus/src/engine.rs:1177-1199 | a finalized copy of a frame without a build clears exactly the frame's events iff the copy's events found in the DAG are of another number or differ from the frame's in no event the overlay knows |
| LifecycleRuns.RunClears | consensus/src/folder.rs:569-673 | over every run whose copies of pending frames name the events of the frame held, each frame that ends with a quorum rids the overlay of exactly its events |
| LifecycleRuns.GuardReleased | consensus/src/folder.rs:264-266 | the build guard is free again as soon as its frame ends in any way |
| LifecycleRuns.GuardNotOrphaned | consensus/src/folder.rs:264-266 | at every point of every run from an empty manager an open build is the only one and its frame is pending, and a clean-up past the frame's timeout, wherever it falls, frees the guard |
| LifecycleRuns.DoMoves | consensus/src/engine.rs:795-1199 | an engine call moves the chain by the one anchor it made final, or not at all |
| LifecycleRuns.RunKeeps | consensus/src/engine.rs:795-1199 | over every run the invariant holds and the chain is where the finalized anchors put it |
| LifecycleRuns.RunChain | consensus/src/anchor_builder.rs:1438-1453 | the anchor count grows by the number of finalized outcomes, and with anchors that carry the root they are applied on the chain root is the left fold over them in commit order |
| LifecycleRuns.ForgetsIff | consensus/src/folder.rs:726-757 | a call forgets a finalized frame, its own new one included, iff it makes a frame final, meets a full list, the frame's anchor is persisted and fewer persisted frames stand before it than the list then has too many |
| LifecycleRuns.FinalOnlyOnce | consensus/src/folder.rs:726-757 | however long the run, a frame becomes final again only if some call in between forgot it |
| LifecycleRuns.FinalAgainIff | consensus/src/folder.rs:449-466 | a final copy of a frame the node does not have becomes final iff the frame is not among the finalized ones, has a quorum with the buffered votes, all its events are there and lead to the root it declares, and the store takes them |
| LifecycleRuns.ChainedFinalOnce | consensus/src/anchor_builder.rs:1438-1453 | while every final anchor carries the root it is applied on, no anchor becomes final twice, however long the run |
| Votes.TableIsStream | consensus/src/folder.rs:431-533 | while undecided, a frame's votes are those it brought plus the first of every other validator among: votes before its arrival, the node's own at it, votes and finalized copies after it, whatever other engine calls, clean-ups included, fall in between |
| Votes.OwnVoteMayMove | consensus/src/engine.rs:1099-1104 | where in that stream the node's own vote stands, and so where the proposal came, does not matter as long as nobody else votes in its name |
| Votes.PlaceOfFrameIsIrrelevant | consensus/src/folder.rs:431-447 | two runs that bring the same frame and the same votes of others for it give it the same table, wherever among those votes the frame falls |
| Votes.OwnTableIsStream | consensus/src/folder.rs:333-345 | a frame the node creates starts with the node's vote alone, later votes and finalized copies fill gaps, and votes that came before it are not replayed |
| Votes.FirstVoteCounts | consensus/src/folder.rs:440-444 | voter by voter: a vote that came with the frame wins, otherwise the first in the stream |
| Outcomes.ThresholdsAre | types/src/consensus.rs:334-346 | a quorum is more than two thirds of the validators approving, a rejection more than one third rejecting |
| Outcomes.QuorumExcludesRejection | types/src/consensus.rs:334-346 | with no more votes than validators a frame is never both accepted and rejected; with all of them it is one of the two unless exactly two thirds approve |
| Once.StepKeeps | consensus/src/engine.rs:542-545 | insertions, checks, careful engine calls, marking and sweeps keep: added ids are pending or in a final anchor, overlap only in what is being marked, anchors are disjoint, open builds are over free events |
| Once.EngineFinal | consensus/src/engine.rs:1477-1529 | the anchor a careful engine call makes final is the one that will be marked, and names events, each once, that are pending and in no other anchor |
| Once.ExactlyOnce | consensus/src/anchor_builder.rs:536-603 | after any careful run, with frames of any proposer, own frames that return after being given up, rejections, timeouts, failures and sweeps: the added ids are the disjoint union of pending ids and ids of final anchors, no id is in two anchors or twice in one |
| Twice.CarefulIff | consensus/src/engine.rs:1138-1199 | a frame that becomes final without a build leaves anchors disjoint and over added events, each named once, and the open build over unfolded ones, iff it names no event twice, its events were all pending and none was in the open build |
| Twice.NewestIff | consensus/src/engine.rs:1477-1529 | the other half of careful is exact, too: a frame with pending events keeps pending and folded events apart, but for what is being marked, iff trimming leaves it as the newest |
| Twice.RunLogged | consensus/src/folder.rs:726-757 | over every careful run the frames still listed as finalized are among those that became final, which the exact condition above builds on |
| Twice.AnotherIsMarked | consensus/src/engine.rs:1477-1529 | if it does not, the engine marks the anchor of an older frame or none, and the final frame's events stay pending except those that anchor names |
| Twice.SharedIsFoldedTwice | consensus/src/folder.rs:605-625 | once an event of the open build is in a final anchor, the build becoming final later puts the event in two final anchors, whatever happens in between |
| Twice.FoldedTwice | consensus/src/engine.rs:1138-1199 | a run of the code that does so: a frame times out, its event is folded again, the frame returns final on an unchanged chain root, and the second frame falls back to the follower path |
| StaleCheck.AppliedOnMovedChain | consensus/src/engine.rs:1158-1199 | a run in which a returning frame passes the chain-root check, another frame over its event becomes final and moves the chain, and the first is then applied on a root that is not its own: the event is in both |
| ChainGuard.OwnFramesOnce | consensus/src/engine.rs:1158-1173 | for frames of its own the node only has to see that the chain root still matches when the frame is made final and that the open build, if any, shares no event: the rest of the condition follows |
| Wait.RoundSucceeds | consensus/src/anchor_builder.rs:536-603 | with room for one event and a minimum of at most one, a build over pending events succeeds iff its time guard is met, heartbeat or not |
| Wait.StepWaits | consensus/src/anchor_builder.rs:99-130 | every marked anchor of the node's own either folds the event or lowers the number of smaller pending ones; no other step raises it |
| Wait.BoundedWait | consensus/src/anchor_builder.rs:99-130 | an event with k smaller pending ones is in a final anchor after k + 1 rounds of careful runs whose proposals are made with nothing in flight, if no smaller one arrives, whatever fails, returns or arrives in between |
| Wait.PendingDrains | consensus/src/dag.rs:150-155 | over every careful run without arrivals, pending events left plus rounds made are at most the events there were, so the set is empty after at most as many rounds as it had events |
| Completion.CompletionQueue.MarkAnchorPersisted | consensus/src/engine.rs:522-531 | exactly the entries of that anchor become persisted, in place |
| Completion.CompletionQueue.TakePersisted | consensus/src/engine.rs:443-455 | persisted entries leave in order, the others stay in order |
| Completion.CompletionQueue.CompletePendingFinalizations | consensus/src/engine.rs:441-507 | exactly the persisted entries are announced, in order, and the round moves once per entry that expects it |
| Completion.NothingLeft | consensus/src/engine.rs:436-440 | a second call finds nothing to do |
| Completion.RoundsAreExactlyCovered | consensus/src/engine.rs:441-507 | at every point of every run of overlapping calls, the expected rounds of completed entries are exactly those from the first round up to the current one |
| Completion.NothingLostOrRepeated | consensus/src/engine.rs:441-507 | every entry queued is, as often as queued, waiting, in hand or completed; announced ones are completed or in hand |
| Completion.AnnouncedOnce | consensus/src/engine.rs:441-507 | a frame queued once is announced at most once, however calls overlap |
| Announcements.AnnouncedOnce | consensus/src/engine.rs:1477-1529 | queued by the calls that made frames final, with no frame forgotten between two of its entries, every frame is announced at most once |
| Completion.PersistedBeforeAnnounced | consensus/src/engine.rs:516-531 | no frame is announced before its anchor is marked as persisted |
| Completion.CallIsRun | consensus/src/engine.rs:441-507 | an undisturbed call ends as the method does |

## Left out

- Integer widths: depths, rounds, times and counts are unbounded; 64-bit overflow is not modelled.
- Strings: event ids, object keys and subnet ids are numbers or records; parsing and formatting are not modelled.
- Hashing, Merkle trees and signatures: digests are free terms, votes carry no signature.
- Agreement between validators: only the manager of one node, and a leader with a follower of its frames, are modelled.
- Once.ExactlyOnce: an id is added at most once.
- ChainGuard.OwnFramesOnce: an id is added at most once, and only anchors that became final are marked persisted.
- Wait.BoundedWait: an id is added at most once, and proposals are made with no other frame's events in flight.
- LifecycleRuns.RunClears: one way over runs; the exact condition is per call, in Copies.CopyClearsIff.
- Changes of the validator count while frames are pending (consensus/src/folder.rs:830, consensus/src/engine.rs:603-604).
- Waiting for locks: an engine call is one step, so that calls may wait for each other is not modelled. The receiving calls take the DAG and then the manager (consensus/src/engine.rs:1076-1077, 1177-1178), finalization holds the manager and then takes the DAG (consensus/src/engine.rs:1555, 543).
- LayersTheorems.LayersRefineOneMap: ids which left the DAG are not inserted again; what happens if they are is in Reinsertion.
- LayersTheorems.NoFalseMiss: the same.
- DagManagerClass.DagManager: calls that overlap are covered by the machine in Layers, not by the class; warm-up of the cache is a step of the machine only, and a retry is a new adder there.
- The queue of events that arrive while the cache is being warmed up, and the retry limit of insertion.
- Engine checks before a frame reaches the manager: its id (`verify_id`), proposer, the quorum and votes of a finalized frame (`verify_finalized_cf_votes`), merkle-root shape, fetching of missing events. The theorems hold for frames that fail them, too. The chain-root check is a step of Once only.
- The single-validator path tells subscribers of a final frame before it is persisted and queues no completion entry; Completion is about the queued path.
- Persistence retries, recovery after a restart, and the index of finalized frames.
- Direct calls that set or advance the round, and leader election.
- Exact value of `retained`, `confirm_event`, `finalize_up_to_depth`, depth-range queries.
- Contents of the written state after a storage failure: the events are applied by then, the model says so and claims nothing more.
- Legacy folder, root subnet executor, execution batches, diagnostics, statistics, logging, HTTP and network plumbing: easy or off the main path.
