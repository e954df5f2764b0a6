# DijkstraNavMesh cost fields, modelled in Dafny

DijkstraNavMesh turns a Unity navigation mesh into a graph and keeps a
cost field over that graph. The field holds the length of the shortest
walk from a moving start node to every node, and it is refreshed a few
Dijkstra steps per frame. This project models that core and proves what
it computes:

- **Triangle data** (`NavMeshTriangleData.Build`, module `TriangleData`).
  Close source vertices are merged into one. The index array is cut into
  triangles. Every pair of triangles that shares a vertex gets a
  connection record. Every triangle gets the ascending list of the
  records that name it.
- **Graph** (`DijkstraGraph` and its copy `CostMap.Graph`, module
  `Graphs`). There is one node per merged vertex and then one per
  triangle centre. Each triangle corner adds an edge to the next corner
  and a spoke from the centre. Each record whose triangles share at least
  two vertices adds a centre-to-centre link. Every link is stored as two
  directed connections of the same length.
- **Cost layers** (`DijkstraCostGraph.CostLayer`, its copy in `CostMap`,
  and `DistanceMap.Layer`; modules `LayerSpec`, `LayerInvariant`,
  `LayerCorrectness`, `CostLayers`, `DistanceMaps`). A layer is an array
  of node records (fixed flag, cost, previous node) plus a frontier list
  kept sorted by cost. `Setup` fixes the start at cost 0. Each
  `ForwardStep` pops the cheapest frontier node, fixes it and relaxes its
  connections in list order. The frontier update uses `List.Remove` and
  then an ordered insert, exactly as the source does. `DistanceMap`'s
  layers stop relaxing from a node whose distance exceeds
  `maxCalcDistance`.
- **Three-layer scheme** (`DijkstraCostGraph`, `CostMap`, `DistanceMap`;
  modules `CostGraphs`, `DistanceMaps`). On each `Update`, the top layer
  is set up at the current start and stepped a bounded number of times.
  The edit sub layer advances a few more steps. Once the edit layer has
  finished, it becomes the stable layer, and the other sub layer is set
  up at the current start. A query is answered by the first of top, edit
  and stable whose record is fixed; if neither top nor edit has fixed it,
  the stable layer answers.

`CostMap.cs` repeats `DijkstraCostGraph.cs` line for line, with the
graph class nested inside it. The same members model both. The table
cites whichever copy is clearer, and `CostGraphs.DijkstraCostGraph.FromMap`
models `CostMap`'s own constructor, which builds the graph itself.

**How the proofs fit together.**

1. Every imperative method is proved against the pure step functions of
   `LayerSpec`: `Step`, `CutStep` (the step with a distance cut-off) and
   `Run` (k steps, stopping early on an empty frontier).
2. A layer's `Valid()` says that its state is `Run` of `k` steps from
   `SetupState`, where `k` counts the steps asked of the layer since its
   `Setup`; steps asked after the frontier is empty change nothing.
   `SubLayerView` records each sub layer's start and `k` (and, in
   `DistanceMap`, its polygons), and `Tick` states what the third block
   of `Update` does to them.
3. `LayerInvariant` proves a Dijkstra invariant, `Inv`, that `Setup`
   establishes and every step keeps.
4. From `Inv`, `LayerCorrectness` proves the main result: a fixed
   record's cost is the shortest-walk distance (`Walks.IsShortest`), and
   a run of at least node-count steps empties the frontier.

Costs are non-negative reals or +∞. Lengths are reals ≥ 0. Positions are
left abstract. The distance of two positions, the closeness test used
when merging vertices and the triangle-centre computation are parameters.

## Model

| member | source | states |
|---|---|---|
| Walks.SourceIsShortest | DijkstraNavMesh/Assets/DijkstraNavMesh/DijkstraCostGraph.cs:184-188 | cost 0 is the shortest-walk distance from the start to itself, which is the cost `Setup` gives the start |
| Walks.ReachedExtend | DijkstraNavMesh/Assets/DijkstraNavMesh/DijkstraCostGraph.cs:204-214 | a walk of length x to `u` followed by one of `u`'s connections is a walk of length x + length to that connection's end, which is the candidate cost a relaxation computes |
| LayerSpec.AllUnvisited | DijkstraNavMesh/Assets/DijkstraNavMesh/DijkstraCostGraph.cs:166-174 | the reset state: one record per node, each not fixed, at cost +∞ and with no predecessor |
| LayerSpec.IndexOf | DijkstraNavMesh/Assets/DijkstraNavMesh/DijkstraCostGraph.cs:215 | the position `List.Remove` removes is the first occurrence of the value, or the length when the value is absent |
| LayerSpec.RemoveFirstIndex | NavMeshMaps/Assets/NavMeshMaps/Extensions/CostMap.cs:335 | removing an absent value leaves the list unchanged; otherwise the list is one shorter, keeps the elements before the first occurrence, and shifts the elements after it down by one |
| LayerSpec.RemoveFirstMultiset | NavMeshMaps/Assets/NavMeshMaps/Extensions/CostMap.cs:335 | removal takes away exactly one copy of the value when it is present, and nothing else |
| LayerSpec.RemoveFirstMembers | NavMeshMaps/Assets/NavMeshMaps/Extensions/CostMap.cs:335 | every other value is in the list after the removal if and only if it was in it before |
| LayerSpec.RemoveFirstKeepsOrder | DijkstraNavMesh/Assets/DijkstraNavMesh/DijkstraCostGraph.cs:215 | on a frontier that is sorted by cost and has no duplicates, the removal keeps it sorted and duplicate-free, and the removed node is gone |
| LayerSpec.InsertPosition | DijkstraNavMesh/Assets/DijkstraNavMesh/DijkstraCostGraph.cs:227-242 | the insert position is the first entry whose cost is strictly greater than the new node's: no entry before it is dearer, and the entry at it is dearer |
| LayerSpec.InsertPositionIs | NavMeshMaps/Assets/NavMeshMaps/Extensions/CostMap.cs:352-360 | the insert position is unique: any position with the two properties above is that position |
| LayerSpec.InsertSortedMultiset | NavMeshMaps/Assets/NavMeshMaps/Extensions/CostMap.cs:347-362 | the ordered insert adds exactly one copy of the node and keeps every other entry |
| LayerSpec.InsertSortedMembers | NavMeshMaps/Assets/NavMeshMaps/Extensions/CostMap.cs:347-362 | after the insert, a value is in the list if and only if it was there before or is the inserted node |
| LayerSpec.InsertSortedKeepsOrder | DijkstraNavMesh/Assets/DijkstraNavMesh/DijkstraCostGraph.cs:227-242 | inserting into a cost-sorted frontier keeps it sorted, and inserting a node that is absent keeps it duplicate-free |
| LayerSpec.RelaxPrefixNext | DijkstraNavMesh/Assets/DijkstraNavMesh/DijkstraCostGraph.cs:202-218 | relaxing the first k + 1 connections is relaxing the first k and then connection k, in list order |
| LayerSpec.RelaxPrefixEffect | DijkstraNavMesh/Assets/DijkstraNavMesh/DijkstraCostGraph.cs:202-218 | relaxing from a fixed node never changes a fixed flag or that node itself and never raises a cost; a record that changes was not fixed, now has the popped node as predecessor, and its new cost comes from one of the popped node's connections |
| LayerSpec.StepEffect | DijkstraNavMesh/Assets/DijkstraNavMesh/DijkstraCostGraph.cs:192-220 | a step marks the popped node fixed, leaves its cost alone, and changes other records only as a relaxation from the popped node does |
| LayerSpec.CutStepEffect | NavMeshMaps/Assets/NavMeshMaps/Extensions/DistanceMap.cs:143-176 | the same for a step with a cut-off; with cut-off +∞ the step is the uncut step |
| LayerSpec.RunNext | NavMeshMaps/Assets/NavMeshMaps/Extensions/DistanceMap.cs:61-65 | while the frontier is not empty, k + 1 steps are k steps followed by one more |
| LayerSpec.RunKeepsFixed | DijkstraNavMesh/Assets/DijkstraNavMesh/DijkstraCostGraph.cs:206-209 | a fixed record never changes again, however many steps follow |
| LayerSpec.RunStaysFinished | DijkstraNavMesh/Assets/DijkstraNavMesh/DijkstraCostGraph.cs:52-55 | once the frontier is empty, further steps change nothing, so leaving the loop early is the same as running it out |
| LayerInvariant.FrontierMinIsMin | DijkstraNavMesh/Assets/DijkstraNavMesh/DijkstraCostGraph.cs:196 | the head of a cost-sorted frontier is no dearer than any frontier node |
| LayerInvariant.SetupInv | DijkstraNavMesh/Assets/DijkstraNavMesh/DijkstraCostGraph.cs:177-190 | the state after `Setup(s)` satisfies the Dijkstra invariant: every finite cost is the length of a walk from the start, each predecessor is a settled node whose connection accounts for the cost, the frontier is sorted, duplicate-free and holds every unfixed node with a finite cost, settled nodes within the cut-off have relaxed all their connections, and no settled node costs more than the frontier head |
| LayerInvariant.PopSettles | NavMeshMaps/Assets/NavMeshMaps/Extensions/DistanceMap.cs:147-150 | popping settles the head, which was not settled before, and settles or unsettles nothing else; the rest of the frontier stays sorted, duplicate-free and unfixed, and none of it is cheaper than the head |
| LayerInvariant.PopInv | NavMeshMaps/Assets/NavMeshMaps/Extensions/CostMap.cs:316-319 | popping and fixing the head leaves the state in the mid-step invariant with no connection relaxed yet |
| LayerInvariant.RelaxUpdateFrontier | NavMeshMaps/Assets/NavMeshMaps/Extensions/CostMap.cs:331-337 | an improving relaxation lowers the end node's cost, makes the popped node its predecessor, and leaves a sorted, duplicate-free frontier holding the old entries plus that node |
| LayerInvariant.RelaxUpdateShape | NavMeshMaps/Assets/NavMeshMaps/Extensions/CostMap.cs:331-337 | an improving relaxation keeps the frontier unfixed and no cheaper than the popped node, keeps every unfixed node with a finite cost in the frontier, and settles or unsettles nothing |
| LayerInvariant.RelaxUpdateLinks | NavMeshMaps/Assets/NavMeshMaps/Extensions/CostMap.cs:333-334 | an improving relaxation keeps costs reachable and predecessors consistent |
| LayerInvariant.RelaxUpdateInv | NavMeshMaps/Assets/NavMeshMaps/Extensions/CostMap.cs:324-337 | an improving relaxation of connection i keeps the mid-step invariant and advances it to i + 1 |
| LayerInvariant.RelaxOneInv | DijkstraNavMesh/Assets/DijkstraNavMesh/DijkstraCostGraph.cs:204-217 | relaxing connection i, whether skipped, not improving or improving, advances the mid-step invariant to i + 1 |
| LayerInvariant.RelaxPrefixStep | DijkstraNavMesh/Assets/DijkstraNavMesh/DijkstraCostGraph.cs:202-218 | one more iteration of the relaxation loop keeps the mid-step invariant |
| LayerInvariant.RelaxPrefixInv | DijkstraNavMesh/Assets/DijkstraNavMesh/DijkstraCostGraph.cs:202-218 | after the first k connections, the mid-step invariant holds at k |
| LayerInvariant.MidToInv | NavMeshMaps/Assets/NavMeshMaps/Extensions/DistanceMap.cs:152-155 | once every connection is relaxed, or the popped node is beyond the cut-off, the full invariant holds again |
| LayerInvariant.StepInv | DijkstraNavMesh/Assets/DijkstraNavMesh/DijkstraCostGraph.cs:192-220 | a full step from a node within the cut-off keeps the invariant |
| LayerInvariant.CutStepInv | NavMeshMaps/Assets/NavMeshMaps/Extensions/DistanceMap.cs:143-176 | a step with the cut-off keeps the invariant |
| LayerInvariant.RunInv | NavMeshMaps/Assets/NavMeshMaps/Extensions/DistanceMap.cs:37-41 | any number of steps keeps the invariant |
| LayerCorrectness.WalkBound | DijkstraNavMesh/Assets/DijkstraNavMesh/DijkstraCostGraph.cs:192-220 | under the invariant, every walk from the start to v is longer than the cut-off or at least as long as what the layer knows about v |
| LayerCorrectness.FixedIsShortest | DijkstraNavMesh/Assets/DijkstraNavMesh/DijkstraCostGraph.cs:199 | a fixed record within the cut-off holds the shortest-walk distance from the start |
| LayerCorrectness.FinishedIsShortest | DijkstraNavMesh/Assets/DijkstraNavMesh/DijkstraCostGraph.cs:222-225 | with no cut-off and an empty frontier, every record holds the shortest-walk distance, and +∞ exactly when no walk reaches the node |
| LayerCorrectness.FinishedWithinLimit | NavMeshMaps/Assets/NavMeshMaps/Extensions/DistanceMap.cs:178-181 | with a cut-off and an empty frontier, every node reached by a walk within the cut-off is fixed at its shortest-walk distance |
| LayerCorrectness.UnreachedIsInf | DijkstraNavMesh/Assets/DijkstraNavMesh/DijkstraCostGraph.cs:171 | a node no walk reaches keeps cost +∞ |
| LayerCorrectness.SettledCountGrows | DijkstraNavMesh/Assets/DijkstraNavMesh/DijkstraCostGraph.cs:196-199 | settling one more node, while losing none, raises the count of settled nodes |
| LayerCorrectness.SettledCountBelow | DijkstraNavMesh/Assets/DijkstraNavMesh/DijkstraCostGraph.cs:196-199 | while some node is unsettled, fewer than all nodes are settled |
| LayerCorrectness.RelaxOneKeepsSettled | DijkstraNavMesh/Assets/DijkstraNavMesh/DijkstraCostGraph.cs:206-209 | relaxing one connection neither settles nor unsettles any node |
| LayerCorrectness.RelaxPrefixStepSettled | DijkstraNavMesh/Assets/DijkstraNavMesh/DijkstraCostGraph.cs:202-218 | one more iteration of the relaxation loop leaves every node's settledness as it was |
| LayerCorrectness.RelaxPrefixKeepsSettled | DijkstraNavMesh/Assets/DijkstraNavMesh/DijkstraCostGraph.cs:202-218 | the whole relaxation loop leaves every node's settledness as it was |
| LayerCorrectness.CutStepSettles | NavMeshMaps/Assets/NavMeshMaps/Extensions/DistanceMap.cs:147-150 | every step settles one more node (the popped one), so the frontier cannot cycle |
| LayerCorrectness.RunProgress | NavMeshMaps/Assets/NavMeshMaps/Extensions/DistanceMap.cs:37-41 | after k steps the frontier is empty or k more nodes are settled |
| LayerCorrectness.RunFinishes | NavMeshMaps/Assets/NavMeshMaps/Extensions/DistanceMap.cs:37-41 | a run as long as the number of unsettled nodes empties the frontier |
| LayerCorrectness.SetupSettlesNothing | DijkstraNavMesh/Assets/DijkstraNavMesh/DijkstraCostGraph.cs:177-190 | right after `Setup`, no node is settled: the start is fixed but still in the frontier |
| LayerCorrectness.SetupCountZero | NavMeshMaps/Assets/NavMeshMaps/Extensions/CostMap.cs:297-310 | a state whose frontier is just the start, with every other node unfixed, has no settled node |
| CostLayers.CostLayer.constructor | DijkstraNavMesh/Assets/DijkstraNavMesh/DijkstraCostGraph.cs:155-164 | a new layer has one reset record per graph node and an empty frontier, and is marked as never set up |
| CostLayers.CostLayer.ResetNodes | DijkstraNavMesh/Assets/DijkstraNavMesh/DijkstraCostGraph.cs:166-174 | the record array becomes the reset state |
| CostLayers.CostLayer.Setup | DijkstraNavMesh/Assets/DijkstraNavMesh/DijkstraCostGraph.cs:177-190 | the layer holds the setup state of the given start (start fixed at 0, frontier [start]) and is valid with zero steps taken |
| CostLayers.CostLayer.ForwardStep | DijkstraNavMesh/Assets/DijkstraNavMesh/DijkstraCostGraph.cs:192-220 | the array and frontier become `Step` of the old state, and the layer stays valid with one more step taken |
| CostLayers.CostLayer.PopCheapest | DijkstraNavMesh/Assets/DijkstraNavMesh/DijkstraCostGraph.cs:196-199 | the head of the frontier is returned, taken off the frontier and fixed, which is `Pop` of the old state |
| CostLayers.CostLayer.RelaxConnection | DijkstraNavMesh/Assets/DijkstraNavMesh/DijkstraCostGraph.cs:204-217 | one pass of the relaxation loop turns the state into `RelaxOne` of the old state for that connection |
| CostLayers.CostLayer.ForwardSteps | DijkstraNavMesh/Assets/DijkstraNavMesh/DijkstraCostGraph.cs:49-56 | the step-then-check-finished loop leaves the layer at `Run` of the old step count plus the iteration count, stopping early on an empty frontier |
| CostLayers.CostLayer.InsertNodeSortedByDistance | DijkstraNavMesh/Assets/DijkstraNavMesh/DijkstraCostGraph.cs:227-242 | the loop's result is the ordered insert of the node into the list, by the costs in the record array |
| CostLayers.CostLayer.GetNode | DijkstraNavMesh/Assets/DijkstraNavMesh/DijkstraCostGraph.cs:244-247 | the record of the node; a fixed record, or any record of a finished layer, holds the shortest-walk distance from the layer's start |
| CostLayers.LayerNodeIsShortest | NavMeshMaps/Assets/NavMeshMaps/Extensions/CostMap.cs:364-367 | for any state a valid layer can be in, a fixed record is the shortest-walk distance, and so is every record once the frontier is empty |
| CostGraphs.DijkstraCostGraph.constructor | DijkstraNavMesh/Assets/DijkstraNavMesh/DijkstraCostGraph.cs:24-33 | three distinct blank layers over the graph, edit index 0, stable index 1, sub layers not initialised, iteration counts 50 and 10 |
| CostGraphs.DijkstraCostGraph.FromMap | NavMeshMaps/Assets/NavMeshMaps/Extensions/CostMap.cs:24-33 | the same start state, over the graph built from the map's vertices, triangles and triangle connections |
| CostGraphs.DijkstraCostGraph.NewSubLayers | DijkstraNavMesh/Assets/DijkstraNavMesh/DijkstraCostGraph.cs:28-32 | two new blank layers, distinct from each other and from the top layer, in a new two-element array |
| CostGraphs.DijkstraCostGraph.Update | DijkstraNavMesh/Assets/DijkstraNavMesh/DijkstraCostGraph.cs:35-81 | after a tick, the top layer is the run of `TopLayerIteration` steps from the new start, every layer stays valid, and the start's cost is 0. The sub layers end up as `Tick` of their state before the third block. On the first tick that state has both layers freshly set up at the start; on a later tick it is the state at entry. `Tick` advances the edit layer by up to `SubLayerIteration` steps without a reset. If its frontier is then empty, the indices swap, the finished layer becomes the stable one, and the new edit layer is set up at the start. Otherwise the stable layer is untouched |
| CostGraphs.DijkstraCostGraph.InitializeSubLayers | DijkstraNavMesh/Assets/DijkstraNavMesh/DijkstraCostGraph.cs:37-44 | on the first tick both sub layers are set up at the start with no steps taken, the indices are kept, and the flag is raised |
| CostGraphs.DijkstraCostGraph.UpdateTopLayer | DijkstraNavMesh/Assets/DijkstraNavMesh/DijkstraCostGraph.cs:46-57 | the top layer is set up at the start and stepped up to `TopLayerIteration` times, so it is that run; the start is fixed at cost 0; the sub layers are untouched |
| CostGraphs.DijkstraCostGraph.UpdateSubLayers | DijkstraNavMesh/Assets/DijkstraNavMesh/DijkstraCostGraph.cs:59-80 | the sub layers become `Tick` of their old state. The edit layer advances by up to `SubLayerIteration` steps. If that empties its frontier, the indices swap, the finished layer is the stable one, and the new edit layer is set up at the start. Otherwise both keep their roles and the stable layer is untouched |
| CostGraphs.DijkstraCostGraph.SwapSubLayers | DijkstraNavMesh/Assets/DijkstraNavMesh/DijkstraCostGraph.cs:72-79 | the indices are exchanged, the old edit layer is now the stable one and unchanged, and the layer now named edit is set up at the start |
| CostGraphs.DijkstraCostGraph.GetCost | DijkstraNavMesh/Assets/DijkstraNavMesh/DijkstraCostGraph.cs:104-118 | the answer comes from the top layer if it has fixed the node, else from the edit layer if it has, else from the stable layer; a fixed answer is the shortest-walk distance from its layer's start, and so is a finished stable layer's; before the first tick it is +∞ |
| CostGraphs.DijkstraCostGraph.GetConnectedNodes | DijkstraNavMesh/Assets/DijkstraNavMesh/DijkstraCostGraph.cs:120-124 | the end node of each of the node's connections, in stored order, each a valid node |
| DistanceMaps.Layer.constructor | NavMeshMaps/Assets/NavMeshMaps/Extensions/DistanceMap.cs:98-107 | a new layer has `nodeCount` reset records and the given cut-off, and is marked as never set up |
| DistanceMaps.Layer.ResetNodes | NavMeshMaps/Assets/NavMeshMaps/Extensions/DistanceMap.cs:109-117 | the record array becomes the reset state |
| DistanceMaps.Layer.Setup | NavMeshMaps/Assets/NavMeshMaps/Extensions/DistanceMap.cs:121-141 | the polygons are always re-read; if their count differs from the node count, records, frontier and start stay as they were; otherwise the layer holds the setup state of the start |
| DistanceMaps.Layer.ForwardStep | NavMeshMaps/Assets/NavMeshMaps/Extensions/DistanceMap.cs:143-176 | the array and frontier become `CutStep` of the old state under the layer's cut-off |
| DistanceMaps.Layer.PopCheapest | NavMeshMaps/Assets/NavMeshMaps/Extensions/DistanceMap.cs:147-150 | the head of the frontier is returned, taken off the frontier and fixed, which is `Pop` of the old state |
| DistanceMaps.Layer.RelaxConnection | NavMeshMaps/Assets/NavMeshMaps/Extensions/DistanceMap.cs:160-173 | one pass of the relaxation loop turns the state into `RelaxOne` of the old state for that connection |
| DistanceMaps.Layer.ForwardSteps | NavMeshMaps/Assets/NavMeshMaps/Extensions/DistanceMap.cs:60-65 | the check-finished-then-step loop leaves the layer at `Run` of the old step count plus the bound, under the cut-off |
| DistanceMaps.Layer.InsertNodeSortedByDistance | NavMeshMaps/Assets/NavMeshMaps/Extensions/DistanceMap.cs:183-198 | the loop's result is the ordered insert of the node, by distance |
| DistanceMaps.Layer.GetNode | NavMeshMaps/Assets/NavMeshMaps/Extensions/DistanceMap.cs:200-203 | the record of the node; a fixed record within the cut-off holds the shortest-walk distance over the layer's polygons, and a finished layer has fixed every node that a walk within the cut-off reaches |
| DistanceMaps.DistanceMap.constructor | NavMeshMaps/Assets/NavMeshMaps/Extensions/DistanceMap.cs:18-26 | a top layer with cut-off 10 and two sub layers with cut-off 999, all blank, with edit index 0, stable index 1 and sub-layer iteration 10 |
| DistanceMaps.DistanceMap.NewSubLayers | NavMeshMaps/Assets/NavMeshMaps/Extensions/DistanceMap.cs:21-25 | two new blank layers with cut-off 999, distinct from each other and from the top layer |
| DistanceMaps.DistanceMap.Update | NavMeshMaps/Assets/NavMeshMaps/Extensions/DistanceMap.cs:28-76 | after a tick, the top layer is the run of `ItrLimit` cut-off steps from the new start over the map's polygons, every layer stays valid, and the start's distance is 0. The sub layers end up as `Tick` of their state before the third block. On the first tick that state has the edit layer set up at the start, and the stable layer set up there and asked for `ItrLimit` steps. On a later tick it is the state at entry. `Tick` advances the edit layer by up to `SubLayerIteration` steps over its own polygons without a reset. If its frontier is then empty, the indices swap, the finished layer becomes the stable one, and the new edit layer is set up at the start over the map's polygons. Otherwise the stable layer is untouched |
| DistanceMaps.DistanceMap.InitializeSubLayers | NavMeshMaps/Assets/NavMeshMaps/Extensions/DistanceMap.cs:30-43 | on the first tick the edit layer is set up at the start, the stable layer is set up and run for up to `ItrLimit` steps, and the indices are kept |
| DistanceMaps.DistanceMap.UpdateTopLayer | NavMeshMaps/Assets/NavMeshMaps/Extensions/DistanceMap.cs:45-54 | the top layer is the run of up to `ItrLimit` cut-off steps from the start, with the start fixed at 0; the sub layers are untouched |
| DistanceMaps.DistanceMap.UpdateSubLayers | NavMeshMaps/Assets/NavMeshMaps/Extensions/DistanceMap.cs:56-75 | the sub layers become `Tick` of their old state. The edit layer advances by up to `SubLayerIteration` steps over its own polygons. Once it is finished, the indices swap and the new edit layer is set up at the start over the map's polygons. Otherwise the stable layer is untouched |
| DistanceMaps.DistanceMap.SwapSubLayers | NavMeshMaps/Assets/NavMeshMaps/Extensions/DistanceMap.cs:66-74 | the indices are exchanged, the old edit layer is now the stable one and unchanged, and the new edit layer is set up at the start |
| DistanceMaps.DistanceMap.GetDistance | NavMeshMaps/Assets/NavMeshMaps/Extensions/DistanceMap.cs:78-92 | top, then edit, then stable answer as in `GetCost`; a fixed answer within its layer's cut-off is the shortest-walk distance from that layer's start; before the first tick it is +∞ |
| DistanceMaps.BoundedRunFinishes | NavMeshMaps/Assets/NavMeshMaps/Extensions/DistanceMap.cs:49-53 | a loop bounded by at least the node count runs a freshly set-up layer until its frontier is empty, whatever the cut-off, so `ItrLimit` only matters for maps with more nodes than that |
| DistanceMaps.LimitedNodeIsShortest | NavMeshMaps/Assets/NavMeshMaps/Extensions/DistanceMap.cs:152-155 | after `Setup` and any number of cut-off steps, a fixed record within the cut-off is the shortest-walk distance; once the frontier is empty, every node a walk within the cut-off reaches is fixed at it |
| TriangleData.FirstClose | DijkstraNavMesh/Assets/NavMeshMaps/NavMeshTriangleData.cs:50-58 | the index of the first kept vertex close to the new one: none before it is close, and it is close unless it is the end of the list |
| TriangleData.Merge | DijkstraNavMesh/Assets/NavMeshMaps/NavMeshTriangleData.cs:43-64 | the translation has one entry per source vertex, each naming a kept vertex |
| TriangleData.MergeGrows | DijkstraNavMesh/Assets/NavMeshMaps/NavMeshTriangleData.cs:46-64 | merging a prefix of the source gives a prefix of the kept vertices and a prefix of the translation |
| TriangleData.MergeMapsToFirstClose | DijkstraNavMesh/Assets/NavMeshMaps/NavMeshTriangleData.cs:50-63 | each source vertex maps to a kept vertex with no close kept vertex before it; the target is close to the source vertex, or is that vertex itself, kept |
| TriangleData.MergeLast | DijkstraNavMesh/Assets/NavMeshMaps/NavMeshTriangleData.cs:59-63 | the last source vertex maps to the first close kept vertex, or is appended and maps to itself |
| TriangleData.KeptVerticesApart | DijkstraNavMesh/Assets/NavMeshMaps/NavMeshTriangleData.cs:59-62 | no kept vertex is close to a vertex kept before it |
| TriangleData.FirstCloseIs | DijkstraNavMesh/Assets/NavMeshMaps/NavMeshTriangleData.cs:50-58 | the first-close index is unique: an index with the two properties of `FirstClose` is that index |
| TriangleData.TriangleAt | DijkstraNavMesh/Assets/NavMeshMaps/NavMeshTriangleData.cs:71-81 | triangle t has three indices: the translations of source indices 3t, 3t+1 and 3t+2, each naming a kept vertex |
| TriangleData.Triangles | DijkstraNavMesh/Assets/NavMeshMaps/NavMeshTriangleData.cs:66-83 | one triangle per complete group of three indices; a trailing partial group is dropped |
| TriangleData.OccurrencesPositive | DijkstraNavMesh/Assets/NavMeshMaps/NavMeshTriangleData.cs:130-136 | a value is counted at least once if and only if it is in the list |
| TriangleData.OverlapPositive | DijkstraNavMesh/Assets/NavMeshMaps/NavMeshTriangleData.cs:94-98 | the overlap is positive if and only if the two index lists share a value, which is when a record is kept |
| TriangleData.OverlapSnoc | DijkstraNavMesh/Assets/NavMeshMaps/NavMeshTriangleData.cs:130-136 | one more value in the second list adds its number of occurrences in the first |
| TriangleData.OverlapSymmetric | DijkstraNavMesh/Assets/NavMeshMaps/NavMeshTriangleData.cs:125-139 | the count of equal pairs does not depend on the order of the two lists |
| TriangleData.CountSameValues | DijkstraNavMesh/Assets/NavMeshMaps/NavMeshTriangleData.cs:125-139 | the nested loops return the number of index pairs (i, j) with equal values |
| TriangleData.RowRecords | DijkstraNavMesh/Assets/NavMeshMaps/NavMeshTriangleData.cs:91-105 | every record of row i pairs triangle i with a later triangle, below the bound, and carries their positive overlap |
| TriangleData.Records | DijkstraNavMesh/Assets/NavMeshMaps/NavMeshTriangleData.cs:85-106 | every record pairs two triangles with a positive overlap, its first triangle below the row bound |
| TriangleData.RowRecordsOrdered | DijkstraNavMesh/Assets/NavMeshMaps/NavMeshTriangleData.cs:91-105 | within a row, the second triangles strictly increase |
| TriangleData.RowRecordsComplete | DijkstraNavMesh/Assets/NavMeshMaps/NavMeshTriangleData.cs:91-105 | every later triangle that shares a vertex with triangle i has its record in row i |
| TriangleData.RecordsOrdered | DijkstraNavMesh/Assets/NavMeshMaps/NavMeshTriangleData.cs:88-106 | the records are in strictly increasing (triangleA, triangleB) order, so there are no duplicates |
| TriangleData.RecordsComplete | DijkstraNavMesh/Assets/NavMeshMaps/NavMeshTriangleData.cs:88-106 | every pair of triangles i < j that share a vertex has a record with their overlap count |
| TriangleData.Incident | DijkstraNavMesh/Assets/NavMeshMaps/NavMeshTriangleData.cs:111-118 | every listed record index is below the scanned bound |
| TriangleData.IncidentExactly | DijkstraNavMesh/Assets/NavMeshMaps/NavMeshTriangleData.cs:107-120 | a triangle's list is strictly ascending and holds exactly the indices of the records naming the triangle |
| TriangleData.WithIncident | DijkstraNavMesh/Assets/NavMeshMaps/NavMeshTriangleData.cs:107-120 | each triangle keeps its indices and centre and gets its incident-record list |
| TriangleData.NavMeshTriangleData.constructor | DijkstraNavMesh/Assets/NavMeshMaps/NavMeshTriangleData.cs:9-33 | all lists start empty |
| TriangleData.NavMeshTriangleData.Build | DijkstraNavMesh/Assets/NavMeshMaps/NavMeshTriangleData.cs:35-123 | the fields are the merged vertices and translation, the records of the collected triangles, and those triangles with their incident lists; they depend only on the triangulation |
| TriangleData.NavMeshTriangleData.MergeVertices | DijkstraNavMesh/Assets/NavMeshMaps/NavMeshTriangleData.cs:42-64 | the nested loop with `break` computes `Merge` of the source vertices |
| TriangleData.NavMeshTriangleData.CollectTriangles | DijkstraNavMesh/Assets/NavMeshMaps/NavMeshTriangleData.cs:66-83 | the loop stepping by three computes `Triangles` |
| TriangleData.NavMeshTriangleData.CalculateTriangleConnections | DijkstraNavMesh/Assets/NavMeshMaps/NavMeshTriangleData.cs:85-106 | the nested pair loop with `continue` computes `Records` |
| TriangleData.NavMeshTriangleData.CollectTriangleConnectionLists | DijkstraNavMesh/Assets/NavMeshMaps/NavMeshTriangleData.cs:107-120 | the scan gives every triangle its incident-record list and changes nothing else |
| Graphs.TriangleLinks | DijkstraNavMesh/Assets/DijkstraNavMesh/DijkstraGraph.cs:59-93 | the first j corners of a triangle add exactly two links each (the edge to the next corner and the spoke from the centre) |
| Graphs.MeshLinks | DijkstraNavMesh/Assets/DijkstraNavMesh/DijkstraGraph.cs:54-94 | the first t triangles add exactly two links per corner |
| Graphs.TriangleLinksShape | DijkstraNavMesh/Assets/DijkstraNavMesh/DijkstraGraph.cs:62-64 | a corner link ends at a vertex node and starts at a vertex node or at the triangle's centre node |
| Graphs.MeshLinksShape | DijkstraNavMesh/Assets/DijkstraNavMesh/DijkstraGraph.cs:54-94 | no mesh link ends at a centre node, and links of triangles before t start below node V + t |
| Graphs.RecordLinks | DijkstraNavMesh/Assets/DijkstraNavMesh/DijkstraGraph.cs:96-120 | the first r records add exactly as many links as there are records among them sharing at least two vertices |
| Graphs.RecordLinksNext | DijkstraNavMesh/Assets/DijkstraNavMesh/DijkstraGraph.cs:98-102 | one more record adds its centre link, or nothing when it shares fewer than two vertices |
| Graphs.RecordLinkOrigin | DijkstraNavMesh/Assets/DijkstraNavMesh/DijkstraGraph.cs:96-120 | every record link is the centre link of a record sharing at least two vertices |
| Graphs.RecordLinkIndex | DijkstraNavMesh/Assets/DijkstraNavMesh/DijkstraGraph.cs:96-120 | every record sharing at least two vertices has its centre link among the record links |
| Graphs.GraphNodes | DijkstraNavMesh/Assets/DijkstraNavMesh/DijkstraGraph.cs:29-51 | one node per merged vertex at that vertex, then one per triangle at its centre |
| Graphs.AddLinkNodesOf | DijkstraNavMesh/Assets/DijkstraNavMesh/DijkstraGraph.cs:108-119 | the two appends of a link, `a -> b` to a's list and then `b -> a` to b's list, give the node lists of the link list extended by that link |
| Graphs.OutgoingOrigin | DijkstraNavMesh/Assets/DijkstraNavMesh/DijkstraGraph.cs:67-92 | every connection in a node's list comes from one of the links |
| Graphs.OutgoingPresent | DijkstraNavMesh/Assets/DijkstraNavMesh/DijkstraGraph.cs:67-92 | every connection a link gives a node is in that node's list |
| Graphs.NodesOfCount | DijkstraNavMesh/Assets/DijkstraNavMesh/DijkstraGraph.cs:53-120 | every link adds exactly two connections in total |
| Graphs.GraphWellFormed | DijkstraNavMesh/Assets/DijkstraNavMesh/DijkstraGraph.cs:53-120 | every connection in node u's list starts at u and ends at a node of the graph |
| Graphs.GraphIsAdjacency | DijkstraNavMesh/Assets/DijkstraNavMesh/DijkstraGraph.cs:24-123 | the built connection lists are a well-formed graph for the cost layers |
| Graphs.GraphSymmetric | DijkstraNavMesh/Assets/DijkstraNavMesh/DijkstraGraph.cs:67-78 | every connection u -> v of length L has its reverse v -> u of length L in v's list |
| Graphs.GraphConnectionCount | DijkstraNavMesh/Assets/DijkstraNavMesh/DijkstraGraph.cs:53-120 | the graph holds four directed connections per triangle corner and two per record sharing at least two vertices, and no others |
| Graphs.CentreLinkHasRecord | DijkstraNavMesh/Assets/DijkstraNavMesh/DijkstraGraph.cs:96-120 | a connection between two centre nodes comes from a record of those two triangles that shares at least two vertices |
| Graphs.RecordLinksCentres | DijkstraNavMesh/Assets/DijkstraNavMesh/DijkstraGraph.cs:103-119 | a record sharing at least two vertices connects its two centre nodes both ways, with the distance between the centres |
| Graphs.RecordLinkInLinks | DijkstraNavMesh/Assets/DijkstraNavMesh/DijkstraGraph.cs:96-120 | such a record's centre link is one of the graph's links |
| Graphs.LinkInGraph | DijkstraNavMesh/Assets/DijkstraNavMesh/DijkstraGraph.cs:108-119 | both directed connections of every graph link are in the built node lists |
| Graphs.LinkPresent | DijkstraNavMesh/Assets/DijkstraNavMesh/DijkstraGraph.cs:67-78 | both directed connections of every link are in the lists of the nodes built from the links |
| Graphs.BuiltDataFits | DijkstraNavMesh/Assets/NavMeshMaps/NavMeshTriangleData.cs:66-106 | triangle data built from a triangulation meets the graph constructor's demands: triangle indices name merged vertices, and records name triangles |
| Graphs.DijkstraGraph.constructor | DijkstraNavMesh/Assets/DijkstraNavMesh/DijkstraGraph.cs:24-123 | the built node list is `GraphNodes` of the triangle data |
| Graphs.DijkstraGraph.CreateNodes | DijkstraNavMesh/Assets/DijkstraNavMesh/DijkstraGraph.cs:29-51 | the nodes are placed with empty lists; vertex i maps to node i and triangle t to node V + t |
| Graphs.DijkstraGraph.ConnectTriangles | DijkstraNavMesh/Assets/DijkstraNavMesh/DijkstraGraph.cs:53-94 | after the triangle loop the nodes hold exactly the mesh links |
| Graphs.DijkstraGraph.ConnectCorners | DijkstraNavMesh/Assets/DijkstraNavMesh/DijkstraGraph.cs:59-93 | the corner loop of triangle i adds that triangle's links |
| Graphs.DijkstraGraph.ConnectCorner | DijkstraNavMesh/Assets/DijkstraNavMesh/DijkstraGraph.cs:61-92 | the four appends of corner j add the edge link and the spoke link of that corner |
| Graphs.DijkstraGraph.ConnectRecords | DijkstraNavMesh/Assets/DijkstraNavMesh/DijkstraGraph.cs:96-120 | after the record loop the nodes are `GraphNodes` |
| Graphs.DijkstraGraph.ConnectRecord | DijkstraNavMesh/Assets/DijkstraNavMesh/DijkstraGraph.cs:98-119 | record i adds its centre link, or nothing when it shares fewer than two vertices |

## Left out

- Floating point: costs and lengths are exact reals, so rounding in `cost + length` and `float` overflow are not modelled. +∞ is a separate value, and `<` and `>` on costs follow IEEE order on non-NaN values.
- Positions: `Vector3`, `Vector3.Distance`, the squared-magnitude closeness test (below 0.001) and the centre `(a + b + c) / 3` become the parameters `distance`, `close` and `centre`. Distances are taken to be ≥ 0.
- Object identity: a node record or a graph node is a value in an array or sequence, so aliasing between the `CostNode` a caller holds and the layer's array is not modelled. `GetNode` returns a copy.
- `GetClosestNodeIndex` and `GetPosition`, `DrawGizmos`, `ProfilerSampleScope`, `Stopwatch` and `Debug.Log`: queries over positions, and drawing, profiling and logging, with no bearing on costs.
- `NavMesh.CalculateTriangulation`: `Build` takes the triangulation's vertices and index array as arguments.
- `NavMeshTriangleMap` and its polygon list are not part of this model. `DistanceMap` takes the polygons' connection lists as a graph, and `CostMap`'s constructor takes the map's vertices, triangles and triangle connections.
- The MonoBehaviour containers, `Chaser` and `DistanceMapController`: scene glue that calls the modelled operations.
- DistanceMaps.DistanceMap.Update: requires the map to have exactly `nodeCount` polygons. With a mismatched map, `Layer.Setup` logs and returns and the source would then step stale layers; only `Layer.Setup` models that branch.
- TriangleData.NavMeshTriangleData.Build: requires `IndicesFit`, so every index of a whole triangle names a source vertex. The source throws on an out-of-range index when it reads `_verticesTranslationBuffer`.
- Graphs.DijkstraGraph.constructor: requires `TrianglesFit` and `RecordsFit`, so triangle indices and kept records name existing vertices and triangles. The source throws on an out-of-range index into `vertToNode` or `triToNode`. `Graphs.BuiltDataFits` shows that data from `Build` always meets this.
- DistanceMaps.Layer.Setup: requires the polygon connection lists to name polygons in range; the source would throw on a bad index during a later step.
- CostLayers.CostLayer.ForwardSteps: requires a frontier that is not empty, because the source's loop steps before it checks and an empty frontier would throw. Every caller meets this.
- CostGraphs.DijkstraCostGraph.GetConnectedNodes: returns the list instead of filling the caller's `List<int>`.
- The loops of `Update` (step-then-check in `DijkstraCostGraph`, check-then-step in `DistanceMap`) are each factored into one `ForwardSteps` method. The pop and the loop body of each `ForwardStep` are factored into `PopCheapest` and `RelaxConnection`, and the blocks of `Build` and of the graph constructor into one method per block. The order of operations is unchanged.
- `TopLayerIteration` and `SubLayerIteration` are settable properties. The model keeps them as fields, and a negative value runs no steps.
