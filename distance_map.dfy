/** `DistanceMap`: the same three-layer scheme over the polygons of a
    triangle map, with layers that stop relaxing past a distance cut-off
    (`maxCalcDistance`), a top layer stepped until finished or `ItrLimit`
    steps, and a stable layer that the first tick runs to the end. */
module DistanceMaps {
  import opened Costs
  import opened Walks
  import opened LayerSpec
  import opened LayerInvariant
  import opened LayerCorrectness

  /** `ItrLimit`: the step bound of the top layer and of the first stable layer. */
  const ItrLimit := 100000

  /** `maxCalcDistance` of the top layer. */
  const TopMaxCalcDistance: Length := 10.0

  /** `maxCalcDistance` of the two sub layers. */
  const SubMaxCalcDistance: Length := 999.0

  /** `DistanceMap.Layer`. The polygon list is re-read from the map on every
      `Setup`, and a map whose polygon count differs from the node count is
      rejected after it has been read. */
  class Layer {
    /** `_nodes`: one record per polygon. */
    const nodes: array<CostNode>
    /** `_maxCalcDistance`: a popped node dearer than this is not relaxed. */
    const maxCalcDistance: Length
    /** `_polygons`: the polygons' connection lists as of the last `Setup`. */
    var polygons: Adjacency
    /** `_checkNodes`: the frontier, cheapest first. */
    var checkNodes: seq<int>
    /** The node of the last accepted `Setup`, or -1 while there was none. */
    ghost var start: int
    /** The number of steps asked for since that `Setup`; once the frontier
        is empty, further steps change nothing. */
    ghost var steps: nat

    /** The layer's records and frontier as a value. */
    function State(): LayerState
      reads this, nodes
    {
      LayerState(nodes[..], checkNodes)
    }

    /** The cut-off as a cost. */
    function Limit(): Cost {
      Fin(maxCalcDistance)
    }

    /** A layer that was never set up is blank; one that was holds what
        `Setup(start)` and `steps` cut-off steps over its polygons make of it. */
    ghost predicate Valid()
      reads this, nodes
    {
      (start == -1 ==> State() == BlankState(nodes.Length)) &&
      (start != -1 ==>
         WellFormed(polygons) && |polygons| == nodes.Length && 0 <= start < nodes.Length &&
         State() == Run(polygons, SetupState(nodes.Length, start), steps, Limit()))
    }

    /** `new Layer(nodeCount, maxCalcDistance)`: all records reset, no
        polygons, empty frontier. */
    constructor (nodeCount: int, maxCalcDistance: Length)
      requires nodeCount >= 0
      ensures Valid() && nodes.Length == nodeCount && this.maxCalcDistance == maxCalcDistance
      ensures start == -1 && fresh(nodes)
    {
      this.maxCalcDistance := maxCalcDistance;
      nodes := new CostNode[nodeCount](_ => CostNode(false, Fin(0.0), 0));
      polygons := [];
      checkNodes := [];
      start := -1;
      steps := 0;
      new;
      ResetNodes();
    }

    /** Every record back to not fixed, distance +∞, no predecessor. */
    method ResetNodes()
      modifies nodes
      ensures nodes[..] == AllUnvisited(nodes.Length)
    {
      for i := 0 to nodes.Length
        invariant forall j :: 0 <= j < i ==> nodes[j] == Unvisited
      {
        nodes[i] := nodes[i].(isFixed := false);
        nodes[i] := nodes[i].(cost := Inf);
        nodes[i] := nodes[i].(previousNode := -1);
      }
    }

    /** Reads the map's polygons; if their count is the node count, resets
        the layer and starts it at `startIndex`, fixed at distance 0 and the
        whole frontier. Otherwise records and frontier are left as they were. */
    method Setup(mapPolygons: Adjacency, startIndex: int)
      requires WellFormed(mapPolygons)
      requires |mapPolygons| == nodes.Length ==> 0 <= startIndex < nodes.Length
      modifies this, nodes
      ensures polygons == mapPolygons
      ensures |mapPolygons| != nodes.Length ==>
        State() == old(State()) && start == old(start) && steps == old(steps)
      ensures |mapPolygons| == nodes.Length ==>
        Valid() && start == startIndex && steps == 0 && State() == SetupState(nodes.Length, startIndex)
    {
      polygons := mapPolygons;
      if |polygons| != nodes.Length {
        return;
      }
      ResetNodes();
      checkNodes := [];
      var node := nodes[startIndex];
      node := node.(isFixed := true);
      node := node.(cost := Fin(0.0));
      node := node.(previousNode := -1);
      nodes[startIndex] := node;
      checkNodes := checkNodes + [startIndex];
      start := startIndex;
      steps := 0;
    }

    /** `IsFinished`: the frontier is empty. */
    predicate IsFinished()
      reads this
    {
      checkNodes == []
    }

    /** Pops the cheapest frontier node and fixes it; unless its distance
        exceeds the cut-off, relaxes its connections in list order. The
        source faults on an empty frontier. */
    method ForwardStep()
      requires Valid() && !IsFinished()
      modifies this, nodes
      ensures Valid() && start == old(start) && steps == old(steps) + 1 && polygons == old(polygons)
      ensures State() == CutStep(polygons, old(State()), Limit())
    {
      var index := PopCheapest();
      ghost var popped := State();
      if !Lt(Limit(), nodes[index].cost) {
        for i := 0 to |polygons[index]|
          invariant start == old(start) && steps == old(steps) && polygons == old(polygons)
          invariant State() == RelaxPrefix(polygons, popped, index, i)
        {
          RelaxConnection(index, i);
        }
      }
      RunNext(polygons, SetupState(nodes.Length, start), steps, Limit());
      steps := steps + 1;
    }

    /** The start of `ForwardStep`: the head of the frontier is taken off
        and fixed. */
    method PopCheapest() returns (index: int)
      requires checkNodes != [] && 0 <= checkNodes[0] < nodes.Length
      modifies this`checkNodes, nodes
      ensures index == old(checkNodes[0])
      ensures State() == Pop(old(State()))
    {
      index := checkNodes[0];
      checkNodes := checkNodes[1..];
      nodes[index] := nodes[index].(isFixed := true);
    }

    /** One pass of the relaxation loop of `ForwardStep`: connection `i` of
        the popped node `index` is skipped when it ends at a fixed node, and
        otherwise lowers that node's distance, sets its previous node and
        moves it in the frontier when it is an improvement. */
    method RelaxConnection(index: int, i: int)
      requires Shaped(polygons, State()) && 0 <= index < |polygons| && 0 <= i < |polygons[index]|
      modifies this`checkNodes, nodes
      ensures State() == RelaxOne(polygons, old(State()), index, i)
    {
      ghost var prev := State();
      var connection := polygons[index][i];
      var nextNode := nodes[connection.toNode];
      if nextNode.isFixed {
        return;
      }
      var newDistance := Add(nodes[index].cost, connection.length);
      if Lt(newDistance, nextNode.cost) {
        nodes[connection.toNode] := nextNode.(cost := newDistance, previousNode := index);
        assert nodes[..] == prev.nodes[connection.toNode := nextNode.(cost := newDistance, previousNode := index)];
        RemoveFirstWithin(checkNodes, connection.toNode, nodes.Length);
        checkNodes := RemoveFirst(checkNodes, connection.toNode);
        checkNodes := InsertNodeSortedByDistance(checkNodes, connection.toNode, nodes);
      }
    }

    /** The step loops of `Update`: while the layer is not finished and
        fewer than `limit` steps were taken, one more step. */
    method ForwardSteps(limit: int)
      requires Valid() && start != -1
      modifies this, nodes
      ensures Valid() && start == old(start) && polygons == old(polygons)
      ensures State() == Run(polygons, SetupState(nodes.Length, start), old(steps) + Max0(limit), Limit())
      ensures steps == old(steps) + Max0(limit)
    {
      ghost var k0 := steps;
      if IsFinished() {
        RunStaysFinished(polygons, SetupState(nodes.Length, start), k0, k0 + Max0(limit), Limit());
      }
      var itr := 0;
      while !IsFinished() && itr < limit
        invariant 0 <= itr <= Max0(limit)
        invariant Valid() && start == old(start) && polygons == old(polygons) && steps == k0 + itr
        invariant IsFinished() ==> State() == Run(polygons, SetupState(nodes.Length, start), k0 + Max0(limit), Limit())
        modifies this, nodes
      {
        itr := itr + 1;
        ForwardStep();
        if IsFinished() {
          RunStaysFinished(polygons, SetupState(nodes.Length, start), k0 + itr, k0 + Max0(limit), Limit());
        }
      }
      steps := k0 + Max0(limit);
    }

    /** Puts `id` in front of the first entry of `ids` whose distance is
        strictly larger than `id`'s, or at the end. */
    static method InsertNodeSortedByDistance(ids: seq<int>, id: int, nodes: array<CostNode>) returns (r: seq<int>)
      requires Within(ids, nodes.Length) && 0 <= id < nodes.Length
      ensures r == InsertSorted(ids, id, nodes[..])
    {
      var distance := nodes[id].cost;
      for i := 0 to |ids|
        invariant forall k :: 0 <= k < i ==> !Lt(distance, nodes[ids[k]].cost)
      {
        if Lt(distance, nodes[ids[i]].cost) {
          InsertPositionIs(ids, id, nodes[..], i);
          return ids[..i] + [id] + ids[i..];
        }
      }
      InsertPositionIs(ids, id, nodes[..], |ids|);
      return ids + [id];
    }

    /** `GetNode(index)`: a fixed record within the cut-off holds the
        shortest-path distance from the start over the layer's polygons;
        once the layer is finished, so does every node some walk within
        the cut-off reaches. */
    function GetNode(index: int): (n: CostNode)
      requires Valid() && 0 <= index < nodes.Length
      reads this, nodes
      ensures n == nodes[index]
      ensures n.isFixed ==> start != -1
      ensures n.isFixed && Le(n.cost, Limit()) ==> IsShortest(polygons, start, index, n.cost)
      ensures start != -1 && IsFinished() ==>
        forall w :: IsWalk(polygons, start, w, index) && Le(WalkCost(polygons, w), Limit()) ==>
          n.isFixed && IsShortest(polygons, start, index, n.cost)
    {
      LimitedNodeIsShortest(polygons, start, steps, State(), Limit(), index);
      nodes[index]
    }
  }

  /** `layer` is a blank sub layer of `nodeCount` records allocated after `top`. */
  ghost predicate NewBlankSubLayer(layer: Layer?, nodeCount: int, top: Layer)
    reads layer, if layer == null then {} else {layer.nodes}
  {
    layer != null && layer.Valid() && layer.nodes.Length == nodeCount &&
    layer.maxCalcDistance == SubMaxCalcDistance && layer.start == -1 &&
    layer != top && layer.nodes != top.nodes
  }

  /** What a tick changes of the two sub layers: which index edits, and
      for each sub layer the node it was set up at, the polygons it was set
      up over and the steps asked of it since; `Valid()` holds each layer to
      `Run` of these under the sub layers' cut-off. */
  datatype SubLayerView = SubLayerView(editIndex: int, editStart: int, editPolygons: Adjacency, editSteps: nat,
                                       stableStart: int, stablePolygons: Adjacency, stableSteps: nat)

  /** The sub layers once the first tick has set both up at `start` over
      `mapPolygons` and asked `ItrLimit` steps of the stable one. */
  function FirstView(editIndex: int, mapPolygons: Adjacency, start: int): SubLayerView
  {
    SubLayerView(editIndex, start, mapPolygons, 0, start, mapPolygons, ItrLimit)
  }

  /** The sub layers after the third block of a tick: the edit layer takes up
      to `iteration` more cut-off steps over its own polygons; if that empties
      its frontier, the two swap roles, the finished layer becomes the stable
      one and the other is set up at `start` over `mapPolygons`; otherwise the
      stable layer is untouched. */
  ghost function Tick(nodeCount: nat, v: SubLayerView, iteration: int, mapPolygons: Adjacency, start: int): SubLayerView
    requires WellFormed(v.editPolygons) && |v.editPolygons| == nodeCount && 0 <= v.editStart < nodeCount
  {
    var steps := v.editSteps + Max0(iteration);
    if Run(v.editPolygons, SetupState(nodeCount, v.editStart), steps, Fin(SubMaxCalcDistance)).frontier == [] then
      SubLayerView(1 - v.editIndex, start, mapPolygons, 0, v.editStart, v.editPolygons, steps)
    else
      v.(editSteps := steps)
  }

  class DistanceMap {
    /** The number of polygons the map was built for. */
    const nodeCount: int
    /** `_topLayer`, cut off at `TopMaxCalcDistance` */
    const topLayer: Layer
    /** `_subLayers`, two layers cut off at `SubMaxCalcDistance` */
    const subLayers: array<Layer?>
    /** `_editSubLayerIndex`, initially 0 */
    var editSubLayerIndex: int
    /** `_stableSubLayerIndex`, initially 1 */
    var stableSubLayerIndex: int
    /** `_subLayerInitialized` */
    var subLayerInitialized: bool
    /** `SubLayerIteration`, a public field, initially 10 */
    var subLayerIteration: int

    ghost var Repr: set<object>

    /** The sub layer being advanced. */
    function Edit(): Layer
      reads this, subLayers
      requires subLayers.Length == 2 && subLayers[0] != null && subLayers[1] != null
      requires 0 <= editSubLayerIndex < 2
    {
      subLayers[editSubLayerIndex]
    }

    /** The sub layer that answers queries the other two cannot. */
    function Stable(): Layer
      reads this, subLayers
      requires subLayers.Length == 2 && subLayers[0] != null && subLayers[1] != null
      requires 0 <= stableSubLayerIndex < 2
    {
      subLayers[stableSubLayerIndex]
    }

    /** The sub layers as a value. */
    ghost function SubView(): (v: SubLayerView)
      requires Valid()
      reads this, Repr
    {
      SubLayerView(editSubLayerIndex, Edit().start, Edit().polygons, Edit().steps, Stable().start, Stable().polygons, Stable().steps)
    }

    /** The three layers are distinct objects with distinct node arrays of
        `nodeCount` records, with their cut-offs, and `Repr` holds them. */
    ghost predicate Layout()
      reads this, Repr
    {
      this in Repr && subLayers in Repr && topLayer in Repr && topLayer.nodes in Repr &&
      subLayers.Length == 2 && subLayers[0] != null && subLayers[1] != null &&
      subLayers[0] in Repr && subLayers[1] in Repr &&
      subLayers[0].nodes in Repr && subLayers[1].nodes in Repr &&
      subLayers[0] != subLayers[1] && topLayer != subLayers[0] && topLayer != subLayers[1] &&
      subLayers[0].nodes != subLayers[1].nodes &&
      topLayer.nodes != subLayers[0].nodes && topLayer.nodes != subLayers[1].nodes &&
      topLayer.nodes.Length == nodeCount &&
      subLayers[0].nodes.Length == nodeCount && subLayers[1].nodes.Length == nodeCount &&
      topLayer.maxCalcDistance == TopMaxCalcDistance &&
      subLayers[0].maxCalcDistance == SubMaxCalcDistance && subLayers[1].maxCalcDistance == SubMaxCalcDistance
    }

    /** Every layer is valid, the two indices name the two sub layers, and
        between ticks the edit layer still has work to do while the stable
        layer has been set up and, on a map of at most `ItrLimit` polygons,
        is finished. */
    ghost predicate Valid()
      reads this, Repr
    {
      Layout() &&
      topLayer.Valid() && subLayers[0].Valid() && subLayers[1].Valid() &&
      0 <= editSubLayerIndex < 2 && stableSubLayerIndex == 1 - editSubLayerIndex &&
      (subLayerInitialized ==>
         Edit().start != -1 && !Edit().IsFinished() &&
         Stable().start != -1 && (nodeCount <= ItrLimit ==> Stable().IsFinished())) &&
      (!subLayerInitialized ==> topLayer.start == -1 && Edit().start == -1 && Stable().start == -1)
    }

    /** `new DistanceMap(nodeCount)`: three blank layers, edit index 0,
        stable index 1, sub layers not yet initialized. */
    constructor (nodeCount: int)
      requires nodeCount >= 0
      ensures Valid() && fresh(Repr) && this.nodeCount == nodeCount
      ensures editSubLayerIndex == 0 && stableSubLayerIndex == 1 && !subLayerInitialized
      ensures subLayerIteration == 10
    {
      this.nodeCount := nodeCount;
      var top := new Layer(nodeCount, TopMaxCalcDistance);
      topLayer := top;
      var layers := NewSubLayers(nodeCount, top);
      var l0, l1 := layers[0], layers[1];
      subLayers := layers;
      editSubLayerIndex := 0;
      stableSubLayerIndex := 1;
      subLayerInitialized := false;
      subLayerIteration := 10;
      new;
      Repr := {this, subLayers, topLayer, topLayer.nodes, l0, l0.nodes, l1, l1.nodes};
    }

    /** The loop of the constructor: two blank sub layers in a new array. */
    static method NewSubLayers(nodeCount: int, top: Layer) returns (layers: array<Layer?>)
      requires nodeCount >= 0
      ensures fresh(layers) && layers.Length == 2
      ensures NewBlankSubLayer(layers[0], nodeCount, top) && fresh(layers[0]) && fresh(layers[0].nodes)
      ensures NewBlankSubLayer(layers[1], nodeCount, top) && fresh(layers[1]) && fresh(layers[1].nodes)
      ensures layers[1] != layers[0] && layers[1].nodes != layers[0].nodes
    {
      layers := new Layer?[2](_ => null);
      for i := 0 to layers.Length
        modifies layers
        invariant i < 1 ==> layers[0] == null
        invariant i < 2 ==> layers[1] == null
        invariant i >= 1 ==> NewBlankSubLayer(layers[0], nodeCount, top) && fresh(layers[0]) && fresh(layers[0].nodes)
        invariant i >= 2 ==> (NewBlankSubLayer(layers[1], nodeCount, top) && fresh(layers[1]) && fresh(layers[1].nodes) &&
          layers[1] != layers[0] &&
          layers[1].nodes != layers[0].nodes)
      {
        layers[i] := new Layer(nodeCount, SubMaxCalcDistance);
      }
    }

    /** One tick over the map's current polygons from the current start: on
        the first tick the edit layer is set up and the stable layer is set
        up and stepped until finished or `ItrLimit` steps; the top layer is
        set up again and stepped likewise; the edit layer takes up to
        `subLayerIteration` more steps and, once finished, becomes the stable
        layer while the other sub layer is set up at the current start. */
    method Update(mapPolygons: Adjacency, startIndex: int)
      requires Valid() && WellFormed(mapPolygons) && |mapPolygons| == nodeCount && 0 <= startIndex < nodeCount
      modifies Repr
      ensures Valid() && Repr == old(Repr) && subLayerInitialized
      ensures subLayerIteration == old(subLayerIteration)
      ensures topLayer.start == startIndex && topLayer.polygons == mapPolygons
      ensures topLayer.State() == Run(mapPolygons, SetupState(nodeCount, startIndex), ItrLimit, Fin(TopMaxCalcDistance))
      ensures GetDistance(startIndex) == Fin(0.0)
      ensures SubView() == Tick(nodeCount, if old(subLayerInitialized) then old(SubView()) else FirstView(old(editSubLayerIndex), mapPolygons, startIndex),
                                old(subLayerIteration), mapPolygons, startIndex)
    {
      if !subLayerInitialized {
        InitializeSubLayers(mapPolygons, startIndex);
      }
      UpdateTopLayer(mapPolygons, startIndex);
      UpdateSubLayers(mapPolygons, startIndex);
    }

    /** The first block of `Update`: on the first tick the edit layer is set
        up and the stable layer is set up and stepped until finished or
        `ItrLimit` steps, which finishes it on a map of at most `ItrLimit`
        polygons. */
    method InitializeSubLayers(mapPolygons: Adjacency, startIndex: int)
      requires Valid() && !subLayerInitialized
      requires WellFormed(mapPolygons) && |mapPolygons| == nodeCount && 0 <= startIndex < nodeCount
      modifies this, subLayers[0], subLayers[0].nodes, subLayers[1], subLayers[1].nodes
      ensures Valid() && Repr == old(Repr) && subLayerInitialized
      ensures editSubLayerIndex == old(editSubLayerIndex) && stableSubLayerIndex == old(stableSubLayerIndex)
      ensures subLayerIteration == old(subLayerIteration)
      ensures Edit().start == startIndex && Edit().State() == SetupState(nodeCount, startIndex)
      ensures Stable().start == startIndex && Stable().polygons == mapPolygons
      ensures Stable().State() == Run(mapPolygons, SetupState(nodeCount, startIndex), ItrLimit, Fin(SubMaxCalcDistance))
      ensures SubView() == FirstView(old(editSubLayerIndex), mapPolygons, startIndex)
    {
      var editLayer := subLayers[editSubLayerIndex];
      editLayer.Setup(mapPolygons, startIndex);
      var stableLayer := subLayers[stableSubLayerIndex];
      stableLayer.Setup(mapPolygons, startIndex);
      stableLayer.ForwardSteps(ItrLimit);
      BoundedRunFinishes(mapPolygons, startIndex, ItrLimit, Fin(SubMaxCalcDistance));
      subLayerInitialized := true;
    }

    /** The second block of `Update`: the top layer is set up at the current
        start and stepped until finished or `ItrLimit` steps. */
    method UpdateTopLayer(mapPolygons: Adjacency, startIndex: int)
      requires Valid() && subLayerInitialized
      requires WellFormed(mapPolygons) && |mapPolygons| == nodeCount && 0 <= startIndex < nodeCount
      modifies topLayer, topLayer.nodes
      ensures Valid()
      ensures topLayer.start == startIndex && topLayer.polygons == mapPolygons
      ensures topLayer.State() == Run(mapPolygons, SetupState(nodeCount, startIndex), ItrLimit, Fin(TopMaxCalcDistance))
      ensures topLayer.nodes[startIndex].isFixed && topLayer.nodes[startIndex].cost == Fin(0.0)
      ensures SubView() == old(SubView())
    {
      topLayer.Setup(mapPolygons, startIndex);
      topLayer.ForwardSteps(ItrLimit);
      RunKeepsFixed(mapPolygons, SetupState(nodeCount, startIndex), ItrLimit, Fin(TopMaxCalcDistance), startIndex);
    }

    /** The third block of `Update`: the edit layer takes up to
        `subLayerIteration` more steps and, once finished, becomes the stable
        layer while the other sub layer is set up at the current start. */
    method UpdateSubLayers(mapPolygons: Adjacency, startIndex: int)
      requires Valid() && subLayerInitialized
      requires WellFormed(mapPolygons) && |mapPolygons| == nodeCount && 0 <= startIndex < nodeCount
      modifies this, subLayers[0], subLayers[0].nodes, subLayers[1], subLayers[1].nodes
      ensures Valid() && Repr == old(Repr) && subLayerInitialized
      ensures subLayerIteration == old(subLayerIteration)
      ensures SubView() == Tick(nodeCount, old(SubView()), subLayerIteration, mapPolygons, startIndex)
    {
      var editLayer := subLayers[editSubLayerIndex];
      editLayer.ForwardSteps(subLayerIteration);
      if editLayer.IsFinished() {
        SwapSubLayers(mapPolygons, startIndex);
      }
    }

    /** The swap at the end of `Update`: the finished edit layer becomes the
        stable layer and the other sub layer is set up at the current start. */
    method SwapSubLayers(mapPolygons: Adjacency, startIndex: int)
      requires Layout() && subLayerInitialized
      requires WellFormed(mapPolygons) && |mapPolygons| == nodeCount && 0 <= startIndex < nodeCount
      requires topLayer.Valid() && subLayers[0].Valid() && subLayers[1].Valid()
      requires 0 <= editSubLayerIndex < 2 && stableSubLayerIndex == 1 - editSubLayerIndex
      requires Edit().start != -1 && Edit().IsFinished()
      modifies this, subLayers[stableSubLayerIndex], subLayers[stableSubLayerIndex].nodes
      ensures Valid() && Repr == old(Repr) && subLayerInitialized
      ensures subLayerIteration == old(subLayerIteration)
      ensures editSubLayerIndex == old(stableSubLayerIndex) && stableSubLayerIndex == old(editSubLayerIndex)
      ensures Edit().start == startIndex && Edit().polygons == mapPolygons
      ensures Edit().steps == 0
      ensures Stable() == old(Edit()) && Stable().start == old(Edit().start) && Stable().polygons == old(Edit().polygons)
      ensures Stable().steps == old(Edit().steps)
    {
      var oldEditLayerIndex := editSubLayerIndex;
      editSubLayerIndex := stableSubLayerIndex;
      stableSubLayerIndex := oldEditLayerIndex;
      var editLayer := subLayers[editSubLayerIndex];
      editLayer.Setup(mapPolygons, startIndex);
    }

    /** `GetDistance(index)`: the first layer that has fixed the node
        answers, top before edit, and the stable layer otherwise. A fixed
        answer within its layer's cut-off is the shortest-path distance from
        that layer's start over that layer's polygons. Before the first
        `Update` every layer is blank and the answer is +∞. */
    function GetDistance(index: int): (c: Cost)
      requires Valid() && 0 <= index < nodeCount
      reads Repr
      ensures topLayer.nodes[index].isFixed ==>
        c == topLayer.nodes[index].cost &&
        (Le(c, Fin(TopMaxCalcDistance)) ==> IsShortest(topLayer.polygons, topLayer.start, index, c))
      ensures !topLayer.nodes[index].isFixed && Edit().nodes[index].isFixed ==>
        c == Edit().nodes[index].cost &&
        (Le(c, Fin(SubMaxCalcDistance)) ==> IsShortest(Edit().polygons, Edit().start, index, c))
      ensures !topLayer.nodes[index].isFixed && !Edit().nodes[index].isFixed ==>
        c == Stable().nodes[index].cost &&
        (Stable().nodes[index].isFixed && Le(c, Fin(SubMaxCalcDistance)) ==>
           IsShortest(Stable().polygons, Stable().start, index, c))
      ensures !subLayerInitialized ==> c == Inf
    {
      var topLayerNode := topLayer.GetNode(index);
      if topLayerNode.isFixed then topLayerNode.cost
      else
        var editLayerNode := subLayers[editSubLayerIndex].GetNode(index);
        if editLayerNode.isFixed then editLayerNode.cost
        else subLayers[stableSubLayerIndex].GetNode(index).cost
    }
  }

  /** A step loop bounded by at least the node count runs a freshly set-up
      layer to the end, whatever the cut-off. */
  lemma BoundedRunFinishes(adj: Adjacency, s: int, k: int, limit: Cost)
    requires WellFormed(adj) && 0 <= s < |adj|
    ensures |adj| <= k ==> Run(adj, SetupState(|adj|, s), k, limit).frontier == []
  {
    if |adj| <= k {
      SetupInv(adj, s, limit);
      SetupSettlesNothing(adj, s);
      RunFinishes(adj, s, SetupState(|adj|, s), k, limit);
    }
  }

  /** After `Setup(s)` and any number of cut-off steps, a fixed node within
      the cut-off holds its shortest-path distance, and once the frontier is
      empty every node a walk within the cut-off reaches is fixed at it. */
  lemma LimitedNodeIsShortest(adj: Adjacency, s: int, k: nat, st: LayerState, limit: Cost, v: int)
    requires 0 <= v < |st.nodes|
    requires s == -1 ==> st == BlankState(|st.nodes|)
    requires s != -1 ==>
      WellFormed(adj) && |adj| == |st.nodes| && 0 <= s < |adj| &&
      st == Run(adj, SetupState(|adj|, s), k, limit)
    ensures st.nodes[v].isFixed ==> s != -1
    ensures st.nodes[v].isFixed && Le(st.nodes[v].cost, limit) ==> IsShortest(adj, s, v, st.nodes[v].cost)
    ensures s != -1 && st.frontier == [] ==>
      forall w :: IsWalk(adj, s, w, v) && Le(WalkCost(adj, w), limit) ==>
        st.nodes[v].isFixed && IsShortest(adj, s, v, st.nodes[v].cost)
  {
    if s != -1 {
      SetupInv(adj, s, limit);
      RunInv(adj, s, SetupState(|adj|, s), k, limit);
      if st.nodes[v].isFixed && Le(st.nodes[v].cost, limit) {
        FixedIsShortest(adj, s, st, limit, v);
      }
      if st.frontier == [] {
        forall w | IsWalk(adj, s, w, v) && Le(WalkCost(adj, w), limit)
          ensures st.nodes[v].isFixed && IsShortest(adj, s, v, st.nodes[v].cost)
        {
          FinishedWithinLimit(adj, s, st, limit, w, v);
        }
      }
    }
  }
}
