/** `DijkstraCostGraph` (and its copy `CostMap`): a top layer recomputed from
    the current start every tick for a bounded number of steps, and two sub
    layers that take turns: the edit layer advances a few steps per tick and,
    once finished, becomes the stable layer while the other one restarts. */
module CostGraphs {
  import opened Costs
  import opened Walks
  import opened LayerSpec
  import opened CostLayers
  import opened TriangleData
  import opened Graphs

  /** `layer` is a blank layer over `adj` allocated after `top`. */
  ghost predicate NewBlankLayer(layer: CostLayer?, adj: Adjacency, top: CostLayer)
    reads layer, if layer == null then {} else {layer.costNodes}
  {
    layer != null && layer.Valid() && layer.adj == adj && layer.start == -1 &&
    layer != top && layer.costNodes != top.costNodes
  }

  /** What a tick changes of the two sub layers: which index edits, and
      for each sub layer the node it was set up at and the steps asked of it
      since; `Valid()` holds each layer to `Run` of these. */
  datatype SubLayerView = SubLayerView(editIndex: int, editStart: int, editSteps: nat, stableStart: int, stableSteps: nat)

  /** The sub layers once the first tick has set both up at `start`. */
  function FirstView(editIndex: int, start: int): SubLayerView
  {
    SubLayerView(editIndex, start, 0, start, 0)
  }

  /** The sub layers after the third block of a tick: the edit layer takes up
      to `iteration` more steps; if that empties its frontier, the two swap
      roles, the finished layer becomes the stable one and the other is set
      up at `start`; otherwise the stable layer is untouched. */
  ghost function Tick(adj: Adjacency, v: SubLayerView, iteration: int, start: int): SubLayerView
    requires WellFormed(adj) && 0 <= v.editStart < |adj|
  {
    var steps := v.editSteps + Max0(iteration);
    if Run(adj, SetupState(|adj|, v.editStart), steps, Inf).frontier == [] then
      SubLayerView(1 - v.editIndex, start, 0, v.editStart, steps)
    else
      v.(editSteps := steps)
  }

  class DijkstraCostGraph {
    /** The connection lists of `_graph`. */
    const adj: Adjacency
    /** `_topLayer` */
    const topLayer: CostLayer
    /** `_subLayers`, two layers */
    const subLayers: array<CostLayer?>
    /** `_editSubLayerIndex`, initially 0 */
    var editSubLayerIndex: int
    /** `_stableSubLayerIndex`, initially 1 */
    var stableSubLayerIndex: int
    /** `_subLayerInitialized` */
    var subLayerInitialized: bool
    /** `TopLayerIteration`, a settable property, initially 50 */
    var topLayerIteration: int
    /** `SubLayerIteration`, a settable property, initially 10 */
    var subLayerIteration: int

    ghost var Repr: set<object>

    /** The sub layer being advanced. */
    function Edit(): CostLayer
      reads this, subLayers
      requires subLayers.Length == 2 && subLayers[0] != null && subLayers[1] != null
      requires 0 <= editSubLayerIndex < 2
    {
      subLayers[editSubLayerIndex]
    }

    /** The sub layer that answers queries the other two cannot. */
    function Stable(): CostLayer
      reads this, subLayers
      requires subLayers.Length == 2 && subLayers[0] != null && subLayers[1] != null
      requires 0 <= stableSubLayerIndex < 2
    {
      subLayers[stableSubLayerIndex]
    }

    /** The sub layers as a value. */
    ghost function SubView(): SubLayerView
      requires Valid()
      reads this, Repr
    {
      SubLayerView(editSubLayerIndex, Edit().start, Edit().steps, Stable().start, Stable().steps)
    }

    /** The three layers are distinct objects with distinct node arrays,
        all built over the graph's connections, and `Repr` holds them. */
    ghost predicate Layout()
      reads this, Repr
    {
      this in Repr && subLayers in Repr && topLayer in Repr && topLayer.costNodes in Repr &&
      subLayers.Length == 2 && subLayers[0] != null && subLayers[1] != null &&
      subLayers[0] in Repr && subLayers[1] in Repr &&
      subLayers[0].costNodes in Repr && subLayers[1].costNodes in Repr &&
      subLayers[0] != subLayers[1] && topLayer != subLayers[0] && topLayer != subLayers[1] &&
      subLayers[0].costNodes != subLayers[1].costNodes &&
      topLayer.costNodes != subLayers[0].costNodes && topLayer.costNodes != subLayers[1].costNodes &&
      topLayer.adj == adj && subLayers[0].adj == adj && subLayers[1].adj == adj
    }

    /** Every layer is valid, the two indices name the two sub layers, and
        between ticks the edit layer still has work to do while the stable
        layer is finished or freshly set up. */
    ghost predicate Valid()
      reads this, Repr
    {
      Layout() &&
      topLayer.Valid() && subLayers[0].Valid() && subLayers[1].Valid() &&
      0 <= editSubLayerIndex < 2 && stableSubLayerIndex == 1 - editSubLayerIndex &&
      (subLayerInitialized ==>
         Edit().start != -1 && !Edit().IsFinished() &&
         Stable().start != -1 && (Stable().IsFinished() || Stable().steps == 0)) &&
      (!subLayerInitialized ==> topLayer.start == -1 && Edit().start == -1 && Stable().start == -1)
    }

    /** `new DijkstraCostGraph(graph)`: three blank layers, edit index 0,
        stable index 1, sub layers not yet initialized. */
    constructor (adj: Adjacency)
      requires WellFormed(adj)
      ensures Valid() && fresh(Repr) && this.adj == adj
      ensures editSubLayerIndex == 0 && stableSubLayerIndex == 1 && !subLayerInitialized
      ensures topLayerIteration == 50 && subLayerIteration == 10
      ensures topLayer.start == -1
    {
      this.adj := adj;
      var top := new CostLayer(adj);
      topLayer := top;
      var layers := NewSubLayers(adj, top);
      var l0, l1 := layers[0], layers[1];
      subLayers := layers;
      editSubLayerIndex := 0;
      stableSubLayerIndex := 1;
      subLayerInitialized := false;
      topLayerIteration := 50;
      subLayerIteration := 10;
      new;
      Repr := {this, subLayers, topLayer, topLayer.costNodes, l0, l0.costNodes, l1, l1.costNodes};
    }

    /** `new CostMap(map)`: builds the graph from the map's triangle data,
        then the layers over it as the other constructor does. */
    constructor FromMap<P>(vertices: seq<P>, triangles: seq<Triangle<P>>, triangleConnections: seq<TriangleConnection>,
                           distance: (P, P) -> Length)
      requires TrianglesFit(triangles, |vertices|) && RecordsFit(triangleConnections, |triangles|)
      ensures Valid() && fresh(Repr)
      ensures adj == Connections(GraphNodes(vertices, triangles, triangleConnections, distance))
      ensures editSubLayerIndex == 0 && stableSubLayerIndex == 1 && !subLayerInitialized
      ensures topLayerIteration == 50 && subLayerIteration == 10
      ensures topLayer.start == -1
    {
      var graph := new DijkstraGraph(vertices, triangles, triangleConnections, distance);
      GraphIsAdjacency(vertices, triangles, triangleConnections, distance);
      var adj := Connections(graph.nodes);
      this.adj := adj;
      var top := new CostLayer(adj);
      topLayer := top;
      var layers := NewSubLayers(adj, top);
      var l0, l1 := layers[0], layers[1];
      subLayers := layers;
      editSubLayerIndex := 0;
      stableSubLayerIndex := 1;
      subLayerInitialized := false;
      topLayerIteration := 50;
      subLayerIteration := 10;
      new;
      Repr := {this, subLayers, topLayer, topLayer.costNodes, l0, l0.costNodes, l1, l1.costNodes};
    }

    /** The loop of the constructor: two blank sub layers in a new array. */
    static method NewSubLayers(adj: Adjacency, top: CostLayer) returns (layers: array<CostLayer?>)
      requires WellFormed(adj)
      ensures fresh(layers) && layers.Length == 2
      ensures NewBlankLayer(layers[0], adj, top) && fresh(layers[0]) && fresh(layers[0].costNodes)
      ensures NewBlankLayer(layers[1], adj, top) && fresh(layers[1]) && fresh(layers[1].costNodes)
      ensures layers[1] != layers[0] && layers[1].costNodes != layers[0].costNodes
    {
      layers := new CostLayer?[2](_ => null);
      for i := 0 to layers.Length
        modifies layers
        invariant i < 1 ==> layers[0] == null
        invariant i < 2 ==> layers[1] == null
        invariant i >= 1 ==> NewBlankLayer(layers[0], adj, top) && fresh(layers[0]) && fresh(layers[0].costNodes)
        invariant i >= 2 ==> (NewBlankLayer(layers[1], adj, top) && fresh(layers[1]) && fresh(layers[1].costNodes) &&
          layers[1] != layers[0] &&
          layers[1].costNodes != layers[0].costNodes)
      {
        layers[i] := new CostLayer(adj);
      }
    }

    /** One tick from the current start: on the first tick both sub layers
        are set up; the top layer is set up again and takes up to
        `topLayerIteration` steps; the edit layer takes up to
        `subLayerIteration` more steps and, once finished, becomes the stable
        layer while the other sub layer is set up at the current start. */
    method Update(startNodeIndex: int)
      requires Valid() && 0 <= startNodeIndex < |adj|
      modifies Repr
      ensures Valid() && Repr == old(Repr) && subLayerInitialized
      ensures topLayerIteration == old(topLayerIteration) && subLayerIteration == old(subLayerIteration)
      ensures topLayer.start == startNodeIndex
      ensures topLayer.State() == Run(adj, SetupState(|adj|, startNodeIndex), Max0(old(topLayerIteration)), Inf)
      ensures GetCost(startNodeIndex) == Fin(0.0)
      ensures SubView() == Tick(adj, if old(subLayerInitialized) then old(SubView()) else FirstView(old(editSubLayerIndex), startNodeIndex),
                                old(subLayerIteration), startNodeIndex)
    {
      if !subLayerInitialized {
        InitializeSubLayers(startNodeIndex);
      }
      UpdateTopLayer(startNodeIndex);
      UpdateSubLayers(startNodeIndex);
    }

    /** The first block of `Update`: on the first tick both sub layers are
        set up at the current start. */
    method InitializeSubLayers(startNodeIndex: int)
      requires Valid() && !subLayerInitialized && 0 <= startNodeIndex < |adj|
      modifies this, subLayers[0], subLayers[0].costNodes, subLayers[1], subLayers[1].costNodes
      ensures Valid() && Repr == old(Repr) && subLayerInitialized
      ensures editSubLayerIndex == old(editSubLayerIndex) && stableSubLayerIndex == old(stableSubLayerIndex)
      ensures topLayerIteration == old(topLayerIteration) && subLayerIteration == old(subLayerIteration)
      ensures Edit().start == startNodeIndex && Edit().steps == 0
      ensures Stable().start == startNodeIndex && Stable().State() == SetupState(|adj|, startNodeIndex)
      ensures SubView() == FirstView(old(editSubLayerIndex), startNodeIndex)
    {
      var editLayer := subLayers[editSubLayerIndex];
      editLayer.Setup(startNodeIndex);
      var stableLayer := subLayers[stableSubLayerIndex];
      stableLayer.Setup(startNodeIndex);
      subLayerInitialized := true;
    }

    /** The second block of `Update`: the top layer is set up at the current
        start and takes up to `topLayerIteration` steps. */
    method UpdateTopLayer(startNodeIndex: int)
      requires Valid() && subLayerInitialized && 0 <= startNodeIndex < |adj|
      modifies topLayer, topLayer.costNodes
      ensures Valid()
      ensures topLayer.start == startNodeIndex
      ensures topLayer.State() == Run(adj, SetupState(|adj|, startNodeIndex), Max0(topLayerIteration), Inf)
      ensures topLayer.costNodes[startNodeIndex].isFixed && topLayer.costNodes[startNodeIndex].cost == Fin(0.0)
      ensures SubView() == old(SubView())
    {
      topLayer.Setup(startNodeIndex);
      topLayer.ForwardSteps(topLayerIteration);
      RunKeepsFixed(adj, SetupState(|adj|, startNodeIndex), Max0(topLayerIteration), Inf, startNodeIndex);
    }

    /** The third block of `Update`: the edit layer takes up to
        `subLayerIteration` more steps and, once finished, becomes the stable
        layer while the other sub layer is set up at the current start. */
    method UpdateSubLayers(startNodeIndex: int)
      requires Valid() && subLayerInitialized && 0 <= startNodeIndex < |adj|
      modifies this, subLayers[0], subLayers[0].costNodes, subLayers[1], subLayers[1].costNodes
      ensures Valid() && Repr == old(Repr) && subLayerInitialized
      ensures topLayerIteration == old(topLayerIteration) && subLayerIteration == old(subLayerIteration)
      ensures SubView() == Tick(adj, old(SubView()), subLayerIteration, startNodeIndex)
    {
      var editLayer := subLayers[editSubLayerIndex];
      editLayer.ForwardSteps(subLayerIteration);
      if editLayer.IsFinished() {
        SwapSubLayers(startNodeIndex);
      }
    }

    /** The swap at the end of `Update`: the finished edit layer becomes the
        stable layer and the other sub layer is set up at the current start. */
    method SwapSubLayers(startNodeIndex: int)
      requires Layout() && subLayerInitialized && 0 <= startNodeIndex < |adj|
      requires topLayer.Valid() && subLayers[0].Valid() && subLayers[1].Valid()
      requires 0 <= editSubLayerIndex < 2 && stableSubLayerIndex == 1 - editSubLayerIndex
      requires Edit().start != -1 && Edit().IsFinished()
      modifies this, subLayers[stableSubLayerIndex], subLayers[stableSubLayerIndex].costNodes
      ensures Valid() && Repr == old(Repr) && subLayerInitialized
      ensures topLayerIteration == old(topLayerIteration) && subLayerIteration == old(subLayerIteration)
      ensures editSubLayerIndex == old(stableSubLayerIndex) && stableSubLayerIndex == old(editSubLayerIndex)
      ensures Edit().start == startNodeIndex && Edit().steps == 0
      ensures Stable() == old(Edit()) && Stable().start == old(Edit().start) && Stable().steps == old(Edit().steps)
    {
      var oldEditLayerIndex := editSubLayerIndex;
      editSubLayerIndex := stableSubLayerIndex;
      stableSubLayerIndex := oldEditLayerIndex;
      var editLayer := subLayers[editSubLayerIndex];
      editLayer.Setup(startNodeIndex);
    }

    /** `GetCost(index)`: the first layer that has fixed the node answers,
        top before edit, and the stable layer otherwise. A fixed answer is
        the shortest-path distance from that layer's start; so is the
        stable answer once the stable layer has finished. Before the first
        `Update` every layer is blank and the answer is +∞. */
    function GetCost(index: int): (c: Cost)
      requires Valid() && 0 <= index < |adj|
      reads Repr
      ensures topLayer.costNodes[index].isFixed ==>
        c == topLayer.costNodes[index].cost && IsShortest(adj, topLayer.start, index, c)
      ensures !topLayer.costNodes[index].isFixed && Edit().costNodes[index].isFixed ==>
        c == Edit().costNodes[index].cost && IsShortest(adj, Edit().start, index, c)
      ensures !topLayer.costNodes[index].isFixed && !Edit().costNodes[index].isFixed ==>
        c == Stable().costNodes[index].cost &&
        (Stable().costNodes[index].isFixed || (subLayerInitialized && Stable().IsFinished()) ==> IsShortest(adj, Stable().start, index, c))
      ensures !subLayerInitialized ==> c == Inf
    {
      var topLayerNode := topLayer.GetNode(index);
      if topLayerNode.isFixed then topLayerNode.cost
      else
        var editLayerNode := subLayers[editSubLayerIndex].GetNode(index);
        if editLayerNode.isFixed then editLayerNode.cost
        else subLayers[stableSubLayerIndex].GetNode(index).cost
    }

    /** `GetConnectedNodes(node)`: the end of each of the node's connections,
        in stored order. */
    function GetConnectedNodes(node: int): (results: seq<int>)
      requires Valid() && 0 <= node < |adj|
      reads Repr
      ensures |results| == |adj[node]|
      ensures forall k :: 0 <= k < |results| ==> results[k] == adj[node][k].toNode && 0 <= results[k] < |adj|
    {
      seq(|adj[node]|, k requires 0 <= k < |adj[node]| => adj[node][k].toNode)
    }
  }

}