/** `CostLayer` of `DijkstraCostGraph` (and its copy in `CostMap`): the node
    records live in an array updated in place and the frontier is a list
    that the layer replaces as `List<int>` operations would change it. Each
    method is proved against the step functions of `LayerSpec`. */
module CostLayers {
  import opened Costs
  import opened Walks
  import opened LayerSpec
  import opened LayerInvariant
  import opened LayerCorrectness

  class CostLayer {
    /** The connection lists of the graph the layer was built for (`_graph`). */
    const adj: Adjacency
    /** `_costNodes`: one record per graph node. */
    const costNodes: array<CostNode>
    /** `_checkCostNodes`: the frontier, cheapest first. */
    var checkCostNodes: seq<int>
    /** The node of the last `Setup`, or -1 while the layer was never set up. */
    ghost var start: int
    /** The number of steps asked for since that `Setup`; once the frontier
        is empty, further steps change nothing. */
    ghost var steps: nat

    /** The layer's records and frontier as a value. */
    function State(): LayerState
      reads this, costNodes
    {
      LayerState(costNodes[..], checkCostNodes)
    }

    /** A layer that was never set up is blank; one that was holds what
        `Setup(start)` and `steps` unlimited steps make of it. */
    ghost predicate Valid()
      reads this, costNodes
    {
      WellFormed(adj) && costNodes.Length == |adj| &&
      (start == -1 ==> State() == BlankState(|adj|)) &&
      (start != -1 ==> 0 <= start < |adj| && State() == Run(adj, SetupState(|adj|, start), steps, Inf))
    }

    /** `new CostLayer(graph)`: one record per node, all reset, empty frontier. */
    constructor (adj: Adjacency)
      requires WellFormed(adj)
      ensures Valid() && this.adj == adj && start == -1
      ensures fresh(costNodes)
    {
      this.adj := adj;
      costNodes := new CostNode[|adj|](_ => CostNode(false, Fin(0.0), 0));
      checkCostNodes := [];
      start := -1;
      steps := 0;
      new;
      ResetNodes();
    }

    /** Every record back to not fixed, cost +∞, no predecessor. */
    method ResetNodes()
      modifies costNodes
      ensures costNodes[..] == AllUnvisited(costNodes.Length)
    {
      for i := 0 to costNodes.Length
        invariant forall j :: 0 <= j < i ==> costNodes[j] == Unvisited
      {
        costNodes[i] := costNodes[i].(isFixed := false);
        costNodes[i] := costNodes[i].(cost := Inf);
        costNodes[i] := costNodes[i].(previousNode := -1);
      }
    }

    /** Resets the layer and starts it at `startNodeIndex`, which is fixed
        at cost 0 and is the whole frontier. */
    method Setup(startNodeIndex: int)
      requires Valid() && 0 <= startNodeIndex < |adj|
      modifies this, costNodes
      ensures Valid() && start == startNodeIndex && steps == 0
      ensures State() == SetupState(|adj|, startNodeIndex)
    {
      ResetNodes();
      checkCostNodes := [];
      var costNode := costNodes[startNodeIndex];
      costNode := costNode.(isFixed := true);
      costNode := costNode.(cost := Fin(0.0));
      costNode := costNode.(previousNode := -1);
      costNodes[startNodeIndex] := costNode;
      checkCostNodes := checkCostNodes + [startNodeIndex];
      start := startNodeIndex;
      steps := 0;
    }

    /** `IsFinished`: the frontier is empty. */
    predicate IsFinished()
      reads this
    {
      checkCostNodes == []
    }

    /** Pops the cheapest frontier node, fixes it and relaxes its connections
        in list order. The source faults on an empty frontier. */
    method ForwardStep()
      requires Valid() && !IsFinished()
      modifies this, costNodes
      ensures Valid() && start == old(start) && steps == old(steps) + 1
      ensures State() == Step(adj, old(State()))
    {
      ghost var before := State();
      var index := PopCheapest();
      ghost var popped := State();
      for i := 0 to |adj[index]|
        invariant start == old(start) && steps == old(steps)
        invariant State() == RelaxPrefix(adj, popped, index, i)
      {
        RelaxConnection(index, i);
      }
      CutStepEffect(adj, before, Inf);
      RunNext(adj, SetupState(|adj|, start), steps, Inf);
      steps := steps + 1;
    }

    /** The start of `ForwardStep`: the head of the frontier is taken off
        and fixed. */
    method PopCheapest() returns (index: int)
      requires checkCostNodes != [] && 0 <= checkCostNodes[0] < costNodes.Length
      modifies this`checkCostNodes, costNodes
      ensures index == old(checkCostNodes[0])
      ensures State() == Pop(old(State()))
    {
      index := checkCostNodes[0];
      checkCostNodes := checkCostNodes[1..];
      costNodes[index] := costNodes[index].(isFixed := true);
    }

    /** One pass of the relaxation loop of `ForwardStep`: connection `i` of
        the popped node `index` is skipped when it ends at a fixed node, and
        otherwise lowers that node's cost, sets its previous node and moves
        it in the frontier when it is an improvement. */
    method RelaxConnection(index: int, i: int)
      requires Shaped(adj, State()) && 0 <= index < |adj| && 0 <= i < |adj[index]|
      modifies this`checkCostNodes, costNodes
      ensures State() == RelaxOne(adj, old(State()), index, i)
    {
      ghost var prev := State();
      var connection := adj[index][i];
      var nextNode := costNodes[connection.toNode];
      if nextNode.isFixed {
        return;
      }
      var newCost := Add(costNodes[index].cost, connection.length);
      if Lt(newCost, nextNode.cost) {
        costNodes[connection.toNode] := nextNode.(cost := newCost, previousNode := index);
        assert costNodes[..] == prev.nodes[connection.toNode := nextNode.(cost := newCost, previousNode := index)];
        RemoveFirstWithin(checkCostNodes, connection.toNode, |adj|);
        checkCostNodes := RemoveFirst(checkCostNodes, connection.toNode);
        checkCostNodes := InsertNodeSortedByDistance(checkCostNodes, connection.toNode, costNodes);
      }
    }

    /** The stepping loop of each block of `Update`: up to `iteration` steps,
        stopping as soon as the frontier runs empty. */
    method ForwardSteps(iteration: int)
      requires Valid() && start != -1 && !IsFinished()
      modifies this, costNodes
      ensures Valid() && start == old(start)
      ensures State() == Run(adj, SetupState(|adj|, start), old(steps) + Max0(iteration), Inf)
      ensures steps == old(steps) + Max0(iteration)
    {
      ghost var k0 := steps;
      var i := 0;
      while i < iteration
        invariant 0 <= i <= Max0(iteration)
        invariant Valid() && start == old(start) && steps == k0 + i && !IsFinished()
        modifies this, costNodes
      {
        ForwardStep();
        if IsFinished() {
          RunStaysFinished(adj, SetupState(|adj|, start), k0 + i + 1, k0 + iteration, Inf);
          steps := k0 + iteration;
          break;
        }
        i := i + 1;
      }
    }

    /** Puts `id` in front of the first entry of `ids` whose cost is strictly
        larger than `id`'s, or at the end: the list stays sorted and equal
        costs keep their arrival order. */
    static method InsertNodeSortedByDistance(ids: seq<int>, id: int, nodes: array<CostNode>) returns (r: seq<int>)
      requires Within(ids, nodes.Length) && 0 <= id < nodes.Length
      ensures r == InsertSorted(ids, id, nodes[..])
    {
      var distance := nodes[id].cost;
      for i := 0 to |ids|
        invariant forall k :: 0 <= k < i ==> !Lt(distance, nodes[ids[k]].cost)
      {
        if Lt(distance, nodes[ids[i]].cost) {
          InsertPositionIs(ids, id, nodes[..], i);
          return ids[..i] + [id] + ids[i..];
        }
      }
      InsertPositionIs(ids, id, nodes[..], |ids|);
      return ids + [id];
    }

    /** `GetNode(index)`: a fixed record, and every record of a finished
        layer, holds the shortest-path distance from the start of the last
        `Setup`. */
    function GetNode(index: int): (n: CostNode)
      requires Valid() && 0 <= index < |adj|
      reads this, costNodes
      ensures n == costNodes[index]
      ensures n.isFixed ==> start != -1 && IsShortest(adj, start, index, n.cost)
      ensures start != -1 && IsFinished() ==> IsShortest(adj, start, index, n.cost)
    {
      LayerNodeIsShortest(adj, start, steps, State(), index);
      costNodes[index]
    }
  }

  /** After `Setup(s)` and any number of unlimited steps, a fixed node, and
      every node once the frontier is empty, holds its shortest-path
      distance from `s`; a layer never set up has no fixed node. */
  lemma LayerNodeIsShortest(adj: Adjacency, s: int, k: nat, st: LayerState, v: int)
    requires WellFormed(adj) && 0 <= v < |adj|
    requires s == -1 ==> st == BlankState(|adj|)
    requires s != -1 ==> 0 <= s < |adj| && st == Run(adj, SetupState(|adj|, s), k, Inf)
    ensures st.nodes[v].isFixed ==> s != -1 && IsShortest(adj, s, v, st.nodes[v].cost)
    ensures s != -1 && st.frontier == [] ==> IsShortest(adj, s, v, st.nodes[v].cost)
  {
    if s != -1 {
      SetupInv(adj, s, Inf);
      RunInv(adj, s, SetupState(|adj|, s), k, Inf);
      if st.nodes[v].isFixed {
        FixedIsShortest(adj, s, st, Inf, v);
      } else if st.frontier == [] {
        FinishedIsShortest(adj, s, st, v);
      }
    }
  }
}
