/** The state of one steppable Dijkstra layer and, as functions, what
    `Setup`, `ForwardStep` and the bounded step loops of the orchestrators do
    to it. `CostLayer` (cost graph and cost map) and `DistanceMap.Layer` are
    both proved against these functions. */
module LayerSpec {
  import opened Costs
  import opened Walks

  /** Per-node record of a layer (`CostNode`, `DistanceMap.Node`). */
  datatype CostNode = CostNode(isFixed: bool, cost: Cost, previousNode: int)

  /** A layer's node array and its frontier list (`_checkCostNodes`, `_checkNodes`). */
  datatype LayerState = LayerState(nodes: seq<CostNode>, frontier: seq<int>)

  /** What `ResetNodes` writes into every node. */
  const Unvisited := CostNode(false, Inf, -1)

  /** The start node as `Setup` leaves it: fixed at cost 0 before it is ever popped. */
  const StartNode := CostNode(true, Fin(0.0), -1)

  /** A node array in which every node has just been reset. */
  function AllUnvisited(n: nat): (r: seq<CostNode>)
    ensures |r| == n && forall v :: 0 <= v < n ==> r[v] == Unvisited
  {
    seq(n, _ => Unvisited)
  }

  /** A layer that was constructed and never set up: reset nodes, empty frontier. */
  function BlankState(n: nat): LayerState {
    LayerState(AllUnvisited(n), [])
  }

  /** The state `Setup(start)` leaves behind. */
  function SetupState(n: nat, start: int): LayerState
    requires 0 <= start < n
  {
    LayerState(AllUnvisited(n)[start := StartNode], [start])
  }

  /** The node array has one record per graph node and the frontier names graph nodes. */
  predicate Shaped(adj: Adjacency, st: LayerState) {
    WellFormed(adj) && |st.nodes| == |adj| && Within(st.frontier, |adj|)
  }

  /** Every entry of `s` is a node index below `n`. */
  predicate Within(s: seq<int>, n: int) {
    forall i :: 0 <= i < |s| ==> 0 <= s[i] < n
  }

  ghost predicate Distinct(s: seq<int>) {
    forall i, j :: 0 <= i < j < |s| ==> s[i] != s[j]
  }

  /** Non-decreasing cost along the list. */
  ghost predicate SortedByCost(f: seq<int>, nodes: seq<CostNode>)
    requires Within(f, |nodes|)
  {
    forall i, j :: 0 <= i < j < |f| ==> Le(nodes[f[i]].cost, nodes[f[j]].cost)
  }

  /** The index of the first occurrence of `x` in `s`, or `|s|` when there is none. */
  function IndexOf(s: seq<int>, x: int): (p: nat)
    ensures p <= |s| && (p < |s| ==> s[p] == x)
    ensures forall k :: 0 <= k < p ==> s[k] != x
    decreases |s|
  {
    if s == [] || s[0] == x then 0 else 1 + IndexOf(s[1..], x)
  }

  /** `List<int>.Remove`: drops the first occurrence of `x`, if there is one. */
  function RemoveFirst(s: seq<int>, x: int): seq<int> {
    var p := IndexOf(s, x);
    if p == |s| then s else s[..p] + s[p + 1..]
  }

  /** Entry by entry: what stays in front of the removed occurrence keeps its
      index, what follows moves up by one. */
  lemma RemoveFirstIndex(s: seq<int>, x: int)
    ensures IndexOf(s, x) == |s| ==> RemoveFirst(s, x) == s
    ensures IndexOf(s, x) < |s| ==> |RemoveFirst(s, x)| == |s| - 1
    ensures forall j :: 0 <= j < |RemoveFirst(s, x)| ==>
      RemoveFirst(s, x)[j] == s[if j < IndexOf(s, x) then j else j + 1]
  {
    var p := IndexOf(s, x);
    if p < |s| {
      var r := s[..p] + s[p + 1..];
      assert |r| == |s| - 1;
      forall j | 0 <= j < |r|
        ensures r[j] == s[if j < p then j else j + 1]
      {
      }
    }
  }

  /** Removing takes away exactly one occurrence of `x`, when there is one. */
  lemma RemoveFirstMultiset(s: seq<int>, x: int)
    ensures multiset(RemoveFirst(s, x)) == multiset(s) - multiset{x}
  {
    var p := IndexOf(s, x);
    if p < |s| {
      assert s == s[..p] + [x] + s[p + 1..];
    } else {
      assert x !in s;
    }
  }

  /** Removing an entry keeps the rest within range. */
  lemma RemoveFirstWithin(s: seq<int>, x: int, n: int)
    requires Within(s, n)
    ensures Within(RemoveFirst(s, x), n)
  {
    RemoveFirstIndex(s, x);
  }

  /** Where `InsertNodeSortedByDistance` puts `id`: in front of the first entry
      whose cost is strictly larger than `id`'s, or at the end. */
  function InsertPosition(ids: seq<int>, id: int, nodes: seq<CostNode>): (p: nat)
    requires Within(ids, |nodes|)
    requires 0 <= id < |nodes|
    ensures p <= |ids|
    ensures forall k :: 0 <= k < p ==> !Lt(nodes[id].cost, nodes[ids[k]].cost)
    ensures p < |ids| ==> Lt(nodes[id].cost, nodes[ids[p]].cost)
    decreases |ids|
  {
    if ids == [] || Lt(nodes[id].cost, nodes[ids[0]].cost) then 0
    else 1 + InsertPosition(ids[1..], id, nodes)
  }

  /** The insert position is the only one with nothing cheaper-than-`id`
      before it and a strictly dearer entry (or the end) at it. */
  lemma InsertPositionIs(ids: seq<int>, id: int, nodes: seq<CostNode>, p: int)
    requires Within(ids, |nodes|) && 0 <= id < |nodes| && 0 <= p <= |ids|
    requires forall k :: 0 <= k < p ==> !Lt(nodes[id].cost, nodes[ids[k]].cost)
    requires p < |ids| ==> Lt(nodes[id].cost, nodes[ids[p]].cost)
    ensures InsertPosition(ids, id, nodes) == p
  {
  }

  /** The frontier after `InsertNodeSortedByDistance(ids, id, nodes)`. */
  function InsertSorted(ids: seq<int>, id: int, nodes: seq<CostNode>): (r: seq<int>)
    requires Within(ids, |nodes|)
    requires 0 <= id < |nodes|
    ensures Within(r, |nodes|)
  {
    var p := InsertPosition(ids, id, nodes);
    ids[..p] + [id] + ids[p..]
  }

  /** The first half of `ForwardStep`: take the frontier's head off and mark it fixed. */
  function Pop(st: LayerState): LayerState
    requires st.frontier != [] && 0 <= st.frontier[0] < |st.nodes|
  {
    var u := st.frontier[0];
    LayerState(st.nodes[u := st.nodes[u].(isFixed := true)], st.frontier[1..])
  }

  /** One iteration of `ForwardStep`'s loop: relax connection `k` of node `u`.
      A fixed end is skipped; a strictly cheaper route updates cost and
      predecessor and moves the end to its sorted place in the frontier. */
  function RelaxOne(adj: Adjacency, st: LayerState, u: int, k: int): (r: LayerState)
    requires Shaped(adj, st) && 0 <= u < |adj| && 0 <= k < |adj[u]|
    ensures Shaped(adj, r)
  {
    var c := adj[u][k];
    var v := c.toNode;
    var newCost := Add(st.nodes[u].cost, c.length);
    if st.nodes[v].isFixed || !Lt(newCost, st.nodes[v].cost) then st
    else
      var nodes := st.nodes[v := st.nodes[v].(cost := newCost, previousNode := u)];
      RemoveFirstWithin(st.frontier, v, |adj|);
      var f := InsertSorted(RemoveFirst(st.frontier, v), v, nodes);
      LayerState(nodes, f)
  }

  /** The state after relaxing the first `k` connections of `u`, in list order. */
  function RelaxPrefix(adj: Adjacency, st: LayerState, u: int, k: int): (r: LayerState)
    requires Shaped(adj, st) && 0 <= u < |adj| && 0 <= k <= |adj[u]|
    ensures Shaped(adj, r)
    decreases k, 1
  {
    if k == 0 then st else RelaxLast(adj, st, u, k)
  }

  /** The last of the first `k` relaxations: connection `k - 1` relaxed on
      top of the ones before it. */
  function RelaxLast(adj: Adjacency, st: LayerState, u: int, k: int): (r: LayerState)
    requires Shaped(adj, st) && 0 <= u < |adj| && 0 < k <= |adj[u]|
    ensures Shaped(adj, r)
    decreases k, 0
  {
    RelaxOne(adj, RelaxPrefix(adj, st, u, k - 1), u, k - 1)
  }

  /** Relaxing one more connection is one more `RelaxOne`. */
  lemma RelaxPrefixNext(adj: Adjacency, st: LayerState, u: int, k: int)
    requires Shaped(adj, st) && 0 <= u < |adj| && 0 <= k < |adj[u]|
    ensures RelaxPrefix(adj, st, u, k + 1) == RelaxOne(adj, RelaxPrefix(adj, st, u, k), u, k)
  {
  }

  /** `CostLayer.ForwardStep`: pop the head and relax all of its connections. */
  function Step(adj: Adjacency, st: LayerState): (r: LayerState)
    requires Shaped(adj, st) && st.frontier != []
    ensures Shaped(adj, r)
  {
    var u := st.frontier[0];
    RelaxPrefix(adj, Pop(st), u, |adj[u]|)
  }

  /** `DistanceMap.Layer.ForwardStep`: as `Step`, except that a head whose
      cost exceeds `limit` (`maxCalcDistance`) is popped without relaxing. */
  function CutStep(adj: Adjacency, st: LayerState, limit: Cost): (r: LayerState)
    requires Shaped(adj, st) && st.frontier != []
    ensures Shaped(adj, r)
  {
    var u := st.frontier[0];
    if Lt(limit, st.nodes[u].cost) then Pop(st) else Step(adj, st)
  }

  /** The state after at most `k` steps that stop as soon as the frontier is
      empty. This is both `for (i = 0; i < k; i++) { ForwardStep(); if
      (IsFinished()) break; }` started on a non-empty frontier and `while
      (!IsFinished() && itr < k) { itr++; ForwardStep(); }`. */
  function Run(adj: Adjacency, st: LayerState, k: int, limit: Cost): (r: LayerState)
    requires Shaped(adj, st)
    ensures Shaped(adj, r)
    decreases k, 1
  {
    if k <= 0 then st else Advance(adj, st, k, limit)
  }

  /** Iteration `k` of such a loop: nothing once the frontier is empty,
      otherwise one step on top of the first `k - 1` iterations. */
  function Advance(adj: Adjacency, st: LayerState, k: int, limit: Cost): (r: LayerState)
    requires Shaped(adj, st) && k > 0
    ensures Shaped(adj, r)
    decreases k, 0
  {
    var prev := Run(adj, st, k - 1, limit);
    if prev.frontier == [] then prev else CutStep(adj, prev, limit)
  }

  /** On an unfinished state, one more iteration of a bounded loop is one more step. */
  lemma RunNext(adj: Adjacency, st: LayerState, k: int, limit: Cost)
    requires Shaped(adj, st) && k >= 0 && Run(adj, st, k, limit).frontier != []
    ensures Run(adj, st, k + 1, limit) == CutStep(adj, Run(adj, st, k, limit), limit)
  {
  }

  /** `c` is what `u`'s cost `cu` plus the length of one of `u`'s connections to `v` gives. */
  ghost predicate ComesFrom(adj: Adjacency, u: int, cu: Cost, v: int, c: Cost)
    requires 0 <= u < |adj|
  {
    exists j :: 0 <= j < |adj[u]| && adj[u][j].toNode == v && c == Add(cu, adj[u][j].length)
  }

  /** Removing an entry from a distinct cost-sorted list keeps it distinct and
      sorted, and the entry is gone. */
  lemma RemoveFirstKeepsOrder(s: seq<int>, x: int, nodes: seq<CostNode>)
    requires Within(s, |nodes|) && Distinct(s) && SortedByCost(s, nodes)
    ensures Within(RemoveFirst(s, x), |nodes|)
    ensures Distinct(RemoveFirst(s, x)) && SortedByCost(RemoveFirst(s, x), nodes)
    ensures x !in RemoveFirst(s, x)
  {
    RemoveFirstIndex(s, x);
    var p := IndexOf(s, x);
    var r := RemoveFirst(s, x);
    if p < |s| {
      forall i, j | 0 <= i < j < |r|
        ensures r[i] != r[j] && Le(nodes[r[i]].cost, nodes[r[j]].cost)
      {
        var i' := if i < p then i else i + 1;
        var j' := if j < p then j else j + 1;
        assert r[i] == s[i'] && r[j] == s[j'] && i' < j';
      }
      forall j | 0 <= j < |r|
        ensures r[j] != x
      {
        var j' := if j < p then j else j + 1;
        assert r[j] == s[j'] && j' != p;
      }
    }
  }

  /** Removing `x` keeps every other entry. */
  lemma RemoveFirstMembers(s: seq<int>, x: int, y: int)
    requires y != x
    ensures y in RemoveFirst(s, x) <==> y in s
  {
    RemoveFirstIndex(s, x);
    var p := IndexOf(s, x);
    if y in s {
      var m :| 0 <= m < |s| && s[m] == y;
      if p < |s| && m > p {
        assert RemoveFirst(s, x)[m - 1] == y;
      } else {
        assert RemoveFirst(s, x)[m] == y;
      }
    }
  }

  /** Inserting adds exactly one occurrence of `id`. */
  lemma InsertSortedMultiset(ids: seq<int>, id: int, nodes: seq<CostNode>)
    requires Within(ids, |nodes|) && 0 <= id < |nodes|
    ensures multiset(InsertSorted(ids, id, nodes)) == multiset(ids) + multiset{id}
  {
    var p := InsertPosition(ids, id, nodes);
    assert ids == ids[..p] + ids[p..];
  }

  /** The inserted list holds `id` and what it held before, and nothing else. */
  lemma InsertSortedMembers(ids: seq<int>, id: int, nodes: seq<CostNode>, y: int)
    requires Within(ids, |nodes|) && 0 <= id < |nodes|
    ensures y in InsertSorted(ids, id, nodes) <==> y in ids || y == id
  {
    var p := InsertPosition(ids, id, nodes);
    assert ids == ids[..p] + ids[p..];
  }

  /** Inserting keeps a cost-sorted list sorted, and a distinct list distinct
      when the inserted node was not in it. */
  lemma InsertSortedKeepsOrder(ids: seq<int>, id: int, nodes: seq<CostNode>)
    requires Within(ids, |nodes|) && 0 <= id < |nodes|
    requires SortedByCost(ids, nodes)
    ensures SortedByCost(InsertSorted(ids, id, nodes), nodes)
    ensures Distinct(ids) && id !in ids ==> Distinct(InsertSorted(ids, id, nodes))
  {
    var p := InsertPosition(ids, id, nodes);
    var r := InsertSorted(ids, id, nodes);
    assert |r| == |ids| + 1;
    assert forall i :: 0 <= i < p ==> r[i] == ids[i];
    assert r[p] == id;
    assert forall i :: p < i < |r| ==> r[i] == ids[i - 1];
    forall i | p <= i < |ids|
      ensures Le(nodes[id].cost, nodes[ids[i]].cost)
    {
      assert Le(nodes[ids[p]].cost, nodes[ids[i]].cost) || i == p;
    }
  }

  /** Relaxing the connections of a fixed node `u` leaves fixedness alone,
      only lowers costs, and a node it changes now holds `u` as predecessor
      and a cost that `u` and one of its connections account for. */
  lemma {:induction false} RelaxPrefixEffect(adj: Adjacency, st: LayerState, u: int, k: int)
    requires Shaped(adj, st) && 0 <= u < |adj| && 0 <= k <= |adj[u]| && st.nodes[u].isFixed
    ensures RelaxPrefix(adj, st, u, k).nodes[u] == st.nodes[u]
    ensures forall v :: 0 <= v < |adj| ==>
      var r := RelaxPrefix(adj, st, u, k).nodes[v];
      r.isFixed == st.nodes[v].isFixed && Le(r.cost, st.nodes[v].cost) &&
      (r != st.nodes[v] ==> !st.nodes[v].isFixed && r.previousNode == u && ComesFrom(adj, u, st.nodes[u].cost, v, r.cost))
    decreases k
  {
    if k > 0 {
      RelaxPrefixEffect(adj, st, u, k - 1);
      var mid := RelaxPrefix(adj, st, u, k - 1);
      var r := RelaxOne(adj, mid, u, k - 1);
      forall v | 0 <= v < |adj|
        ensures r.nodes[v].isFixed == st.nodes[v].isFixed && Le(r.nodes[v].cost, st.nodes[v].cost)
        ensures r.nodes[v] != st.nodes[v] ==> !st.nodes[v].isFixed && r.nodes[v].previousNode == u && ComesFrom(adj, u, st.nodes[u].cost, v, r.nodes[v].cost)
      {
        if r.nodes[v] != mid.nodes[v] {
          assert adj[u][k - 1].toNode == v;
        }
      }
    }
  }

  /** What one `ForwardStep` does to the nodes: the head becomes fixed and
      keeps its cost; every other node keeps its fixedness, never gets
      dearer, and if it changed it was not fixed and now comes from the head.
      In particular a fixed node never changes again. */
  lemma StepEffect(adj: Adjacency, st: LayerState)
    requires Shaped(adj, st) && st.frontier != []
    ensures Step(adj, st).nodes[st.frontier[0]] == st.nodes[st.frontier[0]].(isFixed := true)
    ensures forall v :: 0 <= v < |adj| && v != st.frontier[0] ==>
      var r := Step(adj, st).nodes[v];
      r.isFixed == st.nodes[v].isFixed && Le(r.cost, st.nodes[v].cost) &&
      (r != st.nodes[v] ==>
         !st.nodes[v].isFixed && r.previousNode == st.frontier[0] &&
         ComesFrom(adj, st.frontier[0], st.nodes[st.frontier[0]].cost, v, r.cost))
  {
    var u := st.frontier[0];
    RelaxPrefixEffect(adj, Pop(st), u, |adj[u]|);
  }

  /** A cut-off step has the same effect as a full one on the nodes it
      touches: with limit +∞ it is one. */
  lemma CutStepEffect(adj: Adjacency, st: LayerState, limit: Cost)
    requires Shaped(adj, st) && st.frontier != []
    ensures CutStep(adj, st, limit).nodes[st.frontier[0]] == st.nodes[st.frontier[0]].(isFixed := true)
    ensures forall v :: 0 <= v < |adj| && v != st.frontier[0] ==>
      var r := CutStep(adj, st, limit).nodes[v];
      r.isFixed == st.nodes[v].isFixed && Le(r.cost, st.nodes[v].cost) &&
      (r != st.nodes[v] ==>
         !st.nodes[v].isFixed && r.previousNode == st.frontier[0] &&
         ComesFrom(adj, st.frontier[0], st.nodes[st.frontier[0]].cost, v, r.cost))
    ensures limit == Inf ==> CutStep(adj, st, limit) == Step(adj, st)
  {
    StepEffect(adj, st);
  }

  /** A fixed node keeps its record through any number of bounded steps. */
  lemma {:induction false} RunKeepsFixed(adj: Adjacency, st: LayerState, k: int, limit: Cost, v: int)
    requires Shaped(adj, st) && 0 <= v < |adj| && st.nodes[v].isFixed
    ensures Run(adj, st, k, limit).nodes[v] == st.nodes[v]
    decreases k
  {
    if k > 0 {
      RunKeepsFixed(adj, st, k - 1, limit, v);
      var prev := Run(adj, st, k - 1, limit);
      if prev.frontier != [] {
        CutStepEffect(adj, prev, limit);
      }
    }
  }

  /** Once finished, further iterations of a bounded loop change nothing. */
  lemma {:induction false} RunStaysFinished(adj: Adjacency, st: LayerState, j: int, k: int, limit: Cost)
    requires Shaped(adj, st) && j <= k && Run(adj, st, j, limit).frontier == []
    ensures Run(adj, st, k, limit) == Run(adj, st, j, limit)
    decreases k - j
  {
    if j < k {
      RunStaysFinished(adj, st, j, k - 1, limit);
      if k <= 0 {
        assert Run(adj, st, j, limit) == st;
      }
    }
  }

  /** A loop bound as the number of iterations it runs: negative bounds run none. */
  function Max0(n: int): nat {
    if n < 0 then 0 else n
  }
}
