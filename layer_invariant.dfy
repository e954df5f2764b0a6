/** The invariant a layer keeps between `ForwardStep`s, for a start node `s`
    and a relaxation limit (`maxCalcDistance`; +∞ for `CostLayer`), and the
    lemmas that `Setup` establishes it and every step keeps it. */
module LayerInvariant {
  import opened Costs
  import opened Walks
  import opened LayerSpec

  /** A node is settled once it is fixed and has left the frontier. `Setup`
      fixes the start while it is still in the frontier, so fixedness alone
      is not enough. */
  ghost predicate Settled(st: LayerState, v: int)
    requires 0 <= v < |st.nodes|
  {
    st.nodes[v].isFixed && v !in st.frontier
  }

  /** The cost at the head of the frontier, or +∞ when it is empty. */
  function FrontierMin(st: LayerState): Cost
    requires Within(st.frontier, |st.nodes|)
  {
    if st.frontier == [] then Inf else st.nodes[st.frontier[0]].cost
  }

  ghost predicate SourceOk(adj: Adjacency, s: int, st: LayerState) {
    0 <= s < |st.nodes| && st.nodes[s] == StartNode
  }

  ghost predicate FrontierOk(st: LayerState)
    requires Within(st.frontier, |st.nodes|)
  {
    Distinct(st.frontier) && SortedByCost(st.frontier, st.nodes) &&
    forall i :: 0 <= i < |st.frontier| ==> st.nodes[st.frontier[i]].cost.Fin?
  }

  /** Only the start can be fixed while in the frontier, and then it is alone there. */
  ghost predicate Initial(s: int, st: LayerState)
    requires Within(st.frontier, |st.nodes|)
  {
    (forall i :: 0 <= i < |st.frontier| && st.nodes[st.frontier[i]].isFixed ==> st.frontier[i] == s) &&
    (s in st.frontier ==> st.frontier == [s] && forall v :: 0 <= v < |st.nodes| && v != s ==> st.nodes[v] == Unvisited)
  }

  /** A node with a finite cost is either fixed or waiting in the frontier,
      and a fixed node has a finite cost. */
  ghost predicate Discovered(st: LayerState) {
    forall v :: 0 <= v < |st.nodes| ==>
      (!st.nodes[v].isFixed && st.nodes[v].cost.Fin? ==> v in st.frontier) &&
      (st.nodes[v].isFixed ==> st.nodes[v].cost.Fin?)
  }

  /** Every finite cost is the length of some walk from the start. */
  ghost predicate Sound(adj: Adjacency, s: int, st: LayerState)
    requires |st.nodes| == |adj|
  {
    forall v :: 0 <= v < |st.nodes| && st.nodes[v].cost.Fin? ==> Reached(adj, s, v, st.nodes[v].cost.value)
  }

  /** `previousNode` of a reached node other than the start is a settled node
      with a connection that accounts for the cost. */
  ghost predicate PrevLink(adj: Adjacency, s: int, st: LayerState, v: int)
    requires |st.nodes| == |adj| && 0 <= v < |adj|
  {
    var p := st.nodes[v].previousNode;
    if v == s || st.nodes[v].cost.Inf? then p == -1
    else 0 <= p < |adj| && Settled(st, p) && ComesFrom(adj, p, st.nodes[p].cost, v, st.nodes[v].cost)
  }

  ghost predicate PrevOk(adj: Adjacency, s: int, st: LayerState)
    requires |st.nodes| == |adj|
  {
    forall v :: 0 <= v < |adj| ==> PrevLink(adj, s, st, v)
  }

  /** Connection `k` of `u` offers its end nothing cheaper than it holds. */
  ghost predicate EdgeRelaxed(adj: Adjacency, st: LayerState, u: int, k: int)
    requires Shaped(adj, st) && 0 <= u < |adj| && 0 <= k < |adj[u]|
  {
    Le(st.nodes[adj[u][k].toNode].cost, Add(st.nodes[u].cost, adj[u][k].length))
  }

  /** Every settled node within the limit has had all its connections relaxed. */
  ghost predicate Relaxed(adj: Adjacency, st: LayerState, limit: Cost)
    requires Shaped(adj, st)
  {
    forall u, k :: 0 <= u < |adj| && Settled(st, u) && Le(st.nodes[u].cost, limit) && 0 <= k < |adj[u]| ==>
      EdgeRelaxed(adj, st, u, k)
  }

  /** No settled node costs more than the head of the frontier. */
  ghost predicate Ordered(st: LayerState)
    requires Within(st.frontier, |st.nodes|)
  {
    forall u :: 0 <= u < |st.nodes| && Settled(st, u) ==> Le(st.nodes[u].cost, FrontierMin(st))
  }

  /** The layer invariant for start `s` and relaxation limit `limit`. */
  ghost predicate Inv(adj: Adjacency, s: int, st: LayerState, limit: Cost) {
    Shaped(adj, st) && SourceOk(adj, s, st) && FrontierOk(st) && Initial(s, st) &&
    Discovered(st) && Sound(adj, s, st) && PrevOk(adj, s, st) && Relaxed(adj, st, limit) && Ordered(st)
  }

  /** No frontier entry is fixed (the start has left the frontier). */
  ghost predicate FrontierUnfixed(st: LayerState)
    requires Within(st.frontier, |st.nodes|)
  {
    forall j :: 0 <= j < |st.frontier| ==> !st.nodes[st.frontier[j]].isFixed
  }

  /** Every settled node other than `u` within the limit has had its connections relaxed. */
  ghost predicate RelaxedExcept(adj: Adjacency, st: LayerState, limit: Cost, u: int)
    requires Shaped(adj, st)
  {
    forall x, k :: 0 <= x < |adj| && x != u && Settled(st, x) && Le(st.nodes[x].cost, limit) && 0 <= k < |adj[x]| ==>
      EdgeRelaxed(adj, st, x, k)
  }

  /** The first `i` connections of `u` have been relaxed. */
  ghost predicate HeadRelaxed(adj: Adjacency, st: LayerState, u: int, i: int)
    requires Shaped(adj, st) && 0 <= u < |adj| && 0 <= i <= |adj[u]|
  {
    forall k :: 0 <= k < i ==> EdgeRelaxed(adj, st, u, k)
  }

  /** `u` costs no less than any settled node and no more than any frontier entry. */
  ghost predicate HeadBetween(st: LayerState, u: int)
    requires Within(st.frontier, |st.nodes|) && 0 <= u < |st.nodes|
  {
    (forall x :: 0 <= x < |st.nodes| && Settled(st, x) ==> Le(st.nodes[x].cost, st.nodes[u].cost)) &&
    (forall j :: 0 <= j < |st.frontier| ==> Le(st.nodes[u].cost, st.nodes[st.frontier[j]].cost))
  }

  /** The invariant in the middle of `ForwardStep`: the head `u` has been
      popped and its first `i` connections relaxed. */
  ghost predicate MidInv(adj: Adjacency, s: int, st: LayerState, limit: Cost, u: int, i: int) {
    Shaped(adj, st) && SourceOk(adj, s, st) && FrontierOk(st) && FrontierUnfixed(st) &&
    Discovered(st) && Sound(adj, s, st) && PrevOk(adj, s, st) &&
    0 <= u < |adj| && Settled(st, u) && 0 <= i <= |adj[u]| &&
    RelaxedExcept(adj, st, limit, u) && HeadRelaxed(adj, st, u, i) && HeadBetween(st, u)
  }

  /** The head of a sorted frontier is its cheapest entry. */
  lemma FrontierMinIsMin(st: LayerState, v: int)
    requires Within(st.frontier, |st.nodes|) && SortedByCost(st.frontier, st.nodes)
    requires v in st.frontier
    ensures Le(FrontierMin(st), st.nodes[v].cost)
  {
    var j :| 0 <= j < |st.frontier| && st.frontier[j] == v;
    assert j == 0 || Le(st.nodes[st.frontier[0]].cost, st.nodes[st.frontier[j]].cost);
  }

  /** `Setup(start)` establishes the invariant, whatever the limit. */
  lemma SetupInv(adj: Adjacency, s: int, limit: Cost)
    requires WellFormed(adj) && 0 <= s < |adj|
    ensures Inv(adj, s, SetupState(|adj|, s), limit)
  {
    var st := SetupState(|adj|, s);
    assert IsWalk(adj, s, [], s) && Weight(adj, []) == 0.0;
    forall v | 0 <= v < |adj|
      ensures PrevLink(adj, s, st, v)
    {
    }
  }

  /** Popping the head settles it and nothing else, and leaves no fixed node
      in the frontier. */
  lemma PopSettles(adj: Adjacency, s: int, st: LayerState, limit: Cost)
    requires Inv(adj, s, st, limit) && st.frontier != []
    ensures var r := Pop(st);
      Shaped(adj, r) && Settled(r, st.frontier[0]) && !Settled(st, st.frontier[0]) &&
      FrontierOk(r) && FrontierUnfixed(r) &&
      (forall j :: 0 <= j < |r.frontier| ==> Le(r.nodes[st.frontier[0]].cost, r.nodes[r.frontier[j]].cost)) &&
      forall x :: 0 <= x < |adj| && x != st.frontier[0] ==> (Settled(r, x) <==> Settled(st, x))
  {
    var u := st.frontier[0];
    var r := Pop(st);
    forall j | 0 <= j < |r.frontier|
      ensures r.frontier[j] == st.frontier[j + 1] && r.frontier[j] != u && !r.nodes[r.frontier[j]].isFixed
      ensures Le(r.nodes[u].cost, r.nodes[r.frontier[j]].cost)
    {
    }
    forall x | 0 <= x < |adj| && x != u
      ensures Settled(r, x) <==> Settled(st, x)
    {
      assert x in st.frontier <==> x in r.frontier;
    }
  }

  /** Popping the head keeps everything but the relaxation of the head's
      connections, which is still to come. */
  lemma PopInv(adj: Adjacency, s: int, st: LayerState, limit: Cost)
    requires Inv(adj, s, st, limit) && st.frontier != []
    ensures MidInv(adj, s, Pop(st), limit, st.frontier[0], 0)
  {
    var u := st.frontier[0];
    var r := Pop(st);
    PopSettles(adj, s, st, limit);
    assert RelaxedExcept(adj, r, limit, u) by {
      forall x, k | 0 <= x < |adj| && x != u && Settled(r, x) && Le(r.nodes[x].cost, limit) && 0 <= k < |adj[x]|
        ensures EdgeRelaxed(adj, r, x, k)
      {
        assert EdgeRelaxed(adj, st, x, k);
      }
    }
    assert PrevOk(adj, s, r) by {
      forall v | 0 <= v < |adj|
        ensures PrevLink(adj, s, r, v)
      {
        assert PrevLink(adj, s, st, v);
      }
    }
    assert HeadBetween(r, u) by {
      forall x | 0 <= x < |adj| && Settled(r, x)
        ensures Le(r.nodes[x].cost, r.nodes[u].cost)
      {
      }
    }
    assert Discovered(r) by {
      forall v | 0 <= v < |adj| && !r.nodes[v].isFixed && r.nodes[v].cost.Fin?
        ensures v in r.frontier
      {
        assert v in st.frontier && v != u;
      }
    }
  }

  /** Relaxing the next connection of the popped head keeps the mid-step invariant. */
  lemma RelaxOneInv(adj: Adjacency, s: int, st: LayerState, limit: Cost, u: int, i: int)
    requires MidInv(adj, s, st, limit, u, i) && i < |adj[u]|
    ensures MidInv(adj, s, RelaxOne(adj, st, u, i), limit, u, i + 1)
  {
    var v := adj[u][i].toNode;
    var newCost := Add(st.nodes[u].cost, adj[u][i].length);
    if st.nodes[v].isFixed || !Lt(newCost, st.nodes[v].cost) {
      if st.nodes[v].isFixed {
        assert v !in st.frontier;
        assert Le(st.nodes[v].cost, st.nodes[u].cost);
      }
    } else {
      RelaxUpdateInv(adj, s, st, limit, u, i);
    }
  }

  /** The end of connection `i` of `u` gets strictly cheaper through `u`. */
  ghost predicate Improving(adj: Adjacency, st: LayerState, u: int, i: int)
    requires Shaped(adj, st) && 0 <= u < |adj| && 0 <= i < |adj[u]|
  {
    !st.nodes[adj[u][i].toNode].isFixed &&
    Lt(Add(st.nodes[u].cost, adj[u][i].length), st.nodes[adj[u][i].toNode].cost)
  }

  /** The improving relaxation: the frontier gains the end and loses nothing else. */
  lemma RelaxUpdateFrontier(adj: Adjacency, s: int, st: LayerState, limit: Cost, u: int, i: int)
    requires MidInv(adj, s, st, limit, u, i) && i < |adj[u]| && Improving(adj, st, u, i)
    ensures var r := RelaxOne(adj, st, u, i);
      var v := adj[u][i].toNode;
      r.nodes == st.nodes[v := st.nodes[v].(cost := Add(st.nodes[u].cost, adj[u][i].length), previousNode := u)] &&
      (forall x :: x in r.frontier <==> x in st.frontier || x == v) &&
      Distinct(r.frontier) && SortedByCost(r.frontier, r.nodes)
  {
    var v := adj[u][i].toNode;
    var newCost := Add(st.nodes[u].cost, adj[u][i].length);
    var nodes := st.nodes[v := st.nodes[v].(cost := newCost, previousNode := u)];
    var rest := RemoveFirst(st.frontier, v);
    RemoveFirstKeepsOrder(st.frontier, v, st.nodes);
    assert SortedByCost(rest, nodes) by {
      forall j | 0 <= j < |rest|
        ensures nodes[rest[j]] == st.nodes[rest[j]]
      {
        assert rest[j] != v;
      }
    }
    InsertSortedKeepsOrder(rest, v, nodes);
    var r := RelaxOne(adj, st, u, i);
    assert r == LayerState(nodes, InsertSorted(rest, v, nodes));
    forall x
      ensures x in r.frontier <==> x in st.frontier || x == v
    {
      InsertSortedMembers(rest, v, nodes, x);
      if x != v {
        RemoveFirstMembers(st.frontier, v, x);
      }
    }
  }

  /** The improving relaxation keeps the frontier part of the mid-step invariant
      and settles or unsettles nothing. */
  lemma RelaxUpdateShape(adj: Adjacency, s: int, st: LayerState, limit: Cost, u: int, i: int)
    requires MidInv(adj, s, st, limit, u, i) && i < |adj[u]| && Improving(adj, st, u, i)
    ensures var r := RelaxOne(adj, st, u, i);
      Shaped(adj, r) && SourceOk(adj, s, r) && FrontierOk(r) &&
      (forall j :: 0 <= j < |r.frontier| ==> !r.nodes[r.frontier[j]].isFixed) &&
      (forall j :: 0 <= j < |r.frontier| ==> Le(r.nodes[u].cost, r.nodes[r.frontier[j]].cost)) &&
      Discovered(r) &&
      forall x :: 0 <= x < |adj| ==> (Settled(r, x) <==> Settled(st, x))
  {
    RelaxUpdateFrontier(adj, s, st, limit, u, i);
    var v := adj[u][i].toNode;
    var r := RelaxOne(adj, st, u, i);
    forall j | 0 <= j < |r.frontier|
      ensures r.nodes[r.frontier[j]].cost.Fin? && !r.nodes[r.frontier[j]].isFixed &&
              Le(r.nodes[u].cost, r.nodes[r.frontier[j]].cost)
    {
      var x := r.frontier[j];
      if x != v {
        assert x in st.frontier;
        var m :| 0 <= m < |st.frontier| && st.frontier[m] == x;
      }
    }
  }

  /** The improving relaxation keeps costs sound and predecessors meaningful. */
  lemma RelaxUpdateLinks(adj: Adjacency, s: int, st: LayerState, limit: Cost, u: int, i: int)
    requires MidInv(adj, s, st, limit, u, i) && i < |adj[u]| && Improving(adj, st, u, i)
    ensures Sound(adj, s, RelaxOne(adj, st, u, i)) && PrevOk(adj, s, RelaxOne(adj, st, u, i))
  {
    RelaxUpdateShape(adj, s, st, limit, u, i);
    RelaxUpdateFrontier(adj, s, st, limit, u, i);
    var v := adj[u][i].toNode;
    var r := RelaxOne(adj, st, u, i);
    ReachedExtend(adj, s, u, st.nodes[u].cost.value, i);
    forall x | 0 <= x < |adj|
      ensures PrevLink(adj, s, r, x)
    {
      assert PrevLink(adj, s, st, x);
      if x == v {
        assert v != s;
      } else if x != s && r.nodes[x].cost.Fin? {
        var p := st.nodes[x].previousNode;
        assert Settled(st, p) && p != v;
        var j :| 0 <= j < |adj[p]| && adj[p][j].toNode == x && st.nodes[x].cost == Add(st.nodes[p].cost, adj[p][j].length);
      }
    }
  }

  /** The case of `RelaxOneInv` in which the end of the connection gets cheaper. */
  lemma RelaxUpdateInv(adj: Adjacency, s: int, st: LayerState, limit: Cost, u: int, i: int)
    requires MidInv(adj, s, st, limit, u, i) && i < |adj[u]| && Improving(adj, st, u, i)
    ensures MidInv(adj, s, RelaxOne(adj, st, u, i), limit, u, i + 1)
  {
    RelaxUpdateShape(adj, s, st, limit, u, i);
    RelaxUpdateLinks(adj, s, st, limit, u, i);
    RelaxUpdateFrontier(adj, s, st, limit, u, i);
    var r := RelaxOne(adj, st, u, i);
    forall x, k | 0 <= x < |adj| && x != u && Settled(r, x) && Le(r.nodes[x].cost, limit) && 0 <= k < |adj[x]|
      ensures EdgeRelaxed(adj, r, x, k)
    {
      assert EdgeRelaxed(adj, st, x, k);
    }
    forall k | 0 <= k < i + 1
      ensures EdgeRelaxed(adj, r, u, k)
    {
      if k < i {
        assert EdgeRelaxed(adj, st, u, k);
      }
    }
  }

  /** Relaxing one more connection of the popped head keeps the mid-step invariant. */
  lemma RelaxPrefixStep(adj: Adjacency, s: int, st: LayerState, limit: Cost, u: int, k: int)
    requires Shaped(adj, st) && 0 <= u < |adj| && 0 <= k < |adj[u]|
    requires MidInv(adj, s, RelaxPrefix(adj, st, u, k), limit, u, k)
    ensures MidInv(adj, s, RelaxPrefix(adj, st, u, k + 1), limit, u, k + 1)
  {
    RelaxOneInv(adj, s, RelaxPrefix(adj, st, u, k), limit, u, k);
  }

  /** Relaxing a prefix of the popped head's connections keeps the mid-step invariant. */
  lemma {:induction false} RelaxPrefixInv(adj: Adjacency, s: int, st: LayerState, limit: Cost, u: int, k: int)
    requires Shaped(adj, st) && 0 <= u < |adj| && 0 <= k <= |adj[u]|
    requires MidInv(adj, s, st, limit, u, 0)
    ensures MidInv(adj, s, RelaxPrefix(adj, st, u, k), limit, u, k)
    decreases k
  {
    if k > 0 {
      RelaxPrefixInv(adj, s, st, limit, u, k - 1);
      RelaxPrefixStep(adj, s, st, limit, u, k - 1);
    } else {
      assert RelaxPrefix(adj, st, u, k) == st;
    }
  }

  /** Once all its connections are relaxed, or when it lies beyond the limit,
      the popped head no longer breaks the invariant. */
  lemma MidToInv(adj: Adjacency, s: int, st: LayerState, limit: Cost, u: int, i: int)
    requires MidInv(adj, s, st, limit, u, i)
    requires i == |adj[u]| || Lt(limit, st.nodes[u].cost)
    ensures Inv(adj, s, st, limit)
  {
    assert s !in st.frontier;
    forall x, k | 0 <= x < |adj| && Settled(st, x) && Le(st.nodes[x].cost, limit) && 0 <= k < |adj[x]|
      ensures EdgeRelaxed(adj, st, x, k)
    {
    }
    forall x | 0 <= x < |adj| && Settled(st, x)
      ensures Le(st.nodes[x].cost, FrontierMin(st))
    {
      assert Le(st.nodes[x].cost, st.nodes[u].cost);
    }
  }

  /** `ForwardStep` keeps the invariant when the head lies within the limit. */
  lemma StepInv(adj: Adjacency, s: int, st: LayerState, limit: Cost)
    requires Inv(adj, s, st, limit) && st.frontier != []
    requires Le(st.nodes[st.frontier[0]].cost, limit)
    ensures Inv(adj, s, Step(adj, st), limit)
  {
    var u := st.frontier[0];
    PopInv(adj, s, st, limit);
    RelaxPrefixInv(adj, s, Pop(st), limit, u, |adj[u]|);
    MidToInv(adj, s, Step(adj, st), limit, u, |adj[u]|);
  }

  /** The cut-off `ForwardStep` of a distance layer keeps the invariant. */
  lemma CutStepInv(adj: Adjacency, s: int, st: LayerState, limit: Cost)
    requires Inv(adj, s, st, limit) && st.frontier != []
    ensures Inv(adj, s, CutStep(adj, st, limit), limit)
  {
    var u := st.frontier[0];
    if Lt(limit, st.nodes[u].cost) {
      PopInv(adj, s, st, limit);
      MidToInv(adj, s, Pop(st), limit, u, 0);
    } else {
      StepInv(adj, s, st, limit);
    }
  }

  /** A bounded loop of steps keeps the invariant. */
  lemma {:induction false} RunInv(adj: Adjacency, s: int, st: LayerState, k: int, limit: Cost)
    requires Inv(adj, s, st, limit)
    ensures Inv(adj, s, Run(adj, st, k, limit), limit)
    decreases k
  {
    if k > 0 {
      RunInv(adj, s, st, k - 1, limit);
      var prev := Run(adj, st, k - 1, limit);
      if prev.frontier != [] {
        CutStepInv(adj, s, prev, limit);
      }
    }
  }
}
