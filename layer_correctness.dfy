/** What the layer invariant buys: a fixed node within the limit holds its
    shortest-path distance, a finished layer holds the whole distance field,
    and every step settles one more node, so the bounded step loops finish. */
module LayerCorrectness {
  import opened Costs
  import opened Walks
  import opened LayerSpec
  import opened LayerInvariant

  /** The length of a walk, as a cost. */
  ghost function WalkCost(adj: Adjacency, w: seq<Hop>): (c: Cost)
    ensures c.Fin? && c.value == Weight(adj, w)
  {
    WeightNonNegative(adj, w);
    Fin(Weight(adj, w))
  }

  /** What the layer knows about `v`: its cost once settled, otherwise at
      least the head of the frontier. */
  function Known(st: LayerState, v: int): Cost
    requires Within(st.frontier, |st.nodes|) && 0 <= v < |st.nodes|
  {
    if st.nodes[v].isFixed && v !in st.frontier then st.nodes[v].cost else FrontierMin(st)
  }

  /** The path argument of Dijkstra's algorithm: every walk from the start to
      `v` is either longer than the limit or at least as long as what the
      layer knows about `v`. */
  lemma {:induction false} WalkBound(adj: Adjacency, s: int, st: LayerState, limit: Cost, w: seq<Hop>, v: int)
    requires Inv(adj, s, st, limit) && IsWalk(adj, s, w, v)
    ensures 0 <= v < |adj|
    ensures Lt(limit, WalkCost(adj, w)) || Le(Known(st, v), WalkCost(adj, w))
    decreases |w|
  {
    if w == [] {
      WeightNonNegative(adj, w);
    } else {
      var h := w[|w| - 1];
      var w' := w[..|w| - 1];
      var x := h.node;
      WalkBound(adj, s, st, limit, w', x);
      WeightNonNegative(adj, w');
      assert Weight(adj, w) == Weight(adj, w') + adj[x][h.index].length;
      var c := WalkCost(adj, w);
      if !Lt(limit, WalkCost(adj, w')) {
        if Settled(st, x) {
          if Le(st.nodes[x].cost, limit) {
            assert EdgeRelaxed(adj, st, x, h.index);
            assert Le(st.nodes[v].cost, c);
            if !Settled(st, v) {
              assert v in st.frontier;
              FrontierMinIsMin(st, v);
            }
          }
        } else if Settled(st, v) {
          assert Le(st.nodes[v].cost, FrontierMin(st));
        }
      }
    }
  }

  /** A fixed node whose cost is within the limit holds its shortest-path distance. */
  lemma FixedIsShortest(adj: Adjacency, s: int, st: LayerState, limit: Cost, v: int)
    requires Inv(adj, s, st, limit) && 0 <= v < |adj|
    requires st.nodes[v].isFixed && Le(st.nodes[v].cost, limit)
    ensures IsShortest(adj, s, v, st.nodes[v].cost)
  {
    var c := st.nodes[v].cost;
    assert c.Fin?;
    forall w | IsWalk(adj, s, w, v)
      ensures c.value <= Weight(adj, w)
    {
      WalkBound(adj, s, st, limit, w, v);
      WeightNonNegative(adj, w);
      if v in st.frontier {
        assert v == st.frontier[0];
      }
    }
  }

  /** A finished unlimited layer holds the shortest-path distance of every
      node: +∞ exactly for the nodes no walk from the start reaches. */
  lemma FinishedIsShortest(adj: Adjacency, s: int, st: LayerState, v: int)
    requires Inv(adj, s, st, Inf) && st.frontier == [] && 0 <= v < |adj|
    ensures IsShortest(adj, s, v, st.nodes[v].cost)
  {
    if st.nodes[v].cost.Fin? {
      FixedIsShortest(adj, s, st, Inf, v);
    } else {
      forall w
        ensures !IsWalk(adj, s, w, v)
      {
        if IsWalk(adj, s, w, v) {
          WalkBound(adj, s, st, Inf, w, v);
        }
      }
    }
  }

  /** A finished layer with a cut-off has fixed every node that some walk
      within the limit reaches, at its shortest-path distance. */
  lemma FinishedWithinLimit(adj: Adjacency, s: int, st: LayerState, limit: Cost, w: seq<Hop>, v: int)
    requires Inv(adj, s, st, limit) && st.frontier == []
    requires IsWalk(adj, s, w, v) && Le(WalkCost(adj, w), limit)
    ensures 0 <= v < |adj| && st.nodes[v].isFixed && IsShortest(adj, s, v, st.nodes[v].cost)
  {
    WalkBound(adj, s, st, limit, w, v);
    FixedIsShortest(adj, s, st, limit, v);
  }

  /** Whatever the limit, a node no walk reaches keeps cost +∞. */
  lemma UnreachedIsInf(adj: Adjacency, s: int, st: LayerState, limit: Cost, v: int)
    requires Inv(adj, s, st, limit) && 0 <= v < |adj|
    requires forall w :: !IsWalk(adj, s, w, v)
    ensures st.nodes[v].cost == Inf
  {
  }

  /** The number of settled nodes below `k`. */
  ghost function SettledCount(st: LayerState, k: int): (c: nat)
    requires 0 <= k <= |st.nodes|
    ensures c <= k
  {
    if k == 0 then 0 else SettledCount(st, k - 1) + (if Settled(st, k - 1) then 1 else 0)
  }

  /** A node that stays settled keeps counting, and one newly settled node adds one. */
  lemma {:induction false} SettledCountGrows(st: LayerState, st': LayerState, u: int, k: int)
    requires |st.nodes| == |st'.nodes| && 0 <= k <= |st.nodes| && 0 <= u < |st.nodes|
    requires forall x :: 0 <= x < |st.nodes| && Settled(st, x) ==> Settled(st', x)
    requires !Settled(st, u) && Settled(st', u)
    ensures SettledCount(st', k) >= SettledCount(st, k) + (if u < k then 1 else 0)
  {
    if k > 0 {
      SettledCountGrows(st, st', u, k - 1);
    }
  }

  /** A node that is not settled keeps the count below the node count. */
  lemma {:induction false} SettledCountBelow(st: LayerState, u: int, k: int)
    requires 0 <= u < k <= |st.nodes| && !Settled(st, u)
    ensures SettledCount(st, k) < k
  {
    if u < k - 1 {
      SettledCountBelow(st, u, k - 1);
    }
  }

  /** Relaxing one connection neither settles nor unsettles a node. */
  lemma RelaxOneKeepsSettled(adj: Adjacency, st: LayerState, u: int, k: int, x: int)
    requires Shaped(adj, st) && 0 <= u < |adj| && 0 <= k < |adj[u]| && 0 <= x < |adj|
    ensures Settled(RelaxOne(adj, st, u, k), x) <==> Settled(st, x)
  {
    var v := adj[u][k].toNode;
    var r := RelaxOne(adj, st, u, k);
    if r != st && x != v {
      RemoveFirstMembers(st.frontier, v, x);
      InsertSortedMembers(RemoveFirst(st.frontier, v), v, r.nodes, x);
    }
  }

  lemma RelaxPrefixStepSettled(adj: Adjacency, st: LayerState, u: int, k: int, x: int)
    requires Shaped(adj, st) && 0 <= u < |adj| && 0 <= k < |adj[u]| && 0 <= x < |adj|
    ensures Settled(RelaxPrefix(adj, st, u, k + 1), x) <==> Settled(RelaxPrefix(adj, st, u, k), x)
  {
    RelaxOneKeepsSettled(adj, RelaxPrefix(adj, st, u, k), u, k, x);
  }

  /** Relaxing connections neither settles nor unsettles a node. */
  lemma {:induction false} RelaxPrefixKeepsSettled(adj: Adjacency, st: LayerState, u: int, k: int, x: int)
    requires Shaped(adj, st) && 0 <= u < |adj| && 0 <= k <= |adj[u]| && 0 <= x < |adj|
    ensures Settled(RelaxPrefix(adj, st, u, k), x) <==> Settled(st, x)
    decreases k
  {
    if k > 0 {
      RelaxPrefixKeepsSettled(adj, st, u, k - 1, x);
      RelaxPrefixStepSettled(adj, st, u, k - 1, x);
    } else {
      assert RelaxPrefix(adj, st, u, k) == st;
    }
  }

  /** Every step, cut off or not, settles exactly the popped head and keeps
      all settled nodes settled. */
  lemma CutStepSettles(adj: Adjacency, s: int, st: LayerState, limit: Cost)
    requires Inv(adj, s, st, limit) && st.frontier != []
    ensures SettledCount(CutStep(adj, st, limit), |adj|) > SettledCount(st, |adj|)
  {
    var u := st.frontier[0];
    var r := CutStep(adj, st, limit);
    PopSettles(adj, s, st, limit);
    if !Lt(limit, st.nodes[u].cost) {
      forall x | 0 <= x < |adj|
        ensures Settled(r, x) <==> Settled(Pop(st), x)
      {
        RelaxPrefixKeepsSettled(adj, Pop(st), u, |adj[u]|, x);
      }
    }
    SettledCountGrows(st, r, u, |adj|);
  }

  /** A bounded loop either finishes or settles one node per iteration. */
  lemma {:induction false} RunProgress(adj: Adjacency, s: int, st: LayerState, k: nat, limit: Cost)
    requires Inv(adj, s, st, limit)
    ensures Run(adj, st, k, limit).frontier == [] ||
            SettledCount(Run(adj, st, k, limit), |adj|) >= SettledCount(st, |adj|) + k
  {
    if k > 0 {
      RunProgress(adj, s, st, k - 1, limit);
      var prev := Run(adj, st, k - 1, limit);
      if prev.frontier != [] {
        RunInv(adj, s, st, k - 1, limit);
        CutStepSettles(adj, s, prev, limit);
      }
    }
  }

  /** A bounded loop finishes once its bound covers the nodes still unsettled. */
  lemma RunFinishes(adj: Adjacency, s: int, st: LayerState, k: int, limit: Cost)
    requires Inv(adj, s, st, limit) && k >= |adj| - SettledCount(st, |adj|)
    ensures Run(adj, st, k, limit).frontier == []
  {
    RunProgress(adj, s, st, k, limit);
    var r := Run(adj, st, k, limit);
    if r.frontier != [] {
      RunInv(adj, s, st, k, limit);
      SettledCountBelow(r, r.frontier[0], |adj|);
    }
  }

  /** A freshly set-up layer has settled nothing yet, so a loop bounded by
      the node count runs it to the end. */
  lemma SetupSettlesNothing(adj: Adjacency, s: int)
    requires WellFormed(adj) && 0 <= s < |adj|
    ensures SettledCount(SetupState(|adj|, s), |adj|) == 0
  {
    var st := SetupState(|adj|, s);
    SetupCountZero(st, s, |adj|);
  }

  lemma {:induction false} SetupCountZero(st: LayerState, s: int, k: int)
    requires 0 <= k <= |st.nodes| && st.frontier == [s]
    requires forall x :: 0 <= x < |st.nodes| && x != s ==> !st.nodes[x].isFixed
    ensures SettledCount(st, k) == 0
  {
    if k > 0 {
      SetupCountZero(st, s, k - 1);
    }
  }
}
