/** Directed connections, walks along them and the shortest-path distance
    that a finished layer is meant to hold (the reference definition). */
module Walks {
  import opened Costs

  /** One directed connection of a node's connection list. */
  datatype Connection = Connection(fromNode: int, toNode: int, length: Length)

  /** The connection lists of a graph, indexed by node. */
  type Adjacency = seq<seq<Connection>>

  /** Every connection ends at an existing node, so `costNodes[toNode]` is defined. */
  predicate WellFormed(adj: Adjacency) {
    forall u, k :: 0 <= u < |adj| && 0 <= k < |adj[u]| ==> 0 <= adj[u][k].toNode < |adj|
  }

  /** Taking connection `index` out of node `node`. */
  datatype Hop = Hop(node: int, index: int)

  predicate ValidHop(adj: Adjacency, h: Hop) {
    0 <= h.node < |adj| && 0 <= h.index < |adj[h.node]|
  }

  function HopLength(adj: Adjacency, h: Hop): Length {
    if ValidHop(adj, h) then adj[h.node][h.index].length else 0.0
  }

  /** `w` is a walk from `s` that ends at `v`. */
  ghost predicate IsWalk(adj: Adjacency, s: int, w: seq<Hop>, v: int)
    decreases |w|
  {
    if w == [] then v == s
    else
      var h := w[|w| - 1];
      ValidHop(adj, h) && adj[h.node][h.index].toNode == v && IsWalk(adj, s, w[..|w| - 1], h.node)
  }

  /** The summed length of a walk. */
  ghost function Weight(adj: Adjacency, w: seq<Hop>): real
    decreases |w|
  {
    if w == [] then 0.0 else Weight(adj, w[..|w| - 1]) + HopLength(adj, w[|w| - 1])
  }

  /** Some walk from `s` reaches `v` with length exactly `x`. */
  ghost predicate Reached(adj: Adjacency, s: int, v: int, x: real) {
    exists w :: IsWalk(adj, s, w, v) && Weight(adj, w) == x
  }

  /** `c` is the shortest-path distance from `s` to `v`: +∞ when no walk
      reaches `v`, otherwise the length of a walk that no walk undercuts. */
  ghost predicate IsShortest(adj: Adjacency, s: int, v: int, c: Cost) {
    match c
    case Inf => forall w :: !IsWalk(adj, s, w, v)
    case Fin(x) => Reached(adj, s, v, x) && forall w :: IsWalk(adj, s, w, v) ==> x <= Weight(adj, w)
  }

  /** Lengths are never negative, so neither is a walk's length. */
  lemma {:induction false} WeightNonNegative(adj: Adjacency, w: seq<Hop>)
    ensures Weight(adj, w) >= 0.0
    decreases |w|
  {
    if w != [] {
      WeightNonNegative(adj, w[..|w| - 1]);
    }
  }

  /** A walk to `u` followed by one of `u`'s connections is a walk to its end. */
  lemma ExtendWalk(adj: Adjacency, s: int, w: seq<Hop>, u: int, k: int)
    requires IsWalk(adj, s, w, u)
    requires 0 <= u < |adj| && 0 <= k < |adj[u]|
    ensures IsWalk(adj, s, w + [Hop(u, k)], adj[u][k].toNode)
    ensures Weight(adj, w + [Hop(u, k)]) == Weight(adj, w) + adj[u][k].length
  {
    var w' := w + [Hop(u, k)];
    assert w'[..|w'| - 1] == w;
  }

  /** Reaching `u` at `x` reaches the end of each of `u`'s connections at `x + length`. */
  lemma ReachedExtend(adj: Adjacency, s: int, u: int, x: real, k: int)
    requires Reached(adj, s, u, x)
    requires 0 <= u < |adj| && 0 <= k < |adj[u]|
    ensures Reached(adj, s, adj[u][k].toNode, x + adj[u][k].length)
  {
    var w :| IsWalk(adj, s, w, u) && Weight(adj, w) == x;
    ExtendWalk(adj, s, w, u, k);
  }

  /** The start is at distance 0 from itself. */
  lemma SourceIsShortest(adj: Adjacency, s: int)
    ensures IsShortest(adj, s, s, Fin(0.0))
  {
    assert IsWalk(adj, s, [], s) && Weight(adj, []) == 0.0;
    forall w | IsWalk(adj, s, w, s)
      ensures 0.0 <= Weight(adj, w)
    {
      WeightNonNegative(adj, w);
    }
  }
}
