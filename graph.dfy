/** `DijkstraGraph` (and its copy `CostMap.Graph`): the navigation graph
    built from triangle data. Node `i < V` stands for merged vertex `i` and
    node `V + t` for the centre of triangle `t`; every link between two
    nodes is stored as two directed connections of the same length.
    Positions are left abstract and the distance of two positions is a
    parameter. */
module Graphs {
  import opened Costs
  import opened Walks
  import opened TriangleData

  /** `Node`: a position and the node's own connection list. */
  datatype Node<P> = Node(position: P, connections: seq<Connection>)

  /** An undirected link; it becomes `a -> b` in `a`'s list, then `b -> a`
      in `b`'s list. */
  datatype Link = Link(a: int, b: int, length: Length)

  /** The connection lists of the nodes, as the cost graph reads them. */
  function Connections<P>(ns: seq<Node<P>>): (adj: Adjacency)
    ensures |adj| == |ns| && forall u :: 0 <= u < |ns| ==> adj[u] == ns[u].connections
  {
    seq(|ns|, u requires 0 <= u < |ns| => ns[u].connections)
  }

  /** Every triangle index names a merged vertex (`vertToNode` is indexed by it). */
  predicate TrianglesFit<P>(tris: seq<Triangle<P>>, vertexCount: int) {
    forall t, k :: 0 <= t < |tris| && 0 <= k < |tris[t].indices| ==> 0 <= tris[t].indices[k] < vertexCount
  }

  /** Every record that is not skipped names two triangles (`triToNode` is
      indexed by them). */
  predicate RecordsFit(records: seq<TriangleConnection>, triangleCount: int) {
    forall r :: 0 <= r < |records| && records[r].overlapedVertexCount >= 2 ==>
      0 <= records[r].triangleA < triangleCount && 0 <= records[r].triangleB < triangleCount
  }

  predicate LinksFit(ls: seq<Link>, nodeCount: int) {
    forall k :: 0 <= k < |ls| ==> 0 <= ls[k].a < nodeCount && 0 <= ls[k].b < nodeCount
  }

  // The links, in the order the constructor adds them

  /** Corner `j` of a triangle: the edge to the next corner, then the spoke
      from the centre node to the corner. */
  function CornerLinks<P>(vertices: seq<P>, tri: Triangle<P>, centerNode: int, j: int, distance: (P, P) -> Length): seq<Link>
    requires 0 <= j < |tri.indices|
    requires forall k :: 0 <= k < |tri.indices| ==> 0 <= tri.indices[k] < |vertices|
  {
    NextCorner(j, |tri.indices|);
    var u, w := tri.indices[j], tri.indices[(j + 1) % |tri.indices|];
    [Link(u, w, distance(vertices[u], vertices[w])), Link(centerNode, u, distance(tri.center, vertices[u]))]
  }

  /** The links of corners `0 .. j - 1` of triangle `t`. */
  function TriangleLinks<P>(vertices: seq<P>, tris: seq<Triangle<P>>, distance: (P, P) -> Length, t: int, j: int): (ls: seq<Link>)
    requires 0 <= t < |tris| && 0 <= j <= |tris[t].indices| && TrianglesFit(tris, |vertices|)
    ensures |ls| == 2 * j
    decreases j, 1
  {
    if j == 0 then [] else TriangleLinksLast(vertices, tris, distance, t, j)
  }

  /** The links of corners `0 .. j - 1` with corner `j - 1` spelled out. */
  function TriangleLinksLast<P>(vertices: seq<P>, tris: seq<Triangle<P>>, distance: (P, P) -> Length, t: int, j: int): (ls: seq<Link>)
    requires 0 <= t < |tris| && 0 < j <= |tris[t].indices| && TrianglesFit(tris, |vertices|)
    ensures |ls| == 2 * j
    decreases j, 0
  {
    TriangleLinks(vertices, tris, distance, t, j - 1) + CornerLinks(vertices, tris[t], |vertices| + t, j - 1, distance)
  }

  /** The links of triangles `0 .. t - 1`, triangle after triangle. */
  function MeshLinks<P>(vertices: seq<P>, tris: seq<Triangle<P>>, distance: (P, P) -> Length, t: int): (ls: seq<Link>)
    requires 0 <= t <= |tris| && TrianglesFit(tris, |vertices|)
    ensures |ls| == 2 * Corners(tris, t)
    decreases t, 1
  {
    if t == 0 then [] else MeshLinksLast(vertices, tris, distance, t)
  }

  /** The links of triangles `0 .. t - 1` with triangle `t - 1` spelled out. */
  function MeshLinksLast<P>(vertices: seq<P>, tris: seq<Triangle<P>>, distance: (P, P) -> Length, t: int): (ls: seq<Link>)
    requires 0 < t <= |tris| && TrianglesFit(tris, |vertices|)
    ensures |ls| == 2 * Corners(tris, t)
    decreases t, 0
  {
    MeshLinks(vertices, tris, distance, t - 1) + TriangleLinks(vertices, tris, distance, t - 1, |tris[t - 1].indices|)
  }

  /** The number of corners of triangles `0 .. t - 1`. */
  function Corners<P>(tris: seq<Triangle<P>>, t: int): nat
    requires 0 <= t <= |tris|
  {
    if t == 0 then 0 else Corners(tris, t - 1) + |tris[t - 1].indices|
  }

  /** A corner link runs between two vertices or from the triangle's centre
      to a vertex. */
  lemma {:induction false} TriangleLinksShape<P>(vertices: seq<P>, tris: seq<Triangle<P>>, distance: (P, P) -> Length, t: int, j: int)
    requires 0 <= t < |tris| && 0 <= j <= |tris[t].indices| && TrianglesFit(tris, |vertices|)
    ensures forall k :: 0 <= k < |TriangleLinks(vertices, tris, distance, t, j)| ==>
      0 <= TriangleLinks(vertices, tris, distance, t, j)[k].b < |vertices| &&
      (0 <= TriangleLinks(vertices, tris, distance, t, j)[k].a < |vertices| ||
       TriangleLinks(vertices, tris, distance, t, j)[k].a == |vertices| + t)
    decreases j
  {
    if j > 0 {
      TriangleLinksShape(vertices, tris, distance, t, j - 1);
      assert TriangleLinks(vertices, tris, distance, t, j) ==
        TriangleLinks(vertices, tris, distance, t, j - 1) + CornerLinks(vertices, tris[t], |vertices| + t, j - 1, distance);
    }
  }

  /** No mesh link ends at a triangle centre. */
  lemma {:induction false} MeshLinksShape<P>(vertices: seq<P>, tris: seq<Triangle<P>>, distance: (P, P) -> Length, t: int)
    requires 0 <= t <= |tris| && TrianglesFit(tris, |vertices|)
    ensures forall k :: 0 <= k < |MeshLinks(vertices, tris, distance, t)| ==>
      0 <= MeshLinks(vertices, tris, distance, t)[k].b < |vertices| &&
      0 <= MeshLinks(vertices, tris, distance, t)[k].a < |vertices| + t
    decreases t
  {
    if t > 0 {
      MeshLinksShape(vertices, tris, distance, t - 1);
      TriangleLinksShape(vertices, tris, distance, t - 1, |tris[t - 1].indices|);
      assert MeshLinks(vertices, tris, distance, t) ==
        MeshLinks(vertices, tris, distance, t - 1) + TriangleLinks(vertices, tris, distance, t - 1, |tris[t - 1].indices|);
    }
  }

  /** The link between the centres of a record's two triangles. */
  function RecordLink<P>(vertexCount: int, tris: seq<Triangle<P>>, rec: TriangleConnection, distance: (P, P) -> Length): Link
    requires 0 <= rec.triangleA < |tris| && 0 <= rec.triangleB < |tris|
  {
    Link(vertexCount + rec.triangleA, vertexCount + rec.triangleB, distance(tris[rec.triangleA].center, tris[rec.triangleB].center))
  }

  /** The links of records `0 .. r - 1`: a record sharing fewer than two
      vertices is skipped. */
  function RecordLinks<P>(vertexCount: int, tris: seq<Triangle<P>>, records: seq<TriangleConnection>,
                          distance: (P, P) -> Length, r: int): (ls: seq<Link>)
    requires 0 <= r <= |records| && RecordsFit(records, |tris|)
    ensures |ls| == SharedEdges(records, r)
    decreases r, 1
  {
    if r == 0 then [] else RecordLinksLast(vertexCount, tris, records, distance, r)
  }

  /** The links of records `0 .. r - 1` with record `r - 1` spelled out. */
  function RecordLinksLast<P>(vertexCount: int, tris: seq<Triangle<P>>, records: seq<TriangleConnection>,
                              distance: (P, P) -> Length, r: int): (ls: seq<Link>)
    requires 0 < r <= |records| && RecordsFit(records, |tris|)
    ensures |ls| == SharedEdges(records, r)
    decreases r, 0
  {
    var ls := RecordLinks(vertexCount, tris, records, distance, r - 1);
    if records[r - 1].overlapedVertexCount < 2 then ls
    else ls + [RecordLink(vertexCount, tris, records[r - 1], distance)]
  }

  /** One more record adds its link, unless it is skipped. */
  lemma RecordLinksNext<P>(vertexCount: int, tris: seq<Triangle<P>>, records: seq<TriangleConnection>,
                           distance: (P, P) -> Length, r: int)
    requires 0 <= r < |records| && RecordsFit(records, |tris|)
    ensures RecordLinks(vertexCount, tris, records, distance, r + 1) ==
      RecordLinks(vertexCount, tris, records, distance, r) +
      (if records[r].overlapedVertexCount < 2 then [] else [RecordLink(vertexCount, tris, records[r], distance)])
  {
  }

  /** The number of records `0 .. r - 1` whose triangles share at least two
      vertices. */
  function SharedEdges(records: seq<TriangleConnection>, r: int): nat
    requires 0 <= r <= |records|
  {
    if r == 0 then 0 else SharedEdges(records, r - 1) + (if records[r - 1].overlapedVertexCount < 2 then 0 else 1)
  }

  /** Every record link joins the centres of a record's triangles, and that
      record shares at least two vertices. */
  lemma {:induction false} RecordLinkOrigin<P>(vertexCount: int, tris: seq<Triangle<P>>, records: seq<TriangleConnection>,
                                               distance: (P, P) -> Length, r: int, k: int) returns (q: int)
    requires 0 <= r <= |records| && RecordsFit(records, |tris|)
    requires 0 <= k < |RecordLinks(vertexCount, tris, records, distance, r)|
    ensures 0 <= q < r && records[q].overlapedVertexCount >= 2
    ensures RecordLinks(vertexCount, tris, records, distance, r)[k] == RecordLink(vertexCount, tris, records[q], distance)
    decreases r
  {
    var ls := RecordLinks(vertexCount, tris, records, distance, r - 1);
    if k < |ls| {
      q := RecordLinkOrigin(vertexCount, tris, records, distance, r - 1, k);
    } else {
      q := r - 1;
    }
  }

  /** Every link the constructor adds, in order. */
  function Links<P>(vertices: seq<P>, tris: seq<Triangle<P>>, records: seq<TriangleConnection>, distance: (P, P) -> Length): seq<Link>
    requires TrianglesFit(tris, |vertices|) && RecordsFit(records, |tris|)
  {
    MeshLinks(vertices, tris, distance, |tris|) + RecordLinks(|vertices|, tris, records, distance, |records|)
  }

  // The nodes built from a list of links

  /** The position of node `u`: vertex `u`, or the centre of triangle `u - V`. */
  function NodePosition<P>(vertices: seq<P>, tris: seq<Triangle<P>>, u: int): P
    requires 0 <= u < |vertices| + |tris|
  {
    if u < |vertices| then vertices[u] else tris[u - |vertices|].center
  }

  /** What link `l` appends to node `u`'s list: `a -> b` if `u` is `a`,
      then `b -> a` if `u` is `b`. */
  function Gives(l: Link, u: int): seq<Connection> {
    (if u == l.a then [Connection(l.a, l.b, l.length)] else []) +
    (if u == l.b then [Connection(l.b, l.a, l.length)] else [])
  }

  /** Node `u`'s connection list once the links `ls` are added in order. */
  function Outgoing(ls: seq<Link>, u: int): seq<Connection>
    decreases |ls|, 1
  {
    if ls == [] then [] else OutgoingLast(ls, u)
  }

  /** Node `u`'s connection list with the last link spelled out. */
  function OutgoingLast(ls: seq<Link>, u: int): seq<Connection>
    requires ls != []
    decreases |ls|, 0
  {
    Outgoing(ls[..|ls| - 1], u) + Gives(ls[|ls| - 1], u)
  }

  /** The nodes, at their positions, once the links `ls` are added. */
  function NodesOf<P>(vertices: seq<P>, tris: seq<Triangle<P>>, ls: seq<Link>): (ns: seq<Node<P>>)
    ensures |ns| == |vertices| + |tris|
  {
    seq(|vertices| + |tris|, u requires 0 <= u < |vertices| + |tris| => Node(NodePosition(vertices, tris, u), Outgoing(ls, u)))
  }

  /** The nodes the constructor builds: one per merged vertex, at that
      vertex, then one per triangle, at its centre. */
  function GraphNodes<P>(vertices: seq<P>, tris: seq<Triangle<P>>, records: seq<TriangleConnection>, distance: (P, P) -> Length): (ns: seq<Node<P>>)
    requires TrianglesFit(tris, |vertices|) && RecordsFit(records, |tris|)
    ensures |ns| == |vertices| + |tris|
    ensures forall i :: 0 <= i < |vertices| ==> ns[i].position == vertices[i]
    ensures forall t :: 0 <= t < |tris| ==> ns[|vertices| + t].position == tris[t].center
  {
    NodesOf(vertices, tris, Links(vertices, tris, records, distance))
  }

  /** Every link names two nodes. */
  lemma LinksFitAll<P>(vertices: seq<P>, tris: seq<Triangle<P>>, records: seq<TriangleConnection>, distance: (P, P) -> Length)
    requires TrianglesFit(tris, |vertices|) && RecordsFit(records, |tris|)
    ensures LinksFit(Links(vertices, tris, records, distance), |vertices| + |tris|)
  {
    var ms, rs := MeshLinks(vertices, tris, distance, |tris|), RecordLinks(|vertices|, tris, records, distance, |records|);
    MeshLinksShape(vertices, tris, distance, |tris|);
    forall k | 0 <= k < |rs|
      ensures 0 <= rs[k].a < |vertices| + |tris| && 0 <= rs[k].b < |vertices| + |tris|
    {
      var q := RecordLinkOrigin(|vertices|, tris, records, distance, |records|, k);
    }
    assert ms + rs == Links(vertices, tris, records, distance);
  }

  // Appending to the nodes' lists

  /** `nodes[n].connections.Add(c)`. */
  function Append<P>(ns: seq<Node<P>>, n: int, c: Connection): (r: seq<Node<P>>)
    requires 0 <= n < |ns|
    ensures |r| == |ns| && forall i :: 0 <= i < |ns| ==> r[i].position == ns[i].position
  {
    ns[n := ns[n].(connections := ns[n].connections + [c])]
  }

  /** The two appends of one link. */
  function AddLink<P>(ns: seq<Node<P>>, l: Link): seq<Node<P>>
    requires 0 <= l.a < |ns| && 0 <= l.b < |ns|
  {
    Append(Append(ns, l.a, Connection(l.a, l.b, l.length)), l.b, Connection(l.b, l.a, l.length))
  }

  /** Appending the two connections of one more link to every node's list
      is adding that link to the list of links. */
  lemma AddLinkNodesOf<P>(vertices: seq<P>, tris: seq<Triangle<P>>, ls: seq<Link>, l: Link)
    requires 0 <= l.a < |vertices| + |tris| && 0 <= l.b < |vertices| + |tris|
    ensures AddLink(NodesOf(vertices, tris, ls), l) == NodesOf(vertices, tris, ls + [l])
  {
    assert (ls + [l])[..|ls|] == ls;
    var ns, ns' := AddLink(NodesOf(vertices, tris, ls), l), NodesOf(vertices, tris, ls + [l]);
    forall u | 0 <= u < |ns|
      ensures ns[u] == ns'[u]
    {
      assert Outgoing(ls + [l], u) == Outgoing(ls, u) + Gives(l, u);
    }
  }

  // What the links give each node

  /** A connection of node `u` comes from one of the links. */
  lemma {:induction false} OutgoingOrigin(ls: seq<Link>, u: int, c: Connection) returns (k: int)
    requires c in Outgoing(ls, u)
    ensures 0 <= k < |ls| && c in Gives(ls[k], u)
    decreases |ls|
  {
    var ls' := ls[..|ls| - 1];
    if c in Outgoing(ls', u) {
      k := OutgoingOrigin(ls', u, c);
      assert ls'[k] == ls[k];
    } else {
      k := |ls| - 1;
    }
  }

  /** What a link gives node `u` ends up in `u`'s list. */
  lemma {:induction false} OutgoingPresent(ls: seq<Link>, k: int, u: int, c: Connection)
    requires 0 <= k < |ls| && c in Gives(ls[k], u)
    ensures c in Outgoing(ls, u)
    decreases |ls|
  {
    var ls' := ls[..|ls| - 1];
    if k < |ls| - 1 {
      assert ls'[k] == ls[k];
      OutgoingPresent(ls', k, u, c);
    }
  }

  // The number of connections

  /** The number of directed connections over nodes `0 .. n - 1`. */
  function ConnectionCount<P>(ns: seq<Node<P>>, n: int): nat
    requires 0 <= n <= |ns|
  {
    if n == 0 then 0 else ConnectionCount(ns, n - 1) + |ns[n - 1].connections|
  }

  /** Appending a connection to one node adds one to the total. */
  lemma {:induction false} AppendCounts<P>(ns: seq<Node<P>>, m: int, c: Connection, n: int)
    requires 0 <= m < |ns| && 0 <= n <= |ns|
    ensures ConnectionCount(Append(ns, m, c), n) == ConnectionCount(ns, n) + if m < n then 1 else 0
    decreases n
  {
    if n > 0 {
      AppendCounts(ns, m, c, n - 1);
    }
  }

  /** Every link gives the nodes exactly two connections. */
  lemma {:induction false} NodesOfCount<P>(vertices: seq<P>, tris: seq<Triangle<P>>, ls: seq<Link>)
    requires LinksFit(ls, |vertices| + |tris|)
    ensures ConnectionCount(NodesOf(vertices, tris, ls), |vertices| + |tris|) == 2 * |ls|
    decreases |ls|
  {
    var N := |vertices| + |tris|;
    if ls == [] {
      EmptyCount(NodesOf(vertices, tris, ls), N);
    } else {
      var ls', l := ls[..|ls| - 1], ls[|ls| - 1];
      assert ls' + [l] == ls;
      var before := NodesOf(vertices, tris, ls');
      NodesOfCount(vertices, tris, ls');
      AppendCounts(before, l.a, Connection(l.a, l.b, l.length), N);
      AppendCounts(Append(before, l.a, Connection(l.a, l.b, l.length)), l.b, Connection(l.b, l.a, l.length), N);
      AddLinkNodesOf(vertices, tris, ls', l);
    }
  }

  lemma {:induction false} EmptyCount<P>(ns: seq<Node<P>>, n: int)
    requires 0 <= n <= |ns| && forall i :: 0 <= i < |ns| ==> ns[i].connections == []
    ensures ConnectionCount(ns, n) == 0
  {
    if n > 0 {
      EmptyCount(ns, n - 1);
    }
  }

  // Properties of the built graph

  /** Every connection in node `u`'s list starts at `u` and ends at a node. */
  lemma GraphWellFormed<P>(vertices: seq<P>, tris: seq<Triangle<P>>, records: seq<TriangleConnection>, distance: (P, P) -> Length,
                           u: int, c: Connection)
    requires TrianglesFit(tris, |vertices|) && RecordsFit(records, |tris|)
    requires 0 <= u < |vertices| + |tris| && c in GraphNodes(vertices, tris, records, distance)[u].connections
    ensures c.fromNode == u && 0 <= c.toNode < |vertices| + |tris|
  {
    LinksFitAll(vertices, tris, records, distance);
    var ls := Links(vertices, tris, records, distance);
    var k := OutgoingOrigin(ls, u, c);
  }

  /** The connection lists satisfy what the cost layers demand of a graph. */
  lemma GraphIsAdjacency<P>(vertices: seq<P>, tris: seq<Triangle<P>>, records: seq<TriangleConnection>, distance: (P, P) -> Length)
    requires TrianglesFit(tris, |vertices|) && RecordsFit(records, |tris|)
    ensures WellFormed(Connections(GraphNodes(vertices, tris, records, distance)))
  {
    var adj: Adjacency := Connections(GraphNodes(vertices, tris, records, distance));
    forall u, k | 0 <= u < |adj| && 0 <= k < |adj[u]|
      ensures 0 <= adj[u][k].toNode < |adj|
    {
      GraphWellFormed(vertices, tris, records, distance, u, adj[u][k]);
    }
  }

  /** Connections come in reverse pairs: `u -> v` of length `L` in `u`'s
      list means `v -> u` of length `L` in `v`'s list. */
  lemma GraphSymmetric<P>(vertices: seq<P>, tris: seq<Triangle<P>>, records: seq<TriangleConnection>, distance: (P, P) -> Length,
                          u: int, c: Connection)
    requires TrianglesFit(tris, |vertices|) && RecordsFit(records, |tris|)
    requires 0 <= u < |vertices| + |tris| && c in GraphNodes(vertices, tris, records, distance)[u].connections
    ensures 0 <= c.toNode < |vertices| + |tris|
    ensures Connection(c.toNode, u, c.length) in GraphNodes(vertices, tris, records, distance)[c.toNode].connections
  {
    LinksFitAll(vertices, tris, records, distance);
    var ls := Links(vertices, tris, records, distance);
    var k := OutgoingOrigin(ls, u, c);
    OutgoingPresent(ls, k, c.toNode, Connection(c.toNode, u, c.length));
  }

  /** The graph holds `4` directed connections per triangle corner (`12`
      per triangle) and `2` per record of triangles sharing at least two
      vertices, and no others. */
  lemma GraphConnectionCount<P>(vertices: seq<P>, tris: seq<Triangle<P>>, records: seq<TriangleConnection>, distance: (P, P) -> Length)
    requires TrianglesFit(tris, |vertices|) && RecordsFit(records, |tris|)
    ensures ConnectionCount(GraphNodes(vertices, tris, records, distance), |vertices| + |tris|) ==
      4 * Corners(tris, |tris|) + 2 * SharedEdges(records, |records|)
  {
    LinksFitAll(vertices, tris, records, distance);
    NodesOfCount(vertices, tris, Links(vertices, tris, records, distance));
  }

  /** A connection between two triangle-centre nodes comes from a record of
      their triangles that shares at least two vertices. */
  lemma CentreLinkHasRecord<P>(vertices: seq<P>, tris: seq<Triangle<P>>, records: seq<TriangleConnection>, distance: (P, P) -> Length,
                               u: int, c: Connection)
    requires TrianglesFit(tris, |vertices|) && RecordsFit(records, |tris|)
    requires |vertices| <= u < |vertices| + |tris| && c in GraphNodes(vertices, tris, records, distance)[u].connections
    requires c.toNode >= |vertices|
    ensures exists q :: (0 <= q < |records| && records[q].overlapedVertexCount >= 2 &&
                         LinksTriangles(records[q], u - |vertices|, c.toNode - |vertices|))
  {
    var V := |vertices|;
    var ms, rs := MeshLinks(vertices, tris, distance, |tris|), RecordLinks(V, tris, records, distance, |records|);
    var ls := ms + rs;
    var k := OutgoingOrigin(ls, u, c);
    MeshLinksShape(vertices, tris, distance, |tris|);
    assert k >= |ms|;
    assert ls[k] == rs[k - |ms|];
    var q := RecordLinkOrigin(V, tris, records, distance, |records|, k - |ms|);
    assert LinksTriangles(records[q], u - V, c.toNode - V);
  }

  /** The record names triangles `x` and `y`, in either order. */
  predicate LinksTriangles(rec: TriangleConnection, x: int, y: int) {
    (rec.triangleA == x && rec.triangleB == y) || (rec.triangleA == y && rec.triangleB == x)
  }

  /** Every record of triangles sharing at least two vertices links their
      centres both ways, with the distance of the two centres. */
  lemma RecordLinksCentres<P>(vertices: seq<P>, tris: seq<Triangle<P>>, records: seq<TriangleConnection>, distance: (P, P) -> Length,
                              q: int)
    requires TrianglesFit(tris, |vertices|) && RecordsFit(records, |tris|)
    requires 0 <= q < |records| && records[q].overlapedVertexCount >= 2
    ensures Joined(GraphNodes(vertices, tris, records, distance), |vertices| + records[q].triangleA, |vertices| + records[q].triangleB,
                   distance(tris[records[q].triangleA].center, tris[records[q].triangleB].center))
  {
    var k := RecordLinkInLinks(vertices, tris, records, distance, q);
    LinkInGraph(vertices, tris, records, distance, k, RecordLink(|vertices|, tris, records[q], distance));
  }

  /** Nodes `a` and `b` hold the connections `a -> b` and `b -> a` of length
      `len`. */
  predicate Joined<P>(ns: seq<Node<P>>, a: int, b: int, len: Length) {
    0 <= a < |ns| && 0 <= b < |ns| &&
    Connection(a, b, len) in ns[a].connections && Connection(b, a, len) in ns[b].connections
  }

  /** Both connections of link `k` are in the built nodes' lists. */
  lemma LinkInGraph<P>(vertices: seq<P>, tris: seq<Triangle<P>>, records: seq<TriangleConnection>, distance: (P, P) -> Length,
                       k: int, l: Link)
    requires TrianglesFit(tris, |vertices|) && RecordsFit(records, |tris|)
    requires 0 <= k < |Links(vertices, tris, records, distance)| && Links(vertices, tris, records, distance)[k] == l
    ensures Joined(GraphNodes(vertices, tris, records, distance), l.a, l.b, l.length)
  {
    LinksFitAll(vertices, tris, records, distance);
    LinkPresent(vertices, tris, Links(vertices, tris, records, distance), k);
  }

  /** Where a kept record's link sits among all the links. */
  lemma RecordLinkInLinks<P>(vertices: seq<P>, tris: seq<Triangle<P>>, records: seq<TriangleConnection>, distance: (P, P) -> Length,
                             q: int) returns (k: int)
    requires TrianglesFit(tris, |vertices|) && RecordsFit(records, |tris|)
    requires 0 <= q < |records| && records[q].overlapedVertexCount >= 2
    ensures 0 <= k < |Links(vertices, tris, records, distance)|
    ensures Links(vertices, tris, records, distance)[k] == RecordLink(|vertices|, tris, records[q], distance)
  {
    var ms := MeshLinks(vertices, tris, distance, |tris|);
    var r := RecordLinkIndex(|vertices|, tris, records, distance, |records|, q);
    k := |ms| + r;
  }

  /** Both connections of every link are in the nodes' lists. */
  lemma LinkPresent<P>(vertices: seq<P>, tris: seq<Triangle<P>>, ls: seq<Link>, k: int)
    requires LinksFit(ls, |vertices| + |tris|) && 0 <= k < |ls|
    ensures Connection(ls[k].a, ls[k].b, ls[k].length) in NodesOf(vertices, tris, ls)[ls[k].a].connections
    ensures Connection(ls[k].b, ls[k].a, ls[k].length) in NodesOf(vertices, tris, ls)[ls[k].b].connections
  {
    OutgoingPresent(ls, k, ls[k].a, Connection(ls[k].a, ls[k].b, ls[k].length));
    OutgoingPresent(ls, k, ls[k].b, Connection(ls[k].b, ls[k].a, ls[k].length));
  }

  /** Where a kept record's link sits among the record links. */
  lemma {:induction false} RecordLinkIndex<P>(vertexCount: int, tris: seq<Triangle<P>>, records: seq<TriangleConnection>,
                                              distance: (P, P) -> Length, r: int, q: int) returns (k: int)
    requires 0 <= q < r <= |records| && RecordsFit(records, |tris|) && records[q].overlapedVertexCount >= 2
    ensures 0 <= k < |RecordLinks(vertexCount, tris, records, distance, r)|
    ensures RecordLinks(vertexCount, tris, records, distance, r)[k] == RecordLink(vertexCount, tris, records[q], distance)
    decreases r
  {
    var ls := RecordLinks(vertexCount, tris, records, distance, r - 1);
    if q == r - 1 {
      k := |ls|;
    } else {
      k := RecordLinkIndex(vertexCount, tris, records, distance, r - 1, q);
    }
  }

  /** Triangle data built from a triangulation meets the constructor's
      demands. */
  lemma BuiltDataFits<P>(src: seq<P>, indices: seq<int>, close: (P, P) -> bool, centre: (P, P, P) -> P)
    requires IndicesFit(indices, |src|)
    ensures var m := Merge(src, close); var tris := Triangles(m, indices, centre);
      var records := Records(tris, |tris|);
      TrianglesFit(WithIncident(tris, records), |m.vertices|) && RecordsFit(records, |tris|)
  {
    var m := Merge(src, close);
    var tris := Triangles(m, indices, centre);
    var records := Records(tris, |tris|);
    forall r | 0 <= r < |records|
      ensures 0 <= records[r].triangleA < |tris| && 0 <= records[r].triangleB < |tris|
    {
      assert records[r] in records;
    }
  }

  /** `DijkstraGraph`: the node list the constructor fills. */
  class DijkstraGraph<P> {
    /** `_nodes` */
    var nodes: seq<Node<P>>

    /** Builds the graph from triangle data: nodes first, then the links of
        every triangle's corners, then the links of the records whose
        triangles share at least two vertices. The source faults on a
        triangle index or a kept record that names nothing. */
    constructor (vertices: seq<P>, triangles: seq<Triangle<P>>, triangleConnections: seq<TriangleConnection>,
                 distance: (P, P) -> Length)
      requires TrianglesFit(triangles, |vertices|) && RecordsFit(triangleConnections, |triangles|)
      ensures nodes == GraphNodes(vertices, triangles, triangleConnections, distance)
    {
      nodes := [];
      new;
      var vertToNode, triToNode := CreateNodes(vertices, triangles);
      ConnectTriangles(vertices, triangles, vertToNode, triToNode, distance);
      ConnectRecords(vertices, triangles, triangleConnections, triToNode, distance);
    }

    /** The first block of the constructor: a node per vertex, then a node
        per triangle centre, with the node index of each. */
    method CreateNodes(vertices: seq<P>, triangles: seq<Triangle<P>>) returns (vertToNode: array<int>, triToNode: array<int>)
      requires nodes == []
      modifies this
      ensures nodes == NodesOf(vertices, triangles, [])
      ensures fresh(vertToNode) && vertToNode.Length == |vertices|
      ensures forall i :: 0 <= i < |vertices| ==> vertToNode[i] == i
      ensures fresh(triToNode) && triToNode.Length == |triangles|
      ensures forall t :: 0 <= t < |triangles| ==> triToNode[t] == |vertices| + t
    {
      vertToNode := new int[|vertices|];
      for i := 0 to |vertices|
        invariant |nodes| == i && forall k :: 0 <= k < i ==> nodes[k] == Node(vertices[k], [])
        invariant forall k :: 0 <= k < i ==> vertToNode[k] == k
      {
        nodes := nodes + [Node(vertices[i], [])];
        vertToNode[i] := |nodes| - 1;
      }
      triToNode := new int[|triangles|];
      for i := 0 to |triangles|
        invariant |nodes| == |vertices| + i
        invariant forall k :: 0 <= k < |vertices| ==> nodes[k] == Node(vertices[k], [])
        invariant forall k :: 0 <= k < i ==> nodes[|vertices| + k] == Node(triangles[k].center, [])
        invariant forall k :: 0 <= k < |vertices| ==> vertToNode[k] == k
        invariant forall k :: 0 <= k < i ==> triToNode[k] == |vertices| + k
      {
        nodes := nodes + [Node(triangles[i].center, [])];
        triToNode[i] := |nodes| - 1;
      }
      ghost var ns := NodesOf(vertices, triangles, []);
      forall u | 0 <= u < |nodes|
        ensures nodes[u] == ns[u]
      {
        assert Outgoing([], u) == [];
        if u >= |vertices| {
          assert nodes[|vertices| + (u - |vertices|)] == nodes[u];
        }
      }
      assert nodes == ns;
    }

    /** The second block: for each corner of each triangle, the edge to the
        next corner and the spoke from the centre, both ways. */
    method ConnectTriangles(vertices: seq<P>, triangles: seq<Triangle<P>>, vertToNode: array<int>, triToNode: array<int>,
                            distance: (P, P) -> Length)
      requires TrianglesFit(triangles, |vertices|)
      requires nodes == NodesOf(vertices, triangles, [])
      requires vertToNode.Length == |vertices| && forall i :: 0 <= i < |vertices| ==> vertToNode[i] == i
      requires triToNode.Length == |triangles| && forall t :: 0 <= t < |triangles| ==> triToNode[t] == |vertices| + t
      modifies this
      ensures nodes == NodesOf(vertices, triangles, MeshLinks(vertices, triangles, distance, |triangles|))
    {
      assert MeshLinks(vertices, triangles, distance, 0) == [];
      for i := 0 to |triangles|
        invariant nodes == NodesOf(vertices, triangles, MeshLinks(vertices, triangles, distance, i))
      {
        ConnectCorners(vertices, triangles, vertToNode, triToNode, distance, i);
      }
    }

    /** One round of the second block: the corners of triangle `i`. */
    method ConnectCorners(vertices: seq<P>, triangles: seq<Triangle<P>>, vertToNode: array<int>, triToNode: array<int>,
                          distance: (P, P) -> Length, i: int)
      requires TrianglesFit(triangles, |vertices|) && 0 <= i < |triangles|
      requires nodes == NodesOf(vertices, triangles, MeshLinks(vertices, triangles, distance, i))
      requires vertToNode.Length == |vertices| && forall i :: 0 <= i < |vertices| ==> vertToNode[i] == i
      requires triToNode.Length == |triangles| && forall t :: 0 <= t < |triangles| ==> triToNode[t] == |vertices| + t
      modifies this
      ensures nodes == NodesOf(vertices, triangles, MeshLinks(vertices, triangles, distance, i + 1))
    {
      var tri := triangles[i];
      var centerNodeIdx := triToNode[i];
      ghost var before := MeshLinks(vertices, triangles, distance, i);
      assert before + TriangleLinks(vertices, triangles, distance, i, 0) == before;
      for j := 0 to |tri.indices|
        invariant nodes == NodesOf(vertices, triangles, before + TriangleLinks(vertices, triangles, distance, i, j))
      {
        ghost var done := before + TriangleLinks(vertices, triangles, distance, i, j);
        ConnectCorner(vertices, triangles, vertToNode, centerNodeIdx, distance, i, j, done);
        assert done + CornerLinks(vertices, tri, centerNodeIdx, j, distance) ==
          before + TriangleLinks(vertices, triangles, distance, i, j + 1);
      }
      assert MeshLinks(vertices, triangles, distance, i + 1) ==
        before + TriangleLinks(vertices, triangles, distance, i, |tri.indices|);
    }

    /** The body of the corner loop: the edge from corner `j` to the next
        corner and the spoke from the centre to corner `j`, both ways. */
    method ConnectCorner(vertices: seq<P>, triangles: seq<Triangle<P>>, vertToNode: array<int>, centerNodeIdx: int,
                         distance: (P, P) -> Length, i: int, j: int, ghost done: seq<Link>)
      requires TrianglesFit(triangles, |vertices|) && 0 <= i < |triangles| && 0 <= j < |triangles[i].indices|
      requires centerNodeIdx == |vertices| + i
      requires vertToNode.Length == |vertices| && forall i :: 0 <= i < |vertices| ==> vertToNode[i] == i
      requires nodes == NodesOf(vertices, triangles, done)
      modifies this
      ensures nodes == NodesOf(vertices, triangles, done + CornerLinks(vertices, triangles[i], centerNodeIdx, j, distance))
    {
      var tri := triangles[i];
      NextCorner(j, |tri.indices|);
      var fromNodeIdx := vertToNode[tri.indices[j]];
      var toNodeIdx := vertToNode[tri.indices[(j + 1) % |tri.indices|]];
      var edgeLength := distance(nodes[fromNodeIdx].position, nodes[toNodeIdx].position);
      nodes := Append(nodes, fromNodeIdx, Connection(fromNodeIdx, toNodeIdx, edgeLength));
      nodes := Append(nodes, toNodeIdx, Connection(toNodeIdx, fromNodeIdx, edgeLength));
      var vertLength := distance(nodes[centerNodeIdx].position, nodes[fromNodeIdx].position);
      nodes := Append(nodes, centerNodeIdx, Connection(centerNodeIdx, fromNodeIdx, vertLength));
      nodes := Append(nodes, fromNodeIdx, Connection(fromNodeIdx, centerNodeIdx, vertLength));
      CornerStep(vertices, triangles, distance, i, j, done);
    }

    /** The last block: each record whose triangles share at least two
        vertices links their centres both ways; the others are skipped. */
    method ConnectRecords(vertices: seq<P>, triangles: seq<Triangle<P>>, triangleConnections: seq<TriangleConnection>,
                          triToNode: array<int>, distance: (P, P) -> Length)
      requires TrianglesFit(triangles, |vertices|) && RecordsFit(triangleConnections, |triangles|)
      requires triToNode.Length == |triangles| && forall t :: 0 <= t < |triangles| ==> triToNode[t] == |vertices| + t
      requires nodes == NodesOf(vertices, triangles, MeshLinks(vertices, triangles, distance, |triangles|))
      modifies this
      ensures nodes == GraphNodes(vertices, triangles, triangleConnections, distance)
    {
      ghost var mesh := MeshLinks(vertices, triangles, distance, |triangles|);
      assert mesh + RecordLinks(|vertices|, triangles, triangleConnections, distance, 0) == mesh;
      for i := 0 to |triangleConnections|
        invariant nodes == NodesOf(vertices, triangles, mesh + RecordLinks(|vertices|, triangles, triangleConnections, distance, i))
      {
        ghost var done := mesh + RecordLinks(|vertices|, triangles, triangleConnections, distance, i);
        ConnectRecord(vertices, triangles, triangleConnections, triToNode, distance, i, done);
        RecordLinksNext(|vertices|, triangles, triangleConnections, distance, i);
        assert done + (if triangleConnections[i].overlapedVertexCount < 2 then []
                       else [RecordLink(|vertices|, triangles, triangleConnections[i], distance)]) ==
          mesh + RecordLinks(|vertices|, triangles, triangleConnections, distance, i + 1);
      }
    }

    /** The body of the record loop: record `i` links the two centres both
        ways, unless its triangles share fewer than two vertices. */
    method ConnectRecord(vertices: seq<P>, triangles: seq<Triangle<P>>, triangleConnections: seq<TriangleConnection>,
                         triToNode: array<int>, distance: (P, P) -> Length, i: int, ghost done: seq<Link>)
      requires RecordsFit(triangleConnections, |triangles|) && 0 <= i < |triangleConnections|
      requires triToNode.Length == |triangles| && forall t :: 0 <= t < |triangles| ==> triToNode[t] == |vertices| + t
      requires nodes == NodesOf(vertices, triangles, done)
      modifies this
      ensures nodes == NodesOf(vertices, triangles, done + (if triangleConnections[i].overlapedVertexCount < 2 then []
                       else [RecordLink(|vertices|, triangles, triangleConnections[i], distance)]))
    {
      var connection := triangleConnections[i];
      if connection.overlapedVertexCount < 2 {
        assert done + [] == done;
        return;
      }
      var fromNodeIdx := triToNode[connection.triangleA];
      var toNodeIdx := triToNode[connection.triangleB];
      var length := distance(nodes[fromNodeIdx].position, nodes[toNodeIdx].position);
      nodes := Append(nodes, fromNodeIdx, Connection(fromNodeIdx, toNodeIdx, length));
      nodes := Append(nodes, toNodeIdx, Connection(toNodeIdx, fromNodeIdx, length));
      AddLinkNodesOf(vertices, triangles, done, RecordLink(|vertices|, triangles, connection, distance));
    }
  }

  /** The corner after `j` of `n`, wrapping round to the first. */
  lemma NextCorner(j: int, n: int)
    requires 0 <= j < n
    ensures (j + 1) % n == if j + 1 < n then j + 1 else 0
  {
  }

  /** The four appends of corner `j` of triangle `t` add its two links. */
  lemma CornerStep<P>(vertices: seq<P>, tris: seq<Triangle<P>>, distance: (P, P) -> Length, t: int, j: int, done: seq<Link>)
    requires TrianglesFit(tris, |vertices|) && 0 <= t < |tris| && 0 <= j < |tris[t].indices|
    ensures var ls := CornerLinks(vertices, tris[t], |vertices| + t, j, distance);
      AddLink(AddLink(NodesOf(vertices, tris, done), ls[0]), ls[1]) == NodesOf(vertices, tris, done + ls)
  {
    var ls := CornerLinks(vertices, tris[t], |vertices| + t, j, distance);
    AddLinkNodesOf(vertices, tris, done, ls[0]);
    AddLinkNodesOf(vertices, tris, done + [ls[0]], ls[1]);
    assert done + [ls[0]] + [ls[1]] == done + ls;
  }
}
