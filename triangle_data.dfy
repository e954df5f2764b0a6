/** `NavMeshTriangleData.Build`: the integer part of turning a triangulation
    into merged vertices, triangles over them, the pairs of triangles that
    share a vertex, and each triangle's list of such pairs. Positions are
    left abstract (`P`); whether two positions are close enough to merge and
    the centre of three positions are parameters. */
module TriangleData {

  /** `Triangle`: three merged vertex indices, the indices of the records
      naming the triangle, and its centre. */
  datatype Triangle<P> = Triangle(indices: seq<int>, triangleConnections: seq<int>, center: P)

  /** `TriangleConnection`: two triangles, `triangleA < triangleB`, and how
      many vertex index pairs they share. */
  datatype TriangleConnection = TriangleConnection(triangleA: int, triangleB: int, overlapedVertexCount: int)

  // Merging vertices

  /** The index of the first kept vertex that `v` is close to, or `|kept|`. */
  function FirstClose<P>(kept: seq<P>, v: P, close: (P, P) -> bool): (j: nat)
    ensures j <= |kept|
    ensures forall k :: 0 <= k < j ==> !close(v, kept[k])
    ensures j < |kept| ==> close(v, kept[j])
    decreases |kept|
  {
    if kept == [] then 0
    else if close(v, kept[0]) then 0
    else 1 + FirstClose(kept[1..], v, close)
  }

  /** The kept vertices and the translation buffer after merging. */
  datatype Merged<P> = Merged(vertices: seq<P>, translation: seq<int>)

  /** Each source vertex in turn maps to the first kept vertex it is close
      to, or is kept itself. */
  function Merge<P>(src: seq<P>, close: (P, P) -> bool): (m: Merged<P>)
    ensures |m.translation| == |src|
    ensures forall i :: 0 <= i < |src| ==> 0 <= m.translation[i] < |m.vertices|
    decreases |src|
  {
    if src == [] then Merged([], [])
    else
      var m := Merge(src[..|src| - 1], close);
      var v := src[|src| - 1];
      var j := FirstClose(m.vertices, v, close);
      if j < |m.vertices| then Merged(m.vertices, m.translation + [j])
      else Merged(m.vertices + [v], m.translation + [|m.vertices|])
  }

  /** Merging more source vertices only appends kept vertices and
      translation entries. */
  lemma {:induction false} MergeGrows<P>(src: seq<P>, n: nat, close: (P, P) -> bool)
    requires n <= |src|
    ensures |Merge(src[..n], close).vertices| <= |Merge(src, close).vertices|
    ensures Merge(src[..n], close).vertices == Merge(src, close).vertices[..|Merge(src[..n], close).vertices|]
    ensures Merge(src[..n], close).translation == Merge(src, close).translation[..n]
    decreases |src| - n
  {
    if n < |src| {
      MergeGrows(src[..|src| - 1], n, close);
      assert src[..|src| - 1][..n] == src[..n];
    } else {
      assert src[..n] == src;
    }
  }

  /** Source vertex `i` maps to the first kept vertex it is close to, or
      to itself, kept because it is close to none of the earlier ones. */
  lemma MergeMapsToFirstClose<P>(src: seq<P>, close: (P, P) -> bool, i: int)
    requires 0 <= i < |src|
    ensures forall k :: 0 <= k < Merge(src, close).translation[i] ==> !close(src[i], Merge(src, close).vertices[k])
    ensures close(src[i], Merge(src, close).vertices[Merge(src, close).translation[i]]) ||
            Merge(src, close).vertices[Merge(src, close).translation[i]] == src[i]
  {
    var m, m1 := Merge(src, close), Merge(src[..i + 1], close);
    MergeGrows(src, i + 1, close);
    MergeLast(src[..i + 1], close);
    assert src[..i + 1][i] == src[i];
    var t := m.translation[i];
    assert t == m1.translation[i];
    forall k | 0 <= k <= t
      ensures m.vertices[k] == m1.vertices[k]
    {
    }
  }

  /** The last source vertex maps to the first kept vertex of the shorter
      merge that it is close to, or to itself, appended. */
  lemma MergeLast<P>(src: seq<P>, close: (P, P) -> bool)
    requires src != []
    ensures Merge(src, close).translation[|src| - 1] < |Merge(src, close).vertices|
    ensures forall k :: 0 <= k < Merge(src, close).translation[|src| - 1] ==>
      !close(src[|src| - 1], Merge(src, close).vertices[k])
    ensures var t := Merge(src, close).translation[|src| - 1];
      close(src[|src| - 1], Merge(src, close).vertices[t]) || Merge(src, close).vertices[t] == src[|src| - 1]
  {
    var m0 := Merge(src[..|src| - 1], close);
    var j := FirstClose(m0.vertices, src[|src| - 1], close);
    if j == |m0.vertices| {
      assert Merge(src, close).vertices == m0.vertices + [src[|src| - 1]];
    }
  }

  /** No kept vertex is close to a vertex kept before it. */
  lemma {:induction false} KeptVerticesApart<P>(src: seq<P>, close: (P, P) -> bool)
    ensures forall k, k' :: 0 <= k' < k < |Merge(src, close).vertices| ==>
      !close(Merge(src, close).vertices[k], Merge(src, close).vertices[k'])
    decreases |src|
  {
    if src != [] {
      KeptVerticesApart(src[..|src| - 1], close);
      var m0 := Merge(src[..|src| - 1], close);
      var v := src[|src| - 1];
      if FirstClose(m0.vertices, v, close) == |m0.vertices| {
        var vs := m0.vertices + [v];
        assert Merge(src, close).vertices == vs;
        forall k, k' | 0 <= k' < k < |vs|
          ensures !close(vs[k], vs[k'])
        {
          if k < |m0.vertices| {
            assert vs[k] == m0.vertices[k] && vs[k'] == m0.vertices[k'];
          } else {
            assert vs[k'] == m0.vertices[k'];
          }
        }
      }
    }
  }

  /** The position of `v` is the first one with nothing close to `v` before it. */
  lemma {:induction false} FirstCloseIs<P>(kept: seq<P>, v: P, close: (P, P) -> bool, j: int)
    requires 0 <= j <= |kept|
    requires forall k :: 0 <= k < j ==> !close(v, kept[k])
    requires j < |kept| ==> close(v, kept[j])
    ensures FirstClose(kept, v, close) == j
    decreases |kept|
  {
    if kept != [] && j > 0 {
      assert !close(v, kept[0]);
      forall k | 0 <= k < j - 1
        ensures !close(v, kept[1..][k])
      {
        assert kept[1..][k] == kept[k + 1];
      }
      FirstCloseIs(kept[1..], v, close, j - 1);
    }
  }

  // Collecting triangles

  /** Triangle `t`: the translated vertices of indices `3t`, `3t + 1` and
      `3t + 2`, no connection list yet, centred on them. */
  function TriangleAt<P>(m: Merged<P>, indices: seq<int>, centre: (P, P, P) -> P, t: int): (tri: Triangle<P>)
    requires 0 <= t && 3 * t + 2 < |indices|
    requires IndicesFit(indices, |m.translation|)
    requires forall i :: 0 <= i < |m.translation| ==> 0 <= m.translation[i] < |m.vertices|
    ensures |tri.indices| == 3
    ensures forall k :: 0 <= k < 3 ==> tri.indices[k] == m.translation[indices[3 * t + k]]
    ensures forall k :: 0 <= k < 3 ==> 0 <= tri.indices[k] < |m.vertices|
  {
    var a, b, c := m.translation[indices[3 * t]], m.translation[indices[3 * t + 1]], m.translation[indices[3 * t + 2]];
    Triangle([a, b, c], [], centre(m.vertices[a], m.vertices[b], m.vertices[c]))
  }

  /** Every index of a complete triple names a source vertex; a trailing
      incomplete triple is never read. */
  predicate IndicesFit(indices: seq<int>, vertexCount: int) {
    forall i :: 0 <= i < |indices| / 3 * 3 ==> 0 <= indices[i] < vertexCount
  }

  /** The triangles collected before the connection lists are filled in. */
  function Triangles<P>(m: Merged<P>, indices: seq<int>, centre: (P, P, P) -> P): (tris: seq<Triangle<P>>)
    requires IndicesFit(indices, |m.translation|)
    requires forall i :: 0 <= i < |m.translation| ==> 0 <= m.translation[i] < |m.vertices|
    ensures |tris| == |indices| / 3
  {
    seq(|indices| / 3, t requires 0 <= t < |indices| / 3 => TriangleAt(m, indices, centre, t))
  }

  // Counting shared vertices

  /** How often `x` occurs in `b`. */
  function Occurrences(b: seq<int>, x: int): (n: nat)
    ensures n <= |b|
  {
    if b == [] then 0 else Occurrences(b[..|b| - 1], x) + (if b[|b| - 1] == x then 1 else 0)
  }

  /** The number of index pairs `(i, j)` with `a[i] == b[j]`. */
  function Overlap(a: seq<int>, b: seq<int>): nat {
    if a == [] then 0 else Overlap(a[..|a| - 1], b) + Occurrences(b, a[|a| - 1])
  }

  /** `x` occurs in `b` exactly when it counts. */
  lemma {:induction false} OccurrencesPositive(b: seq<int>, x: int)
    ensures Occurrences(b, x) > 0 <==> x in b
  {
    if b != [] {
      OccurrencesPositive(b[..|b| - 1], x);
      assert b == b[..|b| - 1] + [b[|b| - 1]];
    }
  }

  /** Two index lists overlap exactly when they share a value. */
  lemma {:induction false} OverlapPositive(a: seq<int>, b: seq<int>)
    ensures Overlap(a, b) > 0 <==> exists i :: 0 <= i < |a| && a[i] in b
  {
    if a != [] {
      OverlapPositive(a[..|a| - 1], b);
      OccurrencesPositive(b, a[|a| - 1]);
      if Overlap(a, b) > 0 {
        if Occurrences(b, a[|a| - 1]) == 0 {
          var i :| 0 <= i < |a| - 1 && a[..|a| - 1][i] in b;
          assert a[i] in b;
        }
      } else {
        forall i | 0 <= i < |a|
          ensures a[i] !in b
        {
          if i < |a| - 1 {
            assert a[..|a| - 1][i] == a[i];
          }
        }
      }
    }
  }

  /** Counting one more element of `b` adds its occurrences in `a`. */
  lemma {:induction false} OverlapSnoc(a: seq<int>, b: seq<int>, y: int)
    ensures Overlap(a, b + [y]) == Overlap(a, b) + Occurrences(a, y)
    decreases |a|
  {
    if a != [] {
      OverlapSnoc(a[..|a| - 1], b, y);
      assert (b + [y])[..|b + [y]| - 1] == b;
    }
  }

  /** The pair count does not depend on which list comes first. */
  lemma {:induction false} OverlapSymmetric(a: seq<int>, b: seq<int>)
    ensures Overlap(a, b) == Overlap(b, a)
    decreases |b|
  {
    if b != [] {
      var b' := b[..|b| - 1];
      OverlapSymmetric(a, b');
      OverlapSnoc(a, b', b[|b| - 1]);
      assert b' + [b[|b| - 1]] == b;
    } else {
      OverlapEmpty(a);
    }
  }

  lemma {:induction false} OverlapEmpty(a: seq<int>)
    ensures Overlap(a, []) == 0
  {
    if a != [] {
      OverlapEmpty(a[..|a| - 1]);
    }
  }

  /** `CountSameValues`: the pair count, in the source's nested loops. */
  method CountSameValues(values0: seq<int>, values1: seq<int>) returns (count: int)
    ensures count == Overlap(values0, values1)
  {
    count := 0;
    for i := 0 to |values0|
      invariant count == Overlap(values0[..i], values1)
    {
      for j := 0 to |values1|
        invariant count == Overlap(values0[..i], values1) + Occurrences(values1[..j], values0[i])
      {
        if values0[i] == values1[j] {
          count := count + 1;
        }
        assert values1[..j + 1][..j] == values1[..j];
      }
      assert values1[..|values1|] == values1;
      assert values0[..i + 1][..i] == values0[..i];
    }
    assert values0[..|values0|] == values0;
  }

  // Triangle connection records

  /** A record is a pair of triangles that share a vertex, with their count. */
  predicate IsRecordOf<P>(tris: seq<Triangle<P>>, r: TriangleConnection) {
    0 <= r.triangleA < r.triangleB < |tris| &&
    r.overlapedVertexCount == Overlap(tris[r.triangleA].indices, tris[r.triangleB].indices) &&
    r.overlapedVertexCount >= 1
  }

  /** The records of row `i`: one per `j` with `i < j < k` whose triangles
      share a vertex, in order of `j`. */
  function RowRecords<P>(tris: seq<Triangle<P>>, i: int, k: int): (rs: seq<TriangleConnection>)
    requires 0 <= i < k <= |tris|
    ensures forall r :: r in rs ==> r.triangleA == i && i < r.triangleB < k && IsRecordOf(tris, r)
    decreases k
  {
    if k == i + 1 then []
    else
      var rs := RowRecords(tris, i, k - 1);
      var c := Overlap(tris[i].indices, tris[k - 1].indices);
      if c < 1 then rs else rs + [TriangleConnection(i, k - 1, c)]
  }

  /** The records of rows `0 .. i - 1`, row after row. */
  function Records<P>(tris: seq<Triangle<P>>, i: int): (rs: seq<TriangleConnection>)
    requires 0 <= i <= |tris|
    ensures forall r :: r in rs ==> r.triangleA < i && IsRecordOf(tris, r)
    decreases i
  {
    if i == 0 then [] else Records(tris, i - 1) + RowRecords(tris, i - 1, |tris|)
  }

  /** `(a, b)` comes strictly before `(c, d)` in lexicographic order. */
  predicate PairBefore(a: int, b: int, c: int, d: int) {
    a < c || (a == c && b < d)
  }

  /** A row's records are records, in strictly increasing order. */
  lemma {:induction false} RowRecordsOrdered<P>(tris: seq<Triangle<P>>, i: int, k: int)
    requires 0 <= i < k <= |tris|
    ensures forall p, q :: 0 <= p < q < |RowRecords(tris, i, k)| ==>
      RowRecords(tris, i, k)[p].triangleB < RowRecords(tris, i, k)[q].triangleB
    decreases k
  {
    if k > i + 1 {
      RowRecordsOrdered(tris, i, k - 1);
      var rs := RowRecords(tris, i, k - 1);
      var c := Overlap(tris[i].indices, tris[k - 1].indices);
      if c >= 1 {
        var rs' := rs + [TriangleConnection(i, k - 1, c)];
        assert RowRecords(tris, i, k) == rs';
        forall p, q | 0 <= p < q < |rs'|
          ensures rs'[p].triangleB < rs'[q].triangleB
        {
          assert rs'[p] == rs[p] && rs[p] in rs;
          if q < |rs| {
            assert rs'[q] == rs[q];
          }
        }
      }
    }
  }

  /** Every pair of the row that shares a vertex has its record. */
  lemma {:induction false} RowRecordsComplete<P>(tris: seq<Triangle<P>>, i: int, k: int, j: int)
    requires 0 <= i < j < k <= |tris|
    requires Overlap(tris[i].indices, tris[j].indices) >= 1
    ensures TriangleConnection(i, j, Overlap(tris[i].indices, tris[j].indices)) in RowRecords(tris, i, k)
    decreases k
  {
    if j < k - 1 {
      RowRecordsComplete(tris, i, k - 1, j);
    }
  }

  /** The records come in strictly increasing lexicographic order of
      `(triangleA, triangleB)`, so no pair has two records. */
  lemma {:induction false} RecordsOrdered<P>(tris: seq<Triangle<P>>, n: int)
    requires 0 <= n <= |tris|
    ensures forall p, q :: 0 <= p < q < |Records(tris, n)| ==>
      PairBefore(Records(tris, n)[p].triangleA, Records(tris, n)[p].triangleB,
                 Records(tris, n)[q].triangleA, Records(tris, n)[q].triangleB)
    decreases n
  {
    if n > 0 {
      RecordsOrdered(tris, n - 1);
      RowRecordsOrdered(tris, n - 1, |tris|);
      var prev, row := Records(tris, n - 1), RowRecords(tris, n - 1, |tris|);
      var rs := prev + row;
      assert Records(tris, n) == rs;
      forall p, q | 0 <= p < q < |rs|
        ensures PairBefore(rs[p].triangleA, rs[p].triangleB, rs[q].triangleA, rs[q].triangleB)
      {
        if q < |prev| {
          assert rs[p] == prev[p] && rs[q] == prev[q];
        } else if p < |prev| {
          assert rs[p] == prev[p] && rs[p] in prev;
          assert rs[q] == row[q - |prev|] && rs[q] in row;
        } else {
          assert rs[p] == row[p - |prev|] && rs[q] == row[q - |prev|];
        }
      }
    }
  }

  /** Every pair `i < j` of triangles that share a vertex has a record;
      with the contract of `Records`, the records are exactly those pairs. */
  lemma {:induction false} RecordsComplete<P>(tris: seq<Triangle<P>>, n: int, i: int, j: int)
    requires 0 <= i < n <= |tris| && i < j < |tris|
    requires Overlap(tris[i].indices, tris[j].indices) >= 1
    ensures TriangleConnection(i, j, Overlap(tris[i].indices, tris[j].indices)) in Records(tris, n)
    decreases n
  {
    if i == n - 1 {
      RowRecordsComplete(tris, i, |tris|, j);
    } else {
      RecordsComplete(tris, n - 1, i, j);
    }
  }

  // Per-triangle connection lists

  /** The indices below `k` of the records naming triangle `t`, ascending. */
  function Incident(records: seq<TriangleConnection>, t: int, k: int): (ids: seq<int>)
    requires 0 <= k <= |records|
    ensures forall p :: 0 <= p < |ids| ==> 0 <= ids[p] < k
    decreases k
  {
    if k == 0 then []
    else
      var r := records[k - 1];
      Incident(records, t, k - 1) + (if r.triangleA == t || r.triangleB == t then [k - 1] else [])
  }

  /** A triangle's list holds, in ascending order, exactly the records that
      name it. */
  lemma {:induction false} IncidentExactly(records: seq<TriangleConnection>, t: int, k: int)
    requires 0 <= k <= |records|
    ensures var ids := Incident(records, t, k);
      (forall p, q :: 0 <= p < q < |ids| ==> ids[p] < ids[q]) &&
      (forall x :: x in ids <==> 0 <= x < k && (records[x].triangleA == t || records[x].triangleB == t))
    decreases k
  {
    if k > 0 {
      IncidentExactly(records, t, k - 1);
    }
  }

  /** The collected triangles with their connection lists filled in. */
  function WithIncident<P>(tris: seq<Triangle<P>>, records: seq<TriangleConnection>): (r: seq<Triangle<P>>)
    ensures |r| == |tris|
    ensures forall t :: 0 <= t < |tris| ==>
      r[t].indices == tris[t].indices && r[t].center == tris[t].center &&
      r[t].triangleConnections == Incident(records, t, |records|)
  {
    seq(|tris|, t requires 0 <= t < |tris| => tris[t].(triangleConnections := Incident(records, t, |records|)))
  }

  /** `NavMeshTriangleData`: the merged vertices, the translation buffer, the
      triangles and the triangle connection records of the last `Build`. */
  class NavMeshTriangleData<P> {
    /** `_vertices` */
    var vertices: seq<P>
    /** `_verticesTranslationBuffer` */
    var verticesTranslationBuffer: seq<int>
    /** `_triangles` */
    var triangles: seq<Triangle<P>>
    /** `_triangleConnections` */
    var triangleConnections: seq<TriangleConnection>

    /** A new, empty data set. */
    constructor ()
      ensures vertices == [] && verticesTranslationBuffer == [] && triangles == [] && triangleConnections == []
    {
      vertices := [];
      verticesTranslationBuffer := [];
      triangles := [];
      triangleConnections := [];
    }

    /** `Build` over the triangulation's vertices and index array. Every
        field is rebuilt from scratch, so the result depends only on the
        triangulation. */
    method Build(sourceVertices: seq<P>, sourceIndices: seq<int>, close: (P, P) -> bool, centre: (P, P, P) -> P)
      requires IndicesFit(sourceIndices, |sourceVertices|)
      modifies this
      ensures var m := Merge(sourceVertices, close);
        vertices == m.vertices && verticesTranslationBuffer == m.translation &&
        var tris := Triangles(m, sourceIndices, centre);
        triangleConnections == Records(tris, |tris|) &&
        triangles == WithIncident(tris, triangleConnections)
    {
      MergeVertices(sourceVertices, close);
      CollectTriangles(sourceIndices, centre);
      CalculateTriangleConnections();
      CollectTriangleConnectionLists();
    }

    /** The first block of `Build`: each source vertex either maps to the
        first kept vertex it is close to or is kept. */
    method MergeVertices(sourceVertices: seq<P>, close: (P, P) -> bool)
      modifies this
      ensures vertices == Merge(sourceVertices, close).vertices
      ensures verticesTranslationBuffer == Merge(sourceVertices, close).translation
      ensures triangles == old(triangles) && triangleConnections == old(triangleConnections)
    {
      vertices := [];
      verticesTranslationBuffer := [];
      for i := 0 to |sourceVertices|
        invariant Merged(vertices, verticesTranslationBuffer) == Merge(sourceVertices[..i], close)
        invariant triangles == old(triangles) && triangleConnections == old(triangleConnections)
      {
        var vertex := sourceVertices[i];
        var merged := false;
        var j := 0;
        while j < |vertices|
          invariant 0 <= j <= |vertices|
          invariant forall k :: 0 <= k < j ==> !close(vertex, vertices[k])
          invariant Merged(vertices, verticesTranslationBuffer) == Merge(sourceVertices[..i], close)
        {
          if close(vertex, vertices[j]) {
            merged := true;
            break;
          }
          j := j + 1;
        }
        FirstCloseIs(vertices, vertex, close, j);
        assert sourceVertices[..i + 1][..i] == sourceVertices[..i];
        if merged {
          verticesTranslationBuffer := verticesTranslationBuffer + [j];
        } else {
          vertices := vertices + [vertex];
          verticesTranslationBuffer := verticesTranslationBuffer + [|vertices| - 1];
        }
      }
      assert sourceVertices[..|sourceVertices|] == sourceVertices;
    }

    /** The second block of `Build`: one triangle per complete triple of
        indices, over the merged vertices. */
    method CollectTriangles(sourceIndices: seq<int>, centre: (P, P, P) -> P)
      requires IndicesFit(sourceIndices, |verticesTranslationBuffer|)
      requires forall i :: 0 <= i < |verticesTranslationBuffer| ==> 0 <= verticesTranslationBuffer[i] < |vertices|
      modifies this
      ensures vertices == old(vertices) && verticesTranslationBuffer == old(verticesTranslationBuffer)
      ensures triangleConnections == old(triangleConnections)
      ensures triangles == Triangles(Merged(vertices, verticesTranslationBuffer), sourceIndices, centre)
    {
      ghost var m := Merged(vertices, verticesTranslationBuffer);
      triangles := [];
      var sourceIndicesCount := |sourceIndices|;
      var i := 0;
      while i <= sourceIndicesCount - 3
        invariant i == 3 * |triangles| && |triangles| <= sourceIndicesCount / 3
        invariant forall t :: 0 <= t < |triangles| ==> triangles[t] == TriangleAt(m, sourceIndices, centre, t)
        invariant m == Merged(vertices, verticesTranslationBuffer) && triangleConnections == old(triangleConnections)
        decreases sourceIndicesCount - i
      {
        var idx0 := sourceIndices[i];
        var idx1 := sourceIndices[i + 1];
        var idx2 := sourceIndices[i + 2];
        var indices := [verticesTranslationBuffer[idx0], verticesTranslationBuffer[idx1], verticesTranslationBuffer[idx2]];
        var triangle := Triangle(indices, [], centre(vertices[indices[0]], vertices[indices[1]], vertices[indices[2]]));
        triangles := triangles + [triangle];
        i := i + 3;
      }
    }

    /** The third block of `Build`: a record for every pair of triangles
        `i < j` that share a vertex, row by row. */
    method CalculateTriangleConnections()
      modifies this
      ensures triangleConnections == Records(triangles, |triangles|)
      ensures vertices == old(vertices) && verticesTranslationBuffer == old(verticesTranslationBuffer)
      ensures triangles == old(triangles)
    {
      triangleConnections := [];
      var polygonCount := |triangles|;
      for i := 0 to polygonCount
        invariant vertices == old(vertices) && verticesTranslationBuffer == old(verticesTranslationBuffer)
        invariant triangles == old(triangles) && polygonCount == |triangles|
        invariant triangleConnections == Records(triangles, i)
      {
        var currentPoly := triangles[i];
        ghost var before := triangleConnections;
        for j := i + 1 to polygonCount
          invariant vertices == old(vertices) && verticesTranslationBuffer == old(verticesTranslationBuffer)
          invariant triangles == old(triangles) && polygonCount == |triangles|
          invariant triangleConnections == before + RowRecords(triangles, i, j)
        {
          var targetPoly := triangles[j];
          var overlapCount := CountSameValues(currentPoly.indices, targetPoly.indices);
          if overlapCount < 1 {
            continue;
          }
          triangleConnections := triangleConnections + [TriangleConnection(i, j, overlapCount)];
        }
      }
    }

    /** The last block of `Build`: each triangle's list of the records
        naming it, in record order. */
    method CollectTriangleConnectionLists()
      modifies this
      ensures triangles == WithIncident(old(triangles), triangleConnections)
      ensures vertices == old(vertices) && verticesTranslationBuffer == old(verticesTranslationBuffer)
      ensures triangleConnections == old(triangleConnections)
    {
      for i := 0 to |triangles|
        invariant |triangles| == |old(triangles)|
        invariant vertices == old(vertices) && verticesTranslationBuffer == old(verticesTranslationBuffer)
        invariant triangleConnections == old(triangleConnections)
        invariant forall t :: 0 <= t < |triangles| ==>
          triangles[t] == if t < i then old(triangles)[t].(triangleConnections := Incident(triangleConnections, t, |triangleConnections|))
                          else old(triangles)[t]
      {
        var triangle := triangles[i];
        var triangleConnectionBuffer := [];
        for j := 0 to |triangleConnections|
          invariant triangleConnectionBuffer == Incident(triangleConnections, i, j)
        {
          var triangleConnection := triangleConnections[j];
          if triangleConnection.triangleA == i || triangleConnection.triangleB == i {
            triangleConnectionBuffer := triangleConnectionBuffer + [j];
          }
        }
        triangles := triangles[i := triangle.(triangleConnections := triangleConnectionBuffer)];
      }
    }
  }
}
