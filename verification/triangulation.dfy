// Collision elements turned into indexed triangle meshes: the mesh instantiation of the
// tessellator, the fixed box, icosphere and icocapsule tables, their 1-to-4 subdivision pass,
// and the concatenation of a whole collision setup into one mesh.

module Triangulation {
  import opened Vectors
  import opened WaterPhysicsTypes
  import opened Tessellation

  /** The mesh instantiation's SplitEdge: (A + B) / 2. */
  function MeshMidpoint(a: Vec3, b: Vec3): Vec3 {
    Scale(Add(a, b), 0.5)
  }

  function MeshPosition(v: Vec3): Vec3 {
    v
  }

  lemma MeshMidpointLaw()
    ensures MidpointLaw(MeshPosition, MeshMidpoint)
  {
    forall x: Vec3, y: Vec3
      ensures MeshMidpoint(x, y) == MeshMidpoint(y, x)
    {
    }
  }

  /** The number of passes levels mode makes for a Levels setting: none for a negative one. */
  function Passes(levels: int): nat {
    if levels < 0 then 0 else levels
  }

  /** TessellateTriangles over an FIndexedTriangleMesh: the flat index list is the triangle
      list three indices at a time. The result is well formed, keeps the old vertices as a
      prefix, adds exactly one vertex per split edge, and in levels mode has 2^levels times
      the triangles. */
  method TessellateMesh(mesh: IndexedTriangleMesh, settings: TessellationSettings) returns (r: IndexedTriangleMesh)
    requires WellFormed(mesh)
    requires settings.mode == Area ==> settings.maxArea > 0.0
    ensures WellFormed(r) && mesh.vertexList <= r.vertexList
    ensures settings.mode == Levels ==> |r.indexList| == |mesh.indexList| * Pow2(Passes(settings.levels))
    ensures settings.mode == Area ==> |mesh.indexList| <= |r.indexList|
  {
    var tris := Unflatten(mesh.indexList);
    FlattenUnflatten(mesh.indexList);
    FlattenWellFormed(mesh.vertexList, tris);
    MeshMidpointLaw();
    var arr := new TriangleArray(mesh.vertexList, tris, MeshPosition, MeshMidpoint);
    ghost var edges := arr.TessellateTriangles(settings);
    FlattenWellFormed(arr.vertices, arr.triangles);
    r := IndexedTriangleMesh(arr.vertices, Flatten(arr.triangles));
    if settings.mode == Levels {
      var p := Pow2(Passes(settings.levels));
      assert |arr.triangles| == |tris| * p;
      TripleTimes(|tris|, p);
    }
  }

  lemma TripleTimes(n: int, p: int)
    ensures 3 * (n * p) == (3 * n) * p
  {
  }

  /** A corner of the box table. */
  type BoxCorner = k: int | 0 <= k < 8

  /** The box's index table: two triangles per face, 12 in all, over the 8 corners. */
  const BoxIndices: seq<BoxCorner> := [
    0, 2, 1, 0, 3, 2, 0, 1, 5, 0, 5, 4,
    1, 2, 6, 1, 6, 5, 2, 3, 7, 2, 7, 6,
    3, 0, 4, 3, 4, 7, 5, 6, 7, 5, 7, 4]

  /** The box corners before the transform: bottom face counter-clockwise from the minimum
      corner, then the top face. */
  function BoxCorners(halfExtent: Vec3): (r: seq<Vec3>)
    ensures |r| == 8
    ensures forall k :: 0 <= k < 8 ==> Abs(r[k]) == Abs(halfExtent)
  {
    var lo, hi := Neg(halfExtent), halfExtent;
    [Vec3(lo.x, lo.y, lo.z), Vec3(hi.x, lo.y, lo.z), Vec3(hi.x, hi.y, lo.z), Vec3(lo.x, hi.y, lo.z),
     Vec3(lo.x, lo.y, hi.z), Vec3(hi.x, lo.y, hi.z), Vec3(hi.x, hi.y, hi.z), Vec3(lo.x, hi.y, hi.z)]
  }

  /** A box's mesh: well formed, its first 8 vertices the corners under the box transform,
      and 12 triangles times 2^subdivisions. */
  predicate BoxTriangulation(m: IndexedTriangleMesh, halfExtent: Vec3, center: Vec3, rotation: Rotator,
                             transform: (Rotator, Vec3, Vec3) -> Vec3, subdivisions: int)
  {
    WellFormed(m) && |m.vertexList| >= 8 &&
    (forall k :: 0 <= k < 8 ==> m.vertexList[k] == transform(rotation, center, BoxCorners(halfExtent)[k])) &&
    |m.indexList| == 36 * Pow2(Passes(subdivisions))
  }

  /** TriangulateBoxElem: the 8 corners moved by the box transform and the 12-triangle table,
      tessellated in levels mode with Levels = subdivisions. The transform (rotation, then
      the centre) is engine code, given as a function. */
  method TriangulateBox(halfExtent: Vec3, center: Vec3, rotation: Rotator,
                        transform: (Rotator, Vec3, Vec3) -> Vec3, subdivisions: int)
    returns (r: IndexedTriangleMesh)
    ensures BoxTriangulation(r, halfExtent, center, rotation, transform, subdivisions)
  {
    var corners := BoxCorners(halfExtent);
    var transformed := seq(8, k requires 0 <= k < 8 => transform(rotation, center, corners[k]));
    var settings := TessellationSettings(Levels, DefaultTessellationSettings.maxArea, subdivisions);
    r := TessellateMesh(IndexedTriangleMesh(transformed, BoxIndices), settings);
  }

  // ---------------------------------------------------------------------------------------
  // The 1-to-4 subdivision pass shared by the sphere and the capsule.

  /** The three edges of triangle (a, b, c) as unordered edges. */
  function TriangleEdges(a: int, b: int, c: int): set<(int, int)> {
    {UnorderedEdge(a, b), UnorderedEdge(b, c), UnorderedEdge(c, a)}
  }

  /** The distinct unordered edges of the triangles of a flat index list. */
  function EdgesOf(idx: seq<int>): set<(int, int)>
    requires |idx| % 3 == 0
    decreases |idx|
  {
    if |idx| == 0 then {} else
      var p := |idx| - 3;
      EdgesOf(idx[..p]) + TriangleEdges(idx[p], idx[p + 1], idx[p + 2])
  }

  /** The four children of (i0, i1, i2): each corner with the midpoints of its two edges, in the
      parent's winding, and the middle triangle of the three midpoints. */
  function Children(i0: int, i1: int, i2: int, lookup: map<(int, int), int>): (r: seq<int>)
    requires TriangleEdges(i0, i1, i2) <= lookup.Keys
    ensures |r| == 12
  {
    var m0, m1, m2 := lookup[UnorderedEdge(i0, i1)], lookup[UnorderedEdge(i1, i2)], lookup[UnorderedEdge(i2, i0)];
    [i0, m0, m2, i1, m1, m0, i2, m2, m1, m0, m1, m2]
  }

  /** The index list a subdivision pass writes: the children of each triangle, in order. */
  function Subdivided(idx: seq<int>, lookup: map<(int, int), int>): seq<int>
    requires |idx| % 3 == 0 && EdgesOf(idx) <= lookup.Keys
    decreases |idx|
  {
    if |idx| == 0 then [] else
      var p := |idx| - 3;
      Subdivided(idx[..p], lookup) + Children(idx[p], idx[p + 1], idx[p + 2], lookup)
  }

  /** A subdivided list has four times the indices, and triangle t's block of twelve is its
      four children. */
  lemma {:induction false} SubdividedShape(idx: seq<int>, lookup: map<(int, int), int>)
    requires |idx| % 3 == 0 && EdgesOf(idx) <= lookup.Keys
    ensures |Subdivided(idx, lookup)| == 4 * |idx|
    ensures forall t :: 0 <= t < |idx| / 3 ==>
      TriangleEdges(idx[3 * t], idx[3 * t + 1], idx[3 * t + 2]) <= lookup.Keys &&
      Subdivided(idx, lookup)[12 * t .. 12 * t + 12] == Children(idx[3 * t], idx[3 * t + 1], idx[3 * t + 2], lookup)
  {
    if |idx| > 0 {
      var p := |idx| - 3;
      var pre := idx[..p];
      SubdividedShape(pre, lookup);
      var s := Subdivided(idx, lookup);
      assert s == Subdivided(pre, lookup) + Children(idx[p], idx[p + 1], idx[p + 2], lookup);
      forall t | 0 <= t < |idx| / 3
        ensures TriangleEdges(idx[3 * t], idx[3 * t + 1], idx[3 * t + 2]) <= lookup.Keys
        ensures s[12 * t .. 12 * t + 12] == Children(idx[3 * t], idx[3 * t + 1], idx[3 * t + 2], lookup)
      {
        if t < p / 3 {
          assert idx[3 * t] == pre[3 * t] && idx[3 * t + 1] == pre[3 * t + 1] && idx[3 * t + 2] == pre[3 * t + 2];
          assert s[12 * t .. 12 * t + 12] == Subdivided(pre, lookup)[12 * t .. 12 * t + 12];
        } else {
          assert 3 * t == p;
        }
      }
    }
  }

  /** Only the entries for the list's own edges are read, so a larger map gives the same list. */
  lemma {:induction false} SubdividedLarger(idx: seq<int>, lookup: map<(int, int), int>, lookup': map<(int, int), int>)
    requires |idx| % 3 == 0 && EdgesOf(idx) <= lookup.Keys
    requires forall e :: e in lookup ==> e in lookup' && lookup'[e] == lookup[e]
    ensures EdgesOf(idx) <= lookup'.Keys && Subdivided(idx, lookup') == Subdivided(idx, lookup)
  {
    if |idx| > 0 {
      SubdividedLarger(idx[..|idx| - 3], lookup, lookup');
    }
  }

  /** Every index of the subdivided list is an old index or a looked-up midpoint. */
  lemma {:induction false} SubdividedBounded(idx: seq<int>, lookup: map<(int, int), int>, n: int)
    requires |idx| % 3 == 0 && EdgesOf(idx) <= lookup.Keys
    requires forall k :: 0 <= k < |idx| ==> 0 <= idx[k] < n
    requires forall e :: e in lookup ==> 0 <= lookup[e] < n
    ensures forall k :: 0 <= k < |Subdivided(idx, lookup)| ==> 0 <= Subdivided(idx, lookup)[k] < n
  {
    if |idx| > 0 {
      var p := |idx| - 3;
      SubdividedBounded(idx[..p], lookup, n);
    }
  }

  /** Entry e of the lookup of a subdivision pass over vertex list vs0: an edge of old vertices,
      lower index second, mapped to a new vertex made from its two ends. */
  ghost predicate EdgeEntry(vs0: seq<Vec3>, vs: seq<Vec3>, lookup: map<(int, int), int>, newVertex: (Vec3, Vec3) -> Vec3, e: (int, int)) {
    e in lookup && 0 <= e.1 <= e.0 < |vs0| && |vs0| <= lookup[e] < |vs| &&
    (vs[lookup[e]] == newVertex(vs0[e.0], vs0[e.1]) || vs[lookup[e]] == newVertex(vs0[e.1], vs0[e.0]))
  }

  /** The lookup of one subdivision pass: old vertices kept, every entry valid, and each new
      vertex belonging to exactly one edge. */
  ghost predicate EdgeLookupValid(vs0: seq<Vec3>, vs: seq<Vec3>, lookup: map<(int, int), int>, newVertex: (Vec3, Vec3) -> Vec3) {
    vs0 <= vs && |vs| == |vs0| + |lookup| &&
    (forall e {:trigger EdgeEntry(vs0, vs, lookup, newVertex, e)} :: e in lookup ==> EdgeEntry(vs0, vs, lookup, newVertex, e)) &&
    (forall e, e' {:trigger EdgeEntry(vs0, vs, lookup, newVertex, e), EdgeEntry(vs0, vs, lookup, newVertex, e')} ::
      EdgeEntry(vs0, vs, lookup, newVertex, e) && EdgeEntry(vs0, vs, lookup, newVertex, e') && lookup[e] == lookup[e'] ==> e == e')
  }

  /** The VertexForEdge lambda: the vertex recorded for edge {first, second}, or a new one made
      from its two ends and recorded. */
  method VertexForEdge(first: int, second: int, vs0: seq<Vec3>, vertices: seq<Vec3>, lookup: map<(int, int), int>,
                       newVertex: (Vec3, Vec3) -> Vec3)
    returns (index: int, vertices': seq<Vec3>, lookup': map<(int, int), int>)
    requires 0 <= first < |vs0| && 0 <= second < |vs0|
    requires EdgeLookupValid(vs0, vertices, lookup, newVertex)
    ensures EdgeLookupValid(vs0, vertices', lookup', newVertex)
    ensures lookup'.Keys == lookup.Keys + {UnorderedEdge(first, second)}
    ensures forall e :: e in lookup ==> lookup'[e] == lookup[e]
    ensures index == lookup'[UnorderedEdge(first, second)]
  {
    var key := UnorderedEdge(first, second);
    if key in lookup {
      index, vertices', lookup' := lookup[key], vertices, lookup;
    } else {
      index := |vertices|;
      vertices' := vertices + [newVertex(vertices[first], vertices[second])];
      lookup' := lookup[key := index];
      assert vertices[first] == vs0[first] && vertices[second] == vs0[second];
      assert {key.0, key.1} == {first, second};
      assert EdgeEntry(vs0, vertices', lookup', newVertex, key);
      forall e | e in lookup'
        ensures EdgeEntry(vs0, vertices', lookup', newVertex, e)
      {
        if e != key {
          assert EdgeEntry(vs0, vertices, lookup, newVertex, e);
          assert vertices'[lookup[e]] == vertices[lookup[e]];
        }
      }
      forall e, e' | EdgeEntry(vs0, vertices', lookup', newVertex, e) && EdgeEntry(vs0, vertices', lookup', newVertex, e') && lookup'[e] == lookup'[e']
        ensures e == e'
      {
        if e != key {
          assert EdgeEntry(vs0, vertices, lookup, newVertex, e);
        }
        if e' != key {
          assert EdgeEntry(vs0, vertices, lookup, newVertex, e');
        }
      }
      assert |lookup'| == |lookup| + 1;
    }
  }

  lemma NextTriple(i: int, n: int)
    requires 0 <= i < n && i % 3 == 0 && n % 3 == 0
    ensures i + 3 <= n && (i + 3) % 3 == 0
  {
  }

  /** The loop body of a subdivision pass: the three edge vertices of triangle (i0, i1, i2),
      looked up or made, and its four children. */
  method SubdivideTriangle(i0: int, i1: int, i2: int, vs0: seq<Vec3>, vertices: seq<Vec3>, lookup: map<(int, int), int>,
                           newVertex: (Vec3, Vec3) -> Vec3)
    returns (children: seq<int>, vertices': seq<Vec3>, lookup': map<(int, int), int>)
    requires 0 <= i0 < |vs0| && 0 <= i1 < |vs0| && 0 <= i2 < |vs0|
    requires EdgeLookupValid(vs0, vertices, lookup, newVertex)
    ensures EdgeLookupValid(vs0, vertices', lookup', newVertex)
    ensures lookup'.Keys == lookup.Keys + TriangleEdges(i0, i1, i2)
    ensures forall e :: e in lookup ==> lookup'[e] == lookup[e]
    ensures children == Children(i0, i1, i2, lookup')
  {
    var v1, l1, v2, l2;
    var m0, m1, m2;
    m0, v1, l1 := VertexForEdge(i0, i1, vs0, vertices, lookup, newVertex);
    m1, v2, l2 := VertexForEdge(i1, i2, vs0, v1, l1, newVertex);
    m2, vertices', lookup' := VertexForEdge(i2, i0, vs0, v2, l2, newVertex);
    children := Children(i0, i1, i2, lookup');
    KeysGrow(lookup.Keys, l1.Keys, l2.Keys, lookup'.Keys, i0, i1, i2);
  }

  /** Three edge lookups in a row add the triangle's three edges to the key set. */
  lemma KeysGrow(k0: set<(int, int)>, k1: set<(int, int)>, k2: set<(int, int)>, k3: set<(int, int)>, i0: int, i1: int, i2: int)
    requires k1 == k0 + {UnorderedEdge(i0, i1)} && k2 == k1 + {UnorderedEdge(i1, i2)} && k3 == k2 + {UnorderedEdge(i2, i0)}
    ensures k3 == k0 + TriangleEdges(i0, i1, i2)
  {
  }

  /** The loop of a subdivision pass: the children of every triangle, in order, and the new
      vertices with the lookup that records them. */
  method SubdivideLoop(idx: seq<int>, vs0: seq<Vec3>, newVertex: (Vec3, Vec3) -> Vec3)
    returns (vertices: seq<Vec3>, newIndices: seq<int>, edges: map<(int, int), int>)
    requires |idx| % 3 == 0 && forall k :: 0 <= k < |idx| ==> 0 <= idx[k] < |vs0|
    ensures EdgeLookupValid(vs0, vertices, edges, newVertex)
    ensures edges.Keys == EdgesOf(idx)
    ensures newIndices == Subdivided(idx, edges)
  {
    vertices := vs0;
    edges := map[];
    newIndices := [];
    var i := 0;
    while i < |idx|
      invariant 0 <= i <= |idx| && i % 3 == 0
      invariant EdgeLookupValid(vs0, vertices, edges, newVertex)
      invariant edges.Keys == EdgesOf(idx[..i])
      invariant newIndices == Subdivided(idx[..i], edges)
    {
      NextTriple(i, |idx|);
      ghost var edgesBefore := edges;
      var children;
      children, vertices, edges := SubdivideTriangle(idx[i], idx[i + 1], idx[i + 2], vs0, vertices, edges, newVertex);
      assert idx[..i + 3][..i] == idx[..i];
      SubdividedLarger(idx[..i], edgesBefore, edges);
      newIndices := newIndices + children;
      i := i + 3;
    }
    assert idx[..|idx|] == idx;
  }

  /** One subdivision pass (SubdivideIcoSphere / SubdivideIcoCapsule): every triangle becomes
      its four children, over a vertex list that gains exactly one new vertex per distinct
      edge of the old mesh. newVertex is how the pass makes the vertex of an edge from its
      two ends (normalised sum on the sphere, midpoint clamped to the capsule on the capsule). */
  method Subdivide(mesh: IndexedTriangleMesh, newVertex: (Vec3, Vec3) -> Vec3)
    returns (r: IndexedTriangleMesh, ghost lookup: map<(int, int), int>)
    requires WellFormed(mesh)
    ensures EdgeLookupValid(mesh.vertexList, r.vertexList, lookup, newVertex)
    ensures lookup.Keys == EdgesOf(mesh.indexList)
    ensures |r.vertexList| == |mesh.vertexList| + |EdgesOf(mesh.indexList)|
    ensures r.indexList == Subdivided(mesh.indexList, lookup)
    ensures |r.indexList| == 4 * |mesh.indexList| && WellFormed(r)
  {
    var vertices, newIndices, edges := SubdivideLoop(mesh.indexList, mesh.vertexList, newVertex);
    lookup := edges;
    SubdividedShape(mesh.indexList, lookup);
    LookupBounded(mesh.vertexList, vertices, lookup, newVertex);
    SubdividedBounded(mesh.indexList, lookup, |vertices|);
    r := IndexedTriangleMesh(vertices, newIndices);
  }

  /** Every vertex a valid lookup records is an index into the new vertex list. */
  lemma LookupBounded(vs0: seq<Vec3>, vs: seq<Vec3>, lookup: map<(int, int), int>, newVertex: (Vec3, Vec3) -> Vec3)
    requires EdgeLookupValid(vs0, vs, lookup, newVertex)
    ensures forall e :: e in lookup ==> 0 <= lookup[e] < |vs|
  {
    forall e | e in lookup
      ensures 0 <= lookup[e] < |vs|
    {
      assert EdgeEntry(vs0, vs, lookup, newVertex, e);
    }
  }

  /** Repeated subdivision passes, as the sphere and the capsule run them: each pass makes four
      triangles of one, and the starting vertices stay in front. */
  method SubdivideTimes(mesh: IndexedTriangleMesh, passes: int, newVertex: (Vec3, Vec3) -> Vec3)
    returns (r: IndexedTriangleMesh)
    requires WellFormed(mesh)
    ensures WellFormed(r) && mesh.vertexList <= r.vertexList
    ensures |r.indexList| == |mesh.indexList| * Pow4(Passes(passes))
    ensures Passes(passes) == 0 ==> r == mesh
    ensures Passes(passes) == 1 ==> |r.vertexList| == |mesh.vertexList| + |EdgesOf(mesh.indexList)|
  {
    r := mesh;
    var i := 0;
    while i < passes
      invariant 0 <= i && (passes >= 0 ==> i <= passes) && (passes < 0 ==> i == 0)
      invariant WellFormed(r) && mesh.vertexList <= r.vertexList
      invariant |r.indexList| == |mesh.indexList| * Pow4(i)
      invariant i == 0 ==> r == mesh
      invariant i == 1 ==> |r.vertexList| == |mesh.vertexList| + |EdgesOf(mesh.indexList)|
    {
      var before := r;
      ghost var lookup;
      r, lookup := Subdivide(r, newVertex);
      assert before.vertexList <= r.vertexList;
      FourTimes(|mesh.indexList|, Pow4(i));
      i := i + 1;
    }
  }

  lemma FourTimes(n: int, p: int)
    ensures 4 * (n * p) == n * (4 * p)
  {
  }

  /** The in-place vertex loops (for each Vertex: Vertex = f(Vertex)): every vertex replaced by
      its image, in place. */
  method MapVertices(vs: seq<Vec3>, f: Vec3 -> Vec3) returns (ws: seq<Vec3>)
    ensures |ws| == |vs| && forall k :: 0 <= k < |vs| ==> ws[k] == f(vs[k])
  {
    ws := vs;
    var i := 0;
    while i < |ws|
      invariant 0 <= i <= |ws| == |vs|
      invariant forall k :: 0 <= k < i ==> ws[k] == f(vs[k])
      invariant forall k :: i <= k < |ws| ==> ws[k] == vs[k]
    {
      ws := ws[i := f(ws[i])];
      i := i + 1;
    }
  }

  // ---------------------------------------------------------------------------------------
  // The icosphere.

  type IcoSphereCorner = k: int | 0 <= k < 12

  /** The unit icosphere's 12 vertices. */
  const IcoSphereVertices: seq<Vec3> := [
    Vec3( 0.000000,  0.000000, -1.000000),
    Vec3(-0.525720, -0.723600, -0.447215),
    Vec3(-0.850640,  0.276385, -0.447215),
    Vec3( 0.000000,  0.894425, -0.447215),
    Vec3( 0.850640,  0.276385, -0.447215),
    Vec3( 0.525720, -0.723600, -0.447215),
    Vec3(-0.850640, -0.276385,  0.447215),
    Vec3(-0.525720,  0.723600,  0.447215),
    Vec3( 0.525720,  0.723600,  0.447215),
    Vec3( 0.850640, -0.276385,  0.447215),
    Vec3( 0.000000, -0.894425,  0.447215),
    Vec3( 0.000000,  0.000000,  1.000000)]

  /** The unit icosphere's 20 triangles, four to a row as in the source's table. */
  const IcoSphereRow0: seq<IcoSphereCorner> := [0, 1, 2,  1, 0, 5,  0, 2, 3,  0, 3, 4]
  const IcoSphereRow1: seq<IcoSphereCorner> := [0, 4, 5,  1, 5, 10,  2, 1, 6,  3, 2, 7]
  const IcoSphereRow2: seq<IcoSphereCorner> := [4, 3, 8,  5, 4, 9,  1, 10, 6,  2, 6, 7]
  const IcoSphereRow3: seq<IcoSphereCorner> := [3, 7, 8,  4, 8, 9,  5, 9, 10,  6, 10, 11]
  const IcoSphereRow4: seq<IcoSphereCorner> := [7, 6, 11,  8, 7, 11,  9, 8, 11,  10, 9, 11]
  const IcoSphereIndices: seq<IcoSphereCorner> :=
    IcoSphereRow0 + IcoSphereRow1 + IcoSphereRow2 + IcoSphereRow3 + IcoSphereRow4

  /** The edges of two index lists together are the edges of each. */
  lemma {:induction false} EdgesOfAppend(a: seq<int>, b: seq<int>)
    requires |a| % 3 == 0 && |b| % 3 == 0
    ensures EdgesOf(a + b) == EdgesOf(a) + EdgesOf(b)
    decreases |b|
  {
    if |b| == 0 {
      assert a + b == a;
    } else {
      var p := |b| - 3;
      EdgesOfAppend(a, b[..p]);
      LastTriangleOfAppend(a, b);
    }
  }

  /** Dropping the last triangle of a + b drops the last triangle of b. */
  lemma LastTriangleOfAppend(a: seq<int>, b: seq<int>)
    requires |b| >= 3
    ensures var ab, p := a + b, |b| - 3;
      ab[..|a| + p] == a + b[..p] &&
      ab[|a| + p] == b[p] && ab[|a| + p + 1] == b[p + 1] && ab[|a| + p + 2] == b[p + 2]
  {
    var ab, p := a + b, |b| - 3;
    assert ab[..|a| + p] == a + b[..p];
  }

  /** The edges of a single triangle. */
  lemma EdgesOfTriangle(a: int, b: int, c: int)
    ensures EdgesOf([a, b, c]) == TriangleEdges(a, b, c)
  {
    assert [a, b, c][..0] == [];
  }

  /** The icosphere's 30 edges, in three groups of ten. */
  const IcoSphereEdgesLow: set<(int, int)> := {(1, 0), (2, 0), (2, 1), (3, 0), (3, 2), (4, 0), (4, 3), (5, 0), (5, 1), (5, 4)}
  const IcoSphereEdgesMid: set<(int, int)> := {(6, 1), (6, 2), (7, 2), (7, 3), (7, 6), (8, 3), (8, 4), (8, 7), (9, 4), (9, 5)}
  const IcoSphereEdgesHigh: set<(int, int)> := {(9, 8), (10, 1), (10, 5), (10, 6), (10, 9), (11, 6), (11, 7), (11, 8), (11, 9), (11, 10)}

  lemma IcoSphereRow0Edges()
    ensures EdgesOf(IcoSphereRow0) == {(1, 0), (2, 0), (2, 1), (3, 0), (3, 2), (4, 0), (4, 3), (5, 0), (5, 1)}
    ensures EdgesOf(IcoSphereRow0) <= IcoSphereEdgesLow + IcoSphereEdgesMid + IcoSphereEdgesHigh
  {
    assert IcoSphereRow0 == [0, 1, 2] + [1, 0, 5] + [0, 2, 3] + [0, 3, 4];
    EdgesOfAppend([0, 1, 2] + [1, 0, 5] + [0, 2, 3], [0, 3, 4]);
    EdgesOfAppend([0, 1, 2] + [1, 0, 5], [0, 2, 3]);
    EdgesOfAppend([0, 1, 2], [1, 0, 5]);
    EdgesOfTriangle(0, 1, 2);
    EdgesOfTriangle(1, 0, 5);
    EdgesOfTriangle(0, 2, 3);
    EdgesOfTriangle(0, 3, 4);
  }

  lemma IcoSphereRow1Edges()
    ensures EdgesOf(IcoSphereRow1) == {(2, 1), (3, 2), (4, 0), (5, 0), (5, 1), (5, 4), (6, 1), (6, 2), (7, 2), (7, 3), (10, 1), (10, 5)}
    ensures EdgesOf(IcoSphereRow1) <= IcoSphereEdgesLow + IcoSphereEdgesMid + IcoSphereEdgesHigh
  {
    assert IcoSphereRow1 == [0, 4, 5] + [1, 5, 10] + [2, 1, 6] + [3, 2, 7];
    EdgesOfAppend([0, 4, 5] + [1, 5, 10] + [2, 1, 6], [3, 2, 7]);
    EdgesOfAppend([0, 4, 5] + [1, 5, 10], [2, 1, 6]);
    EdgesOfAppend([0, 4, 5], [1, 5, 10]);
    EdgesOfTriangle(0, 4, 5);
    EdgesOfTriangle(1, 5, 10);
    EdgesOfTriangle(2, 1, 6);
    EdgesOfTriangle(3, 2, 7);
  }

  lemma IcoSphereRow2Edges()
    ensures EdgesOf(IcoSphereRow2) == {(4, 3), (5, 4), (6, 1), (6, 2), (7, 2), (7, 6), (8, 3), (8, 4), (9, 4), (9, 5), (10, 1), (10, 6)}
    ensures EdgesOf(IcoSphereRow2) <= IcoSphereEdgesLow + IcoSphereEdgesMid + IcoSphereEdgesHigh
  {
    assert IcoSphereRow2 == [4, 3, 8] + [5, 4, 9] + [1, 10, 6] + [2, 6, 7];
    EdgesOfAppend([4, 3, 8] + [5, 4, 9] + [1, 10, 6], [2, 6, 7]);
    EdgesOfAppend([4, 3, 8] + [5, 4, 9], [1, 10, 6]);
    EdgesOfAppend([4, 3, 8], [5, 4, 9]);
    EdgesOfTriangle(4, 3, 8);
    EdgesOfTriangle(5, 4, 9);
    EdgesOfTriangle(1, 10, 6);
    EdgesOfTriangle(2, 6, 7);
  }

  lemma IcoSphereRow3Edges()
    ensures EdgesOf(IcoSphereRow3) == {(7, 3), (8, 3), (8, 4), (8, 7), (9, 4), (9, 5), (9, 8), (10, 5), (10, 6), (10, 9), (11, 6), (11, 10)}
    ensures EdgesOf(IcoSphereRow3) <= IcoSphereEdgesLow + IcoSphereEdgesMid + IcoSphereEdgesHigh
  {
    assert IcoSphereRow3 == [3, 7, 8] + [4, 8, 9] + [5, 9, 10] + [6, 10, 11];
    EdgesOfAppend([3, 7, 8] + [4, 8, 9] + [5, 9, 10], [6, 10, 11]);
    EdgesOfAppend([3, 7, 8] + [4, 8, 9], [5, 9, 10]);
    EdgesOfAppend([3, 7, 8], [4, 8, 9]);
    EdgesOfTriangle(3, 7, 8);
    EdgesOfTriangle(4, 8, 9);
    EdgesOfTriangle(5, 9, 10);
    EdgesOfTriangle(6, 10, 11);
  }

  lemma IcoSphereRow4Edges()
    ensures EdgesOf(IcoSphereRow4) == {(7, 6), (8, 7), (9, 8), (10, 9), (11, 6), (11, 7), (11, 8), (11, 9), (11, 10)}
    ensures EdgesOf(IcoSphereRow4) <= IcoSphereEdgesLow + IcoSphereEdgesMid + IcoSphereEdgesHigh
  {
    assert IcoSphereRow4 == [7, 6, 11] + [8, 7, 11] + [9, 8, 11] + [10, 9, 11];
    EdgesOfAppend([7, 6, 11] + [8, 7, 11] + [9, 8, 11], [10, 9, 11]);
    EdgesOfAppend([7, 6, 11] + [8, 7, 11], [9, 8, 11]);
    EdgesOfAppend([7, 6, 11], [8, 7, 11]);
    EdgesOfTriangle(7, 6, 11);
    EdgesOfTriangle(8, 7, 11);
    EdgesOfTriangle(9, 8, 11);
    EdgesOfTriangle(10, 9, 11);
  }

  /** The edges of the icosphere's rows, together. */
  lemma IcoSphereEdgesByRow()
    ensures EdgesOf(IcoSphereIndices) ==
      EdgesOf(IcoSphereRow0) + EdgesOf(IcoSphereRow1) + EdgesOf(IcoSphereRow2) + EdgesOf(IcoSphereRow3) + EdgesOf(IcoSphereRow4)
  {
    EdgesOfRows(IcoSphereRow0, IcoSphereRow1, IcoSphereRow2, IcoSphereRow3, IcoSphereRow4);
  }

  /** The edges of five blocks of whole triangles laid end to end. */
  lemma EdgesOfRows(a: seq<int>, b: seq<int>, c: seq<int>, d: seq<int>, e: seq<int>)
    requires |a| % 3 == 0 && |b| % 3 == 0 && |c| % 3 == 0 && |d| % 3 == 0 && |e| % 3 == 0
    ensures EdgesOf(a + b + c + d + e) == EdgesOf(a) + EdgesOf(b) + EdgesOf(c) + EdgesOf(d) + EdgesOf(e)
  {
    WholeTriangles(a, b);
    WholeTriangles(a + b, c);
    WholeTriangles(a + b + c, d);
    EdgesOfAppend(a, b);
    EdgesOfAppend(a + b, c);
    EdgesOfAppend(a + b + c, d);
    EdgesOfAppend(a + b + c + d, e);
  }

  /** Two blocks of whole triangles make whole triangles. */
  lemma WholeTriangles(a: seq<int>, b: seq<int>)
    requires |a| % 3 == 0 && |b| % 3 == 0
    ensures |a + b| % 3 == 0
  {
  }

  /** The edges of the icosphere's triangles are the listed ones. */
  lemma IcoSphereEdges()
    ensures EdgesOf(IcoSphereIndices) == IcoSphereEdgesLow + IcoSphereEdgesMid + IcoSphereEdgesHigh
  {
    IcoSphereEdgesWithin();
    IcoSphereEdgesCovered();
  }

  lemma IcoSphereEdgesWithin()
    ensures EdgesOf(IcoSphereIndices) <= IcoSphereEdgesLow + IcoSphereEdgesMid + IcoSphereEdgesHigh
  {
    IcoSphereEdgesByRow();
    IcoSphereRow0Edges();
    IcoSphereRow1Edges();
    IcoSphereRow2Edges();
    IcoSphereRow3Edges();
    IcoSphereRow4Edges();
  }

  lemma IcoSphereEdgesCovered()
    ensures IcoSphereEdgesLow + IcoSphereEdgesMid + IcoSphereEdgesHigh <= EdgesOf(IcoSphereIndices)
  {
    IcoSphereEdgesByRow();
    IcoSphereRow0Edges();
    IcoSphereRow1Edges();
    IcoSphereRow2Edges();
    IcoSphereRow3Edges();
    IcoSphereRow4Edges();
  }

  lemma IcoSphereEdgesLowCount()
    ensures |IcoSphereEdgesLow| == 10
  {
  }

  lemma IcoSphereEdgesMidCount()
    ensures |IcoSphereEdgesMid| == 10
  {
  }

  lemma IcoSphereEdgesHighCount()
    ensures |IcoSphereEdgesHigh| == 10
  {
  }

  lemma IcoSphereEdgesLowMidDisjoint()
    ensures IcoSphereEdgesLow !! IcoSphereEdgesMid
  {
  }

  lemma IcoSphereEdgesHighDisjoint()
    ensures IcoSphereEdgesLow + IcoSphereEdgesMid !! IcoSphereEdgesHigh
  {
  }

  /** The icosphere's 20 triangles have 30 distinct edges. */
  lemma IcoSphereEdgeCount()
    ensures |EdgesOf(IcoSphereIndices)| == 30
  {
    IcoSphereEdges();
    IcoSphereEdgesLowCount();
    IcoSphereEdgesMidCount();
    IcoSphereEdgesHighCount();
    IcoSphereEdgesLowMidDisjoint();
    IcoSphereEdgesHighDisjoint();
  }

  /** The sphere pass's new vertex: the normalised sum of the edge's ends (GetSafeNormal is
      engine code, given as a function). */
  function SphereEdgeVertex(safeNormal: Vec3 -> Vec3): (r: (Vec3, Vec3) -> Vec3)
    ensures forall a, b :: r(a, b) == r(b, a)
  {
    assert forall a, b :: Add(a, b) == Add(b, a);
    (a: Vec3, b: Vec3) => safeNormal(Add(a, b))
  }

  /** A sphere's mesh: well formed, 20 triangles times 4^subdivisions, its first 12 vertices
      the icosahedron's scaled by the radius and moved to the centre, and 12 vertices in all
      after no pass, 42 after one. */
  predicate SphereTriangulation(m: IndexedTriangleMesh, radius: real, center: Vec3, subdivisions: int) {
    WellFormed(m) && |m.vertexList| >= 12 &&
    |m.indexList| == 60 * Pow4(Passes(subdivisions)) &&
    (forall k :: 0 <= k < 12 ==> m.vertexList[k] == Add(center, Scale(IcoSphereVertices[k], radius))) &&
    (Passes(subdivisions) == 0 ==> |m.vertexList| == 12) &&
    (Passes(subdivisions) == 1 ==> |m.vertexList| == 42)
  }

  /** TriangulateSphereElem: the unit icosphere, subdivided subdivisions times, then scaled by
      the radius and moved to the centre. Each pass adds one vertex per distinct edge, so the
      12 vertices become 12 + 30 = 42 after one pass. */
  method TriangulateSphere(radius: real, center: Vec3, subdivisions: int, safeNormal: Vec3 -> Vec3)
    returns (r: IndexedTriangleMesh)
    ensures SphereTriangulation(r, radius, center, subdivisions)
  {
    var ico := IndexedTriangleMesh(IcoSphereVertices, IcoSphereIndices);
    var sub := SubdivideTimes(ico, subdivisions, SphereEdgeVertex(safeNormal));
    IcoSphereEdgeCount();
    var vs := MapVertices(sub.vertexList, (v: Vec3) => Add(center, Scale(v, radius)));
    r := IndexedTriangleMesh(vs, sub.indexList);
  }

  // ---------------------------------------------------------------------------------------
  // The icocapsule.

  type IcoCapsuleCorner = k: int | 0 <= k < 22

  /** The unit icocapsule: an icosphere with two extra edge loops near the equator. */
  const IcoCapsuleVertices: seq<Vec3> := [
    Vec3( 0.000000,  0.000000, -1.000000),
    Vec3(-0.298397, -0.950923,  0.010073),
    Vec3(-0.928606,  0.354351,  0.010073),
    Vec3(-0.096003,  0.990428,  0.010073),
    Vec3( 0.985126,  0.141899,  0.010073),
    Vec3( 0.596667, -0.794547,  0.010073),
    Vec3(-0.523123,  0.721003,  0.447216),
    Vec3( 0.846867, -0.272612,  0.447216),
    Vec3(-0.005630, -0.888794,  0.447216),
    Vec3( 0.000000,  0.000000,  1.000000),
    Vec3(-0.551103, -0.698217, -0.447216),
    Vec3(-0.846022,  0.271767, -0.447216),
    Vec3( 0.844210,  0.282815, -0.447216),
    Vec3(-0.840977, -0.286048,  0.447216),
    Vec3( 0.555094,  0.694226,  0.447216),
    Vec3( 0.005171,  0.889254, -0.447216),
    Vec3( 0.521323, -0.719203, -0.447216),
    Vec3( 0.095119, -0.989544, -0.010073),
    Vec3(-0.983501, -0.143524, -0.010073),
    Vec3(-0.598766,  0.796646, -0.010073),
    Vec3( 0.302931,  0.946389, -0.010073),
    Vec3( 0.929726, -0.355471, -0.010073)]

  /** The unit icocapsule's 40 triangles. */
  const IcoCapsuleIndices: seq<IcoCapsuleCorner> := [
    0, 10, 11,  10, 0, 16,  0, 11, 15,  0, 15, 12,
    0, 12, 16,  1, 5, 8,    2, 1, 13,   3, 2, 6,
    4, 3, 14,   5, 4, 7,    1, 8, 13,   2, 13, 6,
    3, 6, 14,   4, 14, 7,   5, 7, 8,    13, 8, 9,
    6, 13, 9,   14, 6, 9,   7, 14, 9,   8, 7, 9,
    10, 16, 17, 11, 10, 18, 15, 11, 19, 12, 15, 20,
    16, 12, 21, 10, 17, 18, 11, 18, 19, 15, 19, 20,
    12, 20, 21, 16, 21, 17, 2, 18, 1,   19, 18, 2,
    20, 19, 3,  21, 20, 4,  21, 5, 17,  18, 17, 1,
    3, 19, 2,   4, 20, 3,   5, 21, 4,   5, 1, 17]

  /** FMath::IsNearlyZero with its default tolerance. */
  predicate IsNearlyZero(x: real) {
    -0.00000001 <= x <= 0.00000001
  }

  /** The capsule's pre-scaling of one table vertex: scaled by the radius, then pushed up or
      down by the half height unless it lies on the equator. */
  function StretchCapsuleVertex(v: Vec3, radius: real, halfHeight: real): (r: Vec3)
    ensures r.x == v.x * radius && r.y == v.y * radius
    ensures IsNearlyZero(v.z * radius) ==> r.z == v.z * radius
    ensures !IsNearlyZero(v.z * radius) && v.z * radius > 0.0 ==> r.z == v.z * radius + halfHeight
    ensures !IsNearlyZero(v.z * radius) && v.z * radius <= 0.0 ==> r.z == v.z * radius - halfHeight
  {
    var s := Scale(v, radius);
    if IsNearlyZero(s.z) then s
    else Vec3(s.x, s.y, s.z + (if s.z > 0.0 then 1.0 else -1.0) * halfHeight)
  }

  /** GetPointClampedToCapsule: the point on the capsule's axis segment nearest in height, plus
      the radius along the (engine-normalised) direction from it to the point. */
  function ClampToCapsule(p: Vec3, radius: real, halfHeight: real, safeNormal: Vec3 -> Vec3): (r: Vec3)
    ensures var axis := Vec3(0.0, 0.0, Clamp(p.z, -halfHeight, halfHeight));
      r == Add(axis, Scale(safeNormal(Sub(p, axis)), radius))
  {
    var pointOnLine := Vec3(0.0, 0.0, Clamp(p.z, -halfHeight, halfHeight));
    Add(pointOnLine, Scale(safeNormal(Sub(p, pointOnLine)), radius))
  }

  /** The capsule pass's new vertex: the edge midpoint clamped to the capsule surface. */
  function CapsuleEdgeVertex(radius: real, halfHeight: real, safeNormal: Vec3 -> Vec3): (r: (Vec3, Vec3) -> Vec3)
    ensures forall a, b :: r(a, b) == ClampToCapsule(Scale(Add(a, b), 0.5), radius, halfHeight, safeNormal)
  {
    (a: Vec3, b: Vec3) => ClampToCapsule(Scale(Add(a, b), 0.5), radius, halfHeight, safeNormal)
  }

  /** A capsule's mesh: well formed, 40 triangles times 4^subdivisions, and its first 22
      vertices the stretched table vertices under the capsule transform. */
  predicate SphylTriangulation(m: IndexedTriangleMesh, halfHeight: real, radius: real, center: Vec3,
                               rotation: Rotator, transform: (Rotator, Vec3, Vec3) -> Vec3, subdivisions: int)
  {
    WellFormed(m) && |m.vertexList| >= 22 &&
    |m.indexList| == 120 * Pow4(Passes(subdivisions)) &&
    forall k :: 0 <= k < 22 ==>
      m.vertexList[k] == transform(rotation, center, StretchCapsuleVertex(IcoCapsuleVertices[k], radius, halfHeight))
  }

  /** TriangulateSphylElem: the unit icocapsule stretched to the capsule's radius and half
      height, subdivided subdivisions times against the capsule surface, then moved by the
      capsule transform. */
  method TriangulateSphyl(halfHeight: real, radius: real, center: Vec3, rotation: Rotator, subdivisions: int,
                          transform: (Rotator, Vec3, Vec3) -> Vec3, safeNormal: Vec3 -> Vec3)
    returns (r: IndexedTriangleMesh)
    ensures SphylTriangulation(r, halfHeight, radius, center, rotation, transform, subdivisions)
  {
    var stretched := MapVertices(IcoCapsuleVertices, (v: Vec3) => StretchCapsuleVertex(v, radius, halfHeight));
    var capsule := IndexedTriangleMesh(stretched, IcoCapsuleIndices);
    var sub := SubdivideTimes(capsule, subdivisions, CapsuleEdgeVertex(radius, halfHeight, safeNormal));
    var vs := MapVertices(sub.vertexList, (v: Vec3) => transform(rotation, center, v));
    r := IndexedTriangleMesh(vs, sub.indexList);
  }

  // ---------------------------------------------------------------------------------------
  // A whole collision setup as one mesh.

  const EmptyMesh: IndexedTriangleMesh := IndexedTriangleMesh([], [])

  /** Indices shifted by a vertex offset. */
  function Shifted(idx: seq<int>, offset: int): (r: seq<int>)
    ensures |r| == |idx| && forall k :: 0 <= k < |idx| ==> r[k] - offset == idx[k]
  {
    seq(|idx|, k requires 0 <= k < |idx| => idx[k] + offset)
  }

  /** The meshes laid end to end: vertex lists appended, each mesh's indices shifted by the
      number of vertices before it. */
  function Concatenation(meshes: seq<IndexedTriangleMesh>): IndexedTriangleMesh
    decreases |meshes|
  {
    if |meshes| == 0 then EmptyMesh else
      var front := Concatenation(meshes[..|meshes| - 1]);
      var last := meshes[|meshes| - 1];
      IndexedTriangleMesh(front.vertexList + last.vertexList, front.indexList + Shifted(last.indexList, |front.vertexList|))
  }

  function TotalVertices(meshes: seq<IndexedTriangleMesh>): nat
    decreases |meshes|
  {
    if |meshes| == 0 then 0 else TotalVertices(meshes[..|meshes| - 1]) + |meshes[|meshes| - 1].vertexList|
  }

  function TotalIndices(meshes: seq<IndexedTriangleMesh>): nat
    decreases |meshes|
  {
    if |meshes| == 0 then 0 else TotalIndices(meshes[..|meshes| - 1]) + |meshes[|meshes| - 1].indexList|
  }

  /** The concatenation has the summed counts, and it is well formed when every part is. */
  lemma {:induction false} ConcatenationShape(meshes: seq<IndexedTriangleMesh>)
    ensures |Concatenation(meshes).vertexList| == TotalVertices(meshes)
    ensures |Concatenation(meshes).indexList| == TotalIndices(meshes)
    ensures (forall m :: m in meshes ==> WellFormed(m)) ==> WellFormed(Concatenation(meshes))
  {
    if |meshes| > 0 {
      var front := meshes[..|meshes| - 1];
      ConcatenationShape(front);
      if forall m :: m in meshes ==> WellFormed(m) {
        assert forall m :: m in front ==> m in meshes;
        var c, last := Concatenation(front), meshes[|meshes| - 1];
        assert WellFormed(last);
        var r := Concatenation(meshes);
        forall k | 0 <= k < |r.indexList|
          ensures 0 <= r.indexList[k] < |r.vertexList|
        {
          if k >= |c.indexList| {
            assert r.indexList[k] == last.indexList[k - |c.indexList|] + |c.vertexList|;
          }
        }
      }
    }
  }

  /** Each part sits in the concatenation at its running offsets, its indices shifted by its
      vertex offset. */
  lemma {:induction false} ConcatenationPart(meshes: seq<IndexedTriangleMesh>, j: int)
    requires 0 <= j < |meshes|
    ensures var r, vo, io := Concatenation(meshes), TotalVertices(meshes[..j]), TotalIndices(meshes[..j]);
      vo + |meshes[j].vertexList| <= |r.vertexList| && io + |meshes[j].indexList| <= |r.indexList| &&
      r.vertexList[vo .. vo + |meshes[j].vertexList|] == meshes[j].vertexList &&
      r.indexList[io .. io + |meshes[j].indexList|] == Shifted(meshes[j].indexList, vo)
  {
    var p := Concatenation(meshes[..j + 1]);
    var r := Concatenation(meshes);
    ConcatenationPrefix(meshes, j);
    ConcatenationShape(meshes[..j]);
    ConcatenationGrows(meshes, j + 1);
    var vo, io := TotalVertices(meshes[..j]), TotalIndices(meshes[..j]);
    var nv, ni := |meshes[j].vertexList|, |meshes[j].indexList|;
    SliceOfAppend(Concatenation(meshes[..j]).vertexList, meshes[j].vertexList, vo, vo + nv);
    SliceOfAppend(Concatenation(meshes[..j]).indexList, Shifted(meshes[j].indexList, vo), io, io + ni);
    SliceOfPrefix(p.vertexList, r.vertexList, vo, vo + nv);
    SliceOfPrefix(p.indexList, r.indexList, io, io + ni);
  }

  /** The concatenation of a prefix of the meshes is a prefix of their concatenation. */
  lemma {:induction false} ConcatenationGrows(meshes: seq<IndexedTriangleMesh>, k: int)
    requires 0 <= k <= |meshes|
    ensures Concatenation(meshes[..k]).vertexList <= Concatenation(meshes).vertexList
    ensures Concatenation(meshes[..k]).indexList <= Concatenation(meshes).indexList
    decreases |meshes|
  {
    if k == |meshes| {
      assert meshes[..k] == meshes;
    } else {
      var front := meshes[..|meshes| - 1];
      assert front[..k] == meshes[..k];
      ConcatenationGrows(front, k);
    }
  }

  /** A slice of a + b lying inside a, or exactly covering b. */
  lemma SliceOfAppend<T>(a: seq<T>, b: seq<T>, i: int, j: int)
    requires 0 <= i <= j <= |a| + |b|
    ensures j <= |a| ==> (a + b)[i..j] == a[i..j]
    ensures i == |a| && j == |a| + |b| ==> (a + b)[i..j] == b
  {
  }

  /** A slice inside a prefix is the same slice of the whole sequence. */
  lemma SliceOfPrefix<T>(a: seq<T>, b: seq<T>, i: int, j: int)
    requires a <= b && 0 <= i <= j <= |a|
    ensures b[i..j] == a[i..j]
  {
  }

  /** The offset loop: every index from position start on gains the offset. */
  method OffsetFrom(idx: seq<int>, start: int, offset: int) returns (r: seq<int>)
    requires 0 <= start <= |idx|
    ensures r == idx[..start] + Shifted(idx[start..], offset)
  {
    r := idx;
    var i := start;
    while i < |r|
      invariant start <= i <= |r| == |idx|
      invariant r[..start] == idx[..start]
      invariant forall k :: start <= k < i ==> r[k] == idx[k] + offset
      invariant forall k :: i <= k < |r| ==> r[k] == idx[k]
    {
      r := r[i := r[i] + offset];
      i := i + 1;
    }
    assert r[start..] == Shifted(idx[start..], offset);
    assert r == r[..start] + r[start..];
  }

  /** The concatenation loop of TriangulateWaterPhysicsCollisionSetup: append each mesh's
      vertices and indices, then add the running vertex offset to the appended indices when
      it is positive. */
  method Concatenate(meshes: seq<IndexedTriangleMesh>) returns (out: IndexedTriangleMesh)
    ensures out == Concatenation(meshes)
  {
    out := EmptyMesh;
    var j := 0;
    while j < |meshes|
      invariant 0 <= j <= |meshes|
      invariant out == Concatenation(meshes[..j])
    {
      var mesh := meshes[j];
      var indexOffset := |out.vertexList|;
      var indexOffsetStart := |out.indexList|;
      var vertexList := out.vertexList + mesh.vertexList;
      var indexList := out.indexList + mesh.indexList;
      if indexOffset > 0 {
        indexList := OffsetFrom(indexList, indexOffsetStart, indexOffset);
      }
      OffsetAppended(out.indexList, mesh.indexList, indexOffset);
      ConcatenationPrefix(meshes, j);
      out := IndexedTriangleMesh(vertexList, indexList);
      j := j + 1;
    }
    assert meshes[..|meshes|] == meshes;
  }

  /** Offsetting the appended part of a + b shifts b alone; an offset of 0 changes nothing. */
  lemma OffsetAppended(a: seq<int>, b: seq<int>, offset: int)
    ensures (a + b)[..|a|] + Shifted((a + b)[|a|..], offset) == a + Shifted(b, offset)
    ensures offset == 0 ==> a + Shifted(b, offset) == a + b
  {
    assert (a + b)[..|a|] == a && (a + b)[|a|..] == b;
  }

  /** The concatenation of the first j + 1 meshes extends that of the first j by mesh j. */
  lemma ConcatenationPrefix(meshes: seq<IndexedTriangleMesh>, j: int)
    requires 0 <= j < |meshes|
    ensures var front := Concatenation(meshes[..j]);
      Concatenation(meshes[..j + 1]) ==
        IndexedTriangleMesh(front.vertexList + meshes[j].vertexList,
                            front.indexList + Shifted(meshes[j].indexList, |front.vertexList|))
  {
    assert meshes[..j + 1][..j] == meshes[..j];
  }

  lemma TotalIndicesAppend(meshes: seq<IndexedTriangleMesh>, m: IndexedTriangleMesh)
    ensures TotalIndices(meshes + [m]) == TotalIndices(meshes) + |m.indexList|
  {
    assert (meshes + [m])[..|meshes|] == meshes;
  }

  /** One step of the per-shape loops: appending a well-formed mesh of each indices keeps every
      mesh well formed and advances the running total by each. */
  lemma MeshAppended(meshes: seq<IndexedTriangleMesh>, m: IndexedTriangleMesh, total: int, i: int, each: int)
    requires forall n :: n in meshes ==> WellFormed(n)
    requires WellFormed(m) && |m.indexList| == each
    requires TotalIndices(meshes) == total + i * each
    ensures forall n :: n in meshes + [m] ==> WellFormed(n)
    ensures TotalIndices(meshes + [m]) == total + (i + 1) * each
  {
    TotalIndicesAppend(meshes, m);
    assert (i + 1) * each == i * each + each;
  }

  lemma {:induction false} TotalIndicesPrefix(ms: seq<IndexedTriangleMesh>, i: int, p: int)
    requires 0 <= i < |ms|
    ensures TotalIndices(ms[..i + 1]) * p == TotalIndices(ms[..i]) * p + |ms[i].indexList| * p
  {
    assert ms[..i + 1][..i] == ms[..i];
  }

  /** The number of indices a collision setup triangulates to: 60 per sphere and 120 per capsule
      times 4 per subdivision pass, 36 per box and the mesh elements' own indices times 2 per
      tessellation level. */
  function SetupIndexCount(setup: CollisionSetup, subdivisions: SubdivisionSettings): int {
    |setup.sphereElems| * (60 * Pow4(Passes(subdivisions.sphere))) +
    |setup.boxElems| * (36 * Pow2(Passes(subdivisions.box))) +
    |setup.sphylElems| * (120 * Pow4(Passes(subdivisions.capsule))) +
    TotalIndices(setup.meshElems) * Pow2(Passes(subdivisions.convex))
  }

  /** The sphere loop of TriangulateWaterPhysicsCollisionSetup: the meshes so far are kept,
      followed by one sphere mesh per element, in order. */
  method AddSpheres(meshes: seq<IndexedTriangleMesh>, elems: seq<SphereElem>, subdivisions: int, safeNormal: Vec3 -> Vec3)
    returns (meshes': seq<IndexedTriangleMesh>)
    requires forall m :: m in meshes ==> WellFormed(m)
    ensures |meshes'| == |meshes| + |elems| && meshes'[..|meshes|] == meshes
    ensures forall k :: 0 <= k < |elems| ==>
      SphereTriangulation(meshes'[|meshes| + k], elems[k].radius, elems[k].center, subdivisions)
    ensures forall m :: m in meshes' ==> WellFormed(m)
    ensures TotalIndices(meshes') == TotalIndices(meshes) + |elems| * (60 * Pow4(Passes(subdivisions)))
  {
    meshes' := meshes;
    var each := 60 * Pow4(Passes(subdivisions));
    for i := 0 to |elems|
      invariant |meshes'| == |meshes| + i && meshes'[..|meshes|] == meshes
      invariant forall k :: 0 <= k < i ==>
        SphereTriangulation(meshes'[|meshes| + k], elems[k].radius, elems[k].center, subdivisions)
      invariant forall m :: m in meshes' ==> WellFormed(m)
      invariant TotalIndices(meshes') == TotalIndices(meshes) + i * each
    {
      var mesh := TriangulateSphere(elems[i].radius, elems[i].center, subdivisions, safeNormal);
      MeshAppended(meshes', mesh, TotalIndices(meshes), i, each);
      SphereAppended(meshes', |meshes|, elems, i, mesh, subdivisions);
      meshes' := meshes' + [mesh];
    }
  }

  /** One step of the sphere loop: the new mesh fills slot i and the earlier slots keep theirs. */
  lemma SphereAppended(ms: seq<IndexedTriangleMesh>, base: nat, elems: seq<SphereElem>, i: nat,
      m: IndexedTriangleMesh,
                       subdivisions: int)
    requires i < |elems| && |ms| == base + i
    requires forall k :: 0 <= k < i ==>
      SphereTriangulation(ms[base + k], elems[k].radius, elems[k].center, subdivisions)
    requires SphereTriangulation(m, elems[i].radius, elems[i].center, subdivisions)
    ensures (ms + [m])[..base] == ms[..base]
    ensures forall k :: 0 <= k < i + 1 ==>
      SphereTriangulation((ms + [m])[base + k], elems[k].radius, elems[k].center, subdivisions)
  {
    AppendKeeps(ms, m, base);
  }

  /** Sphere slots survive when their sequence is kept as a prefix of a longer one. */
  lemma SphereSlotsKept(ms: seq<IndexedTriangleMesh>, longer: seq<IndexedTriangleMesh>, base: nat,
      elems: seq<SphereElem>,
                       subdivisions: int)
    requires base + |elems| <= |ms| <= |longer| && longer[..|ms|] == ms
    requires forall k :: 0 <= k < |elems| ==>
      SphereTriangulation(ms[base + k], elems[k].radius, elems[k].center, subdivisions)
    ensures forall k :: 0 <= k < |elems| ==>
      SphereTriangulation(longer[base + k], elems[k].radius, elems[k].center, subdivisions)
  {
    assert forall j :: 0 <= j < |ms| ==> longer[j] == longer[..|ms|][j];
  }

  /** The box loop of TriangulateWaterPhysicsCollisionSetup: the meshes so far are kept,
      followed by one box mesh per element, in order. */
  method AddBoxes(meshes: seq<IndexedTriangleMesh>, elems: seq<BoxElem>, subdivisions: int,
                  transform: (Rotator, Vec3, Vec3) -> Vec3)
    returns (meshes': seq<IndexedTriangleMesh>)
    requires forall m :: m in meshes ==> WellFormed(m)
    ensures |meshes'| == |meshes| + |elems| && meshes'[..|meshes|] == meshes
    ensures forall k :: 0 <= k < |elems| ==>
      BoxTriangulation(meshes'[|meshes| + k], elems[k].extent, elems[k].center, elems[k].rotation,
                       transform, subdivisions)
    ensures forall m :: m in meshes' ==> WellFormed(m)
    ensures TotalIndices(meshes') == TotalIndices(meshes) + |elems| * (36 * Pow2(Passes(subdivisions)))
  {
    meshes' := meshes;
    var each := 36 * Pow2(Passes(subdivisions));
    for i := 0 to |elems|
      invariant |meshes'| == |meshes| + i && meshes'[..|meshes|] == meshes
      invariant forall k :: 0 <= k < i ==>
        BoxTriangulation(meshes'[|meshes| + k], elems[k].extent, elems[k].center, elems[k].rotation,
                         transform, subdivisions)
      invariant forall m :: m in meshes' ==> WellFormed(m)
      invariant TotalIndices(meshes') == TotalIndices(meshes) + i * each
    {
      var mesh := TriangulateBox(elems[i].extent, elems[i].center, elems[i].rotation, transform, subdivisions);
      MeshAppended(meshes', mesh, TotalIndices(meshes), i, each);
      BoxAppended(meshes', |meshes|, elems, i, mesh, transform, subdivisions);
      meshes' := meshes' + [mesh];
    }
  }

  /** One step of the box loop: the new mesh fills slot i and the earlier slots keep theirs. */
  lemma BoxAppended(ms: seq<IndexedTriangleMesh>, base: nat, elems: seq<BoxElem>, i: nat,
      m: IndexedTriangleMesh,
                    transform: (Rotator, Vec3, Vec3) -> Vec3, subdivisions: int)
    requires i < |elems| && |ms| == base + i
    requires forall k :: 0 <= k < i ==>
      BoxTriangulation(ms[base + k], elems[k].extent, elems[k].center, elems[k].rotation,
                       transform, subdivisions)
    requires BoxTriangulation(m, elems[i].extent, elems[i].center, elems[i].rotation,
                       transform, subdivisions)
    ensures (ms + [m])[..base] == ms[..base]
    ensures forall k :: 0 <= k < i + 1 ==>
      BoxTriangulation((ms + [m])[base + k], elems[k].extent, elems[k].center, elems[k].rotation,
                       transform, subdivisions)
  {
    AppendKeeps(ms, m, base);
  }

  /** Box slots survive when their sequence is kept as a prefix of a longer one. */
  lemma BoxSlotsKept(ms: seq<IndexedTriangleMesh>, longer: seq<IndexedTriangleMesh>, base: nat,
      elems: seq<BoxElem>,
                    transform: (Rotator, Vec3, Vec3) -> Vec3, subdivisions: int)
    requires base + |elems| <= |ms| <= |longer| && longer[..|ms|] == ms
    requires forall k :: 0 <= k < |elems| ==>
      BoxTriangulation(ms[base + k], elems[k].extent, elems[k].center, elems[k].rotation,
                       transform, subdivisions)
    ensures forall k :: 0 <= k < |elems| ==>
      BoxTriangulation(longer[base + k], elems[k].extent, elems[k].center, elems[k].rotation,
                       transform, subdivisions)
  {
    assert forall j :: 0 <= j < |ms| ==> longer[j] == longer[..|ms|][j];
  }

  /** The capsule loop of TriangulateWaterPhysicsCollisionSetup: the meshes so far are kept,
      followed by one capsule mesh per element, in order. */
  method AddSphyls(meshes: seq<IndexedTriangleMesh>, elems: seq<SphylElem>, subdivisions: int,
                   transform: (Rotator, Vec3, Vec3) -> Vec3, safeNormal: Vec3 -> Vec3)
    returns (meshes': seq<IndexedTriangleMesh>)
    requires forall m :: m in meshes ==> WellFormed(m)
    ensures |meshes'| == |meshes| + |elems| && meshes'[..|meshes|] == meshes
    ensures forall k :: 0 <= k < |elems| ==>
      SphylTriangulation(meshes'[|meshes| + k], elems[k].halfHeight, elems[k].radius, elems[k].center,
                         elems[k].rotation, transform, subdivisions)
    ensures forall m :: m in meshes' ==> WellFormed(m)
    ensures TotalIndices(meshes') == TotalIndices(meshes) + |elems| * (120 * Pow4(Passes(subdivisions)))
  {
    meshes' := meshes;
    var each := 120 * Pow4(Passes(subdivisions));
    for i := 0 to |elems|
      invariant |meshes'| == |meshes| + i && meshes'[..|meshes|] == meshes
      invariant forall k :: 0 <= k < i ==>
        SphylTriangulation(meshes'[|meshes| + k], elems[k].halfHeight, elems[k].radius, elems[k].center,
                           elems[k].rotation, transform, subdivisions)
      invariant forall m :: m in meshes' ==> WellFormed(m)
      invariant TotalIndices(meshes') == TotalIndices(meshes) + i * each
    {
      var mesh := TriangulateSphyl(elems[i].halfHeight, elems[i].radius, elems[i].center, elems[i].rotation,
                                   subdivisions, transform, safeNormal);
      MeshAppended(meshes', mesh, TotalIndices(meshes), i, each);
      SphylAppended(meshes', |meshes|, elems, i, mesh, transform, subdivisions);
      meshes' := meshes' + [mesh];
    }
  }

  /** One step of the capsule loop: the new mesh fills slot i and the earlier slots keep theirs. */
  lemma SphylAppended(ms: seq<IndexedTriangleMesh>, base: nat, elems: seq<SphylElem>, i: nat,
      m: IndexedTriangleMesh,
                      transform: (Rotator, Vec3, Vec3) -> Vec3, subdivisions: int)
    requires i < |elems| && |ms| == base + i
    requires forall k :: 0 <= k < i ==>
      SphylTriangulation(ms[base + k], elems[k].halfHeight, elems[k].radius, elems[k].center,
                         elems[k].rotation, transform, subdivisions)
    requires SphylTriangulation(m, elems[i].halfHeight, elems[i].radius, elems[i].center,
                         elems[i].rotation, transform, subdivisions)
    ensures (ms + [m])[..base] == ms[..base]
    ensures forall k :: 0 <= k < i + 1 ==>
      SphylTriangulation((ms + [m])[base + k], elems[k].halfHeight, elems[k].radius, elems[k].center,
                         elems[k].rotation, transform, subdivisions)
  {
    AppendKeeps(ms, m, base);
  }

  /** Sphyl slots survive when their sequence is kept as a prefix of a longer one. */
  lemma SphylSlotsKept(ms: seq<IndexedTriangleMesh>, longer: seq<IndexedTriangleMesh>, base: nat,
      elems: seq<SphylElem>,
                      transform: (Rotator, Vec3, Vec3) -> Vec3, subdivisions: int)
    requires base + |elems| <= |ms| <= |longer| && longer[..|ms|] == ms
    requires forall k :: 0 <= k < |elems| ==>
      SphylTriangulation(ms[base + k], elems[k].halfHeight, elems[k].radius, elems[k].center,
                         elems[k].rotation, transform, subdivisions)
    ensures forall k :: 0 <= k < |elems| ==>
      SphylTriangulation(longer[base + k], elems[k].halfHeight, elems[k].radius, elems[k].center,
                         elems[k].rotation, transform, subdivisions)
  {
    assert forall j :: 0 <= j < |ms| ==> longer[j] == longer[..|ms|][j];
  }

  /** A convex element's mesh: the element tessellated in levels mode, so well formed, its
      own vertices first, and 2^subdivisions times its indices. */
  predicate LevelsTessellation(m: IndexedTriangleMesh, elem: IndexedTriangleMesh, subdivisions: int) {
    WellFormed(m) && elem.vertexList <= m.vertexList &&
    |m.indexList| == |elem.indexList| * Pow2(Passes(subdivisions))
  }

  /** The convex-mesh loop of TriangulateWaterPhysicsCollisionSetup: each element tessellated in
      levels mode with the Convex setting and appended, in order. */
  method AddMeshes(meshes: seq<IndexedTriangleMesh>, elems: seq<IndexedTriangleMesh>, subdivisions: int)
    returns (meshes': seq<IndexedTriangleMesh>)
    requires forall m :: m in meshes ==> WellFormed(m)
    requires forall m :: m in elems ==> WellFormed(m)
    ensures |meshes'| == |meshes| + |elems| && meshes'[..|meshes|] == meshes
    ensures forall k :: 0 <= k < |elems| ==> LevelsTessellation(meshes'[|meshes| + k], elems[k], subdivisions)
    ensures forall m :: m in meshes' ==> WellFormed(m)
    ensures TotalIndices(meshes') == TotalIndices(meshes) + TotalIndices(elems) * Pow2(Passes(subdivisions))
  {
    meshes' := meshes;
    var levels := Pow2(Passes(subdivisions));
    for i := 0 to |elems|
      invariant |meshes'| == |meshes| + i && meshes'[..|meshes|] == meshes
      invariant forall k :: 0 <= k < i ==> LevelsTessellation(meshes'[|meshes| + k], elems[k], subdivisions)
      invariant forall m :: m in meshes' ==> WellFormed(m)
      invariant TotalIndices(meshes') == TotalIndices(meshes) + TotalIndices(elems[..i]) * levels
    {
      var settings := TessellationSettings(Levels, DefaultTessellationSettings.maxArea, subdivisions);
      var mesh := TessellateMesh(elems[i], settings);
      TotalIndicesAppend(meshes', mesh);
      TotalIndicesPrefix(elems, i, levels);
      AppendKeeps(meshes', mesh, |meshes|);
      meshes' := meshes' + [mesh];
    }
    assert elems[..|elems|] == elems;
  }

  /** The meshes TriangulateWaterPhysicsCollisionSetup builds for a setup, in order: one per
      sphere, then one per box, one per capsule and one per convex element, each the
      triangulation of its element. */
  predicate SetupParts(parts: seq<IndexedTriangleMesh>, setup: CollisionSetup, subdivisions: SubdivisionSettings,
                       transform: (Rotator, Vec3, Vec3) -> Vec3)
  {
    var spheres, boxes, sphyls, convex := setup.sphereElems, setup.boxElems, setup.sphylElems, setup.meshElems;
    |parts| == |spheres| + |boxes| + |sphyls| + |convex| &&
    (forall k :: 0 <= k < |spheres| ==>
      SphereTriangulation(parts[k], spheres[k].radius, spheres[k].center, subdivisions.sphere)) &&
    (forall k :: 0 <= k < |boxes| ==>
      BoxTriangulation(parts[|spheres| + k], boxes[k].extent, boxes[k].center, boxes[k].rotation,
                       transform, subdivisions.box)) &&
    (forall k :: 0 <= k < |sphyls| ==>
      SphylTriangulation(parts[|spheres| + |boxes| + k], sphyls[k].halfHeight, sphyls[k].radius,
                         sphyls[k].center, sphyls[k].rotation, transform, subdivisions.capsule)) &&
    (forall k :: 0 <= k < |convex| ==>
      LevelsTessellation(parts[|spheres| + |boxes| + |sphyls| + k], convex[k], subdivisions.convex))
  }

  /** TriangulateWaterPhysicsCollisionSetup: spheres, boxes, capsules and convex meshes are
      triangulated in that order, one mesh each, and the result is exactly the concatenation
      of those meshes (returned as parts): well formed, with their summed vertex and index
      counts. */
  method TriangulateCollisionSetup(setup: CollisionSetup, subdivisions: SubdivisionSettings,
                                   transform: (Rotator, Vec3, Vec3) -> Vec3, safeNormal: Vec3 -> Vec3)
    returns (r: IndexedTriangleMesh, ghost parts: seq<IndexedTriangleMesh>)
    requires forall m :: m in setup.meshElems ==> WellFormed(m)
    ensures SetupParts(parts, setup, subdivisions, transform)
    ensures r == Concatenation(parts)
    ensures WellFormed(r)
    ensures |r.vertexList| == TotalVertices(parts)
    ensures |r.indexList| == SetupIndexCount(setup, subdivisions)
  {
    var none: seq<IndexedTriangleMesh> := [];
    var spheres := AddSpheres(none, setup.sphereElems, subdivisions.sphere, safeNormal);
    var boxes := AddBoxes(spheres, setup.boxElems, subdivisions.box, transform);
    var sphyls := AddSphyls(boxes, setup.sphylElems, subdivisions.capsule, transform, safeNormal);
    var meshes := AddMeshes(sphyls, setup.meshElems, subdivisions.convex);
    SetupPartsFrom(none, spheres, boxes, sphyls, meshes, setup, subdivisions, transform);
    r := Concatenate(meshes);
    ConcatenationShape(meshes);
    parts := meshes;
  }

  /** The four loops of TriangulateWaterPhysicsCollisionSetup, each keeping what came before and
      appending its own meshes, together lay out SetupParts. */
  lemma SetupPartsFrom(none: seq<IndexedTriangleMesh>, spheres: seq<IndexedTriangleMesh>,
                       boxes: seq<IndexedTriangleMesh>, sphyls: seq<IndexedTriangleMesh>,
                       meshes: seq<IndexedTriangleMesh>, setup: CollisionSetup, subdivisions: SubdivisionSettings,
                       transform: (Rotator, Vec3, Vec3) -> Vec3)
    requires none == []
    requires |spheres| == |none| + |setup.sphereElems| && spheres[..|none|] == none
    requires |boxes| == |spheres| + |setup.boxElems| && boxes[..|spheres|] == spheres
    requires |sphyls| == |boxes| + |setup.sphylElems| && sphyls[..|boxes|] == boxes
    requires |meshes| == |sphyls| + |setup.meshElems| && meshes[..|sphyls|] == sphyls
    requires forall k :: 0 <= k < |setup.sphereElems| ==>
      SphereTriangulation(spheres[|none| + k], setup.sphereElems[k].radius, setup.sphereElems[k].center,
                          subdivisions.sphere)
    requires forall k :: 0 <= k < |setup.boxElems| ==>
      BoxTriangulation(boxes[|spheres| + k], setup.boxElems[k].extent, setup.boxElems[k].center,
                       setup.boxElems[k].rotation, transform, subdivisions.box)
    requires forall k :: 0 <= k < |setup.sphylElems| ==>
      SphylTriangulation(sphyls[|boxes| + k], setup.sphylElems[k].halfHeight, setup.sphylElems[k].radius,
                         setup.sphylElems[k].center, setup.sphylElems[k].rotation, transform, subdivisions.capsule)
    requires forall k :: 0 <= k < |setup.meshElems| ==>
      LevelsTessellation(meshes[|sphyls| + k], setup.meshElems[k], subdivisions.convex)
    ensures SetupParts(meshes, setup, subdivisions, transform)
  {
    assert |spheres| == |setup.sphereElems| && |boxes| == |setup.sphereElems| + |setup.boxElems|;
    SetupSphereSlots(none, spheres, boxes, sphyls, meshes, setup.sphereElems, subdivisions.sphere);
    BoxSlotsKept(boxes, sphyls, |spheres|, setup.boxElems, transform, subdivisions.box);
    BoxSlotsKept(sphyls, meshes, |spheres|, setup.boxElems, transform, subdivisions.box);
    SphylSlotsKept(sphyls, meshes, |boxes|, setup.sphylElems, transform, subdivisions.capsule);
  }

  /** The sphere meshes, appended first, keep their slots through the three later loops. */
  lemma SetupSphereSlots(none: seq<IndexedTriangleMesh>, spheres: seq<IndexedTriangleMesh>,
                         boxes: seq<IndexedTriangleMesh>, sphyls: seq<IndexedTriangleMesh>,
                         meshes: seq<IndexedTriangleMesh>, elems: seq<SphereElem>, subdivisions: int)
    requires none == [] && |spheres| == |none| + |elems|
    requires |spheres| <= |boxes| && boxes[..|spheres|] == spheres
    requires |boxes| <= |sphyls| && sphyls[..|boxes|] == boxes
    requires |sphyls| <= |meshes| && meshes[..|sphyls|] == sphyls
    requires forall k :: 0 <= k < |elems| ==>
      SphereTriangulation(spheres[|none| + k], elems[k].radius, elems[k].center, subdivisions)
    ensures forall k :: 0 <= k < |elems| ==>
      SphereTriangulation(meshes[k], elems[k].radius, elems[k].center, subdivisions)
  {
    SphereSlotsKept(spheres, boxes, |none|, elems, subdivisions);
    SphereSlotsKept(boxes, sphyls, |none|, elems, subdivisions);
    SphereSlotsKept(sphyls, meshes, |none|, elems, subdivisions);
  }

  /** Appending one mesh keeps every earlier slot and the prefix up to base. */
  lemma AppendKeeps<T>(ms: seq<T>, m: T, base: int)
    requires 0 <= base <= |ms|
    ensures (ms + [m])[..base] == ms[..base] && (ms + [m])[|ms|] == m
    ensures forall k :: 0 <= k < |ms| ==> (ms + [m])[k] == ms[k]
  {
  }

}
