// The submersion clipper: a triangle mesh cut against the water surface into the submerged
// triangle array, each piece tagged with the triangle it came from.

module Submersion {
  import opened Vectors
  import opened WaterPhysicsTypes
  import opened WaterPhysicsMath
  import opened Tessellation
  import opened PieceGeometry

  /** FSubmergedTriangleArray::FVertex. */
  datatype SubmergedVertex = SubmergedVertex(position: Vec3, waterVelocity: Vec3, depth: real)

  /** FSubmergedTriangleArray as the clipper builds it: vertices, and triangles whose tag is
      the OriginalTriangleIndex. */
  datatype SubmergedTriangleArray = SubmergedTriangleArray(vertexList: seq<SubmergedVertex>, triangleList: seq<Triangle>)

  /** FPlane(Location, Normal).PlaneDot(P): negative below the water surface. */
  function PlaneDot(info: WaterInfoResult, p: Vec3): real {
    Dot(info.waterSurfaceNormal, p) - Dot(info.waterSurfaceNormal, info.waterSurfaceLocation)
  }

  function AbsReal(x: real): (r: real)
    ensures r >= 0.0 && (r == x || r == -x)
  {
    if x < 0.0 then -x else x
  }

  // ---------------------------------------------------------------------------------------
  // Split vertices.

  /** The split fraction along edge A-B: |dA| / (|dA| + |dB|). */
  function SplitAlpha(dA: real, dB: real): real
    requires dA < 0.0 || dB < 0.0
  {
    AbsReal(dA) / (AbsReal(dA) + AbsReal(dB))
  }

  /** The split fraction of an edge with one end under water has a positive denominator and
      lies in [0, 1]; it is 0 only at an end on the surface, 1 only at the other. */
  lemma SplitAlphaBounds(dA: real, dB: real)
    requires (dA < 0.0 && dB >= 0.0) || (dA >= 0.0 && dB < 0.0)
    ensures AbsReal(dA) + AbsReal(dB) > 0.0
    ensures 0.0 <= SplitAlpha(dA, dB) <= 1.0
    ensures SplitAlpha(dA, dB) + SplitAlpha(dB, dA) == 1.0
    ensures dA < 0.0 ==> 0.0 < SplitAlpha(dA, dB)
    ensures dB < 0.0 ==> SplitAlpha(dA, dB) < 1.0
  {
    var a, b := AbsReal(dA), AbsReal(dB);
    var sum := a + b;
    assert sum > 0.0;
    FractionFacts(a, b);
  }

  lemma FractionFacts(a: real, b: real)
    requires a >= 0.0 && b >= 0.0 && a + b > 0.0
    ensures 0.0 <= a / (a + b) <= 1.0
    ensures a / (a + b) + b / (a + b) == 1.0
    ensures a > 0.0 ==> a / (a + b) > 0.0
    ensures b > 0.0 ==> a / (a + b) < 1.0
  {
    var sum := a + b;
    assert a / sum + b / sum == (a + b) / sum;
    assert a / sum <= sum / sum;
  }

  lemma NonNegativeProduct(x: real, y: real)
    requires x >= 0.0 && y >= 0.0
    ensures x * y >= 0.0
  {
  }

  lemma LerpReversed(a: Vec3, b: Vec3, t: real, s: real)
    requires t + s == 1.0
    ensures Lerp(a, b, t) == Lerp(b, a, s)
  {
  }

  /** The vertex the clipper makes on crossing edge (a, b) of the mesh: the lerp at the split
      fraction of position and water velocity, at depth 0. */
  function CrossingVertex(vs: seq<Vec3>, infos: seq<WaterInfoResult>, depths: seq<real>, a: int, b: int): SubmergedVertex
    requires 0 <= a < |vs| && 0 <= b < |vs| && |infos| == |vs| == |depths|
    requires depths[a] < 0.0 || depths[b] < 0.0
  {
    var alpha := SplitAlpha(depths[a], depths[b]);
    SubmergedVertex(Lerp(vs[a], vs[b], alpha), Lerp(infos[a].waterVelocity, infos[b].waterVelocity, alpha), 0.0)
  }

  /** Either end of a crossing edge may come first: the split vertex is the same. */
  lemma CrossingVertexSymmetric(vs: seq<Vec3>, infos: seq<WaterInfoResult>, depths: seq<real>, a: int, b: int)
    requires 0 <= a < |vs| && 0 <= b < |vs| && |infos| == |vs| == |depths|
    requires (depths[a] < 0.0) != (depths[b] < 0.0)
    ensures CrossingVertex(vs, infos, depths, a, b) == CrossingVertex(vs, infos, depths, b, a)
  {
    SplitAlphaBounds(depths[a], depths[b]);
    LerpReversed(vs[a], vs[b], SplitAlpha(depths[a], depths[b]), SplitAlpha(depths[b], depths[a]));
    LerpReversed(infos[a].waterVelocity, infos[b].waterVelocity, SplitAlpha(depths[a], depths[b]), SplitAlpha(depths[b], depths[a]));
  }

  // ---------------------------------------------------------------------------------------
  // The vertex pass.

  /** The copies the vertex pass makes of the first n mesh vertices: each vertex under the
      surface, in order, with its water velocity and depth -distance. */
  function SubmergedCopies(vs: seq<Vec3>, infos: seq<WaterInfoResult>, n: nat): seq<SubmergedVertex>
    requires n <= |vs| == |infos|
  {
    if n == 0 then [] else
      var k := n - 1;
      var d := PlaneDot(infos[k], vs[k]);
      SubmergedCopies(vs, infos, k) + (if d < 0.0 then [SubmergedVertex(vs[k], infos[k].waterVelocity, -d)] else [])
  }

  /** Copies only grow, every copy lies strictly under the surface, and vertex k's copy sits
      at the number of copies made before it. */
  lemma {:induction false} SubmergedCopiesFacts(vs: seq<Vec3>, infos: seq<WaterInfoResult>, k: nat, n: nat)
    requires k <= n <= |vs| == |infos|
    ensures SubmergedCopies(vs, infos, k) <= SubmergedCopies(vs, infos, n)
    ensures forall v :: 0 <= v < |SubmergedCopies(vs, infos, n)| ==> SubmergedCopies(vs, infos, n)[v].depth > 0.0
    ensures k < n && PlaneDot(infos[k], vs[k]) < 0.0 ==>
      |SubmergedCopies(vs, infos, k)| < |SubmergedCopies(vs, infos, n)| &&
      SubmergedCopies(vs, infos, n)[|SubmergedCopies(vs, infos, k)|] ==
        SubmergedVertex(vs[k], infos[k].waterVelocity, -PlaneDot(infos[k], vs[k]))
  {
    if n > 0 {
      if k < n {
        SubmergedCopiesFacts(vs, infos, k, n - 1);
        if k < n - 1 && PlaneDot(infos[k], vs[k]) < 0.0 {
          assert SubmergedCopies(vs, infos, n - 1) <= SubmergedCopies(vs, infos, n);
        }
      } else {
        SubmergedCopiesFacts(vs, infos, n - 1, n - 1);
      }
    }
  }

  /** The first loop of PerformTriangleMeshWaterIntersection: each vertex's plane distance,
      and a copy of each submerged vertex whose index goes into VertexSubmergedIndex (left 0
      for vertices above the surface). */
  method MeasureVertices(vs: seq<Vec3>, infos: seq<WaterInfoResult>)
    returns (depths: seq<real>, submergedIndex: seq<int>, vertices: seq<SubmergedVertex>)
    requires |infos| == |vs|
    ensures |depths| == |vs| && forall k :: 0 <= k < |vs| ==> depths[k] == PlaneDot(infos[k], vs[k])
    ensures vertices == SubmergedCopies(vs, infos, |vs|)
    ensures |submergedIndex| == |vs|
    ensures forall k {:trigger submergedIndex[k]} :: 0 <= k < |vs| ==>
      submergedIndex[k] == if depths[k] < 0.0 then |SubmergedCopies(vs, infos, k)| else 0
  {
    depths := seq(|vs|, _ => 0.0);
    submergedIndex := seq(|vs|, _ => 0);
    vertices := [];
    for i := 0 to |vs|
      invariant |depths| == |vs| == |submergedIndex|
      invariant forall k :: 0 <= k < i ==> depths[k] == PlaneDot(infos[k], vs[k])
      invariant forall k {:trigger submergedIndex[k]} :: 0 <= k < i ==>
        submergedIndex[k] == if PlaneDot(infos[k], vs[k]) < 0.0 then |SubmergedCopies(vs, infos, k)| else 0
      invariant forall k :: i <= k < |vs| ==> submergedIndex[k] == 0
      invariant vertices == SubmergedCopies(vs, infos, i)
    {
      var d := PlaneDot(infos[i], vs[i]);
      depths := depths[i := d];
      if d < 0.0 {
        submergedIndex := submergedIndex[i := |vertices|];
        vertices := vertices + [SubmergedVertex(vs[i], infos[i].waterVelocity, -d)];
      }
      assert vertices == SubmergedCopies(vs, infos, i + 1);
    }
  }

  // ---------------------------------------------------------------------------------------
  // The triangle pass.

  /** FVertexIndex: a mesh vertex and its position (0, 1 or 2) on the triangle. */
  datatype Corner = Corner(index: int, order: int)

  /** The corners among the first n of triangle ks on one side of the surface (below: depth
      < 0), in corner order: VerticesUnderSurface / VerticesOverSurface. */
  function Side(ks: seq<int>, depths: seq<real>, n: nat, below: bool): seq<Corner>
    requires n <= |ks| && forall j :: 0 <= j < |ks| ==> 0 <= ks[j] < |depths|
  {
    if n == 0 then [] else
      Side(ks, depths, n - 1, below) + (if (depths[ks[n - 1]] < 0.0) == below then [Corner(ks[n - 1], n - 1)] else [])
  }

  /** The number of corners of a triangle under the surface. */
  function UnderCount(d0: real, d1: real, d2: real): nat {
    (if d0 < 0.0 then 1 else 0) + (if d1 < 0.0 then 1 else 0) + (if d2 < 0.0 then 1 else 0)
  }

  /** The pieces a triangle is cut into: none when dry, itself when fully submerged, the corner
      piece when one corner is under, the two halves of the quad when two are. */
  function PieceCount(d0: real, d1: real, d2: real): nat {
    var n := UnderCount(d0, d1, d2);
    if n == 0 then 0 else if n == 2 then 2 else 1
  }

  /** Roles A, B, C of a partially submerged triangle: A is alone on its side. */
  function Roles(under: seq<Corner>, over: seq<Corner>): (Corner, Corner, Corner)
    requires (|under| == 1 && |over| == 2) || (|under| == 2 && |over| == 1)
  {
    if |over| == 2 then (under[0], over[0], over[1]) else (over[0], under[0], under[1])
  }

  /** What the side lists say: they split the three corners, and for a partially submerged
      triangle the roles have valid orders, A alone on its side. */
  lemma SidesFacts(ks: seq<int>, depths: seq<real>)
    requires |ks| == 3 && forall j :: 0 <= j < 3 ==> 0 <= ks[j] < |depths|
    ensures var under, over := Side(ks, depths, 3, true), Side(ks, depths, 3, false);
      |under| + |over| == 3 && |under| == UnderCount(depths[ks[0]], depths[ks[1]], depths[ks[2]]) &&
      (|under| == 3 ==> forall j :: 0 <= j < 3 ==> depths[ks[j]] < 0.0)
    ensures var under, over := Side(ks, depths, 3, true), Side(ks, depths, 3, false);
      (|under| == 1 || |under| == 2) ==>
        var (a, b, c) := Roles(under, over);
        RoleOrders(a.order, b.order, c.order) &&
        a.index == ks[a.order] && b.index == ks[b.order] && c.index == ks[c.order] &&
        (|over| == 2 ==> depths[a.index] < 0.0 && depths[b.index] >= 0.0 && depths[c.index] >= 0.0) &&
        (|over| == 1 ==> depths[a.index] >= 0.0 && depths[b.index] < 0.0 && depths[c.index] < 0.0)
  {
    var under, over := Side(ks, depths, 3, true), Side(ks, depths, 3, false);
    var c0, c1, c2 := Corner(ks[0], 0), Corner(ks[1], 1), Corner(ks[2], 2);
    var u0, u1, u2 := depths[ks[0]] < 0.0, depths[ks[1]] < 0.0, depths[ks[2]] < 0.0;
    SidesUnrolled(ks, depths, true);
    SidesUnrolled(ks, depths, false);
    if u0 && u1 && u2 {
      assert under == [c0, c1, c2] && over == [];
    } else if u0 && u1 {
      assert under == [c0, c1] && over == [c2];
    } else if u0 && u2 {
      assert under == [c0, c2] && over == [c1];
    } else if u1 && u2 {
      assert under == [c1, c2] && over == [c0];
    } else if u0 {
      assert under == [c0] && over == [c1, c2];
    } else if u1 {
      assert under == [c1] && over == [c0, c2];
    } else if u2 {
      assert under == [c2] && over == [c0, c1];
    } else {
      assert under == [] && over == [c0, c1, c2];
    }
  }

  /** One side list of a triangle, corner by corner. */
  lemma SidesUnrolled(ks: seq<int>, depths: seq<real>, below: bool)
    requires |ks| == 3 && forall j :: 0 <= j < 3 ==> 0 <= ks[j] < |depths|
    ensures Side(ks, depths, 3, below) ==
      (if (depths[ks[0]] < 0.0) == below then [Corner(ks[0], 0)] else []) +
      (if (depths[ks[1]] < 0.0) == below then [Corner(ks[1], 1)] else []) +
      (if (depths[ks[2]] < 0.0) == below then [Corner(ks[2], 2)] else [])
  {
    assert Side(ks, depths, 1, below) == [] + (if (depths[ks[0]] < 0.0) == below then [Corner(ks[0], 0)] else []);
  }

  /** FVertexIndex lists for one triangle, filled corner by corner. */
  method ClassifyCorners(ks: seq<int>, depths: seq<real>) returns (under: seq<Corner>, over: seq<Corner>)
    requires |ks| == 3 && forall j :: 0 <= j < 3 ==> 0 <= ks[j] < |depths|
    ensures under == Side(ks, depths, 3, true) && over == Side(ks, depths, 3, false)
  {
    under, over := [], [];
    for j := 0 to 3
      invariant under == Side(ks, depths, j, true) && over == Side(ks, depths, j, false)
    {
      if depths[ks[j]] < 0.0 {
        under := under + [Corner(ks[j], j)];
      } else {
        over := over + [Corner(ks[j], j)];
      }
    }
  }

  /** The fixed inputs of one clipping run. */
  ghost predicate Inputs(mesh: IndexedTriangleMesh, infos: seq<WaterInfoResult>, depths: seq<real>, submergedIndex: seq<int>) {
    WellFormed(mesh) && |infos| == |mesh.vertexList| == |depths| == |submergedIndex| &&
    (forall k :: 0 <= k < |depths| ==> depths[k] == PlaneDot(infos[k], mesh.vertexList[k])) &&
    forall k {:trigger submergedIndex[k]} :: 0 <= k < |depths| ==>
      submergedIndex[k] == if depths[k] < 0.0 then |SubmergedCopies(mesh.vertexList, infos, k)| else 0
  }

  /** Entry e of EdgeSplitVertices: a crossing edge of the mesh (larger index first), mapped
      to a split vertex made for it. */
  ghost predicate EdgeEntry(mesh: IndexedTriangleMesh, infos: seq<WaterInfoResult>, depths: seq<real>,
                            vertices: seq<SubmergedVertex>, edges: map<(int, int), int>, e: (int, int))
  {
    e in edges && 0 <= e.1 <= e.0 < |mesh.vertexList| && |infos| == |mesh.vertexList| == |depths| &&
    (depths[e.0] < 0.0) != (depths[e.1] < 0.0) &&
    |SubmergedCopies(mesh.vertexList, infos, |mesh.vertexList|)| <= edges[e] < |vertices| &&
    vertices[edges[e]] == CrossingVertex(mesh.vertexList, infos, depths, e.0, e.1)
  }

  /** The state of the result's vertices: the submerged copies first, then split vertices at
      depth 0, each recorded for its crossing edge (at most one key per split vertex). */
  ghost predicate VerticesValid(mesh: IndexedTriangleMesh, infos: seq<WaterInfoResult>, depths: seq<real>,
                                vertices: seq<SubmergedVertex>, edges: map<(int, int), int>)
  {
    |infos| == |mesh.vertexList| &&
    var copies := SubmergedCopies(mesh.vertexList, infos, |mesh.vertexList|);
    copies <= vertices &&
    (forall v :: |copies| <= v < |vertices| ==> vertices[v].depth == 0.0) &&
    (forall e {:trigger EdgeEntry(mesh, infos, depths, vertices, edges, e)} ::
      e in edges ==> EdgeEntry(mesh, infos, depths, vertices, edges, e)) &&
    (forall e, e' {:trigger EdgeEntry(mesh, infos, depths, vertices, edges, e), EdgeEntry(mesh, infos, depths, vertices, edges, e')} ::
      EdgeEntry(mesh, infos, depths, vertices, edges, e) && EdgeEntry(mesh, infos, depths, vertices, edges, e') && edges[e] == edges[e']
      ==> e == e') &&
    |edges| <= |vertices| - |copies|
  }

  /** The positions of source triangle t, in its stored order. */
  function SourceCorners(mesh: IndexedTriangleMesh, t: int): (r: seq<Vec3>)
    requires WellFormed(mesh) && 0 <= t < |mesh.indexList| / 3
    ensures |r| == 3 && forall j :: 0 <= j < 3 ==> r[j] == mesh.vertexList[CornersOf(mesh, t)[j]]
  {
    var ks := CornersOf(mesh, t);
    [mesh.vertexList[ks[0]], mesh.vertexList[ks[1]], mesh.vertexList[ks[2]]]
  }

  /** A piece of the result: it references existing vertices, names a source triangle, and
      faces the way that triangle faces. */
  ghost predicate PieceValid(mesh: IndexedTriangleMesh, vertices: seq<SubmergedVertex>, tri: Triangle) {
    WellFormed(mesh) && RefsBelow(tri, |vertices|) && 0 <= tri.tag < |mesh.indexList| / 3 &&
    var src := SourceCorners(mesh, tri.tag);
    SameOrientation(NormalDirection(vertices[tri.a].position, vertices[tri.b].position, vertices[tri.c].position),
                    NormalDirection(src[0], src[1], src[2]))
  }

  lemma PieceKept(mesh: IndexedTriangleMesh, vertices: seq<SubmergedVertex>, vertices': seq<SubmergedVertex>, tri: Triangle)
    requires PieceValid(mesh, vertices, tri) && vertices <= vertices'
    ensures PieceValid(mesh, vertices', tri)
  {
    assert vertices'[tri.a] == vertices[tri.a] && vertices'[tri.b] == vertices[tri.b] && vertices'[tri.c] == vertices[tri.c];
  }

  /** The split vertex for crossing edge (a, b): the one found before this triangle, or a new
      one appended and recorded. */
  method SplitVertex(mesh: IndexedTriangleMesh, infos: seq<WaterInfoResult>, depths: seq<real>,
                     vertices: seq<SubmergedVertex>, edges: map<(int, int), int>, a: int, b: int, existing: Option<int>)
    returns (index: int, vertices': seq<SubmergedVertex>, edges': map<(int, int), int>)
    requires |infos| == |mesh.vertexList| == |depths|
    requires 0 <= a < |depths| && 0 <= b < |depths| && (depths[a] < 0.0) != (depths[b] < 0.0)
    requires VerticesValid(mesh, infos, depths, vertices, edges)
    requires existing.Some? ==> UnorderedEdge(a, b) in edges && edges[UnorderedEdge(a, b)] == existing.value
    ensures VerticesValid(mesh, infos, depths, vertices', edges')
    ensures vertices <= vertices' && forall e :: e in edges ==> e in edges'
    ensures forall e :: e in edges && e != UnorderedEdge(a, b) ==> edges'[e] == edges[e]
    ensures existing.Some? ==> vertices' == vertices && edges' == edges && index == existing.value
    ensures existing.None? ==> |vertices'| == |vertices| + 1 && edges'.Keys == edges.Keys + {UnorderedEdge(a, b)}
    ensures existing.None? && UnorderedEdge(a, b) !in edges ==> |edges'| == |edges| + 1
    ensures 0 <= index < |vertices'| && vertices'[index] == CrossingVertex(mesh.vertexList, infos, depths, a, b)
  {
    var key := UnorderedEdge(a, b);
    var copies := SubmergedCopies(mesh.vertexList, infos, |mesh.vertexList|);
    CrossingVertexSymmetric(mesh.vertexList, infos, depths, a, b);
    if existing.Some? {
      index, vertices', edges' := existing.value, vertices, edges;
      assert EdgeEntry(mesh, infos, depths, vertices, edges, key);
    } else {
      var alpha := SplitAlpha(depths[a], depths[b]);
      var v := SubmergedVertex(Lerp(mesh.vertexList[a], mesh.vertexList[b], alpha),
                               Lerp(infos[a].waterVelocity, infos[b].waterVelocity, alpha), 0.0);
      index := |vertices|;
      vertices' := vertices + [v];
      edges' := edges[key := index];
      RecordSplit(mesh, infos, depths, vertices, edges, key);
    }
  }

  /** Appending the split vertex of a crossing edge and recording it keeps the state valid. */
  lemma RecordSplit(mesh: IndexedTriangleMesh, infos: seq<WaterInfoResult>, depths: seq<real>,
                    vertices: seq<SubmergedVertex>, edges: map<(int, int), int>, key: (int, int))
    requires |infos| == |mesh.vertexList| == |depths| && VerticesValid(mesh, infos, depths, vertices, edges)
    requires 0 <= key.1 <= key.0 < |depths| && Crossing(depths, key.0, key.1)
    ensures var v := CrossingVertex(mesh.vertexList, infos, depths, key.0, key.1);
      VerticesValid(mesh, infos, depths, vertices + [v], edges[key := |vertices|])
  {
    var v := CrossingVertex(mesh.vertexList, infos, depths, key.0, key.1);
    var vertices', edges', index := vertices + [v], edges[key := |vertices|], |vertices|;
    forall e | e in edges'
      ensures EdgeEntry(mesh, infos, depths, vertices', edges', e)
      ensures e != key ==> edges'[e] < index
    {
      if e != key {
        assert EdgeEntry(mesh, infos, depths, vertices, edges, e);
      }
    }
    forall e, e' | EdgeEntry(mesh, infos, depths, vertices', edges', e) && EdgeEntry(mesh, infos, depths, vertices', edges', e') &&
                   edges'[e] == edges'[e']
      ensures e == e'
    {
      if e != key && e' != key {
        assert EdgeEntry(mesh, infos, depths, vertices, edges, e) && EdgeEntry(mesh, infos, depths, vertices, edges, e');
      }
    }
    assert |edges'| <= |edges| + 1;
  }

  /** The split vertex for a key already in the map is never replaced. */
  lemma ExistingKept(edges: map<(int, int), int>, edges': map<(int, int), int>, key: (int, int))
    requires forall e :: e in edges ==> e in edges'
    requires forall e :: e in edges && e != key ==> edges'[e] == edges[e]
    requires key in edges ==> edges'[key] == edges[key]
    ensures forall e :: e in edges ==> edges'[e] == edges[e]
  {
  }

  /** The positions of three result vertices. */
  function Positions(vertices: seq<SubmergedVertex>, I: seq<int>): (r: seq<Vec3>)
    requires |I| == 3 && forall r :: 0 <= r < 3 ==> 0 <= I[r] < |vertices|
    ensures |r| == 3 && forall j :: 0 <= j < 3 ==> r[j] == vertices[I[j]].position
  {
    [vertices[I[0]].position, vertices[I[1]].position, vertices[I[2]].position]
  }

  /** A piece stored at the corner orders, as the clipper stores it, faces the way its
      source triangle faces when the normal of its corners q0, q1, q2 (in role order) is a
      non-negative multiple of the normal of the source corners p0, p1, p2 in role order
      (negated for the swapped store). */
  lemma StoredPiece(mesh: IndexedTriangleMesh, vertices: seq<SubmergedVertex>, t: int, oA: int, oB: int, oC: int,
                    I: seq<int>, q0: Vec3, q1: Vec3, q2: Vec3, p0: Vec3, p1: Vec3, p2: Vec3, k: real, swapped: bool)
    requires WellFormed(mesh) && 0 <= t < |mesh.indexList| / 3 && RoleOrders(oA, oB, oC) && k >= 0.0
    requires |I| == 3 && forall r :: 0 <= r < 3 ==> 0 <= I[r] < |vertices|
    requires vertices[I[0]].position == q0 && vertices[I[1]].position == q1 && vertices[I[2]].position == q2
    requires var src := SourceCorners(mesh, t); src[oA] == p0 && src[oB] == p1 && src[oC] == p2
    requires NormalDirection(q0, q1, q2) == Scale(NormalDirection(p0, p1, p2), if swapped then -k else k)
    ensures PieceValid(mesh, vertices, if swapped then Triangle(I[oB], I[oA], I[oC], t) else Triangle(I[oA], I[oB], I[oC], t))
  {
    var xs := Positions(vertices, I);
    assert xs == [q0, q1, q2];
    PieceOrientation(SourceCorners(mesh, t), oA, oB, oC, xs, k, swapped);
  }

  /** Where the copy of a submerged mesh vertex sits among the result's vertices. */
  lemma CopyAt(mesh: IndexedTriangleMesh, infos: seq<WaterInfoResult>, depths: seq<real>, submergedIndex: seq<int>,
               vertices: seq<SubmergedVertex>, edges: map<(int, int), int>, k: int)
    requires Inputs(mesh, infos, depths, submergedIndex) && VerticesValid(mesh, infos, depths, vertices, edges)
    requires 0 <= k < |depths| && depths[k] < 0.0
    ensures 0 <= submergedIndex[k] < |vertices| && vertices[submergedIndex[k]].position == mesh.vertexList[k]
  {
    SubmergedCopiesFacts(mesh.vertexList, infos, k, |mesh.vertexList|);
  }

  /** The corners of source triangle t, read from the index list. */
  function CornersOf(mesh: IndexedTriangleMesh, t: int): (ks: seq<int>)
    requires WellFormed(mesh) && 0 <= t < |mesh.indexList| / 3
    ensures |ks| == 3 && forall j :: 0 <= j < 3 ==> 0 <= ks[j] < |mesh.vertexList|
  {
    assert 3 * t + 2 < |mesh.indexList|;
    mesh.indexList[3 * t..3 * t + 3]
  }

  /** A triangle whose three corners are distinct vertices. */
  ghost predicate DistinctCorners(mesh: IndexedTriangleMesh, t: int) {
    WellFormed(mesh) && 0 <= t < |mesh.indexList| / 3 &&
    var ks := CornersOf(mesh, t);
    ks[0] != ks[1] && ks[1] != ks[2] && ks[0] != ks[2]
  }

  /** A depth sign change between two mesh vertices: the edge crosses the surface. */
  predicate Crossing(depths: seq<real>, a: int, b: int)
    requires 0 <= a < |depths| && 0 <= b < |depths|
  {
    (depths[a] < 0.0) != (depths[b] < 0.0)
  }

  /** Both split vertices of a partially submerged triangle, A-B first, each looked up in the
      edge map before either is made. */
  method SplitBothEdges(mesh: IndexedTriangleMesh, infos: seq<WaterInfoResult>, depths: seq<real>,
                        vertices: seq<SubmergedVertex>, edges: map<(int, int), int>, a: int, b: int, c: int)
    returns (abIndex: int, acIndex: int, vertices': seq<SubmergedVertex>, edges': map<(int, int), int>)
    requires |infos| == |mesh.vertexList| == |depths| && VerticesValid(mesh, infos, depths, vertices, edges)
    requires 0 <= a < |depths| && 0 <= b < |depths| && 0 <= c < |depths| && Crossing(depths, a, b) && Crossing(depths, a, c)
    ensures VerticesValid(mesh, infos, depths, vertices', edges') && vertices <= vertices'
    ensures forall e :: e in edges ==> e in edges' && edges'[e] == edges[e]
    ensures b != c ==> |vertices'| - |vertices| == |edges'| - |edges|
    ensures 0 <= abIndex < |vertices'| && vertices'[abIndex] == CrossingVertex(mesh.vertexList, infos, depths, a, b)
    ensures 0 <= acIndex < |vertices'| && vertices'[acIndex] == CrossingVertex(mesh.vertexList, infos, depths, a, c)
  {
    var keyAB, keyAC := UnorderedEdge(a, b), UnorderedEdge(a, c);
    var existingAB := if keyAB in edges then Some(edges[keyAB]) else None;
    var existingAC := if keyAC in edges then Some(edges[keyAC]) else None;
    var v1, e1;
    abIndex, v1, e1 := SplitVertex(mesh, infos, depths, vertices, edges, a, b, existingAB);
    ExistingKept(edges, e1, keyAB);
    acIndex, vertices', edges' := SplitVertex(mesh, infos, depths, v1, e1, a, c, existingAC);
    ExistingKept(edges, edges', keyAC);
    assert vertices'[abIndex] == v1[abIndex];
    if b != c {
      assert keyAB != keyAC;
      assert existingAC.None? ==> keyAC !in e1;
    }
  }

  /** The corner piece at a lone submerged A, stored at the corner orders, faces the way its
      source triangle faces. */
  lemma CornerPieceValid(mesh: IndexedTriangleMesh, infos: seq<WaterInfoResult>, depths: seq<real>,
                         vertices: seq<SubmergedVertex>, t: int, a: Corner, b: Corner, c: Corner, iA: int, iAB: int, iAC: int)
    requires WellFormed(mesh) && |infos| == |mesh.vertexList| == |depths| && 0 <= t < |mesh.indexList| / 3
    requires RoleOrders(a.order, b.order, c.order)
    requires var ks := CornersOf(mesh, t); a.index == ks[a.order] && b.index == ks[b.order] && c.index == ks[c.order]
    requires depths[a.index] < 0.0 && depths[b.index] >= 0.0 && depths[c.index] >= 0.0
    requires 0 <= iA < |vertices| && vertices[iA].position == mesh.vertexList[a.index]
    requires 0 <= iAB < |vertices| && vertices[iAB] == CrossingVertex(mesh.vertexList, infos, depths, a.index, b.index)
    requires 0 <= iAC < |vertices| && vertices[iAC] == CrossingVertex(mesh.vertexList, infos, depths, a.index, c.index)
    ensures var I := [iA, iAB, iAC]; PieceValid(mesh, vertices, Triangle(I[a.order], I[b.order], I[c.order], t))
  {
    var vs := mesh.vertexList;
    var tAB, tAC := SplitAlpha(depths[a.index], depths[b.index]), SplitAlpha(depths[a.index], depths[c.index]);
    SplitAlphaBounds(depths[a.index], depths[b.index]);
    SplitAlphaBounds(depths[a.index], depths[c.index]);
    CornerPieceNormal(vs[a.index], vs[b.index], vs[c.index], tAB, tAC);
    NonNegativeProduct(tAB, tAC);
    StoredPiece(mesh, vertices, t, a.order, b.order, c.order, [iA, iAB, iAC], vs[a.index], Lerp(vs[a.index], vs[b.index], tAB),
                Lerp(vs[a.index], vs[c.index], tAC), vs[a.index], vs[b.index], vs[c.index], tAB * tAC, false);
  }

  /** The first half of the quad left when a lone dry A is cut off, (AB, B, C) stored at the
      corner orders, faces the way its source triangle faces. */
  lemma QuadFirstValid(mesh: IndexedTriangleMesh, infos: seq<WaterInfoResult>, depths: seq<real>,
                       vertices: seq<SubmergedVertex>, t: int, a: Corner, b: Corner, c: Corner, iB: int, iC: int, iAB: int)
    requires WellFormed(mesh) && |infos| == |mesh.vertexList| == |depths| && 0 <= t < |mesh.indexList| / 3
    requires RoleOrders(a.order, b.order, c.order)
    requires var ks := CornersOf(mesh, t); a.index == ks[a.order] && b.index == ks[b.order] && c.index == ks[c.order]
    requires depths[a.index] >= 0.0 && depths[b.index] < 0.0
    requires 0 <= iB < |vertices| && vertices[iB].position == mesh.vertexList[b.index]
    requires 0 <= iC < |vertices| && vertices[iC].position == mesh.vertexList[c.index]
    requires 0 <= iAB < |vertices| && vertices[iAB] == CrossingVertex(mesh.vertexList, infos, depths, a.index, b.index)
    ensures var I1 := [iAB, iB, iC]; PieceValid(mesh, vertices, Triangle(I1[a.order], I1[b.order], I1[c.order], t))
  {
    var vs := mesh.vertexList;
    var tAB := SplitAlpha(depths[a.index], depths[b.index]);
    SplitAlphaBounds(depths[a.index], depths[b.index]);
    QuadFirstNormal(vs[a.index], vs[b.index], vs[c.index], tAB);
    StoredPiece(mesh, vertices, t, a.order, b.order, c.order, [iAB, iB, iC], Lerp(vs[a.index], vs[b.index], tAB),
                vs[b.index], vs[c.index], vs[a.index], vs[b.index], vs[c.index], 1.0 - tAB, false);
  }

  /** The second half, (AB, AC, C) stored with its first two corner orders swapped, faces the
      way its source triangle faces. */
  lemma QuadSecondValid(mesh: IndexedTriangleMesh, infos: seq<WaterInfoResult>, depths: seq<real>,
                        vertices: seq<SubmergedVertex>, t: int, a: Corner, b: Corner, c: Corner, iC: int, iAB: int, iAC: int)
    requires WellFormed(mesh) && |infos| == |mesh.vertexList| == |depths| && 0 <= t < |mesh.indexList| / 3
    requires RoleOrders(a.order, b.order, c.order)
    requires var ks := CornersOf(mesh, t); a.index == ks[a.order] && b.index == ks[b.order] && c.index == ks[c.order]
    requires depths[a.index] >= 0.0 && depths[b.index] < 0.0 && depths[c.index] < 0.0
    requires 0 <= iC < |vertices| && vertices[iC].position == mesh.vertexList[c.index]
    requires 0 <= iAB < |vertices| && vertices[iAB] == CrossingVertex(mesh.vertexList, infos, depths, a.index, b.index)
    requires 0 <= iAC < |vertices| && vertices[iAC] == CrossingVertex(mesh.vertexList, infos, depths, a.index, c.index)
    ensures var I2 := [iAB, iAC, iC]; PieceValid(mesh, vertices, Triangle(I2[b.order], I2[a.order], I2[c.order], t))
  {
    var vs := mesh.vertexList;
    var pA, pB, pC := vs[a.index], vs[b.index], vs[c.index];
    var tAB, tAC := SplitAlpha(depths[a.index], depths[b.index]), SplitAlpha(depths[a.index], depths[c.index]);
    SplitAlphaBounds(depths[a.index], depths[b.index]);
    SplitAlphaBounds(depths[a.index], depths[c.index]);
    var pAB, pAC := Lerp(pA, pB, tAB), Lerp(pA, pC, tAC);
    QuadSecondNormal(pA, pB, pC, tAB, tAC);
    NormalWinding(pAB, pAC, pC);
    assert NormalDirection(pAB, pAC, pC) == Scale(NormalDirection(pA, pB, pC), -(tAB * (1.0 - tAC)));
    NonNegativeProduct(tAB, 1.0 - tAC);
    StoredPiece(mesh, vertices, t, a.order, b.order, c.order, [iAB, iAC, iC], pAB, pAC, pC, pA, pB, pC, tAB * (1.0 - tAC), true);
  }

  /** The partially submerged branch: split A-B and A-C, then emit the corner piece at a lone
      submerged A, or the two halves of the quad left when a lone dry A is cut off. */
  method ClipPartial(mesh: IndexedTriangleMesh, infos: seq<WaterInfoResult>, depths: seq<real>, submergedIndex: seq<int>,
                     vertices: seq<SubmergedVertex>, edges: map<(int, int), int>, t: int, a: Corner, b: Corner, c: Corner, oneUnder: bool)
    returns (pieces: seq<Triangle>, vertices': seq<SubmergedVertex>, edges': map<(int, int), int>)
    requires Inputs(mesh, infos, depths, submergedIndex) && VerticesValid(mesh, infos, depths, vertices, edges)
    requires 0 <= t < |mesh.indexList| / 3 && RoleOrders(a.order, b.order, c.order)
    requires var ks := CornersOf(mesh, t); a.index == ks[a.order] && b.index == ks[b.order] && c.index == ks[c.order]
    requires oneUnder ==> depths[a.index] < 0.0 && depths[b.index] >= 0.0 && depths[c.index] >= 0.0
    requires !oneUnder ==> depths[a.index] >= 0.0 && depths[b.index] < 0.0 && depths[c.index] < 0.0
    ensures VerticesValid(mesh, infos, depths, vertices', edges') && vertices <= vertices'
    ensures forall e :: e in edges ==> e in edges' && edges'[e] == edges[e]
    ensures DistinctCorners(mesh, t) ==> |vertices'| - |vertices| == |edges'| - |edges|
    ensures |pieces| == (if oneUnder then 1 else 2)
    ensures forall p :: 0 <= p < |pieces| ==> pieces[p].tag == t && PieceValid(mesh, vertices', pieces[p])
  {
    var abIndex, acIndex;
    abIndex, acIndex, vertices', edges' := SplitBothEdges(mesh, infos, depths, vertices, edges, a.index, b.index, c.index);
    if oneUnder {
      CopyAt(mesh, infos, depths, submergedIndex, vertices', edges', a.index);
      var I := [submergedIndex[a.index], abIndex, acIndex];
      pieces := [Triangle(I[a.order], I[b.order], I[c.order], t)];
      CornerPieceValid(mesh, infos, depths, vertices', t, a, b, c, I[0], abIndex, acIndex);
    } else {
      CopyAt(mesh, infos, depths, submergedIndex, vertices', edges', b.index);
      CopyAt(mesh, infos, depths, submergedIndex, vertices', edges', c.index);
      var I1 := [abIndex, submergedIndex[b.index], submergedIndex[c.index]];
      var I2 := [abIndex, acIndex, submergedIndex[c.index]];
      pieces := [Triangle(I1[a.order], I1[b.order], I1[c.order], t), Triangle(I2[b.order], I2[a.order], I2[c.order], t)];
      QuadFirstValid(mesh, infos, depths, vertices', t, a, b, c, I1[1], I1[2], abIndex);
      QuadSecondValid(mesh, infos, depths, vertices', t, a, b, c, I1[2], abIndex, acIndex);
    }
  }

  /** The plane distance of every mesh vertex. */
  function Depths(mesh: IndexedTriangleMesh, infos: seq<WaterInfoResult>): (r: seq<real>)
    requires |infos| == |mesh.vertexList|
    ensures |r| == |mesh.vertexList| && forall k :: 0 <= k < |r| ==> r[k] == PlaneDot(infos[k], mesh.vertexList[k])
  {
    seq(|mesh.vertexList|, k requires 0 <= k < |mesh.vertexList| => PlaneDot(infos[k], mesh.vertexList[k]))
  }

  /** The number of pieces source triangle t is cut into. */
  function TrianglePieces(mesh: IndexedTriangleMesh, depths: seq<real>, t: int): nat
    requires WellFormed(mesh) && |depths| == |mesh.vertexList| && 0 <= t < |mesh.indexList| / 3
  {
    var ks := CornersOf(mesh, t);
    PieceCount(depths[ks[0]], depths[ks[1]], depths[ks[2]])
  }

  /** The number of pieces cut from the first n source triangles. */
  function PiecesUpTo(mesh: IndexedTriangleMesh, depths: seq<real>, n: nat): nat
    requires WellFormed(mesh) && |depths| == |mesh.vertexList| && n <= |mesh.indexList| / 3
  {
    if n == 0 then 0 else PiecesUpTo(mesh, depths, n - 1) + TrianglePieces(mesh, depths, n - 1)
  }

  /** Source triangle t's pieces come after those of every earlier triangle. */
  lemma {:induction false} PiecesUpToMonotone(mesh: IndexedTriangleMesh, depths: seq<real>, m: nat, n: nat)
    requires WellFormed(mesh) && |depths| == |mesh.vertexList| && m <= n <= |mesh.indexList| / 3
    ensures PiecesUpTo(mesh, depths, m) <= PiecesUpTo(mesh, depths, n)
  {
    if m < n {
      PiecesUpToMonotone(mesh, depths, m, n - 1);
    }
  }

  /** One pass of the triangle loop: the corners sorted by side, then no piece for a dry
      triangle, the triangle itself (over the submerged copies) for a fully submerged one, and
      the partial split otherwise. */
  method ClipTriangle(mesh: IndexedTriangleMesh, infos: seq<WaterInfoResult>, depths: seq<real>, submergedIndex: seq<int>,
                      vertices: seq<SubmergedVertex>, edges: map<(int, int), int>, t: int)
    returns (pieces: seq<Triangle>, vertices': seq<SubmergedVertex>, edges': map<(int, int), int>)
    requires Inputs(mesh, infos, depths, submergedIndex) && VerticesValid(mesh, infos, depths, vertices, edges)
    requires 0 <= t < |mesh.indexList| / 3
    ensures VerticesValid(mesh, infos, depths, vertices', edges') && vertices <= vertices'
    ensures forall e :: e in edges ==> e in edges' && edges'[e] == edges[e]
    ensures DistinctCorners(mesh, t) ==> |vertices'| - |vertices| == |edges'| - |edges|
    ensures |pieces| == TrianglePieces(mesh, depths, t)
    ensures forall p :: 0 <= p < |pieces| ==> pieces[p].tag == t && PieceValid(mesh, vertices', pieces[p])
  {
    var ks := CornersOf(mesh, t);
    var under, over := ClassifyCorners(ks, depths);
    SidesFacts(ks, depths);
    if |under| == 3 {
      vertices', edges' := vertices, edges;
      CopyAt(mesh, infos, depths, submergedIndex, vertices, edges, ks[0]);
      CopyAt(mesh, infos, depths, submergedIndex, vertices, edges, ks[1]);
      CopyAt(mesh, infos, depths, submergedIndex, vertices, edges, ks[2]);
      pieces := [Triangle(submergedIndex[ks[0]], submergedIndex[ks[1]], submergedIndex[ks[2]], t)];
      var n := NormalDirection(mesh.vertexList[ks[0]], mesh.vertexList[ks[1]], mesh.vertexList[ks[2]]);
      ScaledSameOrientation(n, 1.0);
      assert Scale(n, 1.0) == n;
    } else if |over| != 3 {
      var (a, b, c) := Roles(under, over);
      pieces, vertices', edges' := ClipPartial(mesh, infos, depths, submergedIndex, vertices, edges, t, a, b, c, |over| == 2);
    } else {
      pieces, vertices', edges' := [], vertices, edges;
    }
  }

  /** The pieces cut from the first t source triangles: each faces the way its source
      triangle does, and source triangle u's pieces occupy positions PiecesUpTo(u) up to
      PiecesUpTo(u + 1). */
  ghost predicate PiecesValid(mesh: IndexedTriangleMesh, depths: seq<real>, vertices: seq<SubmergedVertex>, triangles: seq<Triangle>, t: nat)
  {
    WellFormed(mesh) && |depths| == |mesh.vertexList| && t <= |mesh.indexList| / 3 &&
    |triangles| == PiecesUpTo(mesh, depths, t) &&
    forall p :: 0 <= p < |triangles| ==>
      PieceValid(mesh, vertices, triangles[p]) && 0 <= triangles[p].tag < t &&
      PiecesUpTo(mesh, depths, triangles[p].tag) <= p < PiecesUpTo(mesh, depths, triangles[p].tag + 1)
  }

  lemma AppendPieces(mesh: IndexedTriangleMesh, depths: seq<real>, vertices: seq<SubmergedVertex>, vertices': seq<SubmergedVertex>,
                     triangles: seq<Triangle>, pieces: seq<Triangle>, t: nat)
    requires WellFormed(mesh) && |depths| == |mesh.vertexList| && t < |mesh.indexList| / 3
    requires PiecesValid(mesh, depths, vertices, triangles, t) && vertices <= vertices'
    requires |pieces| == TrianglePieces(mesh, depths, t)
    requires forall p :: 0 <= p < |pieces| ==> pieces[p].tag == t && PieceValid(mesh, vertices', pieces[p])
    ensures PiecesValid(mesh, depths, vertices', triangles + pieces, t + 1)
  {
    var all := triangles + pieces;
    forall p | 0 <= p < |all|
      ensures PieceValid(mesh, vertices', all[p]) && 0 <= all[p].tag < t + 1
      ensures PiecesUpTo(mesh, depths, all[p].tag) <= p < PiecesUpTo(mesh, depths, all[p].tag + 1)
    {
      if p < |triangles| {
        PieceKept(mesh, vertices, vertices', triangles[p]);
        PiecesUpToMonotone(mesh, depths, triangles[p].tag + 1, t);
      } else {
        assert all[p] == pieces[p - |triangles|];
      }
    }
  }

  /** The first n source triangles have distinct corners. */
  ghost predicate DistinctUpTo(mesh: IndexedTriangleMesh, n: int) {
    forall u :: 0 <= u < n ==> DistinctCorners(mesh, u)
  }

  /** The state of the triangle loop after the first t source triangles. */
  ghost predicate ClipState(mesh: IndexedTriangleMesh, infos: seq<WaterInfoResult>, depths: seq<real>, vertices0: seq<SubmergedVertex>,
                            vertices: seq<SubmergedVertex>, edges: map<(int, int), int>, triangles: seq<Triangle>, t: int)
  {
    WellFormed(mesh) && |infos| == |mesh.vertexList| == |depths| &&
    0 <= t <= |mesh.indexList| / 3 &&
    VerticesValid(mesh, infos, depths, vertices, edges) &&
    (DistinctUpTo(mesh, t) ==> |vertices| == |vertices0| + |edges|) &&
    PiecesValid(mesh, depths, vertices, triangles, t)
  }

  /** Before the triangle loop: the submerged copies, no split vertex, no piece. */
  lemma ClipStart(mesh: IndexedTriangleMesh, infos: seq<WaterInfoResult>, depths: seq<real>, vertices0: seq<SubmergedVertex>)
    requires WellFormed(mesh) && |infos| == |mesh.vertexList| == |depths|
    requires vertices0 == SubmergedCopies(mesh.vertexList, infos, |mesh.vertexList|)
    ensures ClipState(mesh, infos, depths, vertices0, vertices0, map[], [], 0)
  {
    assert PiecesValid(mesh, depths, vertices0, [], 0);
  }

  /** One pass of the triangle loop keeps its state. */
  lemma ClipStep(mesh: IndexedTriangleMesh, infos: seq<WaterInfoResult>, depths: seq<real>, vertices0: seq<SubmergedVertex>,
                 vertices: seq<SubmergedVertex>, edges: map<(int, int), int>, triangles: seq<Triangle>, t: int,
                 pieces: seq<Triangle>, vertices': seq<SubmergedVertex>, edges': map<(int, int), int>)
    requires WellFormed(mesh) && |infos| == |mesh.vertexList| == |depths| && 0 <= t < |mesh.indexList| / 3
    requires ClipState(mesh, infos, depths, vertices0, vertices, edges, triangles, t)
    requires VerticesValid(mesh, infos, depths, vertices', edges') && vertices <= vertices'
    requires DistinctCorners(mesh, t) ==> |vertices'| - |vertices| == |edges'| - |edges|
    requires |pieces| == TrianglePieces(mesh, depths, t)
    requires forall p :: 0 <= p < |pieces| ==> pieces[p].tag == t && PieceValid(mesh, vertices', pieces[p])
    ensures ClipState(mesh, infos, depths, vertices0, vertices', edges', triangles + pieces, t + 1)
  {
    AppendPieces(mesh, depths, vertices, vertices', triangles, pieces, t);
    if DistinctUpTo(mesh, t + 1) {
      assert DistinctCorners(mesh, t);
    }
  }

  /** One pass of the triangle loop: clip triangle t and append its pieces. */
  method ClipNext(mesh: IndexedTriangleMesh, infos: seq<WaterInfoResult>, depths: seq<real>, submergedIndex: seq<int>,
                  vertices0: seq<SubmergedVertex>, vertices: seq<SubmergedVertex>, edges: map<(int, int), int>,
                  triangles: seq<Triangle>, t: int)
    returns (vertices': seq<SubmergedVertex>, edges': map<(int, int), int>, triangles': seq<Triangle>)
    requires Inputs(mesh, infos, depths, submergedIndex) && 0 <= t < |mesh.indexList| / 3
    requires ClipState(mesh, infos, depths, vertices0, vertices, edges, triangles, t)
    ensures ClipState(mesh, infos, depths, vertices0, vertices', edges', triangles', t + 1)
    ensures triangles <= triangles'
  {
    var pieces;
    pieces, vertices', edges' := ClipTriangle(mesh, infos, depths, submergedIndex, vertices, edges, t);
    ClipStep(mesh, infos, depths, vertices0, vertices, edges, triangles, t, pieces, vertices', edges');
    triangles' := triangles + pieces;
  }

  /** The triangle loop, stepping through the index list three at a time. */
  method ClipTriangles(mesh: IndexedTriangleMesh, infos: seq<WaterInfoResult>, depths: seq<real>, submergedIndex: seq<int>,
                       vertices0: seq<SubmergedVertex>)
    returns (vertices: seq<SubmergedVertex>, triangles: seq<Triangle>, edges: map<(int, int), int>)
    requires Inputs(mesh, infos, depths, submergedIndex)
    requires vertices0 == SubmergedCopies(mesh.vertexList, infos, |mesh.vertexList|)
    ensures ClipState(mesh, infos, depths, vertices0, vertices, edges, triangles, |mesh.indexList| / 3)
  {
    vertices, edges, triangles := vertices0, map[], [];
    var i, t := 0, 0;
    ClipStart(mesh, infos, depths, vertices0);
    while i < |mesh.indexList|
      invariant i == 3 * t && i <= |mesh.indexList|
      invariant ClipState(mesh, infos, depths, vertices0, vertices, edges, triangles, t)
    {
      TriangleCursor(i, t, |mesh.indexList|);
      vertices, edges, triangles := ClipNext(mesh, infos, depths, submergedIndex, vertices0, vertices, edges, triangles, t);
      i, t := i + 3, t + 1;
    }
    TriangleCursor(i, t, |mesh.indexList|);
  }

  /** Index i of the index list, a multiple of 3, starts triangle i / 3. */
  lemma TriangleCursor(i: int, t: int, n: int)
    requires i == 3 * t && 0 <= i <= n && n % 3 == 0
    ensures i < n ==> t < n / 3
    ensures i == n ==> t == n / 3
  {
  }

  /** PerformTriangleMeshWaterIntersection: the submerged copies of the mesh's vertices, then
      the split vertices (one per crossing edge when no triangle repeats a corner), and the
      pieces of every source triangle in triangle order. */
  method PerformTriangleMeshWaterIntersection(infos: seq<WaterInfoResult>, mesh: IndexedTriangleMesh)
    returns (result: SubmergedTriangleArray, ghost splitEdges: map<(int, int), int>)
    requires WellFormed(mesh) && |infos| == |mesh.vertexList|
    ensures var copies := SubmergedCopies(mesh.vertexList, infos, |mesh.vertexList|);
      copies <= result.vertexList &&
      forall v :: |copies| <= v < |result.vertexList| ==> result.vertexList[v].depth == 0.0
    ensures VerticesValid(mesh, infos, Depths(mesh, infos), result.vertexList, splitEdges)
    ensures DistinctUpTo(mesh, |mesh.indexList| / 3) ==>
      |result.vertexList| == |SubmergedCopies(mesh.vertexList, infos, |mesh.vertexList|)| + |splitEdges|
    ensures PiecesValid(mesh, Depths(mesh, infos), result.vertexList, result.triangleList, |mesh.indexList| / 3)
  {
    var depths, submergedIndex, vertices := MeasureVertices(mesh.vertexList, infos);
    assert depths == Depths(mesh, infos);
    var triangles, edges;
    vertices, triangles, edges := ClipTriangles(mesh, infos, depths, submergedIndex, vertices);
    result, splitEdges := SubmergedTriangleArray(vertices, triangles), edges;
  }
}
