// The triangle-array topology of the scene code: the symmetric edge key, the triangle array
// shared by the indexed mesh and the submerged-triangle list, and the tessellator that splits
// triangles at the midpoint of their longest edge, in "levels" and in "area" mode.

module Tessellation {
  import opened Vectors
  import opened WaterPhysicsTypes
  import opened WaterPhysicsMath

  /** FEdgeKey: the larger index in the high 32 bits, the smaller in the low 32 bits. */
  function EdgeKey(a: nat, b: nat): nat {
    if a >= b then a * 0x1_0000_0000 + b else b * 0x1_0000_0000 + a
  }

  /** The unordered edge {a, b}, written as (larger, smaller). */
  function UnorderedEdge(a: int, b: int): (r: (int, int))
    ensures r.1 <= r.0 && {r.0, r.1} == {a, b}
  {
    if a >= b then (a, b) else (b, a)
  }

  lemma PackedOrder(h1: nat, l1: nat, h2: nat, l2: nat)
    requires l1 < 0x1_0000_0000
    ensures h1 < h2 ==> h1 * 0x1_0000_0000 + l1 < h2 * 0x1_0000_0000 + l2
  {
    if h1 < h2 {
      assert (h1 + 1) * 0x1_0000_0000 <= h2 * 0x1_0000_0000;
    }
  }

  lemma PackedHalvesEqual(h1: nat, l1: nat, h2: nat, l2: nat)
    requires l1 < 0x1_0000_0000 && l2 < 0x1_0000_0000
    requires h1 * 0x1_0000_0000 + l1 == h2 * 0x1_0000_0000 + l2
    ensures h1 == h2 && l1 == l2
  {
    PackedOrder(h1, l1, h2, l2);
    PackedOrder(h2, l2, h1, l1);
  }

  /** For 32-bit indices the key is symmetric and tells unordered pairs apart, so a map keyed
      by it is a map keyed by the unordered edge. */
  lemma EdgeKeyIdentifiesEdge(a: nat, b: nat, c: nat, d: nat)
    requires a < 0x1_0000_0000 && b < 0x1_0000_0000 && c < 0x1_0000_0000 && d < 0x1_0000_0000
    ensures EdgeKey(a, b) == EdgeKey(b, a)
    ensures EdgeKey(a, b) == EdgeKey(c, d) <==> UnorderedEdge(a, b) == UnorderedEdge(c, d)
  {
    var e, f := UnorderedEdge(a, b), UnorderedEdge(c, d);
    assert EdgeKey(a, b) == e.0 * 0x1_0000_0000 + e.1;
    assert EdgeKey(c, d) == f.0 * 0x1_0000_0000 + f.1;
    if EdgeKey(a, b) == EdgeKey(c, d) {
      PackedHalvesEqual(e.0, e.1, f.0, f.1);
    }
  }

  /** One triangle: three vertex indices in winding order, and the tag the submerged
      instantiation uses for the index of the original triangle it came from. */
  datatype Triangle = Triangle(a: int, b: int, c: int, tag: int)

  /** The corners read from corner h on: (Indices[h], Indices[(h + 1) % 3], Indices[(h + 2) % 3]). */
  function Rotated(t: Triangle, h: int): (r: (int, int, int))
    requires 0 <= h < 3
    ensures IsRotationOf(r.0, r.1, r.2, t)
  {
    if h == 0 then (t.a, t.b, t.c) else if h == 1 then (t.b, t.c, t.a) else (t.c, t.a, t.b)
  }

  predicate RefsBelow(t: Triangle, n: int) {
    0 <= t.a < n && 0 <= t.b < n && 0 <= t.c < n
  }

  /** (a, b, c) walks the triangle's corners in its own cyclic order, from some corner. */
  predicate IsRotationOf(a: int, b: int, c: int, t: Triangle) {
    (a, b, c) == (t.a, t.b, t.c) || (a, b, c) == (t.b, t.c, t.a) || (a, b, c) == (t.c, t.a, t.b)
  }

  /** Corner j (0, 1 or 2) of a triangle. */
  function Corner(tri: Triangle, j: int): int {
    if j == 0 then tri.a else if j == 1 then tri.b else tri.c
  }

  /** The index list of the mesh instantiation: three indices per triangle. */
  function Flatten(ts: seq<Triangle>): (r: seq<int>)
    ensures |r| == 3 * |ts|
  {
    seq(3 * |ts|, k requires 0 <= k < 3 * |ts| => Corner(ts[k / 3], k % 3))
  }

  /** The triangles of a flat index list; the mesh instantiation carries no tag. */
  function Unflatten(idx: seq<int>): (r: seq<Triangle>)
    requires |idx| % 3 == 0
    ensures 3 * |r| == |idx|
  {
    seq(|idx| / 3, t requires 0 <= t < |idx| / 3 => Triangle(idx[3 * t], idx[3 * t + 1], idx[3 * t + 2], 0))
  }

  /** Position 3 t + j of a flat list is corner j of triangle t. */
  lemma ThreeParts(t: int, j: int)
    requires 0 <= j < 3
    ensures (3 * t + j) / 3 == t && (3 * t + j) % 3 == j
  {
  }

  lemma FlatAt(ts: seq<Triangle>, t: int, j: int)
    requires 0 <= t < |ts| && 0 <= j < 3
    ensures Flatten(ts)[3 * t + j] == Corner(ts[t], j)
  {
    ThreeParts(t, j);
  }

  /** Flattening the triangles of an index list gives the index list back. */
  lemma FlattenUnflatten(idx: seq<int>)
    requires |idx| % 3 == 0
    ensures Flatten(Unflatten(idx)) == idx
  {
    var ts := Unflatten(idx);
    var r := Flatten(ts);
    forall k | 0 <= k < |idx|
      ensures r[k] == idx[k]
    {
      var t, j := k / 3, k % 3;
      ThreeParts(t, j);
      assert k == 3 * t + j;
    }
  }

  lemma TimesThree(n: int)
    ensures (3 * n) % 3 == 0
  {
  }

  /** The flat index list is well formed exactly when every triangle refers to existing vertices. */
  lemma FlattenWellFormed(vs: seq<Vec3>, ts: seq<Triangle>)
    ensures WellFormed(IndexedTriangleMesh(vs, Flatten(ts))) <==> forall t :: 0 <= t < |ts| ==> RefsBelow(ts[t], |vs|)
  {
    TimesThree(|ts|);
    if WellFormed(IndexedTriangleMesh(vs, Flatten(ts))) {
      forall t | 0 <= t < |ts|
        ensures RefsBelow(ts[t], |vs|)
      {
        FlatAt(ts, t, 0);
        FlatAt(ts, t, 1);
        FlatAt(ts, t, 2);
      }
    }
  }

  /** The split vertex lies half-way along its edge. */
  ghost predicate MidpointLaw<V(!new)>(position: V -> Vec3, midpoint: (V, V) -> V) {
    (forall x, y :: midpoint(x, y) == midpoint(y, x)) &&
    forall x: V, y: V :: position(midpoint(x, y)) == Scale(Add(position(x), position(y)), 0.5)
  }

  /** Splitting at the midpoint D of edge A-B gives two triangles (D,B,C) and (A,D,C) whose
      normals point the same way as the parent's, at half its length. */
  lemma SplitHalvesNormal(a: Vec3, b: Vec3, c: Vec3, d: Vec3)
    requires d == Scale(Add(a, b), 0.5)
    ensures NormalDirection(d, b, c) == Scale(NormalDirection(a, b, c), 0.5)
    ensures NormalDirection(a, d, c) == Scale(NormalDirection(a, b, c), 0.5)
  {
  }

  /** Both ways of measuring a triangle agree: its squared area is a quarter of the squared
      length of its normal direction. */
  lemma AreaFromNormal(v0: Vec3, v1: Vec3, v2: Vec3)
    ensures TriangleAreaSquared(v0, v1, v2) == SizeSquared(NormalDirection(v0, v1, v2)) / 4.0
  {
    NormalWinding(v0, v1, v2);
  }

  lemma HalfNormalQuarterArea(n: Vec3)
    ensures SizeSquared(Scale(n, 0.5)) == SizeSquared(n) / 4.0
  {
  }

  lemma QuotientFacts(a: real, b: real)
    requires a >= 0.0 && b > 0.0
    ensures a / b >= 0.0 && a == (a / b) * b
  {
  }

  lemma MulMonotone(q: real, k: real, b: real)
    requires q <= k && b > 0.0
    ensures q * b <= k * b
  {
  }

  /** Some power of four times m^2 bounds any non-negative squared area. */
  lemma DepthFor(area: real, m: real) returns (depth: nat)
    requires area >= 0.0 && m > 0.0
    ensures area <= m * m * Pow4(depth) as real
  {
    QuotientFacts(area, m);
    QuotientFacts(area / m, m);
    var q := area / m / m;
    depth := q.Floor as nat + 1;
    Pow4Grows(depth);
    var p := Pow4(depth) as real;
    MulMonotone(q, p, m);
    MulMonotone(area / m, p * m, m);
  }

  function Pow2(n: nat): (r: nat)
    ensures r >= 1
  {
    if n == 0 then 1 else 2 * Pow2(n - 1)
  }

  function Pow4(n: nat): (r: nat)
    ensures r >= 1
  {
    if n == 0 then 1 else 4 * Pow4(n - 1)
  }

  function HalfPow(n: nat): real {
    if n == 0 then 1.0 else 0.5 * HalfPow(n - 1)
  }

  lemma {:induction false} Pow4Grows(n: nat)
    ensures Pow4(n) >= n + 1
  {
    if n > 0 {
      Pow4Grows(n - 1);
    }
  }

  lemma MulOrder(q1: int, r1: int, q2: int, r2: int, n: int)
    requires n > 0 && 0 <= r1 < n && 0 <= r2 < n
    ensures q1 < q2 ==> q1 * n + r1 < q2 * n + r2
  {
    if q1 < q2 {
      var d := q2 - q1;
      assert q2 * n == q1 * n + d * n;
      assert d * n >= n;
    }
  }

  lemma DivModUnique(y: int, n: int, q: int, r: int)
    requires n > 0 && 0 <= r < n && y == q * n + r
    ensures y % n == r
  {
    var q', r' := y / n, y % n;
    assert y == q' * n + r';
    MulOrder(q, r, q', r', n);
    MulOrder(q', r', q, r, n);
  }

  lemma ModAddMultiple(x: int, n: int, k: int)
    requires n > 0
    ensures (x + n * k) % n == x % n
  {
    var q := x / n;
    assert x == q * n + x % n;
    assert x + n * k == (q + k) * n + x % n;
    DivModUnique(x + n * k, n, q + k, x % n);
  }

  /** A triangle array: FIndexedTriangleMesh (vertices are positions, tags unused) and
      FSubmergedTriangleArray (vertices carry velocity and depth, tags name the original
      triangle) are its two instantiations. position and midpoint are what GetVertex and
      SplitEdge compute for the vertex type. */
  class TriangleArray<V(!new)> {
    var vertices: seq<V>
    var triangles: seq<Triangle>
    const position: V -> Vec3
    const midpoint: (V, V) -> V

    ghost predicate Valid()
      reads this`vertices, this`triangles
    {
      (forall t :: 0 <= t < |triangles| ==> RefsBelow(triangles[t], |vertices|)) &&
      MidpointLaw(position, midpoint)
    }

    constructor (vs: seq<V>, ts: seq<Triangle>, pos: V -> Vec3, mid: (V, V) -> V)
      requires forall t :: 0 <= t < |ts| ==> RefsBelow(ts[t], |vs|)
      requires MidpointLaw(pos, mid)
      ensures Valid()
      ensures vertices == vs && triangles == ts && position == pos && midpoint == mid
    {
      vertices, triangles := vs, ts;
      position, midpoint := pos, mid;
    }

    function Pos(i: int): Vec3
      reads this`vertices
      requires 0 <= i < |vertices|
    {
      position(vertices[i])
    }

    /** The (un-normalised) normal of triangle tri over vertex list vs; its direction is the winding. */
    function NormalIn(vs: seq<V>, tri: Triangle): Vec3
      requires RefsBelow(tri, |vs|)
    {
      NormalDirection(position(vs[tri.a]), position(vs[tri.b]), position(vs[tri.c]))
    }

    function AreaSquaredIn(vs: seq<V>, tri: Triangle): real
      requires RefsBelow(tri, |vs|)
    {
      TriangleAreaSquared(position(vs[tri.a]), position(vs[tri.b]), position(vs[tri.c]))
    }

    /** CalcTriangleAreaM2(tri) > maxArea. */
    predicate TooLargeIn(vs: seq<V>, tri: Triangle, maxArea: real)
      requires RefsBelow(tri, |vs|)
    {
      TriangleAreaM2Exceeds(position(vs[tri.a]), position(vs[tri.b]), position(vs[tri.c]), maxArea)
    }

    /** Appending vertices changes nothing about a triangle over the earlier ones. */
    lemma MeasuresKept(vs: seq<V>, ws: seq<V>, tri: Triangle, maxArea: real)
      requires vs <= ws && RefsBelow(tri, |vs|)
      ensures NormalIn(ws, tri) == NormalIn(vs, tri)
      ensures AreaSquaredIn(ws, tri) == AreaSquaredIn(vs, tri)
      ensures TooLargeIn(ws, tri, maxArea) == TooLargeIn(vs, tri, maxArea)
    {
      assert ws[tri.a] == vs[tri.a] && ws[tri.b] == vs[tri.b] && ws[tri.c] == vs[tri.c];
    }

    /** A split half has half the parent's normal, hence a quarter of its squared area. */
    lemma HalfNormalQuarterAreaIn(vs: seq<V>, parent: Triangle, ws: seq<V>, half: Triangle)
      requires RefsBelow(parent, |vs|) && RefsBelow(half, |ws|)
      requires NormalIn(ws, half) == Scale(NormalIn(vs, parent), 0.5)
      ensures AreaSquaredIn(ws, half) == AreaSquaredIn(vs, parent) / 4.0
    {
      AreaFromNormal(position(vs[parent.a]), position(vs[parent.b]), position(vs[parent.c]));
      AreaFromNormal(position(ws[half.a]), position(ws[half.b]), position(ws[half.c]));
      HalfNormalQuarterArea(NormalIn(vs, parent));
    }

    /** Squared length of line h, from corner h to corner h + 1 (mod 3). */
    function LineLengthSquared(t: int, h: int): real
      reads this`vertices, this`triangles
      requires 0 <= t < |triangles| && RefsBelow(triangles[t], |vertices|) && 0 <= h < 3
    {
      var r := Rotated(triangles[t], h);
      SizeSquared(Sub(Pos(r.0), Pos(r.1)))
    }

    /** Line h comes first once the three lines are sorted longest first. */
    predicate IsLongestLine(t: int, h: int)
      reads this`vertices, this`triangles
      requires 0 <= t < |triangles| && RefsBelow(triangles[t], |vertices|) && 0 <= h < 3
    {
      LineLengthSquared(t, h) >= LineLengthSquared(t, 0) &&
      LineLengthSquared(t, h) >= LineLengthSquared(t, 1) &&
      LineLengthSquared(t, h) >= LineLengthSquared(t, 2)
    }

    /** Entry e of the split map is an edge between existing vertices, lower index second,
        mapped to a vertex made after the first base ones at the edge's midpoint. */
    ghost predicate SplitEntry(vs: seq<V>, edges: map<(int, int), int>, base: int, e: (int, int)) {
      e in edges && 0 <= e.1 <= e.0 < |vs| && 0 <= base <= edges[e] < |vs| && vs[edges[e]] == midpoint(vs[e.0], vs[e.1])
    }

    /** The edge-split map of one tessellation call, which started with base vertices: each
        entry maps an unordered edge to the vertex made at its midpoint, each made vertex
        belongs to exactly one edge, and nothing else was added to the vertex list. */
    ghost predicate SplitMapValidIn(vs: seq<V>, edges: map<(int, int), int>, base: int) {
      0 <= base <= |vs| && |vs| == base + |edges| &&
      (forall e {:trigger SplitEntry(vs, edges, base, e)} :: e in edges ==> SplitEntry(vs, edges, base, e)) &&
      (forall e, e' {:trigger SplitEntry(vs, edges, base, e), SplitEntry(vs, edges, base, e')} ::
        SplitEntry(vs, edges, base, e) && SplitEntry(vs, edges, base, e') && edges[e] == edges[e'] ==> e == e')
    }

    ghost predicate SplitMapValid(edges: map<(int, int), int>, base: int)
      reads this`vertices
    {
      SplitMapValidIn(vertices, edges, base)
    }

    /** SplitEdge: append the midpoint vertex and return its index. */
    method SplitEdge(a: int, b: int) returns (d: int)
      requires 0 <= a < |vertices| && 0 <= b < |vertices|
      modifies this`vertices
      ensures vertices == old(vertices) + [midpoint(old(vertices)[a], old(vertices)[b])]
      ensures d == old(|vertices|)
    {
      d := |vertices|;
      vertices := vertices + [midpoint(vertices[a], vertices[b])];
    }

    /** The lookup-or-split step: the vertex of edge {a, b} from the split map, or a new
        midpoint vertex recorded under that edge. */
    method VertexForEdge(a: int, b: int, edges: map<(int, int), int>, ghost base: int)
      returns (d: int, edges': map<(int, int), int>)
      requires Valid() && SplitMapValid(edges, base)
      requires 0 <= a < |vertices| && 0 <= b < |vertices|
      modifies this`vertices
      ensures Valid() && SplitMapValid(edges', base)
      ensures old(vertices) <= vertices
      ensures forall e :: e in edges ==> e in edges' && edges'[e] == edges[e]
      ensures UnorderedEdge(a, b) in edges' && edges'[UnorderedEdge(a, b)] == d
      ensures UnorderedEdge(a, b) in edges ==> edges' == edges && vertices == old(vertices)
      ensures 0 <= d < |vertices| && Pos(d) == Scale(Add(Pos(a), Pos(b)), 0.5)
    {
      var key := UnorderedEdge(a, b);
      if key in edges {
        d := edges[key];
        edges' := edges;
        assert SplitEntry(vertices, edges, base, key);
        assert {key.0, key.1} == {a, b};
      } else {
        ghost var vs0 := vertices;
        d := SplitEdge(a, b);
        assert vertices[d] == midpoint(vertices[key.0], vertices[key.1]) by {
          assert {key.0, key.1} == {a, b};
        }
        edges' := edges[key := d];
        forall e | e in edges'
          ensures SplitEntry(vertices, edges', base, e)
        {
          if e != key {
            assert SplitEntry(vs0, edges, base, e);
          }
        }
        forall e, e' | SplitEntry(vertices, edges', base, e) && SplitEntry(vertices, edges', base, e') && edges'[e] == edges'[e']
          ensures e == e'
        {
          if e != key {
            assert SplitEntry(vs0, edges, base, e);
          }
          if e' != key {
            assert SplitEntry(vs0, edges, base, e');
          }
        }
        assert {key.0, key.1} == {a, b};
      }
    }

    /** FSubmergedTriangleArray::EmplaceTriangle: append one triangle whose corners exist
        and return its index. */
    method EmplaceTriangle(t: Triangle) returns (index: int)
      requires RefsBelow(t, |vertices|)
      modifies this`triangles
      ensures triangles == old(triangles) + [t]
      ensures index == old(|triangles|)
    {
      index := |triangles|;
      triangles := triangles + [t];
    }

    /** AddTriangle: append (a, b, c) carrying the tag of triangle parent. */
    method AddTriangle(parent: int, a: int, b: int, c: int) returns (index: int)
      requires 0 <= parent < |triangles|
      requires RefsBelow(Triangle(a, b, c, 0), |vertices|)
      modifies this`triangles
      ensures triangles == old(triangles) + [Triangle(a, b, c, old(triangles[parent].tag))]
      ensures index == old(|triangles|)
    {
      index := EmplaceTriangle(Triangle(a, b, c, triangles[parent].tag));
    }

    /** Lines.Sort by squared length, longest first, then Lines[0]: which of several equally
        long lines comes first is left open, as the engine's sort is not stable. */
    method LongestLine(t: int) returns (h: int)
      requires 0 <= t < |triangles| && RefsBelow(triangles[t], |vertices|)
      ensures 0 <= h < 3 && IsLongestLine(t, h)
    {
      assert IsLongestLine(t, 0) || IsLongestLine(t, 1) || IsLongestLine(t, 2);
      h :| 0 <= h < 3 && IsLongestLine(t, h);
    }

    /** The halves written by one split of triangle parent: first == (D, B, C) and
        second == (A, D, C), where (A, B, C) is the parent's own cycle from some corner and D
        the split map's vertex for edge {A, B}; both keep the parent's tag. */
    predicate SplitShape(parent: Triangle, first: Triangle, second: Triangle, edges: map<(int, int), int>) {
      var a, b, c, d := second.a, first.b, first.c, first.a;
      IsRotationOf(a, b, c, parent) && first == Triangle(d, b, c, parent.tag) && second == Triangle(a, d, c, parent.tag) &&
      UnorderedEdge(a, b) in edges && edges[UnorderedEdge(a, b)] == d
    }

    /** TesselateTriangle: split the longest line A-B of triangle index at its midpoint D
        (made once per edge through the split map), rewrite the triangle as (D, B, C) and
        append (A, D, C). Both halves keep the parent's winding and tag, and each has half
        its normal, hence a quarter of its squared area. */
    method TessellateTriangle(index: int, edges: map<(int, int), int>, ghost base: int)
      returns (first: int, second: int, edges': map<(int, int), int>)
      requires Valid() && 0 <= index < |triangles| && SplitMapValid(edges, base)
      modifies this
      ensures Valid() && SplitMapValid(edges', base)
      ensures forall e :: e in edges ==> e in edges' && edges'[e] == edges[e]
      ensures old(vertices) <= vertices
      ensures first == index && second == old(|triangles|) && |triangles| == old(|triangles|) + 1
      ensures forall t :: 0 <= t < old(|triangles|) && t != index ==> triangles[t] == old(triangles[t])
      ensures SplitShape(old(triangles[index]), triangles[first], triangles[second], edges')
      ensures NormalIn(vertices, triangles[first]) == Scale(NormalIn(old(vertices), old(triangles[index])), 0.5)
      ensures NormalIn(vertices, triangles[second]) == Scale(NormalIn(old(vertices), old(triangles[index])), 0.5)
    {
      var tri := triangles[index];
      var h := LongestLine(index);
      var ai, bi, ci := Rotated(tri, h).0, Rotated(tri, h).1, Rotated(tri, h).2;
      ghost var pa, pb, pc := Pos(ai), Pos(bi), Pos(ci);
      ghost var parentNormal := NormalIn(vertices, tri);
      assert NormalDirection(pa, pb, pc) == parentNormal by {
        NormalWinding(Pos(tri.a), Pos(tri.b), Pos(tri.c));
        NormalWinding(Pos(tri.b), Pos(tri.c), Pos(tri.a));
      }
      var di;
      di, edges' := VertexForEdge(ai, bi, edges, base);
      ghost var pd := Pos(di);
      assert NormalDirection(pd, pb, pc) == Scale(parentNormal, 0.5) && NormalDirection(pa, pd, pc) == Scale(parentNormal, 0.5) by {
        SplitHalvesNormal(pa, pb, pc, pd);
      }
      triangles := triangles[index := Triangle(di, bi, ci, tri.tag)];
      second := AddTriangle(index, ai, di, ci);
      first := index;
      assert Pos(ai) == pa && Pos(bi) == pb && Pos(ci) == pc && Pos(di) == pd;
      forall t | 0 <= t < |triangles|
        ensures RefsBelow(triangles[t], |vertices|)
      {
        if t < old(|triangles|) && t != index {
          assert triangles[t] == old(triangles[t]);
        }
      }
      assert triangles[first] == Triangle(di, bi, ci, tri.tag);
      assert triangles[second] == Triangle(ai, di, ci, tri.tag);
    }

    /** Triangles 0 .. j-1 of tris0 (over verts0) have been split: the halves of triangle t
        are firsts[t] and seconds[t] (over verts), in the split shape and each with half the
        parent's normal. */
    ghost predicate PassDone(tris0: seq<Triangle>, verts0: seq<V>, firsts: seq<Triangle>, seconds: seq<Triangle>,
                             verts: seq<V>, edges: map<(int, int), int>, j: int)
    {
      0 <= j <= |tris0| && j <= |firsts| && j <= |seconds| &&
      forall t :: 0 <= t < j ==>
        SplitShape(tris0[t], firsts[t], seconds[t], edges) &&
        RefsBelow(tris0[t], |verts0|) && RefsBelow(firsts[t], |verts|) && RefsBelow(seconds[t], |verts|) &&
        NormalIn(verts, firsts[t]) == Scale(NormalIn(verts0, tris0[t]), 0.5) &&
        NormalIn(verts, seconds[t]) == Scale(NormalIn(verts0, tris0[t]), 0.5)
    }

    lemma PassStep(tris0: seq<Triangle>, verts0: seq<V>,
                   firstsB: seq<Triangle>, secondsB: seq<Triangle>, vertsB: seq<V>, edgesB: map<(int, int), int>,
                   firsts: seq<Triangle>, seconds: seq<Triangle>, verts: seq<V>, edges: map<(int, int), int>, j: int)
      requires PassDone(tris0, verts0, firstsB, secondsB, vertsB, edgesB, j)
      requires j < |tris0| && j < |firsts| && j < |seconds|
      requires vertsB <= verts && forall e :: e in edgesB ==> e in edges && edges[e] == edgesB[e]
      requires forall t :: 0 <= t < j ==> firsts[t] == firstsB[t] && seconds[t] == secondsB[t]
      requires RefsBelow(tris0[j], |verts0|) && RefsBelow(firsts[j], |verts|) && RefsBelow(seconds[j], |verts|)
      requires SplitShape(tris0[j], firsts[j], seconds[j], edges)
      requires NormalIn(verts, firsts[j]) == Scale(NormalIn(verts0, tris0[j]), 0.5)
      requires NormalIn(verts, seconds[j]) == Scale(NormalIn(verts0, tris0[j]), 0.5)
      ensures PassDone(tris0, verts0, firsts, seconds, verts, edges, j + 1)
    {
      forall t | 0 <= t < j
        ensures SplitShape(tris0[t], firsts[t], seconds[t], edges)
        ensures RefsBelow(firsts[t], |verts|) && RefsBelow(seconds[t], |verts|)
        ensures NormalIn(verts, firsts[t]) == Scale(NormalIn(verts0, tris0[t]), 0.5)
        ensures NormalIn(verts, seconds[t]) == Scale(NormalIn(verts0, tris0[t]), 0.5)
      {
        assert UnorderedEdge(secondsB[t].a, firstsB[t].b) in edgesB;
        MeasuresKept(vertsB, verts, firsts[t], 0.0);
        MeasuresKept(vertsB, verts, seconds[t], 0.0);
      }
    }

    /** One pass of levels mode: the triangle count n is read once and triangles 0 .. n-1 are
        split in order; triangle t keeps slot t for its first half and its second half lands
        in slot n + t, so the count doubles. */
    method TessellatePass(edges: map<(int, int), int>, ghost base: int) returns (edges': map<(int, int), int>)
      requires Valid() && SplitMapValid(edges, base)
      modifies this
      ensures Valid() && SplitMapValid(edges', base)
      ensures forall e :: e in edges ==> e in edges' && edges'[e] == edges[e]
      ensures old(vertices) <= vertices
      ensures |triangles| == 2 * old(|triangles|)
      ensures PassDone(old(triangles), old(vertices), triangles[..old(|triangles|)], triangles[old(|triangles|)..],
                       vertices, edges', old(|triangles|))
    {
      var n := |triangles|;
      ghost var tris0, verts0 := triangles, vertices;
      edges' := edges;
      var j := 0;
      assert triangles[..n] == tris0 && triangles[n..] == [];
      while j < n
        invariant PassState(tris0, verts0, edges, edges', base, n, j)
      {
        edges' := PassNext(tris0, verts0, edges, edges', base, n, j);
        j := j + 1;
      }
    }

    /** The state of a pass over the first n triangles after j of them. */
    ghost predicate PassState(tris0: seq<Triangle>, verts0: seq<V>, edges: map<(int, int), int>,
                              edges': map<(int, int), int>, base: int, n: int, j: int)
      reads this`vertices, this`triangles
    {
      0 <= j <= n && |tris0| == n &&
      (forall t :: 0 <= t < n ==> RefsBelow(tris0[t], |verts0|)) &&
      Valid() && SplitMapValid(edges', base) &&
      (forall e :: e in edges ==> e in edges' && edges'[e] == edges[e]) &&
      verts0 <= vertices &&
      |triangles| == n + j &&
      (forall t :: j <= t < n ==> triangles[t] == tris0[t]) &&
      PassDone(tris0, verts0, triangles[..n], triangles[n..], vertices, edges', j)
    }

    /** One step of a pass: halve triangle j. */
    method PassNext(ghost tris0: seq<Triangle>, ghost verts0: seq<V>, ghost edges: map<(int, int), int>,
                    edgesJ: map<(int, int), int>, ghost base: int, n: int, j: int)
      returns (edges': map<(int, int), int>)
      requires PassState(tris0, verts0, edges, edgesJ, base, n, j) && j < n
      modifies this
      ensures PassState(tris0, verts0, edges, edges', base, n, j + 1)
    {
      ghost var trisBefore, vertsBefore := triangles, vertices;
      var first, second;
      first, second, edges' := TessellateTriangle(j, edgesJ, base);
      MeasuresKept(verts0, vertsBefore, tris0[j], 0.0);
      assert triangles[..n][j] == triangles[j] && triangles[n..][j] == triangles[n + j];
      PassStep(tris0, verts0, trisBefore[..n], trisBefore[n..], vertsBefore, edgesJ,
               triangles[..n], triangles[n..], vertices, edges', j);
    }

    /** After i levels-mode passes over tris0 (on verts0): the count is |tris0| * 2^i, and
        triangle t descends from tris0[t % |tris0|], keeping its tag and winding, with its normal
        scaled by 2^-i. */
    ghost predicate LevelsDone(tris0: seq<Triangle>, verts0: seq<V>, tris: seq<Triangle>, verts: seq<V>, i: nat)
    {
      |tris| == |tris0| * Pow2(i) &&
      (forall t :: 0 <= t < |tris0| ==> RefsBelow(tris0[t], |verts0|)) &&
      forall t :: 0 <= t < |tris| ==>
        RefsBelow(tris[t], |verts|) && tris[t].tag == tris0[t % |tris0|].tag &&
        NormalIn(verts, tris[t]) == Scale(NormalIn(verts0, tris0[t % |tris0|]), HalfPow(i))
    }

    lemma LevelsStart(tris0: seq<Triangle>, verts0: seq<V>)
      requires forall t :: 0 <= t < |tris0| ==> RefsBelow(tris0[t], |verts0|)
      ensures LevelsDone(tris0, verts0, tris0, verts0, 0)
    {
      forall t | 0 <= t < |tris0|
        ensures t % |tris0| == t
        ensures NormalIn(verts0, tris0[t]) == Scale(NormalIn(verts0, tris0[t]), HalfPow(0))
      {
        DivModUnique(t, |tris0|, 0, t);
      }
    }

    /** The ancestry of one triangle after one more pass: slot t holds a half of triangle s of
        the previous level, which has the same original triangle. */
    lemma LevelsStepOne(tris0: seq<Triangle>, verts0: seq<V>, trisB: seq<Triangle>, vertsB: seq<V>, i: nat,
                        tris: seq<Triangle>, verts: seq<V>, edges: map<(int, int), int>, t: int)
      requires LevelsDone(tris0, verts0, trisB, vertsB, i)
      requires |tris| == 2 * |trisB| && 0 <= t < |tris|
      requires PassDone(trisB, vertsB, tris[..|trisB|], tris[|trisB|..], verts, edges, |trisB|)
      ensures RefsBelow(tris[t], |verts|) && tris[t].tag == tris0[t % |tris0|].tag
      ensures NormalIn(verts, tris[t]) == Scale(NormalIn(verts0, tris0[t % |tris0|]), HalfPow(i + 1))
    {
      var n, n0 := |trisB|, |tris0|;
      var s := if t < n then t else t - n;
      assert 0 <= s < n;
      assert tris[t] == (if t < n then tris[..n][s] else tris[n..][s]);
      assert SplitShape(trisB[s], tris[..n][s], tris[n..][s], edges);
      assert t % n0 == s % n0 by {
        if t >= n {
          ModAddMultiple(s, n0, Pow2(i));
        }
      }
      var p := NormalIn(verts0, tris0[s % n0]);
      assert NormalIn(verts, tris[t]) == Scale(Scale(p, HalfPow(i)), 0.5);
      ScaleScale(p, HalfPow(i), 0.5);
    }

    lemma LevelsStep(tris0: seq<Triangle>, verts0: seq<V>, trisB: seq<Triangle>, vertsB: seq<V>, i: nat,
                     tris: seq<Triangle>, verts: seq<V>, edges: map<(int, int), int>)
      requires LevelsDone(tris0, verts0, trisB, vertsB, i)
      requires |tris| == 2 * |trisB|
      requires PassDone(trisB, vertsB, tris[..|trisB|], tris[|trisB|..], verts, edges, |trisB|)
      ensures LevelsDone(tris0, verts0, tris, verts, i + 1)
    {
      assert |tris| == |tris0| * Pow2(i + 1) by {
        assert Pow2(i + 1) == 2 * Pow2(i);
      }
      forall t | 0 <= t < |tris|
        ensures RefsBelow(tris[t], |verts|) && tris[t].tag == tris0[t % |tris0|].tag
        ensures NormalIn(verts, tris[t]) == Scale(NormalIn(verts0, tris0[t % |tris0|]), HalfPow(i + 1))
      {
        LevelsStepOne(tris0, verts0, trisB, vertsB, i, tris, verts, edges, t);
      }
    }

    /** Levels mode: max(levels, 0) passes, all sharing one split map. */
    method TessellateLevels(levels: int) returns (ghost edges: map<(int, int), int>)
      requires Valid()
      modifies this
      ensures Valid() && old(vertices) <= vertices
      ensures SplitMapValidIn(vertices, edges, old(|vertices|))
      ensures LevelsDone(old(triangles), old(vertices), triangles, vertices, if levels < 0 then 0 else levels)
    {
      ghost var tris0, verts0 := triangles, vertices;
      LevelsStart(tris0, verts0);
      var splits: map<(int, int), int> := map[];
      var i := 0;
      while i < levels
        invariant 0 <= i && (levels >= 0 ==> i <= levels) && (levels < 0 ==> i == 0)
        invariant Valid() && SplitMapValid(splits, |verts0|) && verts0 <= vertices
        invariant LevelsDone(tris0, verts0, triangles, vertices, i)
      {
        ghost var trisB, vertsB := triangles, vertices;
        splits := TessellatePass(splits, |verts0|);
        LevelsStep(tris0, verts0, trisB, vertsB, i, triangles, vertices, splits);
        i := i + 1;
      }
      edges := splits;
    }

    /** The area-mode recursion measure: a triangle whose squared area is at most
        m^2 * 4^depth, where m is maxArea in square centimetres, is split at most depth deep. */
    ghost predicate WithinDepth(vs: seq<V>, tri: Triangle, maxArea: real, depth: nat)
      requires RefsBelow(tri, |vs|)
    {
      AreaSquaredIn(vs, tri) <= (maxArea * 10000.0) * (maxArea * 10000.0) * Pow4(depth) as real
    }

    /** Every triangle has a depth: with maxArea > 0 the recursion of area mode terminates. */
    lemma EnoughDepth(vs: seq<V>, tri: Triangle, maxArea: real) returns (depth: nat)
      requires RefsBelow(tri, |vs|) && maxArea > 0.0
      ensures WithinDepth(vs, tri, maxArea, depth)
    {
      depth := DepthFor(AreaSquaredIn(vs, tri), maxArea * 10000.0);
    }

    /** A triangle too large at depth d has d > 0, and a half of it (a quarter of its squared
        area) fits depth d - 1. */
    lemma SplitDepth(vs: seq<V>, parent: Triangle, ws: seq<V>, half: Triangle, maxArea: real, depth: nat)
      requires RefsBelow(parent, |vs|) && RefsBelow(half, |ws|) && maxArea > 0.0
      requires TooLargeIn(vs, parent, maxArea) && WithinDepth(vs, parent, maxArea, depth)
      requires NormalIn(ws, half) == Scale(NormalIn(vs, parent), 0.5)
      ensures depth > 0 && WithinDepth(ws, half, maxArea, depth - 1)
    {
      HalfNormalQuarterAreaIn(vs, parent, ws, half);
      var mm := (maxArea * 10000.0) * (maxArea * 10000.0);
      assert depth > 0;
      assert Pow4(depth) as real == 4.0 * Pow4(depth - 1) as real;
      assert AreaSquaredIn(vs, parent) <= mm * (4.0 * Pow4(depth - 1) as real);
    }

    lemma DepthKept(vs: seq<V>, ws: seq<V>, tri: Triangle, maxArea: real, depth: nat)
      requires vs <= ws && RefsBelow(tri, |vs|) && WithinDepth(vs, tri, maxArea, depth)
      ensures WithinDepth(ws, tri, maxArea, depth)
    {
      MeasuresKept(vs, ws, tri, maxArea);
    }

    /** Triangle index and triangles from .. to-1 are all at most maxArea and carry tag. */
    ghost predicate AreaDone(tris: seq<Triangle>, verts: seq<V>, index: int, from: int, to: int, tag: int, maxArea: real)
    {
      0 <= index < |tris| && 0 <= from <= to <= |tris| &&
      forall t :: (t == index || from <= t < to) ==>
        RefsBelow(tris[t], |verts|) && tris[t].tag == tag && !TooLargeIn(verts, tris[t], maxArea)
    }

    lemma AreaDoneKept(trisA: seq<Triangle>, vertsA: seq<V>, trisB: seq<Triangle>, vertsB: seq<V>,
                       index: int, from: int, to: int, tag: int, maxArea: real)
      requires AreaDone(trisA, vertsA, index, from, to, tag, maxArea)
      requires vertsA <= vertsB && |trisA| <= |trisB|
      requires trisB[index] == trisA[index] && forall t :: from <= t < to ==> trisB[t] == trisA[t]
      ensures AreaDone(trisB, vertsB, index, from, to, tag, maxArea)
    {
      forall t | t == index || from <= t < to
        ensures RefsBelow(trisB[t], |vertsB|) && trisB[t].tag == tag && !TooLargeIn(vertsB, trisB[t], maxArea)
      {
        MeasuresKept(vertsA, vertsB, trisA[t], maxArea);
      }
    }

    lemma AreaDoneJoin(tris: seq<Triangle>, verts: seq<V>, index: int, second: int, mid: int, tag: int, maxArea: real)
      requires AreaDone(tris, verts, index, second + 1, mid, tag, maxArea)
      requires AreaDone(tris, verts, second, mid, |tris|, tag, maxArea)
      ensures AreaDone(tris, verts, index, second, |tris|, tag, maxArea)
    {
    }

    /** TesselateTriangle_Recursive: while triangle index is larger than maxArea, split it and
        recurse on the half kept in place, then on the appended half. On return the triangle and
        everything appended meanwhile are within maxArea and carry its tag. */
    method TessellateRecursive(index: int, maxArea: real, edges: map<(int, int), int>, ghost base: int, ghost depth: nat)
      returns (edges': map<(int, int), int>)
      requires Valid() && SplitMapValid(edges, base) && 0 <= index < |triangles|
      requires maxArea > 0.0 && WithinDepth(vertices, triangles[index], maxArea, depth)
      modifies this
      decreases depth, 1
      ensures Valid() && SplitMapValid(edges', base)
      ensures forall e :: e in edges ==> e in edges' && edges'[e] == edges[e]
      ensures old(vertices) <= vertices && old(|triangles|) <= |triangles|
      ensures forall t :: 0 <= t < old(|triangles|) && t != index ==> triangles[t] == old(triangles[t])
      ensures AreaDone(triangles, vertices, index, old(|triangles|), |triangles|, old(triangles[index].tag), maxArea)
    {
      if TooLargeIn(vertices, triangles[index], maxArea) {
        edges' := SplitAndRecurse(index, maxArea, edges, base, depth);
      } else {
        edges' := edges;
      }
    }

    /** One split in area mode, stated by the recursion measure: each half fits one level less. */
    method SplitWithinDepth(index: int, maxArea: real, edges: map<(int, int), int>, ghost base: int, ghost depth: nat)
      returns (first: int, second: int, edges': map<(int, int), int>)
      requires Valid() && SplitMapValid(edges, base) && 0 <= index < |triangles|
      requires maxArea > 0.0 && WithinDepth(vertices, triangles[index], maxArea, depth)
      requires TooLargeIn(vertices, triangles[index], maxArea)
      modifies this
      ensures Valid() && SplitMapValid(edges', base)
      ensures forall e :: e in edges ==> e in edges' && edges'[e] == edges[e]
      ensures old(vertices) <= vertices
      ensures first == index && second == old(|triangles|) && |triangles| == old(|triangles|) + 1
      ensures forall t :: 0 <= t < old(|triangles|) && t != index ==> triangles[t] == old(triangles[t])
      ensures triangles[first].tag == old(triangles[index].tag) && triangles[second].tag == old(triangles[index].tag)
      ensures depth > 0
      ensures WithinDepth(vertices, triangles[first], maxArea, depth - 1)
      ensures WithinDepth(vertices, triangles[second], maxArea, depth - 1)
    {
      ghost var vs0, tri0 := vertices, triangles[index];
      first, second, edges' := TessellateTriangle(index, edges, base);
      SplitDepth(vs0, tri0, vertices, triangles[first], maxArea, depth);
      SplitDepth(vs0, tri0, vertices, triangles[second], maxArea, depth);
    }

    /** The split branch of the recursion: split triangle index, then recurse on both halves. */
    method SplitAndRecurse(index: int, maxArea: real, edges: map<(int, int), int>, ghost base: int, ghost depth: nat)
      returns (edges': map<(int, int), int>)
      requires Valid() && SplitMapValid(edges, base) && 0 <= index < |triangles|
      requires maxArea > 0.0 && WithinDepth(vertices, triangles[index], maxArea, depth)
      requires TooLargeIn(vertices, triangles[index], maxArea)
      modifies this
      decreases depth, 0
      ensures Valid() && SplitMapValid(edges', base)
      ensures forall e :: e in edges ==> e in edges' && edges'[e] == edges[e]
      ensures old(vertices) <= vertices && old(|triangles|) <= |triangles|
      ensures forall t :: 0 <= t < old(|triangles|) && t != index ==> triangles[t] == old(triangles[t])
      ensures AreaDone(triangles, vertices, index, old(|triangles|), |triangles|, old(triangles[index].tag), maxArea)
    {
      ghost var tri0 := triangles[index];
      var first, second;
      first, second, edges' := SplitWithinDepth(index, maxArea, edges, base, depth);
      ghost var tris1, verts1 := triangles, vertices;
      edges' := TessellateRecursive(first, maxArea, edges', base, depth - 1);
      ghost var tris2, verts2 := triangles, vertices;
      assert triangles[second] == tris1[second];
      DepthKept(verts1, verts2, tris1[second], maxArea, depth - 1);
      edges' := TessellateRecursive(second, maxArea, edges', base, depth - 1);
      AreaDoneKept(tris2, verts2, triangles, vertices, first, |tris1|, |tris2|, tri0.tag, maxArea);
      AreaDoneJoin(triangles, vertices, index, second, |tris2|, tri0.tag, maxArea);
      assert forall t :: 0 <= t < |tris1| && t != index ==> tris2[t] == tris1[t];
      assert forall t :: 0 <= t < |tris1| && t != index && t != second ==> triangles[t] == tris1[t];
    }

    function TagsOf(ts: seq<Triangle>): set<int> {
      set t | t in ts :: t.tag
    }

    /** Area mode: the recursion on each triangle present at the start, in order. */
    method TessellateArea(maxArea: real) returns (ghost edges: map<(int, int), int>)
      requires Valid() && maxArea > 0.0
      modifies this
      ensures Valid() && old(vertices) <= vertices && old(|triangles|) <= |triangles|
      ensures SplitMapValidIn(vertices, edges, old(|vertices|))
      ensures forall t :: 0 <= t < |triangles| ==>
        !TooLargeIn(vertices, triangles[t], maxArea) && triangles[t].tag in TagsOf(old(triangles))
      ensures forall t :: 0 <= t < old(|triangles|) ==> triangles[t].tag == old(triangles[t].tag)
    {
      ghost var tris0, verts0 := triangles, vertices;
      var n := |triangles|;
      var splits: map<(int, int), int> := map[];
      var i := 0;
      while i < n
        invariant 0 <= i <= n <= |triangles|
        invariant Valid() && SplitMapValid(splits, |verts0|) && verts0 <= vertices
        invariant forall t :: i <= t < n ==> triangles[t] == tris0[t]
        invariant forall t :: 0 <= t < i ==> triangles[t].tag == tris0[t].tag
        invariant forall t :: (0 <= t < i || n <= t < |triangles|) ==>
          !TooLargeIn(vertices, triangles[t], maxArea) && triangles[t].tag in TagsOf(tris0)
      {
        ghost var trisB, vertsB := triangles, vertices;
        ghost var depth := EnoughDepth(vertices, triangles[i], maxArea);
        splits := TessellateRecursive(i, maxArea, splits, |verts0|, depth);
        assert tris0[i] in tris0;
        forall t | 0 <= t < i || n <= t < |trisB|
          ensures !TooLargeIn(vertices, triangles[t], maxArea) && triangles[t].tag in TagsOf(tris0)
        {
          MeasuresKept(vertsB, vertices, trisB[t], maxArea);
        }
        i := i + 1;
      }
      edges := splits;
    }

    /** TessellateTriangles: dispatch on the mode; one split map serves the whole call. */
    method TessellateTriangles(settings: TessellationSettings) returns (ghost edges: map<(int, int), int>)
      requires Valid()
      requires settings.mode == Area ==> settings.maxArea > 0.0
      modifies this
      ensures Valid() && old(vertices) <= vertices
      ensures SplitMapValidIn(vertices, edges, old(|vertices|))
      ensures settings.mode == Levels ==>
        LevelsDone(old(triangles), old(vertices), triangles, vertices, if settings.levels < 0 then 0 else settings.levels)
      ensures settings.mode == Area ==> old(|triangles|) <= |triangles|
      ensures settings.mode == Area ==> forall t :: 0 <= t < |triangles| ==>
        !TooLargeIn(vertices, triangles[t], settings.maxArea) && triangles[t].tag in TagsOf(old(triangles))
      ensures settings.mode == Area ==> forall t :: 0 <= t < old(|triangles|) ==> triangles[t].tag == old(triangles[t].tag)
    {
      match settings.mode {
        case Levels => edges := TessellateLevels(settings.levels);
        case Area => edges := TessellateArea(settings.maxArea);
      }
    }
  }
}
