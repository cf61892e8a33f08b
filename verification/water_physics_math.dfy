// Triangle helpers, rigid-body point velocities, force accumulation, the scaling of
// collision elements and the extraction of convex-element triangles.

module WaterPhysicsMath {
  import opened Vectors
  import opened WaterPhysicsTypes

  /** CalcTriangleElemAvg over three vectors. */
  function TriangleElemAvg(a: Vec3, b: Vec3, c: Vec3): Vec3 {
    Scale(Add(Add(a, b), c), 1.0 / 3.0)
  }

  /** CalcTriangleElemAvg over three scalars (used for depths). */
  function TriangleElemAvgReal(a: real, b: real, c: real): real {
    (a + b + c) / 3.0
  }

  /** CalcTriangleCentroid. */
  function TriangleCentroid(v0: Vec3, v1: Vec3, v2: Vec3): Vec3 {
    Scale(Add(Add(v0, v1), v2), 1.0 / 3.0)
  }

  /** The centroid is the element average, is unchanged by rotating or reversing the vertex
      order, and is the point whose offsets to the three vertices sum to zero. */
  lemma CentroidProperties(v0: Vec3, v1: Vec3, v2: Vec3)
    ensures TriangleCentroid(v0, v1, v2) == TriangleElemAvg(v0, v1, v2)
    ensures TriangleCentroid(v1, v2, v0) == TriangleCentroid(v0, v1, v2)
    ensures TriangleCentroid(v2, v1, v0) == TriangleCentroid(v0, v1, v2)
    ensures var c := TriangleCentroid(v0, v1, v2);
      Add(Add(Sub(v0, c), Sub(v1, c)), Sub(v2, c)) == Zero
  {
  }

  /** The direction CalcTriangleNormal normalises: (v1 - v0) x (v2 - v0). */
  function NormalDirection(v0: Vec3, v1: Vec3, v2: Vec3): Vec3 {
    Cross(Sub(v1, v0), Sub(v2, v0))
  }

  /** The vector whose length CalcTriangleArea halves: (v1 - v2) x (v0 - v2). */
  function AreaCross(v0: Vec3, v1: Vec3, v2: Vec3): Vec3 {
    Cross(Sub(v1, v2), Sub(v0, v2))
  }

  /** The normal direction follows the winding: rotating the vertex order keeps it,
      reversing the order negates it, and the area vector is its opposite (same length). */
  lemma NormalWinding(v0: Vec3, v1: Vec3, v2: Vec3)
    ensures NormalDirection(v1, v2, v0) == NormalDirection(v0, v1, v2)
    ensures NormalDirection(v0, v2, v1) == Neg(NormalDirection(v0, v1, v2))
    ensures AreaCross(v0, v1, v2) == Neg(NormalDirection(v0, v1, v2))
  {
    NormalRotation(v0, v1, v2);
    NormalSwap(v0, v1, v2);
    AreaNormal(v0, v1, v2);
  }

  lemma NormalRotation(v0: Vec3, v1: Vec3, v2: Vec3)
    ensures NormalDirection(v1, v2, v0) == NormalDirection(v0, v1, v2)
  {
    RotationMinor(v0.y, v1.y, v2.y, v0.z, v1.z, v2.z);
    RotationMinor(v0.z, v1.z, v2.z, v0.x, v1.x, v2.x);
    RotationMinor(v0.x, v1.x, v2.x, v0.y, v1.y, v2.y);
  }

  lemma NormalSwap(v0: Vec3, v1: Vec3, v2: Vec3)
    ensures NormalDirection(v0, v2, v1) == Neg(NormalDirection(v0, v1, v2))
  {
    SwapMinor(v0.y, v1.y, v2.y, v0.z, v1.z, v2.z);
    SwapMinor(v0.z, v1.z, v2.z, v0.x, v1.x, v2.x);
    SwapMinor(v0.x, v1.x, v2.x, v0.y, v1.y, v2.y);
  }

  lemma AreaNormal(v0: Vec3, v1: Vec3, v2: Vec3)
    ensures AreaCross(v0, v1, v2) == Neg(NormalDirection(v0, v1, v2))
  {
    AreaMinor(v0.y, v1.y, v2.y, v0.z, v1.z, v2.z);
    AreaMinor(v0.z, v1.z, v2.z, v0.x, v1.x, v2.x);
    AreaMinor(v0.x, v1.x, v2.x, v0.y, v1.y, v2.y);
  }

  // One component of the normal direction is (p1 - p0)(q2 - q0) - (q1 - q0)(p2 - p0), which
  // expands to the cyclic sum p0 q1 - p1 q0 + p1 q2 - p2 q1 + p2 q0 - p0 q2: a rotation of the
  // corners keeps it and a swap negates it. One identity per lemma keeps each proof small.

  lemma RotationMinor(p0: real, p1: real, p2: real, q0: real, q1: real, q2: real)
    ensures (p2 - p1) * (q0 - q1) - (q2 - q1) * (p0 - p1) == (p1 - p0) * (q2 - q0) - (q1 - q0) * (p2 - p0)
  {
    var cyclic := p0 * q1 - p1 * q0 + p1 * q2 - p2 * q1 + p2 * q0 - p0 * q2;
    assert (p1 - p0) * (q2 - q0) - (q1 - q0) * (p2 - p0) == cyclic;
    assert (p2 - p1) * (q0 - q1) - (q2 - q1) * (p0 - p1) == cyclic;
  }

  lemma SwapMinor(p0: real, p1: real, p2: real, q0: real, q1: real, q2: real)
    ensures (p2 - p0) * (q1 - q0) - (q2 - q0) * (p1 - p0) == -((p1 - p0) * (q2 - q0) - (q1 - q0) * (p2 - p0))
  {
  }

  lemma AreaMinor(p0: real, p1: real, p2: real, q0: real, q1: real, q2: real)
    ensures (p1 - p2) * (q0 - q2) - (q1 - q2) * (p0 - p2) == -((p1 - p0) * (q2 - q0) - (q1 - q0) * (p2 - p0))
  {
    var cyclic := p0 * q1 - p1 * q0 + p1 * q2 - p2 * q1 + p2 * q0 - p0 * q2;
    assert (p1 - p0) * (q2 - q0) - (q1 - q0) * (p2 - p0) == cyclic;
    assert (p1 - p2) * (q0 - q2) - (q1 - q2) * (p0 - p2) == -cyclic;
  }

  /** The square of CalcTriangleArea: |(v1 - v2) x (v0 - v2)|^2 / 4. */
  function TriangleAreaSquared(v0: Vec3, v1: Vec3, v2: Vec3): (r: real)
    ensures r >= 0.0
  {
    SizeSquared(AreaCross(v0, v1, v2)) / 4.0
  }

  /** The test CalcTriangleAreaM2(T) > MaxArea, stated on squares:
      Area * 0.0001 > MaxArea exactly when MaxArea < 0 or Area^2 > (MaxArea * 10000)^2. */
  predicate TriangleAreaM2Exceeds(v0: Vec3, v1: Vec3, v2: Vec3, maxArea: real) {
    maxArea < 0.0 || TriangleAreaSquared(v0, v1, v2) > (maxArea * 10000.0) * (maxArea * 10000.0)
  }

  /** The squared form decides the same as comparing the area itself (any non-negative
      root of the squared area), so no square root is needed. */
  lemma AreaM2ExceedsExact(v0: Vec3, v1: Vec3, v2: Vec3, maxArea: real, area: real)
    requires area >= 0.0 && area * area == TriangleAreaSquared(v0, v1, v2)
    ensures TriangleAreaM2Exceeds(v0, v1, v2, maxArea) <==> area * 0.0001 > maxArea
  {
    var m := maxArea * 10000.0;
    assert area * 0.0001 > maxArea <==> area > m;
    if maxArea >= 0.0 {
      assert area * area - m * area == (area - m) * area;
      assert m * area - m * m == m * (area - m);
      if area > m {
        assert (area - m) * area > 0.0 && m * (area - m) >= 0.0;
      } else {
        assert (area - m) * area <= 0.0 && m * (area - m) <= 0.0;
      }
    }
  }

  /** CalcVertexVelocity: linear velocity plus angular velocity x (vertex - centre of mass). */
  function VertexVelocity(vertex: Vec3, centerOfMass: Vec3, linear: Vec3, angular: Vec3): Vec3 {
    Add(linear, Cross(angular, Sub(vertex, centerOfMass)))
  }

  /** CalcVertexVelocityMS: the same velocity converted from cm/s to m/s. */
  function VertexVelocityMS(vertex: Vec3, centerOfMass: Vec3, linear: Vec3, angular: Vec3): Vec3 {
    Scale(VertexVelocity(vertex, centerOfMass, linear, angular), 0.01)
  }

  /** CalcTriangleVelocity: the velocity of the triangle's centroid. */
  function TriangleVelocity(v0: Vec3, v1: Vec3, v2: Vec3, centerOfMass: Vec3, linear: Vec3, angular: Vec3): Vec3 {
    VertexVelocity(TriangleCentroid(v0, v1, v2), centerOfMass, linear, angular)
  }

  /** Rigid motion: the centre of mass moves with the linear velocity, two points differ in
      velocity by angular x (their offset), and the m/s form is one hundredth of the cm/s form. */
  lemma RigidBodyVelocity(p: Vec3, q: Vec3, centerOfMass: Vec3, linear: Vec3, angular: Vec3)
    ensures VertexVelocity(centerOfMass, centerOfMass, linear, angular) == linear
    ensures Sub(VertexVelocity(p, centerOfMass, linear, angular), VertexVelocity(q, centerOfMass, linear, angular))
            == Cross(angular, Sub(p, q))
    ensures Scale(VertexVelocityMS(p, centerOfMass, linear, angular), 100.0) == VertexVelocity(p, centerOfMass, linear, angular)
  {
  }

  /** FForce: an accumulated force and the torque it exerts about the centre of mass. */
  datatype Force = Force(force: Vec3, torque: Vec3)

  /** FForce(ForceInit). */
  const ForceInit: Force := Force(Zero, Zero)

  /** FForce::AddForce. */
  function AddForce(f: Force, inForce: Vec3, location: Vec3, com: Vec3): Force {
    Force(Add(f.force, inForce), Add(f.torque, Cross(Sub(location, com), inForce)))
  }

  /** FForce::operator+=. */
  function Accumulate(f: Force, other: Force): Force {
    Force(Add(f.force, other.force), Add(f.torque, other.torque))
  }

  /** One application of a force at a point, as AddForce receives it. */
  datatype AppliedForce = AppliedForce(force: Vec3, location: Vec3)

  function AddForces(f: Force, applied: seq<AppliedForce>, com: Vec3): Force
    decreases |applied|
  {
    if |applied| == 0 then f
    else AddForces(AddForce(f, applied[0].force, applied[0].location, com), applied[1..], com)
  }

  /** Two AddForce calls commute. */
  lemma AddForceCommutes(f: Force, a: AppliedForce, b: AppliedForce, com: Vec3)
    ensures AddForce(AddForce(f, a.force, a.location, com), b.force, b.location, com)
         == AddForce(AddForce(f, b.force, b.location, com), a.force, a.location, com)
  {
  }

  /** Accumulating from ForceInit and then adding the result with += gives the same total as
      adding every force directly: the totals are a sum that does not depend on the start. */
  lemma {:induction false} AddForcesIsAccumulate(f: Force, applied: seq<AppliedForce>, com: Vec3)
    ensures AddForces(f, applied, com) == Accumulate(f, AddForces(ForceInit, applied, com))
    decreases |applied|
  {
    if |applied| > 0 {
      var a := applied[0];
      AddForcesIsAccumulate(AddForce(f, a.force, a.location, com), applied[1..], com);
      AddForcesIsAccumulate(AddForce(ForceInit, a.force, a.location, com), applied[1..], com);
    }
  }

  /** The final totals do not depend on the order of the AddForce calls: swapping two
      batches of calls gives the same force and torque. */
  lemma OrderIndependent(f: Force, s: seq<AppliedForce>, t: seq<AppliedForce>, com: Vec3)
    ensures AddForces(f, s + t, com) == AddForces(f, t + s, com)
  {
    AddForcesConcat(f, s, t, com);
    AddForcesConcat(f, t, s, com);
    AddForcesIsAccumulate(f, s + t, com);
    AddForcesIsAccumulate(f, t + s, com);
    AddForcesIsAccumulate(AddForces(f, s, com), t, com);
    AddForcesIsAccumulate(AddForces(f, t, com), s, com);
    AddForcesIsAccumulate(f, s, com);
    AddForcesIsAccumulate(f, t, com);
  }

  lemma {:induction false} AddForcesConcat(f: Force, s: seq<AppliedForce>, t: seq<AppliedForce>, com: Vec3)
    ensures AddForces(f, s + t, com) == AddForces(AddForces(f, s, com), t, com)
    decreases |s|
  {
    if |s| > 0 {
      var f' := AddForce(f, s[0].force, s[0].location, com);
      assert (s + t)[0] == s[0];
      assert (s + t)[1..] == s[1..] + t;
      calc {
        AddForces(f, s + t, com);
        AddForces(f', s[1..] + t, com);
        { AddForcesConcat(f', s[1..], t, com); }
        AddForces(AddForces(f', s[1..], com), t, com);
        AddForces(AddForces(f, s, com), t, com);
      }
    } else {
      assert s + t == t;
    }
  }

  function Max(a: real, b: real): real { if a >= b then a else b }
  function Min(a: real, b: real): real { if a <= b then a else b }

  /** The radius TransformSphereElem stores: max(Radius * min|scale|, MinSphereRadius). */
  function ScaledSphereRadius(radius: real, scaleAbs: Vec3, minSphereRadius: real): (r: real)
    ensures r >= minSphereRadius
    ensures r == minSphereRadius || r == radius * Min(Min(scaleAbs.x, scaleAbs.y), scaleAbs.z)
  {
    Max(radius * Min(Min(scaleAbs.x, scaleAbs.y), scaleAbs.z), minSphereRadius)
  }

  /** The extent TransformBoxElem stores: per axis max(0.5 * Extent * |scale|, MinBoxExtent). */
  function ScaledBoxExtent(extent: Vec3, scaleAbs: Vec3, minBoxExtent: real): (r: Vec3)
    ensures r.x >= minBoxExtent && r.y >= minBoxExtent && r.z >= minBoxExtent
    ensures r.x == minBoxExtent || r.x == 0.5 * extent.x * scaleAbs.x
    ensures r.y == minBoxExtent || r.y == 0.5 * extent.y * scaleAbs.y
    ensures r.z == minBoxExtent || r.z == 0.5 * extent.z * scaleAbs.z
  {
    Vec3(Max(0.5 * extent.x * scaleAbs.x, minBoxExtent),
         Max(0.5 * extent.y * scaleAbs.y, minBoxExtent),
         Max(0.5 * extent.z * scaleAbs.z, minBoxExtent))
  }

  /** The half-height TransformSphylElem works from: the full capsule length scaled by |scale.Z|, halved. */
  function SphylScaledHalfHeight(radius: real, halfHeight: real, scaleAbs: Vec3): real {
    (halfHeight + radius * 2.0) * scaleAbs.z * 0.5
  }

  /** The (radius, half-height) TransformSphylElem stores. */
  function ScaledSphyl(radius: real, halfHeight: real, scaleAbs: Vec3, minCapsuleRadius: real, minCapsuleAxisHalfHeight: real): (r: (real, real))
    ensures r.0 >= minCapsuleRadius && r.1 >= minCapsuleAxisHalfHeight
    ensures r.0 <= SphylScaledHalfHeight(radius, halfHeight, scaleAbs) || r.0 == minCapsuleRadius
    ensures r.0 >= 0.1 || r.0 == minCapsuleRadius || r.0 == SphylScaledHalfHeight(radius, halfHeight, scaleAbs)
    ensures r.1 == minCapsuleAxisHalfHeight || r.0 + r.1 == SphylScaledHalfHeight(radius, halfHeight, scaleAbs)
  {
    var scaledHalfHeight := SphylScaledHalfHeight(radius, halfHeight, scaleAbs);
    var scaledRadius := Max(radius * Max(scaleAbs.x, scaleAbs.y), 0.1);
    var newRadius := Max(Min(scaledRadius, scaledHalfHeight), minCapsuleRadius);
    (newRadius, Max(minCapsuleAxisHalfHeight, scaledHalfHeight - newRadius))
  }

  /** TransformMeshElem: every vertex goes through the transform, in place; the index list
      is untouched. The transform itself is engine code, given here as a function. */
  method TransformMeshElem(mesh: IndexedTriangleMesh, transformPosition: Vec3 -> Vec3) returns (r: IndexedTriangleMesh)
    ensures r.indexList == mesh.indexList
    ensures |r.vertexList| == |mesh.vertexList|
    ensures forall k :: 0 <= k < |mesh.vertexList| ==> r.vertexList[k] == transformPosition(mesh.vertexList[k])
  {
    var vertices := mesh.vertexList;
    var i := 0;
    while i < |vertices|
      invariant 0 <= i <= |vertices| == |mesh.vertexList|
      invariant forall k :: 0 <= k < i ==> vertices[k] == transformPosition(mesh.vertexList[k])
      invariant forall k :: i <= k < |vertices| ==> vertices[k] == mesh.vertexList[k]
    {
      vertices := vertices[i := transformPosition(vertices[i])];
      i := i + 1;
    }
    r := IndexedTriangleMesh(vertices, mesh.indexList);
  }

  /** The vertex list with every X negated. */
  function MirroredX(vs: seq<Vec3>): (r: seq<Vec3>)
    ensures |r| == |vs|
  {
    seq(|vs|, k requires 0 <= k < |vs| => Vec3(-vs[k].x, vs[k].y, vs[k].z))
  }

  /** Where position k of a triple-structured list reads from once the ends of its triple are exchanged. */
  function FlippedPosition(k: nat): nat {
    if k % 3 == 0 then k + 2 else if k % 3 == 2 then k - 2 else k
  }

  /** The index list with the first and third index of every triple exchanged. */
  function FlippedWinding(idx: seq<int>): (r: seq<int>)
    requires |idx| % 3 == 0
    ensures |r| == |idx|
  {
    seq(|idx|, k requires 0 <= k < |idx| => idx[FlippedPosition(k)])
  }

  /** Each triple (a, b, c) becomes (c, b, a); mirroring twice and flipping twice restore
      the input; flipping only permutes indices within a triangle, so a well-formed mesh
      stays well-formed. */
  lemma MirrorFlipProperties(m: IndexedTriangleMesh)
    requires |m.indexList| % 3 == 0
    ensures forall t :: 0 <= t < |m.indexList| / 3 ==>
      FlippedWinding(m.indexList)[3 * t] == m.indexList[3 * t + 2] &&
      FlippedWinding(m.indexList)[3 * t + 1] == m.indexList[3 * t + 1] &&
      FlippedWinding(m.indexList)[3 * t + 2] == m.indexList[3 * t]
    ensures MirroredX(MirroredX(m.vertexList)) == m.vertexList
    ensures FlippedWinding(FlippedWinding(m.indexList)) == m.indexList
    ensures WellFormed(m) ==> WellFormed(IndexedTriangleMesh(MirroredX(m.vertexList), FlippedWinding(m.indexList)))
  {
    var f := FlippedWinding(m.indexList);
    forall t | 0 <= t < |m.indexList| / 3
      ensures f[3 * t] == m.indexList[3 * t + 2] && f[3 * t + 1] == m.indexList[3 * t + 1] && f[3 * t + 2] == m.indexList[3 * t]
    {
      assert (3 * t) % 3 == 0 && (3 * t + 1) % 3 == 1 && (3 * t + 2) % 3 == 2;
    }
    forall k | 0 <= k < |m.indexList| ensures FlippedPosition(FlippedPosition(k)) == k && FlippedPosition(k) < |m.indexList| {
      var t := k / 3;
      assert k == 3 * t || k == 3 * t + 1 || k == 3 * t + 2;
    }
  }

  /** ExtractConvexElemTriangles (Chaos branch): copy the element's vertex and index data and,
      when mirroring, negate every X in place and exchange the ends of every index triple. */
  method ExtractConvexElemTriangles(vertexData: seq<Vec3>, indexData: seq<int>, mirrorX: bool) returns (r: IndexedTriangleMesh)
    requires |indexData| % 3 == 0
    ensures mirrorX ==> r == IndexedTriangleMesh(MirroredX(vertexData), FlippedWinding(indexData))
    ensures !mirrorX ==> r == IndexedTriangleMesh(vertexData, indexData)
  {
    var vertices := vertexData;
    var indices := indexData;
    if mirrorX {
      var v := 0;
      while v < |vertices|
        invariant 0 <= v <= |vertices| == |vertexData|
        invariant forall k :: 0 <= k < v ==> vertices[k] == Vec3(-vertexData[k].x, vertexData[k].y, vertexData[k].z)
        invariant forall k :: v <= k < |vertices| ==> vertices[k] == vertexData[k]
      {
        vertices := vertices[v := Vec3(-vertices[v].x, vertices[v].y, vertices[v].z)];
        v := v + 1;
      }
      var i := 0;
      while i < |indices|
        invariant 0 <= i <= |indices| == |indexData| && i % 3 == 0
        invariant forall t :: 0 <= t < i / 3 ==>
          indices[3 * t] == indexData[3 * t + 2] && indices[3 * t + 1] == indexData[3 * t + 1] && indices[3 * t + 2] == indexData[3 * t]
        invariant forall k :: i <= k < |indices| ==> indices[k] == indexData[k]
      {
        var tmp := indices[i];
        indices := indices[i := indices[i + 2]];
        indices := indices[i + 2 := tmp];
        i := i + 3;
      }
      forall k | 0 <= k < |indices| ensures indices[k] == FlippedWinding(indexData)[k] {
        var t := k / 3;
        assert k == 3 * t || k == 3 * t + 1 || k == 3 * t + 2;
        assert (3 * t) % 3 == 0 && (3 * t + 1) % 3 == 1 && (3 * t + 2) % 3 == 2;
      }
    }
    r := IndexedTriangleMesh(vertices, indices);
  }
}
