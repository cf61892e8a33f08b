// Geometry of the pieces the submersion clipper cuts a triangle into: each piece's normal is a
// non-negative multiple of the source triangle's normal, whichever corners lie under water.

module PieceGeometry {
  import opened Vectors
  import opened WaterPhysicsMath

  /** Two directions agree: parallel and not opposed (a zero vector agrees with anything). */
  predicate SameOrientation(n: Vec3, m: Vec3) {
    Cross(n, m) == Zero && Dot(n, m) >= 0.0
  }

  lemma ScaledSameOrientation(m: Vec3, k: real)
    requires k >= 0.0
    ensures SameOrientation(Scale(m, k), m)
  {
    assert Dot(Scale(m, k), m) == k * Dot(m, m);
    assert Dot(m, m) >= 0.0 by {
      assert m.x * m.x >= 0.0 && m.y * m.y >= 0.0 && m.z * m.z >= 0.0;
    }
  }

  /** One coordinate of the cross product of two combinations of u and w: the minor m of u
      and w times the determinant of the combinations. Stated as an implication so that a
      caller has no preconditions to discharge separately. */
  lemma MinorCombination(a: real, b: real, c: real, d: real, p1: real, q1: real, p2: real, q2: real,
                         l1: real, l2: real, r1: real, r2: real, m: real)
    ensures l1 == p1 * a + q1 * b && l2 == p2 * a + q2 * b && r1 == p1 * c + q1 * d && r2 == p2 * c + q2 * d &&
            m == p1 * q2 - p2 * q1
      ==> l1 * r2 - l2 * r1 == m * (a * d - b * c)
  {
    if l1 == p1 * a + q1 * b && l2 == p2 * a + q2 * b && r1 == p1 * c + q1 * d && r2 == p2 * c + q2 * d &&
       m == p1 * q2 - p2 * q1
    {
      assert (p1 * a + q1 * b) * (p2 * c + q2 * d) == p1 * a * p2 * c + p1 * a * q2 * d + q1 * b * p2 * c + q1 * b * q2 * d;
      assert (p2 * a + q2 * b) * (p1 * c + q1 * d) == p2 * a * p1 * c + p2 * a * q1 * d + q2 * b * p1 * c + q2 * b * q1 * d;
      assert (p1 * q2 - p2 * q1) * (a * d - b * c) == p1 * q2 * a * d - p1 * q2 * b * c - p2 * q1 * a * d + p2 * q1 * b * c;
    }
  }

  /** The coordinates of the combination a u + b w. */
  lemma CombinationCoords(u: Vec3, w: Vec3, a: real, b: real, l: Vec3)
    requires l == Add(Scale(u, a), Scale(w, b))
    ensures l.x == u.x * a + w.x * b && l.y == u.y * a + w.y * b && l.z == u.z * a + w.z * b
  {
  }

  /** The cross product of two combinations of u and w is the 2x2 determinant times u x w. */
  lemma CrossCombination(u: Vec3, w: Vec3, a: real, b: real, c: real, d: real)
    ensures Cross(Add(Scale(u, a), Scale(w, b)), Add(Scale(u, c), Scale(w, d))) == Scale(Cross(u, w), a * d - b * c)
  {
    var l, r := Add(Scale(u, a), Scale(w, b)), Add(Scale(u, c), Scale(w, d));
    CombinationMinorX(u, w, a, b, c, d, l, r);
    CombinationMinorY(u, w, a, b, c, d, l, r);
    CombinationMinorZ(u, w, a, b, c, d, l, r);
    ComponentsEqual(Cross(l, r), Scale(Cross(u, w), a * d - b * c));
  }

  lemma CombinationMinorX(u: Vec3, w: Vec3, a: real, b: real, c: real, d: real, l: Vec3, r: Vec3)
    requires l == Add(Scale(u, a), Scale(w, b)) && r == Add(Scale(u, c), Scale(w, d))
    ensures Cross(l, r).x == Scale(Cross(u, w), a * d - b * c).x
  {
    CombinationCoords(u, w, a, b, l);
    CombinationCoords(u, w, c, d, r);
    CrossCoords(l, r);
    ScaleCoords(Cross(u, w), a * d - b * c);
    MinorCombination(a, b, c, d, u.y, w.y, u.z, w.z, l.y, l.z, r.y, r.z, Cross(u, w).x);
  }

  lemma CombinationMinorY(u: Vec3, w: Vec3, a: real, b: real, c: real, d: real, l: Vec3, r: Vec3)
    requires l == Add(Scale(u, a), Scale(w, b)) && r == Add(Scale(u, c), Scale(w, d))
    ensures Cross(l, r).y == Scale(Cross(u, w), a * d - b * c).y
  {
    CombinationCoords(u, w, a, b, l);
    CombinationCoords(u, w, c, d, r);
    CrossCoords(l, r);
    ScaleCoords(Cross(u, w), a * d - b * c);
    MinorCombination(a, b, c, d, u.z, w.z, u.x, w.x, l.z, l.x, r.z, r.x, Cross(u, w).y);
  }

  lemma CombinationMinorZ(u: Vec3, w: Vec3, a: real, b: real, c: real, d: real, l: Vec3, r: Vec3)
    requires l == Add(Scale(u, a), Scale(w, b)) && r == Add(Scale(u, c), Scale(w, d))
    ensures Cross(l, r).z == Scale(Cross(u, w), a * d - b * c).z
  {
    CombinationCoords(u, w, a, b, l);
    CombinationCoords(u, w, c, d, r);
    CrossCoords(l, r);
    ScaleCoords(Cross(u, w), a * d - b * c);
    MinorCombination(a, b, c, d, u.x, w.x, u.y, w.y, l.x, l.y, r.x, r.y, Cross(u, w).z);
  }

  // Edge vectors of the pieces, as combinations of the edges u = B - A and w = C - A.

  /** From A to the split point at t on A-B. */
  lemma AToSplitB(pA: Vec3, pB: Vec3, pC: Vec3, t: real, s: real)
    ensures Sub(Lerp(pA, pB, t), pA) == Add(Scale(Sub(pB, pA), t), Scale(Sub(pC, pA), 0.0))
  {
    var d, u, w := Sub(Lerp(pA, pB, t), pA), Sub(pB, pA), Sub(pC, pA);
    assert d.x == u.x * t + w.x * 0.0;
    assert d.y == u.y * t + w.y * 0.0;
    assert d.z == u.z * t + w.z * 0.0;
    ComponentsEqual(d, Add(Scale(u, t), Scale(w, 0.0)));
  }

  /** From A to the split point at s on A-C. */
  lemma AToSplitC(pA: Vec3, pB: Vec3, pC: Vec3, t: real, s: real)
    ensures Sub(Lerp(pA, pC, s), pA) == Add(Scale(Sub(pB, pA), 0.0), Scale(Sub(pC, pA), s))
  {
    var d, u, w := Sub(Lerp(pA, pC, s), pA), Sub(pB, pA), Sub(pC, pA);
    assert d.x == u.x * 0.0 + w.x * s;
    assert d.y == u.y * 0.0 + w.y * s;
    assert d.z == u.z * 0.0 + w.z * s;
    ComponentsEqual(d, Add(Scale(u, 0.0), Scale(w, s)));
  }

  /** From the split point at t on A-B to B. */
  lemma SplitBToB(pA: Vec3, pB: Vec3, pC: Vec3, t: real, s: real)
    ensures Sub(pB, Lerp(pA, pB, t)) == Add(Scale(Sub(pB, pA), 1.0 - t), Scale(Sub(pC, pA), 0.0))
  {
    var d, u, w := Sub(pB, Lerp(pA, pB, t)), Sub(pB, pA), Sub(pC, pA);
    assert d.x == u.x * (1.0 - t) + w.x * 0.0;
    assert d.y == u.y * (1.0 - t) + w.y * 0.0;
    assert d.z == u.z * (1.0 - t) + w.z * 0.0;
    ComponentsEqual(d, Add(Scale(u, 1.0 - t), Scale(w, 0.0)));
  }

  /** From the split point at t on A-B to C. */
  lemma SplitBToC(pA: Vec3, pB: Vec3, pC: Vec3, t: real, s: real)
    ensures Sub(pC, Lerp(pA, pB, t)) == Add(Scale(Sub(pB, pA), -t), Scale(Sub(pC, pA), 1.0))
  {
    var d, u, w := Sub(pC, Lerp(pA, pB, t)), Sub(pB, pA), Sub(pC, pA);
    assert d.x == u.x * (-t) + w.x * 1.0;
    assert d.y == u.y * (-t) + w.y * 1.0;
    assert d.z == u.z * (-t) + w.z * 1.0;
    ComponentsEqual(d, Add(Scale(u, -t), Scale(w, 1.0)));
  }

  /** From the split point at t on A-B to the split point at s on A-C. */
  lemma SplitBToSplitC(pA: Vec3, pB: Vec3, pC: Vec3, t: real, s: real)
    ensures Sub(Lerp(pA, pC, s), Lerp(pA, pB, t)) == Add(Scale(Sub(pB, pA), -t), Scale(Sub(pC, pA), s))
  {
    var d, u, w := Sub(Lerp(pA, pC, s), Lerp(pA, pB, t)), Sub(pB, pA), Sub(pC, pA);
    assert d.x == u.x * (-t) + w.x * s;
    assert d.y == u.y * (-t) + w.y * s;
    assert d.z == u.z * (-t) + w.z * s;
    ComponentsEqual(d, Add(Scale(u, -t), Scale(w, s)));
  }

  /** The corner piece at A, cut at fractions t along AB and s along AC. */
  lemma CornerPieceNormal(pA: Vec3, pB: Vec3, pC: Vec3, t: real, s: real)
    ensures NormalDirection(pA, Lerp(pA, pB, t), Lerp(pA, pC, s)) == Scale(NormalDirection(pA, pB, pC), t * s)
  {
    AToSplitB(pA, pB, pC, t, s);
    AToSplitC(pA, pB, pC, t, s);
    CrossCombination(Sub(pB, pA), Sub(pC, pA), t, 0.0, 0.0, s);
    assert t * s - 0.0 * 0.0 == t * s;
  }

  /** The first half of the quad left when the corner at A is cut off: (AB, B, C). */
  lemma QuadFirstNormal(pA: Vec3, pB: Vec3, pC: Vec3, t: real)
    ensures NormalDirection(Lerp(pA, pB, t), pB, pC) == Scale(NormalDirection(pA, pB, pC), 1.0 - t)
  {
    SplitBToB(pA, pB, pC, t, 0.0);
    SplitBToC(pA, pB, pC, t, 0.0);
    CrossCombination(Sub(pB, pA), Sub(pC, pA), 1.0 - t, 0.0, -t, 1.0);
    assert (1.0 - t) * 1.0 - 0.0 * -t == 1.0 - t;
  }

  /** The second half of that quad: (AB, C, AC). */
  lemma QuadSecondNormal(pA: Vec3, pB: Vec3, pC: Vec3, t: real, s: real)
    ensures NormalDirection(Lerp(pA, pB, t), pC, Lerp(pA, pC, s)) == Scale(NormalDirection(pA, pB, pC), t * (1.0 - s))
  {
    var u, w := Sub(pB, pA), Sub(pC, pA);
    SplitBToC(pA, pB, pC, t, s);
    SplitBToSplitC(pA, pB, pC, t, s);
    assert NormalDirection(Lerp(pA, pB, t), pC, Lerp(pA, pC, s)) == Cross(Add(Scale(u, -t), Scale(w, 1.0)), Add(Scale(u, -t), Scale(w, s)));
    CrossCombination(u, w, -t, 1.0, -t, s);
    var k := (-t) * s - 1.0 * (-t);
    assert k == t * (1.0 - s);
    assert Scale(Cross(u, w), k) == Scale(Cross(u, w), t * (1.0 - s));
  }

  /** The corner orders (VertexOrderIndex) of the roles A, B, C: B and C come from one side's
      list, so B precedes C, and A is the remaining corner. */
  predicate RoleOrders(oA: int, oB: int, oC: int) {
    (oA, oB, oC) == (0, 1, 2) || (oA, oB, oC) == (1, 0, 2) || (oA, oB, oC) == (2, 0, 1)
  }

  /** +1 when (oA, oB, oC) is an even arrangement of (0, 1, 2), -1 when odd. */
  function Parity(oA: int): real {
    if oA == 1 then -1.0 else 1.0
  }

  /** Reading role-indexed values xs at the corner orders gives the normal times the parity;
      with the first two orders swapped, the opposite parity. */
  lemma PermutedNormal(oA: int, oB: int, oC: int, xs: seq<Vec3>)
    requires RoleOrders(oA, oB, oC) && |xs| == 3
    ensures NormalDirection(xs[oA], xs[oB], xs[oC]) == Scale(NormalDirection(xs[0], xs[1], xs[2]), Parity(oA))
    ensures NormalDirection(xs[oB], xs[oA], xs[oC]) == Scale(NormalDirection(xs[0], xs[1], xs[2]), -Parity(oA))
  {
    var n := NormalDirection(xs[0], xs[1], xs[2]);
    NormalWinding(xs[0], xs[1], xs[2]);
    NormalWinding(xs[1], xs[0], xs[2]);
    NormalWinding(xs[2], xs[0], xs[1]);
    NormalWinding(xs[0], xs[2], xs[1]);
    assert Scale(n, 1.0) == n;
    assert Scale(n, -1.0) == Neg(n);
  }

  /** A piece whose role-indexed corner positions xs have normal k (or -k when swapped) times
      the normal of the source corners in role order, stored at the corner orders as the
      clipper stores it, has the source triangle's orientation. */
  lemma PieceOrientation(src: seq<Vec3>, oA: int, oB: int, oC: int, xs: seq<Vec3>, k: real, swapped: bool)
    requires RoleOrders(oA, oB, oC) && |src| == 3 && |xs| == 3 && k >= 0.0
    requires NormalDirection(xs[0], xs[1], xs[2]) ==
      Scale(NormalDirection(src[oA], src[oB], src[oC]), if swapped then -k else k)
    ensures !swapped ==> SameOrientation(NormalDirection(xs[oA], xs[oB], xs[oC]), NormalDirection(src[0], src[1], src[2]))
    ensures swapped ==> SameOrientation(NormalDirection(xs[oB], xs[oA], xs[oC]), NormalDirection(src[0], src[1], src[2]))
  {
    var n := NormalDirection(src[0], src[1], src[2]);
    PermutedNormal(oA, oB, oC, src);
    PermutedNormal(oA, oB, oC, xs);
    var p := Parity(oA);
    assert p * p == 1.0;
    if swapped {
      calc {
        NormalDirection(xs[oB], xs[oA], xs[oC]);
        Scale(Scale(Scale(n, p), -k), -p);
        { ScaleScale(n, p, -k); ScaleScale(n, p * -k, -p); }
        Scale(n, p * -k * -p);
        { assert p * -k * -p == k * (p * p); }
        Scale(n, k);
      }
    } else {
      calc {
        NormalDirection(xs[oA], xs[oB], xs[oC]);
        Scale(Scale(Scale(n, p), k), p);
        { ScaleScale(n, p, k); ScaleScale(n, p * k, p); }
        Scale(n, p * k * p);
        { assert p * k * p == k * (p * p); }
        Scale(n, k);
      }
    }
    ScaledSameOrientation(n, k);
  }
}
