// Three-component vectors over the reals, standing in for the engine's FVector.
// Only the operations the water-physics code uses are defined here.

module Vectors {

  datatype Vec3 = Vec3(x: real, y: real, z: real)

  const Zero: Vec3 := Vec3(0.0, 0.0, 0.0)
  const UpVector: Vec3 := Vec3(0.0, 0.0, 1.0)

  function Add(a: Vec3, b: Vec3): Vec3 {
    Vec3(a.x + b.x, a.y + b.y, a.z + b.z)
  }

  function Sub(a: Vec3, b: Vec3): Vec3 {
    Vec3(a.x - b.x, a.y - b.y, a.z - b.z)
  }

  function Neg(a: Vec3): Vec3 {
    Vec3(-a.x, -a.y, -a.z)
  }

  function Scale(a: Vec3, k: real): Vec3 {
    Vec3(a.x * k, a.y * k, a.z * k)
  }

  function Dot(a: Vec3, b: Vec3): real {
    a.x * b.x + a.y * b.y + a.z * b.z
  }

  function Cross(a: Vec3, b: Vec3): Vec3 {
    Vec3(a.y * b.z - a.z * b.y, a.z * b.x - a.x * b.z, a.x * b.y - a.y * b.x)
  }

  /** The engine's FMath::Lerp: A + Alpha * (B - A). */
  function Lerp(a: Vec3, b: Vec3, alpha: real): Vec3 {
    Add(a, Scale(Sub(b, a), alpha))
  }

  function LerpReal(a: real, b: real, alpha: real): real {
    a + alpha * (b - a)
  }

  /** The engine's FVector::GetAbs. */
  function Abs(a: Vec3): Vec3 {
    Vec3(if a.x < 0.0 then -a.x else a.x, if a.y < 0.0 then -a.y else a.y, if a.z < 0.0 then -a.z else a.z)
  }

  /** Squared length; never negative. */
  function SizeSquared(a: Vec3): (r: real)
    ensures r >= 0.0
  {
    assert a.x * a.x >= 0.0 && a.y * a.y >= 0.0 && a.z * a.z >= 0.0;
    Dot(a, a)
  }

  /** Scaling twice is scaling by the product. */
  lemma ScaleScale(v: Vec3, a: real, b: real)
    ensures Scale(Scale(v, a), b) == Scale(v, a * b)
  {
  }

  /** The coordinates of a cross product. */
  lemma CrossCoords(l: Vec3, r: Vec3)
    ensures Cross(l, r).x == l.y * r.z - l.z * r.y && Cross(l, r).y == l.z * r.x - l.x * r.z &&
            Cross(l, r).z == l.x * r.y - l.y * r.x
  {
  }

  /** The coordinates of a scaled vector. */
  lemma ScaleCoords(v: Vec3, k: real)
    ensures Scale(v, k).x == v.x * k && Scale(v, k).y == v.y * k && Scale(v, k).z == v.z * k
  {
  }

  /** Vectors with equal components are equal. */
  lemma ComponentsEqual(p: Vec3, q: Vec3)
    requires p.x == q.x && p.y == q.y && p.z == q.z
    ensures p == q
  {
  }

  lemma CrossAntiSymmetric(a: Vec3, b: Vec3)
    ensures Cross(b, a) == Neg(Cross(a, b))
  {
  }

  lemma LerpEndpoints(a: Vec3, b: Vec3)
    ensures Lerp(a, b, 0.0) == a && Lerp(a, b, 1.0) == b
  {
  }

  /** FMath::Clamp: below the minimum gives the minimum, otherwise at most the maximum. */
  function Clamp(x: real, lo: real, hi: real): (r: real)
    ensures lo <= hi ==> lo <= r <= hi
    ensures lo <= x <= hi ==> r == x
  {
    if x < lo then lo else if x < hi then x else hi
  }

  /** FMath::Clamp on integers. */
  function ClampInt(x: int, lo: int, hi: int): (r: int)
    ensures lo <= hi ==> lo <= r <= hi
    ensures lo <= x <= hi ==> r == x
  {
    if x < lo then lo else if x < hi then x else hi
  }
}
