/** The vector and plane algebra of `include/3d_algebra.hpp`.
    Every `double` is an exact `real`: the model states what the epsilon logic
    does over exact arithmetic, not what IEEE rounding does to it. */
module Algebra {

  /** The absolute tolerance every approximate test uses. */
  const EPS: real := 0.0001

  /** A 3-component vector, a value (the source's `std::array<double, 3>`). */
  datatype Vec3 = Vec3(x: real, y: real, z: real)

  /** The implicit plane a*x + b*y + c*z + d == 0. */
  datatype Plane = Plane(a: real, b: real, c: real, d: real) {
    /** The plane's normal (a, b, c). */
    function N(): Vec3 { Vec3(a, b, c) }
  }

  /** The three vertices every routine of the core takes as `Vec3 tr[3]`. */
  datatype Tri = Tri(v0: Vec3, v1: Vec3, v2: Vec3)

  /** A coordinate axis; `Comp(v, k)` is the indexed access `v[k]`. */
  datatype Axis = X | Y | Z

  function Comp(v: Vec3, k: Axis): real {
    match k
    case X => v.x
    case Y => v.y
    case Z => v.z
  }

  function Abs(v: real): real { if v < 0.0 then -v else v }

  /** `std::max(a, b)`: `b` when `a < b`, else `a`. */
  function Max(a: real, b: real): real { if a < b then b else a }

  predicate IsZero(v: real) { v > -EPS && v < EPS }

  predicate Eq(v0: real, v1: real) { IsZero(v1 - v0) }

  function Add(l: Vec3, r: Vec3): Vec3 { Vec3(l.x + r.x, l.y + r.y, l.z + r.z) }

  function Sub(l: Vec3, r: Vec3): Vec3 { Vec3(l.x - r.x, l.y - r.y, l.z - r.z) }

  /** Both `operator*(Vec3, double)` and `operator*(double, Vec3)`. */
  function Scale(l: Vec3, s: real): Vec3 { Vec3(l.x * s, l.y * s, l.z * s) }

  function Neg(v: Vec3): Vec3 { Vec3(-v.x, -v.y, -v.z) }

  /** Vector `operator==`: component-wise approximate equality. */
  predicate VecEq(l: Vec3, r: Vec3) { Eq(l.x, r.x) && Eq(l.y, r.y) && Eq(l.z, r.z) }

  /** Vector `operator!=`. */
  predicate VecNe(l: Vec3, r: Vec3) { !VecEq(l, r) }

  predicate IsZeroVec(v: Vec3) { IsZero(v.x) && IsZero(v.y) && IsZero(v.z) }

  function Cross(l: Vec3, r: Vec3): Vec3 {
    Vec3(l.y * r.z - l.z * r.y, l.z * r.x - l.x * r.z, l.x * r.y - l.y * r.x)
  }

  function Dot(l: Vec3, r: Vec3): real { l.x * r.x + l.y * r.y + l.z * r.z }

  function SqrNorm(v: Vec3): real { v.x * v.x + v.y * v.y + v.z * v.z }

  const Zero: Vec3 := Vec3(0.0, 0.0, 0.0)

  /** The cross product of a triangle's edges (v1 - v0) and (v2 - v0): zero
      exactly when the three vertices are collinear. */
  function EdgeCross(t: Tri): Vec3 { Cross(Sub(t.v1, t.v0), Sub(t.v2, t.v0)) }

  /** `projCanon(Plane, Vec3)`: the point moved along the normal onto the plane.
      The source divides by the squared norm of the normal unguarded; here that
      division needs a non-zero normal. */
  function ProjCanon(to: Plane, v: Vec3): Vec3
    requires SqrNorm(to.N()) != 0.0
  {
    Sub(v, Scale(to.N(), (Dot(v, to.N()) + to.d) / SqrNorm(to.N())))
  }

  // ---------------------------------------------------------------------------
  // Laws of the approximate comparisons

  /** `isZero` is the open interval (-EPS, EPS), so it ignores the sign. */
  lemma IsZeroWindow(v: real)
    ensures IsZero(v) <==> Abs(v) < EPS
    ensures IsZero(-v) == IsZero(v)
  {
  }

  /** `eq` is symmetric ... */
  lemma EqSymmetric(a: real, b: real)
    ensures Eq(a, b) == Eq(b, a)
  {
  }

  /** ... but not transitive: three values EPS * 3/5 apart. */
  lemma EqNotTransitive()
    ensures Eq(0.0, 0.00006) && Eq(0.00006, 0.00012) && !Eq(0.0, 0.00012)
  {
  }

  /** Vector `==` is reflexive and symmetric, `!=` its negation, and `==`
      is "the difference is approximately the zero vector". */
  lemma VecEqLaws(l: Vec3, r: Vec3)
    ensures VecEq(l, l)
    ensures VecEq(l, r) == VecEq(r, l)
    ensures VecNe(l, r) == !VecEq(l, r)
    ensures VecEq(l, r) <==> IsZeroVec(Sub(r, l))
  {
  }

  /** `isZero(Vec3)` does not see the sign of the vector. */
  lemma IsZeroVecNeg(v: Vec3)
    ensures IsZeroVec(Neg(v)) == IsZeroVec(v)
    ensures IsZeroVec(Zero)
  {
  }

  // ---------------------------------------------------------------------------
  // Laws of the exact products

  /** The cross product is anti-commutative and vanishes on equal arguments. */
  lemma CrossAntiSymmetric(a: Vec3, b: Vec3)
    ensures Cross(a, b) == Neg(Cross(b, a))
    ensures Cross(a, a) == Zero
  {
  }

  /** The cross product is orthogonal to both of its arguments. */
  lemma CrossOrthogonal(a: Vec3, b: Vec3)
    ensures Dot(a, Cross(a, b)) == 0.0
    ensures Dot(b, Cross(a, b)) == 0.0
  {
    var c := Cross(a, b);
    assert a.x * c.x == a.x * a.y * b.z - a.x * a.z * b.y;
    assert a.y * c.y == a.y * a.z * b.x - a.y * a.x * b.z;
    assert a.z * c.z == a.z * a.x * b.y - a.z * a.y * b.x;
    assert b.x * c.x == b.x * a.y * b.z - b.x * a.z * b.y;
    assert b.y * c.y == b.y * a.z * b.x - b.y * a.x * b.z;
    assert b.z * c.z == b.z * a.x * b.y - b.z * a.y * b.x;
  }

  /** The dot product is symmetric, and `+`, `-`, `*` act axis by axis. */
  lemma ComponentWise(l: Vec3, r: Vec3, s: real, k: Axis)
    ensures Dot(l, r) == Dot(r, l)
    ensures Comp(Add(l, r), k) == Comp(l, k) + Comp(r, k)
    ensures Comp(Sub(l, r), k) == Comp(l, k) - Comp(r, k)
    ensures Comp(Scale(l, s), k) == Comp(l, k) * s
  {
  }

  /** Dot product against `v - s * n`, expanded. */
  lemma DotSubScale(v: Vec3, n: Vec3, s: real, m: Vec3)
    ensures Dot(Sub(v, Scale(n, s)), m) == Dot(v, m) - s * Dot(n, m)
  {
    assert (v.x - n.x * s) * m.x == v.x * m.x - s * (n.x * m.x);
    assert (v.y - n.y * s) * m.y == v.y * m.y - s * (n.y * m.y);
    assert (v.z - n.z * s) * m.z == v.z * m.z - s * (n.z * m.z);
  }

  /** With a non-zero normal, the projection lies exactly on the plane. */
  lemma ProjCanonOnPlane(to: Plane, v: Vec3)
    requires SqrNorm(to.N()) != 0.0
    ensures Dot(ProjCanon(to, v), to.N()) + to.d == 0.0
  {
    var n := to.N();
    var s := (Dot(v, n) + to.d) / SqrNorm(n);
    DotSubScale(v, n, s, n);
    assert Dot(n, n) == SqrNorm(n);
    assert s * SqrNorm(n) == Dot(v, n) + to.d;
  }

  /** A point already on the plane is its own projection. */
  lemma ProjCanonFixesPlanePoints(to: Plane, v: Vec3)
    requires SqrNorm(to.N()) != 0.0
    requires Dot(v, to.N()) + to.d == 0.0
    ensures ProjCanon(to, v) == v
  {
  }

  /** The cross product distributes over a difference on the left ... */
  lemma CrossSubLeft(p: Vec3, q: Vec3, b: Vec3)
    ensures Cross(Sub(p, q), b) == Sub(Cross(p, b), Cross(q, b))
  {
  }

  /** One component of a cross product with a scaled left argument. */
  lemma MinorScaled(p: real, q: real, r: real, s: real, t: real)
    ensures (p * t) * q - (r * t) * s == (p * q - r * s) * t
  {
  }

  /** ... and commutes with scaling on the left. */
  lemma CrossScaleLeft(a: Vec3, b: Vec3, t: real)
    ensures Cross(Scale(a, t), b) == Scale(Cross(a, b), t)
  {
    var l := Cross(Scale(a, t), b);
    var c := Cross(a, b);
    MinorScaled(a.y, b.z, a.z, b.y, t);
    assert l.x == c.x * t;
    MinorScaled(a.z, b.x, a.x, b.z, t);
    assert l.y == c.y * t;
    MinorScaled(a.x, b.y, a.y, b.x, t);
    assert l.z == c.z * t;
    assert l == Vec3(l.x, l.y, l.z);
  }

  /** `v * s` is parallel to `v`, exactly. */
  lemma CrossScaled(v: Vec3, s: real)
    ensures Cross(Scale(v, s), v) == Zero
    ensures Cross(v, Scale(v, s)) == Zero
  {
  }

  /** `(a * t - b * s) x b == (a x b) * t`, exactly. */
  lemma CrossOfShift(a: Vec3, b: Vec3, t: real, s: real)
    ensures Cross(Sub(Scale(a, t), Scale(b, s)), b) == Scale(Cross(a, b), t)
  {
    CrossSubLeft(Scale(a, t), Scale(b, s), b);
    CrossScaleLeft(a, b, t);
    CrossScaled(b, s);
  }

  /** The edge cross product seen from the corner v1 ... */
  lemma EdgeCrossAtSecondCorner(t: Tri)
    ensures Cross(Sub(t.v2, t.v1), Sub(t.v0, t.v1)) == EdgeCross(t)
  {
    var a := Sub(t.v2, t.v1);
    var b := Sub(t.v0, t.v1);
    var e := EdgeCross(t);
    assert a.y * b.z - a.z * b.y == e.x;
    assert a.z * b.x - a.x * b.z == e.y;
    assert a.x * b.y - a.y * b.x == e.z;
  }

  /** ... with the edges from v0 taken in the other order ... */
  lemma EdgeCrossSwapped(t: Tri)
    ensures Cross(Sub(t.v2, t.v0), Sub(t.v1, t.v0)) == Neg(EdgeCross(t))
  {
    CrossAntiSymmetric(Sub(t.v2, t.v0), Sub(t.v1, t.v0));
  }

  /** ... and with both edges pointing into v0. */
  lemma EdgeCrossReversedEdges(t: Tri)
    ensures Cross(Sub(t.v0, t.v1), Sub(t.v0, t.v2)) == EdgeCross(t)
  {
    var a := Sub(t.v0, t.v1);
    var b := Sub(t.v0, t.v2);
    var e := EdgeCross(t);
    assert a.y * b.z - a.z * b.y == e.x;
    assert a.z * b.x - a.x * b.z == e.y;
    assert a.x * b.y - a.y * b.x == e.z;
  }
}
