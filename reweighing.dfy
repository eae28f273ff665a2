/** `linearReWeighing` of `src/triangle_intersection.cpp`: each axis of the two
    records is rescaled, in place, so that its largest magnitude becomes 150,
    which keeps the fixed tolerance EPS meaningful at any input scale. */
module Reweighing {
  import opened Algebra

  /** The magnitude every axis is rescaled to. */
  const TARGET: real := 150.0

  /** The smallest weight ever applied. */
  const MIN_WEIGHT: real := 0.00001

  /** The nested `std::max` of the six magnitudes, in the source's order. */
  function MaxAbs(d0: real, d1: real, d2: real, d3: real, d4: real, d5: real): real {
    Max(Max(Max(Max(Max(Abs(d0), Abs(d1)), Abs(d2)), Abs(d3)), Abs(d4)), Abs(d5))
  }

  /** The weight for a largest magnitude `m`: 1 below EPS, otherwise 150 / m
      but never below 1e-5. */
  function Weight(m: real): real {
    if m < EPS then 1.0 else Max(TARGET / m, MIN_WEIGHT)
  }

  /** The largest magnitude along axis `k` over the six vertices. */
  function AxisMax(a: Tri, b: Tri, k: Axis): real {
    MaxAbs(Comp(a.v0, k), Comp(a.v1, k), Comp(a.v2, k), Comp(b.v0, k), Comp(b.v1, k), Comp(b.v2, k))
  }

  function AxisWeight(a: Tri, b: Tri, k: Axis): real { Weight(AxisMax(a, b, k)) }

  /** `v` with its component `k` multiplied by `w`. */
  function ScaleComp(v: Vec3, k: Axis, w: real): Vec3 {
    match k
    case X => Vec3(v.x * w, v.y, v.z)
    case Y => Vec3(v.x, v.y * w, v.z)
    case Z => Vec3(v.x, v.y, v.z * w)
  }

  function ScaleTriAxis(t: Tri, k: Axis, w: real): Tri {
    Tri(ScaleComp(t.v0, k, w), ScaleComp(t.v1, k, w), ScaleComp(t.v2, k, w))
  }

  /** The six-value overload applied to axis `k` of both records. */
  function ReWeighAxis(a: Tri, b: Tri, k: Axis): (Tri, Tri) {
    var w := AxisWeight(a, b, k);
    (ScaleTriAxis(a, k, w), ScaleTriAxis(b, k, w))
  }

  /** The two-record overload: axis x, then y, then z. */
  function ReWeighPair(a: Tri, b: Tri): (Tri, Tri) {
    var (ax, bx) := ReWeighAxis(a, b, X);
    var (ay, by_) := ReWeighAxis(ax, bx, Y);
    ReWeighAxis(ay, by_, Z)
  }

  // ---------------------------------------------------------------------------
  // The in-place form

  /** The record held by a three-element array of vertices. */
  function TriOf(arr: array<Vec3>): Tri
    requires arr.Length == 3
    reads arr
  {
    Tri(arr[0], arr[1], arr[2])
  }

  /** The six-reference overload: the six references are the `k` components
      of the two records' vertices. */
  method LinearReWeighingAxis(tr0: array<Vec3>, tr1: array<Vec3>, k: Axis)
    requires tr0.Length == 3 && tr1.Length == 3 && tr0 != tr1
    modifies tr0, tr1
    ensures (TriOf(tr0), TriOf(tr1)) == ReWeighAxis(old(TriOf(tr0)), old(TriOf(tr1)), k)
  {
    var m := MaxAbs(Comp(tr0[0], k), Comp(tr0[1], k), Comp(tr0[2], k), Comp(tr1[0], k), Comp(tr1[1], k), Comp(tr1[2], k));
    var weight := Weight(m);
    tr0[0] := ScaleComp(tr0[0], k, weight);
    tr0[1] := ScaleComp(tr0[1], k, weight);
    tr0[2] := ScaleComp(tr0[2], k, weight);
    tr1[0] := ScaleComp(tr1[0], k, weight);
    tr1[1] := ScaleComp(tr1[1], k, weight);
    tr1[2] := ScaleComp(tr1[2], k, weight);
  }

  /** The two-record overload, in place. */
  method LinearReWeighing(tr0: array<Vec3>, tr1: array<Vec3>)
    requires tr0.Length == 3 && tr1.Length == 3 && tr0 != tr1
    modifies tr0, tr1
    ensures (TriOf(tr0), TriOf(tr1)) == ReWeighPair(old(TriOf(tr0)), old(TriOf(tr1)))
  {
    LinearReWeighingAxis(tr0, tr1, X);
    LinearReWeighingAxis(tr0, tr1, Y);
    LinearReWeighingAxis(tr0, tr1, Z);
  }

  // ---------------------------------------------------------------------------
  // Properties

  /** `MaxAbs` is the largest of the six magnitudes. */
  lemma MaxAbsIsLargest(d0: real, d1: real, d2: real, d3: real, d4: real, d5: real)
    ensures var m := MaxAbs(d0, d1, d2, d3, d4, d5);
            && m >= Abs(d0) && m >= Abs(d1) && m >= Abs(d2) && m >= Abs(d3) && m >= Abs(d4) && m >= Abs(d5)
            && (m == Abs(d0) || m == Abs(d1) || m == Abs(d2) || m == Abs(d3) || m == Abs(d4) || m == Abs(d5))
  {
  }

  /** The weight is positive, 1 below EPS, and brings the largest magnitude
      to exactly 150 up to a largest magnitude of 1.5e7, beyond which it is
      1e-5. */
  lemma WeightValue(m: real)
    requires m >= 0.0
    ensures Weight(m) > 0.0
    ensures m < EPS ==> Weight(m) == 1.0
    ensures EPS <= m <= TARGET / MIN_WEIGHT ==> m * Weight(m) == TARGET
    ensures m > TARGET / MIN_WEIGHT ==> Weight(m) == MIN_WEIGHT
  {
    if EPS <= m {
      assert m * (TARGET / m) == TARGET;
      if m <= TARGET / MIN_WEIGHT {
        assert TARGET / m >= MIN_WEIGHT by {
          assert TARGET <= MIN_WEIGHT * (TARGET / MIN_WEIGHT);
          assert TARGET / m * m == TARGET;
        }
      } else {
        assert TARGET < MIN_WEIGHT * m;
        assert TARGET / m < MIN_WEIGHT;
      }
    }
  }

  /** Component-wise product. */
  function Mul(v: Vec3, w: Vec3): Vec3 { Vec3(v.x * w.x, v.y * w.y, v.z * w.z) }

  function MulTri(t: Tri, w: Vec3): Tri { Tri(Mul(t.v0, w), Mul(t.v1, w), Mul(t.v2, w)) }

  /** The three weights, each computed from the original records. */
  function Weights(a: Tri, b: Tri): Vec3 {
    Vec3(AxisWeight(a, b, X), AxisWeight(a, b, Y), AxisWeight(a, b, Z))
  }

  /** Rescaling one axis leaves the other axes' components alone. */
  lemma ScaleCompOtherAxes(v: Vec3, k: Axis, w: real, j: Axis)
    ensures Comp(ScaleComp(v, k, w), j) == if j == k then Comp(v, j) * w else Comp(v, j)
  {
  }

  lemma AxisMaxUntouched(a: Tri, b: Tri, k: Axis, w: real, j: Axis)
    requires j != k
    ensures AxisMax(ScaleTriAxis(a, k, w), ScaleTriAxis(b, k, w), j) == AxisMax(a, b, j)
  {
    ScaleCompOtherAxes(a.v0, k, w, j);
    ScaleCompOtherAxes(a.v1, k, w, j);
    ScaleCompOtherAxes(a.v2, k, w, j);
    ScaleCompOtherAxes(b.v0, k, w, j);
    ScaleCompOtherAxes(b.v1, k, w, j);
    ScaleCompOtherAxes(b.v2, k, w, j);
  }

  /** Rescaling x, then y, then z multiplies component-wise. */
  lemma ScaleThreeAxes(t: Tri, w: Vec3)
    ensures ScaleTriAxis(ScaleTriAxis(ScaleTriAxis(t, X, w.x), Y, w.y), Z, w.z) == MulTri(t, w)
  {
  }

  /** Although the axes are processed one after the other, each weight depends
      only on its own axis of the original records: the result multiplies
      every coordinate by its axis's weight. */
  lemma ReWeighPairPerAxis(a: Tri, b: Tri)
    ensures ReWeighPair(a, b) == (MulTri(a, Weights(a, b)), MulTri(b, Weights(a, b)))
  {
    var w := Weights(a, b);
    var ax := ScaleTriAxis(a, X, w.x);
    var bx := ScaleTriAxis(b, X, w.x);
    assert ReWeighAxis(a, b, X) == (ax, bx);
    AxisMaxUntouched(a, b, X, w.x, Y);
    AxisMaxUntouched(a, b, X, w.x, Z);
    var ay := ScaleTriAxis(ax, Y, w.y);
    var by_ := ScaleTriAxis(bx, Y, w.y);
    assert ReWeighAxis(ax, bx, Y) == (ay, by_);
    AxisMaxUntouched(ax, bx, Y, w.y, Z);
    assert ReWeighAxis(ay, by_, Z) == (ScaleTriAxis(ay, Z, w.z), ScaleTriAxis(by_, Z, w.z));
    ScaleThreeAxes(a, w);
    ScaleThreeAxes(b, w);
  }

  /** Every weight is positive. */
  lemma WeightsPositive(a: Tri, b: Tri)
    ensures Weights(a, b).x > 0.0 && Weights(a, b).y > 0.0 && Weights(a, b).z > 0.0
  {
    MaxAbsIsLargest(a.v0.x, a.v1.x, a.v2.x, b.v0.x, b.v1.x, b.v2.x);
    MaxAbsIsLargest(a.v0.y, a.v1.y, a.v2.y, b.v0.y, b.v1.y, b.v2.y);
    MaxAbsIsLargest(a.v0.z, a.v1.z, a.v2.z, b.v0.z, b.v1.z, b.v2.z);
    WeightValue(AxisMax(a, b, X));
    WeightValue(AxisMax(a, b, Y));
    WeightValue(AxisMax(a, b, Z));
  }

  /** `|x * w| == |x| * w` for a positive `w`. */
  lemma AbsScaled(x: real, w: real)
    requires w > 0.0
    ensures Abs(x * w) == Abs(x) * w
  {
    if x < 0.0 {
      assert x * w < 0.0;
    } else {
      assert x * w >= 0.0;
    }
  }

  /** One coordinate after reweighing with the weight `w` of a largest
      magnitude `m`: at most `m * w`, and exactly that when it was the
      largest. */
  lemma ScaledMagnitude(c: real, m: real, w: real)
    requires w > 0.0 && Abs(c) <= m
    ensures Abs(c * w) <= m * w
    ensures Abs(c) == m ==> Abs(c * w) == m * w
  {
    AbsScaled(c, w);
    assert Abs(c) * w <= m * w;
  }

  /** Every coordinate along `k` is within `bound` in magnitude. */
  predicate AxisWithin(a: Tri, b: Tri, k: Axis, bound: real) {
    && Abs(Comp(a.v0, k)) <= bound && Abs(Comp(a.v1, k)) <= bound && Abs(Comp(a.v2, k)) <= bound
    && Abs(Comp(b.v0, k)) <= bound && Abs(Comp(b.v1, k)) <= bound && Abs(Comp(b.v2, k)) <= bound
  }

  /** Some coordinate along `k` has magnitude `bound`. */
  predicate AxisReaches(a: Tri, b: Tri, k: Axis, bound: real) {
    || Abs(Comp(a.v0, k)) == bound || Abs(Comp(a.v1, k)) == bound || Abs(Comp(a.v2, k)) == bound
    || Abs(Comp(b.v0, k)) == bound || Abs(Comp(b.v1, k)) == bound || Abs(Comp(b.v2, k)) == bound
  }

  /** The largest magnitude along `k` bounds every coordinate and is reached. */
  lemma AxisMaxIsLargest(a: Tri, b: Tri, k: Axis)
    ensures AxisWithin(a, b, k, AxisMax(a, b, k))
    ensures AxisReaches(a, b, k, AxisMax(a, b, k))
  {
    MaxAbsIsLargest(Comp(a.v0, k), Comp(a.v1, k), Comp(a.v2, k), Comp(b.v0, k), Comp(b.v1, k), Comp(b.v2, k));
  }

  /** Axis `k` of a component-wise product. */
  lemma MulTriAxis(t: Tri, w: Vec3, k: Axis)
    ensures Comp(MulTri(t, w).v0, k) == Comp(t.v0, k) * Comp(w, k)
    ensures Comp(MulTri(t, w).v1, k) == Comp(t.v1, k) * Comp(w, k)
    ensures Comp(MulTri(t, w).v2, k) == Comp(t.v2, k) * Comp(w, k)
  {
  }

  /** `y == x * w` for a positive `w`: a bound `m` on `|x|` becomes `m * w`
      on `|y|`, reached when `|x|` reaches `m`. */
  lemma ScaledBound(x: real, y: real, w: real, m: real)
    requires w > 0.0 && y == x * w && Abs(x) <= m
    ensures Abs(y) <= m * w
    ensures Abs(x) == m ==> Abs(y) == m * w
  {
    ScaledMagnitude(x, m, w);
  }

  /** Records `a2`, `b2` whose axis `k` is that of `a`, `b` times a positive
      `w`: a bound `m` becomes `m * w`, and a reached `m` a reached `m * w`. */
  lemma ScaledAxisBounds(a: Tri, b: Tri, a2: Tri, b2: Tri, k: Axis, w: real, m: real)
    requires w > 0.0
    requires AxisWithin(a, b, k, m)
    requires Comp(a2.v0, k) == Comp(a.v0, k) * w && Comp(a2.v1, k) == Comp(a.v1, k) * w
    requires Comp(a2.v2, k) == Comp(a.v2, k) * w && Comp(b2.v0, k) == Comp(b.v0, k) * w
    requires Comp(b2.v1, k) == Comp(b.v1, k) * w && Comp(b2.v2, k) == Comp(b.v2, k) * w
    ensures AxisWithin(a2, b2, k, m * w)
    ensures AxisReaches(a, b, k, m) ==> AxisReaches(a2, b2, k, m * w)
  {
    ScaledBound(Comp(a.v0, k), Comp(a2.v0, k), w, m);
    ScaledBound(Comp(a.v1, k), Comp(a2.v1, k), w, m);
    ScaledBound(Comp(a.v2, k), Comp(a2.v2, k), w, m);
    ScaledBound(Comp(b.v0, k), Comp(b2.v0, k), w, m);
    ScaledBound(Comp(b.v1, k), Comp(b2.v1, k), w, m);
    ScaledBound(Comp(b.v2, k), Comp(b2.v2, k), w, m);
  }

  lemma WeightsComp(a: Tri, b: Tri, k: Axis)
    ensures Comp(Weights(a, b), k) == AxisWeight(a, b, k)
  {
  }

  /** Records `a2`, `b2` whose axis `k` is that of `a`, `b` times a `w` that
      takes their largest magnitude `m` to 150. */
  lemma AxisToTarget(a: Tri, b: Tri, a2: Tri, b2: Tri, k: Axis, w: real, m: real)
    requires w > 0.0 && m * w == TARGET
    requires AxisWithin(a, b, k, m) && AxisReaches(a, b, k, m)
    requires Comp(a2.v0, k) == Comp(a.v0, k) * w && Comp(a2.v1, k) == Comp(a.v1, k) * w
    requires Comp(a2.v2, k) == Comp(a.v2, k) * w && Comp(b2.v0, k) == Comp(b.v0, k) * w
    requires Comp(b2.v1, k) == Comp(b.v1, k) * w && Comp(b2.v2, k) == Comp(b.v2, k) * w
    ensures AxisWithin(a2, b2, k, TARGET) && AxisReaches(a2, b2, k, TARGET)
  {
    ScaledAxisBounds(a, b, a2, b2, k, w, m);
  }

  /** In the range from EPS up to 1.5e7 the weight of axis `k` is positive and
      takes its largest magnitude to 150. */
  lemma AxisWeightToTarget(a: Tri, b: Tri, k: Axis)
    requires EPS <= AxisMax(a, b, k) <= TARGET / MIN_WEIGHT
    ensures AxisWeight(a, b, k) > 0.0 && AxisMax(a, b, k) * AxisWeight(a, b, k) == TARGET
    ensures AxisWithin(a, b, k, AxisMax(a, b, k)) && AxisReaches(a, b, k, AxisMax(a, b, k))
  {
    WeightValue(AxisMax(a, b, k));
    AxisMaxIsLargest(a, b, k);
  }

  /** Multiplying by `w` an axis whose largest magnitude `m` has `m * w == 150`. */
  lemma MulTriToTarget(a: Tri, b: Tri, k: Axis, w: Vec3, m: real)
    requires Comp(w, k) > 0.0 && m * Comp(w, k) == TARGET
    requires AxisWithin(a, b, k, m) && AxisReaches(a, b, k, m)
    ensures AxisWithin(MulTri(a, w), MulTri(b, w), k, TARGET)
    ensures AxisReaches(MulTri(a, w), MulTri(b, w), k, TARGET)
  {
    MulTriAxis(a, w, k);
    MulTriAxis(b, w, k);
    AxisToTarget(a, b, MulTri(a, w), MulTri(b, w), k, Comp(w, k), m);
  }

  /** Multiplying axis `k` by its weight brings the largest magnitude along
      `k` to 150 when it is from EPS up to 1.5e7. */
  lemma WeightedAxisMax(a: Tri, b: Tri, k: Axis, w: Vec3)
    requires Comp(w, k) == AxisWeight(a, b, k)
    ensures EPS <= AxisMax(a, b, k) <= TARGET / MIN_WEIGHT ==>
              && AxisWithin(MulTri(a, w), MulTri(b, w), k, TARGET)
              && AxisReaches(MulTri(a, w), MulTri(b, w), k, TARGET)
  {
    if EPS <= AxisMax(a, b, k) <= TARGET / MIN_WEIGHT {
      AxisWeightToTarget(a, b, k);
      MulTriToTarget(a, b, k, w, AxisMax(a, b, k));
    }
  }

  /** Where the largest magnitude along axis `k` is from EPS up to 1.5e7,
      reweighing brings it to exactly 150: every coordinate along `k` ends
      within 150 in magnitude and one of them at 150. Below EPS the weight is 1. */
  lemma ReWeighedAxisMax(a: Tri, b: Tri, k: Axis)
    ensures AxisMax(a, b, k) < EPS ==> AxisWeight(a, b, k) == 1.0
    ensures EPS <= AxisMax(a, b, k) <= TARGET / MIN_WEIGHT ==>
              && AxisWithin(ReWeighPair(a, b).0, ReWeighPair(a, b).1, k, TARGET)
              && AxisReaches(ReWeighPair(a, b).0, ReWeighPair(a, b).1, k, TARGET)
  {
    ReWeighPairPerAxis(a, b);
    WeightsComp(a, b, k);
    WeightedAxisMax(a, b, k, Weights(a, b));
  }

  // ---------------------------------------------------------------------------
  // Order of the records and scale of the input

  /** A bound that is reached is the largest magnitude. */
  lemma AxisMaxUnique(a: Tri, b: Tri, k: Axis, m: real)
    requires AxisWithin(a, b, k, m) && AxisReaches(a, b, k, m)
    ensures AxisMax(a, b, k) == m
  {
    AxisMaxIsLargest(a, b, k);
  }

  /** Swapping the records does not change any axis's largest magnitude. */
  lemma AxisMaxSwap(a: Tri, b: Tri, k: Axis)
    ensures AxisMax(b, a, k) == AxisMax(a, b, k)
  {
    AxisMaxIsLargest(a, b, k);
    AxisMaxUnique(b, a, k, AxisMax(a, b, k));
  }

  /** Reweighing does not depend on which record comes first. */
  lemma ReWeighPairSwap(a: Tri, b: Tri)
    ensures ReWeighPair(b, a) == (ReWeighPair(a, b).1, ReWeighPair(a, b).0)
  {
    AxisMaxSwap(a, b, X);
    AxisMaxSwap(a, b, Y);
    AxisMaxSwap(a, b, Z);
    assert Weights(b, a) == Weights(a, b);
    ReWeighPairPerAxis(a, b);
    ReWeighPairPerAxis(b, a);
  }

  /** All three vertices multiplied by `s`. */
  function ScaleTri(t: Tri, s: real): Tri { Tri(Scale(t.v0, s), Scale(t.v1, s), Scale(t.v2, s)) }

  /** Comp of a scaled record. */
  lemma ScaleTriAxisComps(t: Tri, s: real, k: Axis)
    ensures Comp(ScaleTri(t, s).v0, k) == Comp(t.v0, k) * s
    ensures Comp(ScaleTri(t, s).v1, k) == Comp(t.v1, k) * s
    ensures Comp(ScaleTri(t, s).v2, k) == Comp(t.v2, k) * s
  {
    ComponentWise(t.v0, t.v0, s, k);
    ComponentWise(t.v1, t.v1, s, k);
    ComponentWise(t.v2, t.v2, s, k);
  }

  /** Multiplying the records by a positive `s` multiplies every axis's
      largest magnitude by `s`. */
  lemma AxisMaxScaled(a: Tri, b: Tri, k: Axis, s: real)
    requires s > 0.0
    ensures AxisMax(ScaleTri(a, s), ScaleTri(b, s), k) == AxisMax(a, b, k) * s
  {
    AxisMaxIsLargest(a, b, k);
    ScaledRecordBounds(a, b, k, s, AxisMax(a, b, k));
    AxisMaxUnique(ScaleTri(a, s), ScaleTri(b, s), k, AxisMax(a, b, k) * s);
  }

  lemma ScaledRecordBounds(a: Tri, b: Tri, k: Axis, s: real, m: real)
    requires s > 0.0 && AxisWithin(a, b, k, m) && AxisReaches(a, b, k, m)
    ensures AxisWithin(ScaleTri(a, s), ScaleTri(b, s), k, m * s)
    ensures AxisReaches(ScaleTri(a, s), ScaleTri(b, s), k, m * s)
  {
    ScaleTriAxisComps(a, s, k);
    ScaleTriAxisComps(b, s, k);
    ScaledAxisBounds(a, b, ScaleTri(a, s), ScaleTri(b, s), k, s, m);
  }

  /** In range, the weight of `m * s` is the weight of `m` divided by `s`. */
  lemma WeightOfScaled(c: real, s: real, m: real)
    requires s > 0.0 && EPS <= m <= TARGET / MIN_WEIGHT && EPS <= m * s <= TARGET / MIN_WEIGHT
    ensures (c * s) * Weight(m * s) == c * Weight(m)
  {
    WeightValue(m);
    WeightValue(m * s);
    var w1 := Weight(m);
    var w2 := Weight(m * s);
    assert m * (s * w2) == m * w1 by {
      assert m * (s * w2) == (m * s) * w2;
    }
    assert s * w2 == w1;
    assert (c * s) * w2 == c * (s * w2);
  }

  /** The condition under which rescaling the input by `s` leaves axis `k`'s
      reweighing unchanged: the axis is all zeros, or its largest magnitude is
      from EPS up to 1.5e7 both before and after rescaling. */
  predicate ScaleInvariantAxis(a: Tri, b: Tri, k: Axis, s: real) {
    InvariantRange(AxisMax(a, b, k), s)
  }

  /** `m` is zero, or `m` and `m * s` both lie from EPS up to 1.5e7. */
  predicate InvariantRange(m: real, s: real) {
    m == 0.0 || (EPS <= m <= TARGET / MIN_WEIGHT && EPS <= m * s <= TARGET / MIN_WEIGHT)
  }

  /** In range, rescaling by `s` divides the weight by `s`. */
  lemma WeightOfScaledAxis(m: real, s: real)
    requires s > 0.0 && m != 0.0 && InvariantRange(m, s)
    ensures s * Weight(m * s) == Weight(m)
  {
    WeightOfScaled(1.0, s, m);
  }

  lemma MulComp(u: Vec3, w: Vec3, k: Axis)
    ensures Comp(Mul(u, w), k) == Comp(u, k) * Comp(w, k)
  {
  }

  /** One vertex: axis `k` multiplied by `w`, against axis `k` rescaled by
      `s` and multiplied by `ws`, where `s * ws` is `w` unless the axis is all
      zeros. */
  lemma VertexScaleInvariant(v: Vec3, v2: Vec3, k: Axis, s: real, m: real, w: Vec3, ws: Vec3)
    requires Comp(v2, k) == Comp(v, k) * s
    requires Abs(Comp(v, k)) <= m && (m == 0.0 || s * Comp(ws, k) == Comp(w, k))
    ensures Comp(Mul(v2, ws), k) == Comp(Mul(v, w), k)
  {
    MulComp(v2, ws, k);
    MulComp(v, w, k);
    var c := Comp(v, k);
    var cw := Comp(w, k);
    var cws := Comp(ws, k);
    assert (c * s) * cws == c * cw by {
      if m == 0.0 {
        assert c == 0.0;
      } else {
        assert (c * s) * cws == c * (s * cws);
      }
    }
  }

  /** Axis `k` of `a`, `b` multiplied by `w`, against axis `k` of the records
      rescaled by `s` multiplied by `ws`. */
  lemma MulTriScaleInvariant(a: Tri, b: Tri, a2: Tri, b2: Tri, k: Axis, s: real, m: real, w: Vec3, ws: Vec3)
    requires AxisScaled(a, b, a2, b2, k, s)
    requires AxisWithin(a, b, k, m) && (m == 0.0 || s * Comp(ws, k) == Comp(w, k))
    ensures AxisValuesEqual(MulTri(a2, ws), MulTri(b2, ws), MulTri(a, w), MulTri(b, w), k)
  {
    VertexScaleInvariant(a.v0, a2.v0, k, s, m, w, ws);
    VertexScaleInvariant(a.v1, a2.v1, k, s, m, w, ws);
    VertexScaleInvariant(a.v2, a2.v2, k, s, m, w, ws);
    VertexScaleInvariant(b.v0, b2.v0, k, s, m, w, ws);
    VertexScaleInvariant(b.v1, b2.v1, k, s, m, w, ws);
    VertexScaleInvariant(b.v2, b2.v2, k, s, m, w, ws);
  }

  /** The weights `w` of `m` and `ws` of `ms == m * s`: `s * ws == w`. */
  lemma WeightPairScaled(m: real, ms: real, s: real, w: real, ws: real)
    requires s > 0.0 && m != 0.0 && InvariantRange(m, s) && ms == m * s
    requires w == Weight(m) && ws == Weight(ms)
    ensures s * ws == w
  {
    WeightOfScaledAxis(m, s);
  }

  /** Axis `k` of `a2`, `b2` is axis `k` of `a`, `b` times `s`. */
  predicate AxisScaled(a: Tri, b: Tri, a2: Tri, b2: Tri, k: Axis, s: real) {
    && Comp(a2.v0, k) == Comp(a.v0, k) * s && Comp(a2.v1, k) == Comp(a.v1, k) * s
    && Comp(a2.v2, k) == Comp(a.v2, k) * s && Comp(b2.v0, k) == Comp(b.v0, k) * s
    && Comp(b2.v1, k) == Comp(b.v1, k) * s && Comp(b2.v2, k) == Comp(b.v2, k) * s
  }

  /** Axis `k` of `a2`, `b2`, which is axis `k` of `a`, `b` times `s`,
      multiplied by the weight `ws` of its largest magnitude `ms == m * s`, is
      axis `k` of `a`, `b` multiplied by the weight `w` of `m`. */
  lemma ScaledAxisValues(a: Tri, b: Tri, a2: Tri, b2: Tri, k: Axis, s: real, m: real, ms: real, w: Vec3, ws: Vec3)
    requires s > 0.0 && AxisScaled(a, b, a2, b2, k, s) && AxisWithin(a, b, k, m)
    requires InvariantRange(m, s) && ms == m * s
    requires Comp(w, k) == Weight(m) && Comp(ws, k) == Weight(ms)
    ensures AxisValuesEqual(MulTri(a2, ws), MulTri(b2, ws), MulTri(a, w), MulTri(b, w), k)
  {
    if m != 0.0 {
      WeightPairScaled(m, ms, s, Comp(w, k), Comp(ws, k));
    }
    MulTriScaleInvariant(a, b, a2, b2, k, s, m, w, ws);
  }

  /** The six coordinates along `k` agree. */
  predicate AxisValuesEqual(a: Tri, b: Tri, a2: Tri, b2: Tri, k: Axis) {
    && Comp(a.v0, k) == Comp(a2.v0, k) && Comp(a.v1, k) == Comp(a2.v1, k) && Comp(a.v2, k) == Comp(a2.v2, k)
    && Comp(b.v0, k) == Comp(b2.v0, k) && Comp(b.v1, k) == Comp(b2.v1, k) && Comp(b.v2, k) == Comp(b2.v2, k)
  }

  /** Records that agree on every axis are equal. */
  lemma EqualOnAllAxes(a: Tri, b: Tri, a2: Tri, b2: Tri)
    requires AxisValuesEqual(a, b, a2, b2, X) && AxisValuesEqual(a, b, a2, b2, Y) && AxisValuesEqual(a, b, a2, b2, Z)
    ensures a == a2 && b == b2
  {
  }

  /** A magnitude that bounds axis `k` and is reached there is unique. */
  lemma BoundReachedUnique(a: Tri, b: Tri, k: Axis, m1: real, m2: real)
    requires AxisWithin(a, b, k, m1) && AxisReaches(a, b, k, m1)
    requires AxisWithin(a, b, k, m2) && AxisReaches(a, b, k, m2)
    ensures m1 == m2
  {
  }

  /** Records `a2`, `b2` whose axis `k` is that of `a`, `b` times `s`: the
      largest magnitude `ms` of theirs is `s` times the largest magnitude `m`
      of `a`, `b`. */
  lemma ScaledLargest(a: Tri, b: Tri, a2: Tri, b2: Tri, k: Axis, s: real, m: real, ms: real)
    requires s > 0.0 && AxisScaled(a, b, a2, b2, k, s)
    requires AxisWithin(a, b, k, m) && AxisReaches(a, b, k, m)
    requires AxisWithin(a2, b2, k, ms) && AxisReaches(a2, b2, k, ms)
    ensures ms == m * s
  {
    ScaledAxisBounds(a, b, a2, b2, k, s, m);
    BoundReachedUnique(a2, b2, k, ms, m * s);
  }

  /** One axis of the rescaling argument, with the largest magnitudes `m`
      and `ms` and their weights given. */
  lemma AxisScaleInvariant(a: Tri, b: Tri, a2: Tri, b2: Tri, k: Axis, s: real, m: real, ms: real, w: Vec3, ws: Vec3)
    requires s > 0.0 && AxisScaled(a, b, a2, b2, k, s)
    requires AxisWithin(a, b, k, m) && AxisReaches(a, b, k, m)
    requires AxisWithin(a2, b2, k, ms) && AxisReaches(a2, b2, k, ms)
    requires InvariantRange(m, s) && Comp(w, k) == Weight(m) && Comp(ws, k) == Weight(ms)
    ensures AxisValuesEqual(MulTri(a2, ws), MulTri(b2, ws), MulTri(a, w), MulTri(b, w), k)
  {
    ScaledLargest(a, b, a2, b2, k, s, m, ms);
    ScaledAxisValues(a, b, a2, b2, k, s, m, ms, w, ws);
  }

  /** Records `a2`, `b2` that are `a`, `b` rescaled by `s` on every axis,
      multiplied by their own weights, equal `a`, `b` multiplied by theirs. */
  lemma WeightedScaleInvariant(a: Tri, b: Tri, a2: Tri, b2: Tri, s: real, w: Vec3, ws: Vec3)
    requires s > 0.0
    requires AxisScaled(a, b, a2, b2, X, s) && AxisScaled(a, b, a2, b2, Y, s) && AxisScaled(a, b, a2, b2, Z, s)
    requires ScaleInvariantAxis(a, b, X, s) && ScaleInvariantAxis(a, b, Y, s) && ScaleInvariantAxis(a, b, Z, s)
    requires w == Weights(a, b) && ws == Weights(a2, b2)
    ensures MulTri(a2, ws) == MulTri(a, w) && MulTri(b2, ws) == MulTri(b, w)
  {
    WeightsComp(a, b, X);
    WeightsComp(a2, b2, X);
    AxisMaxIsLargest(a, b, X);
    AxisMaxIsLargest(a2, b2, X);
    AxisScaleInvariant(a, b, a2, b2, X, s, AxisMax(a, b, X), AxisMax(a2, b2, X), w, ws);
    WeightsComp(a, b, Y);
    WeightsComp(a2, b2, Y);
    AxisMaxIsLargest(a, b, Y);
    AxisMaxIsLargest(a2, b2, Y);
    AxisScaleInvariant(a, b, a2, b2, Y, s, AxisMax(a, b, Y), AxisMax(a2, b2, Y), w, ws);
    WeightsComp(a, b, Z);
    WeightsComp(a2, b2, Z);
    AxisMaxIsLargest(a, b, Z);
    AxisMaxIsLargest(a2, b2, Z);
    AxisScaleInvariant(a, b, a2, b2, Z, s, AxisMax(a, b, Z), AxisMax(a2, b2, Z), w, ws);
    EqualOnAllAxes(MulTri(a2, ws), MulTri(b2, ws), MulTri(a, w), MulTri(b, w));
  }

  /** Scale stability: rescaling both records by a positive `s` changes
      nothing after reweighing, on every axis that is all zeros or whose
      largest magnitude stays from EPS up to 1.5e7. */
  lemma ReWeighPairScaleInvariant(a: Tri, b: Tri, s: real)
    requires s > 0.0
    requires ScaleInvariantAxis(a, b, X, s) && ScaleInvariantAxis(a, b, Y, s) && ScaleInvariantAxis(a, b, Z, s)
    ensures ReWeighPair(ScaleTri(a, s), ScaleTri(b, s)) == ReWeighPair(a, b)
  {
    var sa := ScaleTri(a, s);
    var sb := ScaleTri(b, s);
    ReWeighPairPerAxis(a, b);
    ReWeighPairPerAxis(sa, sb);
    ScaleTriAxisComps(a, s, X);
    ScaleTriAxisComps(b, s, X);
    ScaleTriAxisComps(a, s, Y);
    ScaleTriAxisComps(b, s, Y);
    ScaleTriAxisComps(a, s, Z);
    ScaleTriAxisComps(b, s, Z);
    WeightedScaleInvariant(a, b, sa, sb, s, Weights(a, b), Weights(sa, sb));
  }

  /** Weighting multiplies a difference axis by axis. */
  lemma SubWeighted(u: Vec3, v: Vec3, w: Vec3)
    ensures Sub(Mul(u, w), Mul(v, w)) == Mul(Sub(u, v), w)
  {
    assert u.x * w.x - v.x * w.x == (u.x - v.x) * w.x;
    assert u.y * w.y - v.y * w.y == (u.y - v.y) * w.y;
    assert u.z * w.z - v.z * w.z == (u.z - v.z) * w.z;
  }

  /** One component of a weighted cross product, regrouped. */
  lemma WeightedMinor(p: real, q: real, r: real, s: real, u: real, v: real)
    ensures (p * u) * (q * v) - (r * v) * (s * u) == (p * q - r * s) * (u * v)
  {
  }

  /** Weighting both arguments multiplies each axis of the cross product by
      the product of the two other weights. */
  lemma CrossWeighted(a: Vec3, b: Vec3, w: Vec3)
    ensures Cross(Mul(a, w), Mul(b, w)) == Mul(Cross(a, b), Vec3(w.y * w.z, w.z * w.x, w.x * w.y))
  {
    var l := Cross(Mul(a, w), Mul(b, w));
    var c := Cross(a, b);
    WeightedMinor(a.y, b.z, a.z, b.y, w.y, w.z);
    assert l.x == c.x * (w.y * w.z);
    WeightedMinor(a.z, b.x, a.x, b.z, w.z, w.x);
    assert l.y == c.y * (w.z * w.x);
    WeightedMinor(a.x, b.y, a.y, b.x, w.x, w.y);
    assert l.z == c.z * (w.x * w.y);
    assert l == Vec3(l.x, l.y, l.z);
  }

  /** The edge cross product of a weighted record, and so: a record whose
      vertices are exactly collinear stays collinear after reweighing. */
  lemma EdgeCrossWeighted(t: Tri, w: Vec3)
    ensures EdgeCross(MulTri(t, w)) == Mul(EdgeCross(t), Vec3(w.y * w.z, w.z * w.x, w.x * w.y))
    ensures EdgeCross(t) == Zero ==> EdgeCross(MulTri(t, w)) == Zero
  {
    SubWeighted(t.v1, t.v0, w);
    SubWeighted(t.v2, t.v0, w);
    CrossWeighted(Sub(t.v1, t.v0), Sub(t.v2, t.v0), w);
  }
}
