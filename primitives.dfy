/** The primitive intersection tests of `src/triangle_intersection_private.cpp`:
    segment/point, segment/segment, triangle/point, triangle/segment and
    triangle/triangle, each an epsilon-tolerant boolean test. */
module Primitives {
  import opened Algebra

  datatype Option<T> = None | Some(value: T)

  predicate IsParallel(a: Vec3, b: Vec3) { IsZeroVec(Cross(a, b)) }

  /** True when the divisor `getFactorOfParallelVectors` picks is not exactly
      zero: it divides by `b.x` or `b.y` when they are not approximately zero,
      and by `b.z` otherwise, even when `b.z` is zero. */
  predicate HasFactorDivisor(b: Vec3) { !IsZero(b.x) || !IsZero(b.y) || b.z != 0.0 }

  /** The ratio `a / b` of two parallel vectors, read off the first axis whose
      component of `b` is not approximately zero. */
  function FactorOfParallelVectors(a: Vec3, b: Vec3): real
    requires HasFactorDivisor(b)
  {
    if !IsZero(b.x) then a.x / b.x
    else if !IsZero(b.y) then a.y / b.y
    else a.z / b.z
  }

  /** Does `p0` lie on the same side of the line (tr1, tr2) as `tr0`?  A zero
      cross product ("on the line") counts as the same side. The source repeats
      the parallelism test; the repetition changes nothing. */
  predicate SameSide(p0: Vec3, tr0: Vec3, tr1: Vec3, tr2: Vec3) {
    var v0 := Cross(Sub(tr2, tr1), Sub(p0, tr1));
    var v1 := Cross(Sub(tr2, tr1), Sub(tr0, tr1));
    if IsZeroVec(v0) || IsZeroVec(v1) then true
    else if !IsParallel(v0, v1) then false
    else FactorOfParallelVectors(v0, v1) >= -EPS
  }

  /** `trianglePointIntersected` (`PointInTriangle::isPointInTriangle`): the
      point is on the inner side of all three edges and on the triangle's plane. */
  predicate TrianglePointIntersected(tr: Tri, point: Vec3) {
    && SameSide(point, tr.v0, tr.v1, tr.v2)
    && SameSide(point, tr.v1, tr.v0, tr.v2)
    && SameSide(point, tr.v2, tr.v0, tr.v1)
    && Abs(Dot(Sub(tr.v0, point), Cross(Sub(tr.v0, tr.v1), Sub(tr.v0, tr.v2)))) < EPS
  }

  /** `getPointInPlaneIntersectedWithLine`: the point where the line meets the
      plane, or None when the direction is approximately parallel to the plane
      (the source's `false` return, with its out-parameter left unwritten). */
  function PointInPlaneIntersectedWithLine(plane: Plane, lineR0: Vec3, lineDir: Vec3): (r: Option<Vec3>)
    ensures r.None? <==> IsZero(Dot(plane.N(), lineDir))
    ensures r.Some? ==> Dot(r.value, plane.N()) + plane.d == 0.0
    ensures r.Some? ==> exists t :: r.value == Add(lineR0, Scale(lineDir, t))
  {
    var weight := Dot(plane.N(), lineDir);
    if IsZero(weight) then None
    else
      LinePointOnPlane(plane, lineR0, lineDir);
      Some(Sub(lineR0, Scale(lineDir, (Dot(lineR0, plane.N()) + plane.d) / weight)))
  }

  /** The point `lineR0 - lineDir * s`, with `s` the plane equation at
      `lineR0` over the direction's component along the normal, lies on the
      plane and is the line's point at the parameter `-s`. */
  lemma LinePointOnPlane(plane: Plane, lineR0: Vec3, lineDir: Vec3)
    requires Dot(plane.N(), lineDir) != 0.0
    ensures var s := (Dot(lineR0, plane.N()) + plane.d) / Dot(plane.N(), lineDir);
            var p := Sub(lineR0, Scale(lineDir, s));
            Dot(p, plane.N()) + plane.d == 0.0 && p == Add(lineR0, Scale(lineDir, -s))
  {
    var weight := Dot(plane.N(), lineDir);
    var s := (Dot(lineR0, plane.N()) + plane.d) / weight;
    DotSubScale(lineR0, lineDir, s, plane.N());
    ComponentWise(lineDir, plane.N(), s, X);
    assert s * weight == Dot(lineR0, plane.N()) + plane.d;
    SubScaleIsAddScale(lineR0, lineDir, s);
  }

  /** Every point of the line that lies on the plane is the point returned:
      when the direction is not approximately parallel to the plane, the line
      meets it exactly once. */
  lemma LinePlanePointUnique(plane: Plane, lineR0: Vec3, lineDir: Vec3, t: real)
    requires !IsZero(Dot(plane.N(), lineDir))
    requires Dot(Add(lineR0, Scale(lineDir, t)), plane.N()) + plane.d == 0.0
    ensures PointInPlaneIntersectedWithLine(plane, lineR0, lineDir) == Some(Add(lineR0, Scale(lineDir, t)))
  {
    var weight := Dot(plane.N(), lineDir);
    SubScaleIsAddScale(lineR0, lineDir, -t);
    assert Sub(lineR0, Scale(lineDir, -t)) == Add(lineR0, Scale(lineDir, t));
    DotSubScale(lineR0, lineDir, -t, plane.N());
    ComponentWise(lineDir, plane.N(), t, X);
    assert Dot(lineR0, plane.N()) + plane.d == -t * weight;
    assert (Dot(lineR0, plane.N()) + plane.d) / weight == -t;
  }

  /** `v - n * s` is `v + n * (-s)`. */
  lemma SubScaleIsAddScale(v: Vec3, n: Vec3, s: real)
    ensures Sub(v, Scale(n, s)) == Add(v, Scale(n, -s))
  {
    assert n.x * -s == -(n.x * s);
    assert n.y * -s == -(n.y * s);
    assert n.z * -s == -(n.z * s);
  }

  /** Is `time0` between 0 and `time1` (either sign), with EPS slack? */
  predicate IsLineTimeWithinSegment(time0: real, time1: real) {
    if time1 > 0.0 then !(time0 < -EPS || time0 > time1 + EPS)
    else !(time0 > EPS || time0 < time1 - EPS)
  }

  /** The check on the first axis along which the offset from the segment's
      origin is not approximately zero (no check when it is zero on all three). */
  predicate WithinSegmentAlongFirstAxis(lineToTriangle: Vec3, lineDir: Vec3) {
    if !IsZero(lineToTriangle.x) then IsLineTimeWithinSegment(lineToTriangle.x, lineDir.x)
    else if !IsZero(lineToTriangle.y) then IsLineTimeWithinSegment(lineToTriangle.y, lineDir.y)
    else if !IsZero(lineToTriangle.z) then IsLineTimeWithinSegment(lineToTriangle.z, lineDir.z)
    else true
  }

  /** The axis `WithinSegmentAlongFirstAxis` checks: the first whose offset
      component is not approximately zero (z when none is). */
  function FirstOffsetAxis(lineToTriangle: Vec3): Axis {
    if !IsZero(lineToTriangle.x) then X
    else if !IsZero(lineToTriangle.y) then Y
    else Z
  }

  /** The open parameter range (-EPS, 1 + EPS) of a point on a segment. */
  predicate InOpenUnitRange(t: real) { t > -EPS && t < 1.0 + EPS }

  /** `lineSegmentPointIntersected`. Where the chosen divisor is exactly zero the
      source's factor is an infinity or NaN, and neither lies in the range, so
      the answer there is false. */
  predicate LineSegmentPointIntersected(lineR0: Vec3, lineDir: Vec3, point: Vec3) {
    var pointDir := Sub(point, lineR0);
    if IsZeroVec(pointDir) then true
    else if !IsParallel(lineDir, pointDir) then false
    else HasFactorDivisor(lineDir) && InOpenUnitRange(FactorOfParallelVectors(pointDir, lineDir))
  }

  /** `lineSegmentLineSegmentIntersected`. A zero divisor in the final factor
      is handled as in `LineSegmentPointIntersected`; the first factor's divisor
      is never zero because the directions' cross product is not approximately
      zero there. */
  predicate LineSegmentLineSegmentIntersected(lineR0A: Vec3, lineDirA: Vec3, lineR0B: Vec3, lineDirB: Vec3) {
    var abCrossed := Cross(lineDirA, lineDirB);
    if IsZeroVec(abCrossed) then
      || LineSegmentPointIntersected(lineR0A, lineDirA, lineR0B)
      || LineSegmentPointIntersected(lineR0A, lineDirA, Add(lineR0B, lineDirB))
      || LineSegmentPointIntersected(lineR0B, lineDirB, lineR0A)
      || LineSegmentPointIntersected(lineR0B, lineDirB, Add(lineR0A, lineDirA))
    else
      var shiftCrossed := Cross(Sub(lineR0B, lineR0A), lineDirB);
      if !IsZeroVec(shiftCrossed) && !IsParallel(abCrossed, shiftCrossed) then false
      else
        var aTime := FactorOfParallelVectors(shiftCrossed, abCrossed);
        if aTime < -EPS || aTime > 1.0 + EPS then false
        else
          var interPoint := Sub(Add(lineR0A, Scale(lineDirA, aTime)), lineR0B);
          HasFactorDivisor(lineDirB) && InOpenUnitRange(FactorOfParallelVectors(interPoint, lineDirB))
  }

  /** The projection test of the parallel case. With a zero normal the source's
      projection divides by zero, every component of the result is NaN, and
      `==` is false. */
  predicate OnPlane(plane: Plane, p: Vec3) {
    SqrNorm(plane.N()) != 0.0 && VecEq(ProjCanon(plane, p), p)
  }

  /** The segment crosses one of the triangle's three edges. */
  predicate CrossesAnEdge(tr: Tri, lineR0: Vec3, lineDir: Vec3) {
    || LineSegmentLineSegmentIntersected(lineR0, lineDir, tr.v0, Sub(tr.v1, tr.v0))
    || LineSegmentLineSegmentIntersected(lineR0, lineDir, tr.v0, Sub(tr.v2, tr.v0))
    || LineSegmentLineSegmentIntersected(lineR0, lineDir, tr.v1, Sub(tr.v2, tr.v1))
  }

  /** The non-parallel case: the plane point is within the segment and inside
      the triangle. */
  predicate MeetsThroughPlane(tr: Tri, lineR0: Vec3, lineDir: Vec3, p: Vec3) {
    WithinSegmentAlongFirstAxis(Sub(p, lineR0), lineDir) && TrianglePointIntersected(tr, p)
  }

  /** `triangleLineSegmentIntersected` as the source writes it: in the parallel
      case only the triangle's edges are tried. */
  predicate TriangleLineSegmentIntersected(tr: Tri, lineR0: Vec3, lineDir: Vec3, plane: Plane) {
    match PointInPlaneIntersectedWithLine(plane, lineR0, lineDir)
    case None => OnPlane(plane, lineR0) && CrossesAnEdge(tr, lineR0, lineDir)
    case Some(p) => MeetsThroughPlane(tr, lineR0, lineDir, p)
  }

  /** `triangleLineSegmentIntersected`, corrected: a segment lying in the
      triangle's plane also meets it when its origin is inside the triangle. */
  predicate TriangleLineSegmentCorrected(tr: Tri, lineR0: Vec3, lineDir: Vec3, plane: Plane) {
    match PointInPlaneIntersectedWithLine(plane, lineR0, lineDir)
    case None => OnPlane(plane, lineR0) && (CrossesAnEdge(tr, lineR0, lineDir) || TrianglePointIntersected(tr, lineR0))
    case Some(p) => MeetsThroughPlane(tr, lineR0, lineDir, p)
  }

  /** `triangleTriangleIntersected` as the source writes it: the edges
      (v0, v1) and (v0, v2) of each triangle against the other. */
  predicate TriangleTriangleIntersected(tr0: Tri, plane0: Plane, tr1: Tri, plane1: Plane) {
    || TriangleLineSegmentIntersected(tr0, tr1.v0, Sub(tr1.v1, tr1.v0), plane0)
    || TriangleLineSegmentIntersected(tr0, tr1.v0, Sub(tr1.v2, tr1.v0), plane0)
    || TriangleLineSegmentIntersected(tr1, tr0.v0, Sub(tr0.v1, tr0.v0), plane1)
    || TriangleLineSegmentIntersected(tr1, tr0.v0, Sub(tr0.v2, tr0.v0), plane1)
  }

  /** One of the three edges of `other` meets triangle `tr`. */
  predicate AnEdgeMeets(tr: Tri, plane: Plane, other: Tri) {
    || TriangleLineSegmentCorrected(tr, other.v0, Sub(other.v1, other.v0), plane)
    || TriangleLineSegmentCorrected(tr, other.v0, Sub(other.v2, other.v0), plane)
    || TriangleLineSegmentCorrected(tr, other.v1, Sub(other.v2, other.v1), plane)
  }

  /** `triangleTriangleIntersected`, corrected: all three edges of each
      triangle against the other. */
  predicate TriangleTriangleCorrected(tr0: Tri, plane0: Plane, tr1: Tri, plane1: Plane) {
    AnEdgeMeets(tr0, plane0, tr1) || AnEdgeMeets(tr1, plane1, tr0)
  }

  // ---------------------------------------------------------------------------
  // getFactorOfParallelVectors

  /** For a direction that is not approximately zero the divisor is never zero:
      the factor is the ratio along the first axis whose component is not
      approximately zero. */
  lemma FactorAlongFirstAxis(a: Vec3, b: Vec3)
    requires !IsZeroVec(b)
    ensures HasFactorDivisor(b)
    ensures !IsZero(b.x) ==> FactorOfParallelVectors(a, b) == a.x / b.x
    ensures IsZero(b.x) && !IsZero(b.y) ==> FactorOfParallelVectors(a, b) == a.y / b.y
    ensures IsZero(b.x) && IsZero(b.y) ==> !IsZero(b.z) && FactorOfParallelVectors(a, b) == a.z / b.z
  {
  }

  /** The factor of `b * s` against `b` is exactly `s`. */
  lemma FactorOfScaled(b: Vec3, s: real)
    requires HasFactorDivisor(b)
    ensures FactorOfParallelVectors(Scale(b, s), b) == s
  {
    if !IsZero(b.x) {
      assert (b.x * s) / b.x == s;
    } else if !IsZero(b.y) {
      assert (b.y * s) / b.y == s;
    } else {
      assert (b.z * s) / b.z == s;
    }
  }

  // ---------------------------------------------------------------------------
  // trianglePointIntersected

  /** A point's cross product `toP` against an edge is `toV * f`, `toV`
      being the opposite vertex's, with `f >= -EPS`. */
  predicate InsideAt(toP: Vec3, toV: Vec3, f: real) {
    HasFactorDivisor(toV) && toP == Scale(toV, f) && f >= -EPS
  }

  /** A point whose cross product against the edge (tr1, tr2) is a multiple
      `f >= -EPS` of the vertex's is on the vertex's side. */
  lemma SameSideScaled(p0: Vec3, tr0: Vec3, tr1: Vec3, tr2: Vec3, toP: Vec3, toV: Vec3, f: real)
    requires Cross(Sub(tr2, tr1), Sub(p0, tr1)) == toP
    requires Cross(Sub(tr2, tr1), Sub(tr0, tr1)) == toV
    requires InsideAt(toP, toV, f)
    ensures SameSide(p0, tr0, tr1, tr2)
  {
    CrossScaled(toV, f);
    FactorOfScaled(toV, f);
  }

  /** A point lying on the edge line through `tr1`'s side is on the same side. */
  lemma SameSideAtCorner(p: Vec3, tr0: Vec3, tr2: Vec3)
    ensures SameSide(p, tr0, p, tr2)
    ensures SameSide(p, tr0, tr2, p)
  {
    assert Sub(p, p) == Zero;
    assert Cross(Sub(tr2, p), Zero) == Zero;
    CrossAntiSymmetric(Sub(p, tr2), Sub(p, tr2));
  }

  /** A point is on the same side of an edge as itself. */
  lemma SameSideAsItself(p: Vec3, tr1: Vec3, tr2: Vec3)
    ensures SameSide(p, p, tr1, tr2)
  {
    var v := Cross(Sub(tr2, tr1), Sub(p, tr1));
    if !IsZeroVec(v) {
      CrossAntiSymmetric(v, v);
      FactorOfScaled(v, 1.0);
      assert Scale(v, 1.0) == v;
    }
  }

  /** Every vertex of a triangle passes the triangle/point test: each side test
      sees a zero cross product or two equal ones, and the coplanarity product
      is exactly zero. */
  lemma VertexInTriangle(tr: Tri)
    ensures TrianglePointIntersected(tr, tr.v0)
    ensures TrianglePointIntersected(tr, tr.v1)
    ensures TrianglePointIntersected(tr, tr.v2)
  {
    var n := Cross(Sub(tr.v0, tr.v1), Sub(tr.v0, tr.v2));
    SameSideAsItself(tr.v0, tr.v1, tr.v2);
    SameSideAtCorner(tr.v0, tr.v1, tr.v2);
    SameSideAtCorner(tr.v0, tr.v2, tr.v1);
    assert Dot(Sub(tr.v0, tr.v0), n) == 0.0;

    SameSideAtCorner(tr.v1, tr.v0, tr.v2);
    SameSideAsItself(tr.v1, tr.v0, tr.v2);
    SameSideAtCorner(tr.v1, tr.v2, tr.v0);
    CrossOrthogonal(Sub(tr.v0, tr.v1), Sub(tr.v0, tr.v2));

    SameSideAtCorner(tr.v2, tr.v0, tr.v1);
    SameSideAtCorner(tr.v2, tr.v1, tr.v0);
    SameSideAsItself(tr.v2, tr.v0, tr.v1);
  }

  /** Unfolding step, not a property: against an edge whose cross product
      with the reference vertex is zero, every point is on the same side. */
  lemma SameSideOfDegenerateEdge(p: Vec3, tr0: Vec3, tr1: Vec3, tr2: Vec3)
    requires Cross(Sub(tr2, tr1), Sub(tr0, tr1)) == Zero
    ensures SameSide(p, tr0, tr1, tr2)
  {
    assert IsZeroVec(Cross(Sub(tr2, tr1), Sub(tr0, tr1)));
  }

  /** The three side tests of a collinear triangle see a zero cross product. */
  lemma CollinearTriangleSides(tr: Tri, point: Vec3)
    requires EdgeCross(tr) == Zero
    ensures SameSide(point, tr.v0, tr.v1, tr.v2)
    ensures SameSide(point, tr.v1, tr.v0, tr.v2)
    ensures SameSide(point, tr.v2, tr.v0, tr.v1)
  {
    EdgeCrossAtSecondCorner(tr);
    SameSideOfDegenerateEdge(point, tr.v0, tr.v1, tr.v2);
    EdgeCrossSwapped(tr);
    assert Neg(Zero) == Zero;
    SameSideOfDegenerateEdge(point, tr.v1, tr.v0, tr.v2);
    SameSideOfDegenerateEdge(point, tr.v2, tr.v0, tr.v1);
  }

  /** The coplanarity product of a collinear triangle is zero. */
  lemma CollinearTriangleFlat(tr: Tri, point: Vec3)
    requires EdgeCross(tr) == Zero
    ensures Dot(Sub(tr.v0, point), Cross(Sub(tr.v0, tr.v1), Sub(tr.v0, tr.v2))) == 0.0
  {
    EdgeCrossReversedEdges(tr);
  }

  /** A triangle whose vertices are exactly collinear accepts every point:
      each side test compares against a zero cross product, which counts as
      the same side, and the coplanarity product is zero. */
  lemma CollinearTriangleMeetsEveryPoint(tr: Tri, point: Vec3)
    requires EdgeCross(tr) == Zero
    ensures TrianglePointIntersected(tr, point)
  {
    CollinearTriangleSides(tr, point);
    CollinearTriangleFlat(tr, point);
  }

  // ---------------------------------------------------------------------------
  // isLineTimeWithinSegment

  /** For an offset `s * t1` along a direction component `t1` of either sign,
      the check accepts exactly the parameters `s` in
      [-EPS / |t1|, 1 + EPS / |t1|]. */
  lemma LineTimeScaled(s: real, t1: real)
    ensures IsLineTimeWithinSegment(s * t1, t1) <==> -EPS <= s * Abs(t1) <= Abs(t1) + EPS
  {
    if t1 <= 0.0 {
      assert s * Abs(t1) == -(s * t1);
    }
  }

  // ---------------------------------------------------------------------------
  // lineSegmentPointIntersected

  /** A point `lineR0 + t * lineDir` of the segment's line tests as on the
      segment exactly when it is approximately the origin or `t` is in
      (-EPS, 1 + EPS). */
  lemma PointOnSegmentLine(lineR0: Vec3, lineDir: Vec3, t: real)
    requires HasFactorDivisor(lineDir)
    ensures LineSegmentPointIntersected(lineR0, lineDir, Add(lineR0, Scale(lineDir, t)))
            <==> IsZeroVec(Scale(lineDir, t)) || InOpenUnitRange(t)
  {
    var pointDir := Sub(Add(lineR0, Scale(lineDir, t)), lineR0);
    assert pointDir == Scale(lineDir, t);
    CrossScaled(lineDir, t);
    FactorOfScaled(lineDir, t);
  }

  /** Both endpoints of a segment test as on it. */
  lemma SegmentEndpoints(lineR0: Vec3, lineDir: Vec3)
    ensures LineSegmentPointIntersected(lineR0, lineDir, lineR0)
    ensures LineSegmentPointIntersected(lineR0, lineDir, Add(lineR0, lineDir))
  {
    assert Sub(lineR0, lineR0) == Zero;
    assert Scale(lineDir, 1.0) == lineDir;
    if HasFactorDivisor(lineDir) {
      PointOnSegmentLine(lineR0, lineDir, 1.0);
    } else {
      assert Sub(Add(lineR0, lineDir), lineR0) == lineDir;
    }
  }

  // ---------------------------------------------------------------------------
  // lineSegmentLineSegmentIntersected

  /** With approximately parallel directions the test is the OR of four
      endpoint tests, and swapping the segments only reorders them. */
  lemma SegmentSegmentParallelSymmetric(lineR0A: Vec3, lineDirA: Vec3, lineR0B: Vec3, lineDirB: Vec3)
    requires IsParallel(lineDirA, lineDirB)
    ensures LineSegmentLineSegmentIntersected(lineR0A, lineDirA, lineR0B, lineDirB)
            == LineSegmentLineSegmentIntersected(lineR0B, lineDirB, lineR0A, lineDirA)
  {
    CrossAntiSymmetric(lineDirB, lineDirA);
    IsZeroVecNeg(Cross(lineDirA, lineDirB));
  }

  /** A segment intersects itself: the directions are parallel and the
      origin is an endpoint. */
  lemma SegmentMeetsItself(lineR0: Vec3, lineDir: Vec3)
    ensures LineSegmentLineSegmentIntersected(lineR0, lineDir, lineR0, lineDir)
  {
    CrossAntiSymmetric(lineDir, lineDir);
    IsZeroVecNeg(lineDir);
    SegmentEndpoints(lineR0, lineDir);
  }

  /** Unfolding step, not a property: with directions that are not parallel
      the test rejects skew segments and a first parameter outside
      [-EPS, 1 + EPS]. */
  lemma SegmentSegmentRejects(lineR0A: Vec3, lineDirA: Vec3, lineR0B: Vec3, lineDirB: Vec3)
    requires !IsParallel(lineDirA, lineDirB)
    ensures var shift := Cross(Sub(lineR0B, lineR0A), lineDirB);
            !IsZeroVec(shift) && !IsParallel(Cross(lineDirA, lineDirB), shift)
            ==> !LineSegmentLineSegmentIntersected(lineR0A, lineDirA, lineR0B, lineDirB)
    ensures var shift := Cross(Sub(lineR0B, lineR0A), lineDirB);
            var aTime := FactorOfParallelVectors(shift, Cross(lineDirA, lineDirB));
            aTime < -EPS || aTime > 1.0 + EPS
            ==> !LineSegmentLineSegmentIntersected(lineR0A, lineDirA, lineR0B, lineDirB)
  {
  }

  /** Two segments whose lines cross at `lineR0A + t * lineDirA ==
      lineR0B + s * lineDirB`: the test recovers `t` and `s` exactly and accepts
      iff `t` is in the closed range [-EPS, 1 + EPS] and `s` in the open range
      (-EPS, 1 + EPS). */
  lemma CrossingSegments(lineR0A: Vec3, lineDirA: Vec3, lineR0B: Vec3, lineDirB: Vec3, t: real, s: real)
    requires !IsParallel(lineDirA, lineDirB)
    requires HasFactorDivisor(lineDirB)
    requires Add(lineR0A, Scale(lineDirA, t)) == Add(lineR0B, Scale(lineDirB, s))
    ensures LineSegmentLineSegmentIntersected(lineR0A, lineDirA, lineR0B, lineDirB)
            <==> -EPS <= t <= 1.0 + EPS && InOpenUnitRange(s)
  {
    var abCrossed := Cross(lineDirA, lineDirB);
    assert Sub(lineR0B, lineR0A) == Sub(Scale(lineDirA, t), Scale(lineDirB, s));
    CrossOfShift(lineDirA, lineDirB, t, s);
    var shiftCrossed := Cross(Sub(lineR0B, lineR0A), lineDirB);
    assert shiftCrossed == Scale(abCrossed, t);
    CrossScaled(abCrossed, t);
    FactorOfScaled(abCrossed, t);
    assert Sub(Add(lineR0A, Scale(lineDirA, t)), lineR0B) == Scale(lineDirB, s);
    FactorOfScaled(lineDirB, s);
  }

  // ---------------------------------------------------------------------------
  // triangleLineSegmentIntersected

  /** Unfolding step, not a property: a direction parallel to the plane with
      an origin off the plane misses. */
  lemma ParallelOffPlaneMisses(tr: Tri, lineR0: Vec3, lineDir: Vec3, plane: Plane)
    requires IsZero(Dot(plane.N(), lineDir))
    requires !OnPlane(plane, lineR0)
    ensures !TriangleLineSegmentIntersected(tr, lineR0, lineDir, plane)
    ensures !TriangleLineSegmentCorrected(tr, lineR0, lineDir, plane)
  {
  }

  /** A plane whose normal is exactly zero (a collinear triangle) meets no
      segment at all. */
  lemma ZeroNormalMisses(tr: Tri, lineR0: Vec3, lineDir: Vec3, plane: Plane)
    requires plane.N() == Zero
    ensures !TriangleLineSegmentIntersected(tr, lineR0, lineDir, plane)
    ensures !TriangleLineSegmentCorrected(tr, lineR0, lineDir, plane)
  {
    assert Dot(plane.N(), lineDir) == 0.0;
    assert !OnPlane(plane, lineR0);
    ParallelOffPlaneMisses(tr, lineR0, lineDir, plane);
  }

  /** The point at parameter `t` along the segment passes the within-segment
      check iff `t` times the magnitude `c` of the checked direction component
      lies in [-EPS, c + EPS]; the checked axis is the first on which the
      offset `lineDir * t` is not approximately zero, and with none the check
      passes. */
  lemma WithinSegmentAtTime(lineDir: Vec3, t: real)
    ensures !IsZero(lineDir.x * t)
            ==> (WithinSegmentAlongFirstAxis(Scale(lineDir, t), lineDir)
                 <==> -EPS <= t * Abs(lineDir.x) <= Abs(lineDir.x) + EPS)
    ensures IsZero(lineDir.x * t) && !IsZero(lineDir.y * t)
            ==> (WithinSegmentAlongFirstAxis(Scale(lineDir, t), lineDir)
                 <==> -EPS <= t * Abs(lineDir.y) <= Abs(lineDir.y) + EPS)
    ensures IsZero(lineDir.x * t) && IsZero(lineDir.y * t) && !IsZero(lineDir.z * t)
            ==> (WithinSegmentAlongFirstAxis(Scale(lineDir, t), lineDir)
                 <==> -EPS <= t * Abs(lineDir.z) <= Abs(lineDir.z) + EPS)
    ensures IsZeroVec(Scale(lineDir, t)) ==> WithinSegmentAlongFirstAxis(Scale(lineDir, t), lineDir)
  {
    if !IsZero(lineDir.x * t) {
      WithinOnFirstAxis(lineDir, t);
    } else if !IsZero(lineDir.y * t) {
      WithinOnSecondAxis(lineDir, t);
    } else if !IsZero(lineDir.z * t) {
      WithinOnThirdAxis(lineDir, t);
    }
  }

  /** The cases of `WithinSegmentAtTime`, one axis each. */
  lemma WithinOnFirstAxis(lineDir: Vec3, t: real)
    requires !IsZero(lineDir.x * t)
    ensures WithinSegmentAlongFirstAxis(Scale(lineDir, t), lineDir)
            <==> -EPS <= t * Abs(lineDir.x) <= Abs(lineDir.x) + EPS
  {
    AxisTime(lineDir.x * t, lineDir.x, t);
  }

  lemma WithinOnSecondAxis(lineDir: Vec3, t: real)
    requires IsZero(lineDir.x * t) && !IsZero(lineDir.y * t)
    ensures WithinSegmentAlongFirstAxis(Scale(lineDir, t), lineDir)
            <==> -EPS <= t * Abs(lineDir.y) <= Abs(lineDir.y) + EPS
  {
    AxisTime(lineDir.y * t, lineDir.y, t);
  }

  lemma WithinOnThirdAxis(lineDir: Vec3, t: real)
    requires IsZero(lineDir.x * t) && IsZero(lineDir.y * t) && !IsZero(lineDir.z * t)
    ensures WithinSegmentAlongFirstAxis(Scale(lineDir, t), lineDir)
            <==> -EPS <= t * Abs(lineDir.z) <= Abs(lineDir.z) + EPS
  {
    AxisTime(lineDir.z * t, lineDir.z, t);
  }

  /** Every point of the segment, `t` in [0, 1], passes the within-segment
      check. */
  lemma WithinSegmentOnSegment(lineDir: Vec3, t: real)
    requires 0.0 <= t <= 1.0
    ensures WithinSegmentAlongFirstAxis(Scale(lineDir, t), lineDir)
  {
    var v := Scale(lineDir, t);
    if !IsZero(v.x) {
      AxisTime(v.x, lineDir.x, t);
    } else if !IsZero(v.y) {
      AxisTime(v.y, lineDir.y, t);
    } else if !IsZero(v.z) {
      AxisTime(v.z, lineDir.z, t);
    }
  }

  /** One axis of `WithinSegmentAtTime`. */
  lemma AxisTime(offset: real, c: real, t: real)
    requires offset == c * t
    ensures IsLineTimeWithinSegment(offset, c) <==> -EPS <= t * Abs(c) <= Abs(c) + EPS
    ensures 0.0 <= t <= 1.0 ==> IsLineTimeWithinSegment(offset, c)
  {
    LineTimeScaled(t, c);
    assert t * c == c * t;
    if 0.0 <= t <= 1.0 {
      UnitTimeBounds(t, Abs(c));
    }
  }

  /** The within-segment check is the check on `FirstOffsetAxis`, skipped
      when the offset is approximately zero. */
  lemma WithinSegmentOnAxis(lineToTriangle: Vec3, lineDir: Vec3)
    ensures var k := FirstOffsetAxis(lineToTriangle);
            WithinSegmentAlongFirstAxis(lineToTriangle, lineDir)
            <==> IsZeroVec(lineToTriangle) || IsLineTimeWithinSegment(Comp(lineToTriangle, k), Comp(lineDir, k))
  {
  }

  /** `0 <= t * c <= c` for `t` in [0, 1] and `c >= 0`. */
  lemma UnitTimeBounds(t: real, c: real)
    requires 0.0 <= t <= 1.0 && c >= 0.0
    ensures 0.0 <= t * c <= c
  {
    assert c - t * c == (1.0 - t) * c;
  }

  /** A segment not parallel to the plane, whose line meets the plane at the
      parameter `t`: both tests accept it iff that point passes the
      within-segment check and lies in the triangle. */
  lemma TransversalSegment(tr: Tri, lineR0: Vec3, lineDir: Vec3, plane: Plane, t: real)
    requires !IsZero(Dot(plane.N(), lineDir))
    requires Dot(Add(lineR0, Scale(lineDir, t)), plane.N()) + plane.d == 0.0
    ensures TriangleLineSegmentIntersected(tr, lineR0, lineDir, plane)
            <==> WithinSegmentAlongFirstAxis(Scale(lineDir, t), lineDir)
                 && TrianglePointIntersected(tr, Add(lineR0, Scale(lineDir, t)))
    ensures TriangleLineSegmentCorrected(tr, lineR0, lineDir, plane)
            == TriangleLineSegmentIntersected(tr, lineR0, lineDir, plane)
  {
    LinePlanePointUnique(plane, lineR0, lineDir, t);
    assert Sub(Add(lineR0, Scale(lineDir, t)), lineR0) == Scale(lineDir, t);
  }

  /** A segment crossing the plane at a parameter `t` in [0, 1] meets the
      triangle exactly when its crossing point passes the triangle/point test. */
  lemma SegmentThroughPlane(tr: Tri, lineR0: Vec3, lineDir: Vec3, plane: Plane, t: real)
    requires !IsZero(Dot(plane.N(), lineDir))
    requires Dot(Add(lineR0, Scale(lineDir, t)), plane.N()) + plane.d == 0.0
    requires 0.0 <= t <= 1.0
    ensures TriangleLineSegmentIntersected(tr, lineR0, lineDir, plane)
            <==> TrianglePointIntersected(tr, Add(lineR0, Scale(lineDir, t)))
  {
    TransversalSegment(tr, lineR0, lineDir, plane, t);
    WithinSegmentOnSegment(lineDir, t);
  }

  /** The corrected test keeps every hit of the original, differs from it only
      for a segment lying in the plane, and there also accepts a segment whose
      origin is inside the triangle. */
  lemma TriangleLineSegmentCorrection(tr: Tri, lineR0: Vec3, lineDir: Vec3, plane: Plane)
    ensures TriangleLineSegmentIntersected(tr, lineR0, lineDir, plane)
            ==> TriangleLineSegmentCorrected(tr, lineR0, lineDir, plane)
    ensures !IsZero(Dot(plane.N(), lineDir))
            ==> TriangleLineSegmentCorrected(tr, lineR0, lineDir, plane)
                == TriangleLineSegmentIntersected(tr, lineR0, lineDir, plane)
    ensures IsZero(Dot(plane.N(), lineDir)) && OnPlane(plane, lineR0) && TrianglePointIntersected(tr, lineR0)
            ==> TriangleLineSegmentCorrected(tr, lineR0, lineDir, plane)
  {
  }

  /** A segment lying in a non-degenerate plane, with its origin on it exactly,
      that crosses one of the triangle's edges meets the triangle. */
  lemma InPlaneEdgeCrossingMeets(tr: Tri, lineR0: Vec3, lineDir: Vec3, plane: Plane)
    requires SqrNorm(plane.N()) != 0.0
    requires Dot(lineR0, plane.N()) + plane.d == 0.0
    requires IsZero(Dot(plane.N(), lineDir))
    requires CrossesAnEdge(tr, lineR0, lineDir)
    ensures TriangleLineSegmentIntersected(tr, lineR0, lineDir, plane)
  {
    ProjCanonFixesPlanePoints(plane, lineR0);
    VecEqLaws(lineR0, lineR0);
    assert OnPlane(plane, lineR0);
  }

  /** The edge (v0, v1) crosses itself. */
  lemma FirstEdgeCrossesItself(tr: Tri)
    ensures CrossesAnEdge(tr, tr.v0, Sub(tr.v1, tr.v0))
  {
    var e := Sub(tr.v1, tr.v0);
    CrossAntiSymmetric(e, e);
    IsZeroVecNeg(e);
    SegmentEndpoints(tr.v0, e);
    assert LineSegmentLineSegmentIntersected(tr.v0, e, tr.v0, e);
  }

  /** A non-degenerate plane through the triangle's first vertex, orthogonal to
      the edge (v0, v1): the edge lies in the plane and crosses itself, so the
      triangle meets itself. */
  lemma TriangleMeetsItself(tr: Tri, plane: Plane)
    requires SqrNorm(plane.N()) != 0.0
    requires Dot(tr.v0, plane.N()) + plane.d == 0.0
    requires IsZero(Dot(plane.N(), Sub(tr.v1, tr.v0)))
    ensures TriangleTriangleCorrected(tr, plane, tr, plane)
    ensures TriangleTriangleIntersected(tr, plane, tr, plane)
  {
    FirstEdgeCrossesItself(tr);
    InPlaneEdgeCrossingMeets(tr, tr.v0, Sub(tr.v1, tr.v0), plane);
    TriangleLineSegmentCorrection(tr, tr.v0, Sub(tr.v1, tr.v0), plane);
  }

  // ---------------------------------------------------------------------------
  // triangleTriangleIntersected

  /** Swapping the two (triangle, plane) pairs only reorders the tests, in the
      source's four-call form and in the corrected six-call form. */
  lemma TriangleTriangleSymmetric(tr0: Tri, plane0: Plane, tr1: Tri, plane1: Plane)
    ensures TriangleTriangleIntersected(tr0, plane0, tr1, plane1) == TriangleTriangleIntersected(tr1, plane1, tr0, plane0)
    ensures TriangleTriangleCorrected(tr0, plane0, tr1, plane1) == TriangleTriangleCorrected(tr1, plane1, tr0, plane0)
  {
  }

  /** The corrected triangle/triangle test keeps every hit of the original and
      also tries the edge (v1, v2) of each triangle. */
  lemma TriangleTriangleCorrection(tr0: Tri, plane0: Plane, tr1: Tri, plane1: Plane)
    ensures TriangleTriangleIntersected(tr0, plane0, tr1, plane1) ==> TriangleTriangleCorrected(tr0, plane0, tr1, plane1)
    ensures TriangleLineSegmentCorrected(tr0, tr1.v1, Sub(tr1.v2, tr1.v1), plane0)
            ==> TriangleTriangleCorrected(tr0, plane0, tr1, plane1)
    ensures TriangleLineSegmentCorrected(tr1, tr0.v1, Sub(tr0.v2, tr0.v1), plane1)
            ==> TriangleTriangleCorrected(tr0, plane0, tr1, plane1)
  {
    TriangleLineSegmentCorrection(tr0, tr1.v0, Sub(tr1.v1, tr1.v0), plane0);
    TriangleLineSegmentCorrection(tr0, tr1.v0, Sub(tr1.v2, tr1.v0), plane0);
    TriangleLineSegmentCorrection(tr1, tr0.v0, Sub(tr0.v1, tr0.v0), plane1);
    TriangleLineSegmentCorrection(tr1, tr0.v0, Sub(tr0.v2, tr0.v0), plane1);
  }
}
