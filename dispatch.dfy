/** `intersected` of `src/triangle_intersection.cpp`: classify both records at
    their original scale, reweigh both together, then route the pair of shapes
    to one primitive test. */
module Dispatch {
  import opened Algebra
  import opened Classification
  import opened Reshaping
  import opened Reweighing
  import opened Primitives

  /** The record `{x0, y0, z0, x1, y1, z1, x2, y2, z2}` of nine doubles. */
  function TriFrom(p: seq<real>): Tri
    requires |p| == 9
  {
    Tri(Vec3(p[0], p[1], p[2]), Vec3(p[3], p[4], p[5]), Vec3(p[6], p[7], p[8]))
  }

  /** The enumerator value of a shape, used to index the slot array. */
  function SlotIndex(s: Shape): (i: nat)
    ensures i < 3
  {
    match s
    case Point => 0
    case Triangle => 1
    case LineSegment => 2
  }

  /** The triangle against the segment `getLineFromThreePoins` reads off a
      line segment record, with the source's `triangleLineSegmentIntersected`. */
  predicate TriangleSegment(tri: Tri, seg: Tri) {
    var l := GetLineFromThreePoints(seg);
    TriangleLineSegmentIntersected(tri, l.r0, l.dir, GetPlane(tri))
  }

  /** Two line segment records, each read off by `getLineFromThreePoins`. */
  predicate SegmentSegment(a: Tri, b: Tri) {
    var la := GetLineFromThreePoints(a);
    var lb := GetLineFromThreePoints(b);
    LineSegmentLineSegmentIntersected(la.r0, la.dir, lb.r0, lb.dir)
  }

  /** A line segment record against the first vertex of a point record. */
  predicate SegmentPoint(seg: Tri, point: Tri) {
    var l := GetLineFromThreePoints(seg);
    LineSegmentPointIntersected(l.r0, l.dir, point.v0)
  }

  /** Which test decides a pair of (already reweighed) records of the given
      shapes, written as one case per pair of shapes; every mixed pair is
      routed the same way in either order. */
  predicate Route(s0: Shape, s1: Shape, t0: Tri, t1: Tri) {
    match (s0, s1)
    case (Triangle, Triangle) => TriangleTriangleIntersected(t0, GetPlane(t0), t1, GetPlane(t1))
    case (LineSegment, LineSegment) => SegmentSegment(t0, t1)
    case (Point, Point) => VecEq(t0.v0, t1.v0)
    case (Triangle, LineSegment) => TriangleSegment(t0, t1)
    case (LineSegment, Triangle) => TriangleSegment(t1, t0)
    case (Triangle, Point) => TrianglePointIntersected(t0, t1.v0)
    case (Point, Triangle) => TrianglePointIntersected(t1, t0.v0)
    case (LineSegment, Point) => SegmentPoint(t0, t1)
    case (Point, LineSegment) => SegmentPoint(t1, t0)
  }

  /** The answer of `intersected` for two finite records: shapes taken before
      reweighing, tests run on the reweighed records. */
  predicate Intersection(a: Tri, b: Tri) {
    var w := ReWeighPair(a, b);
    Route(ThreePoints(a), ThreePoints(b), w.0, w.1)
  }

  /** `TriangleSegment` with the corrected triangle/segment test. */
  predicate TriangleSegmentCorrected(tri: Tri, seg: Tri) {
    var l := GetLineFromThreePoints(seg);
    TriangleLineSegmentCorrected(tri, l.r0, l.dir, GetPlane(tri))
  }

  /** `Route` with the corrected triangle/segment and triangle/triangle
      tests; the other pairs of shapes are routed as in `Route`. */
  predicate RouteCorrected(s0: Shape, s1: Shape, t0: Tri, t1: Tri) {
    match (s0, s1)
    case (Triangle, Triangle) => TriangleTriangleCorrected(t0, GetPlane(t0), t1, GetPlane(t1))
    case (Triangle, LineSegment) => TriangleSegmentCorrected(t0, t1)
    case (LineSegment, Triangle) => TriangleSegmentCorrected(t1, t0)
    case _ => Route(s0, s1, t0, t1)
  }

  /** What `intersected` answers once both findings are corrected. */
  predicate IntersectionCorrected(a: Tri, b: Tri) {
    var w := ReWeighPair(a, b);
    RouteCorrected(ThreePoints(a), ThreePoints(b), w.0, w.1)
  }

  /** `intersected`: copies both buffers into local three-vertex arrays (the
      caller's buffers are never written), classifies, reweighs the copies in
      place and dispatches, for mixed shapes through an array of three slots
      indexed by shape. */
  method Intersected(tr0p: seq<real>, tr1p: seq<real>) returns (r: bool)
    requires |tr0p| == 9 && |tr1p| == 9
    ensures r == Intersection(TriFrom(tr0p), TriFrom(tr1p))
  {
    var tr0 := new Vec3[3] [Vec3(tr0p[0], tr0p[1], tr0p[2]), Vec3(tr0p[3], tr0p[4], tr0p[5]), Vec3(tr0p[6], tr0p[7], tr0p[8])];
    var tr1 := new Vec3[3] [Vec3(tr1p[0], tr1p[1], tr1p[2]), Vec3(tr1p[3], tr1p[4], tr1p[5]), Vec3(tr1p[6], tr1p[7], tr1p[8])];
    assert TriOf(tr0) == TriFrom(tr0p) && TriOf(tr1) == TriFrom(tr1p);

    var shape0 := ThreePoints(TriOf(tr0));
    var shape1 := ThreePoints(TriOf(tr1));

    LinearReWeighing(tr0, tr1);
    ghost var w := ReWeighPair(TriFrom(tr0p), TriFrom(tr1p));
    assert TriOf(tr0) == w.0 && TriOf(tr1) == w.1;

    if shape0 == shape1 {
      if shape0 == Triangle {
        r := TriangleTriangleIntersected(TriOf(tr0), GetPlane(TriOf(tr0)), TriOf(tr1), GetPlane(TriOf(tr1)));
      } else if shape0 == LineSegment {
        var la := GetLineFromThreePoints(TriOf(tr0));
        var lb := GetLineFromThreePoints(TriOf(tr1));
        r := LineSegmentLineSegmentIntersected(la.r0, la.dir, lb.r0, lb.dir);
      } else {
        r := VecEq(tr0[0], tr1[0]);
      }
    } else {
      var ordered := new array?<Vec3>[3](_ => null);
      ordered[SlotIndex(shape0)] := tr0;
      ordered[SlotIndex(shape1)] := tr1;

      if ordered[1] != null && ordered[2] != null {
        var tri: array<Vec3> := ordered[1];
        var l := GetLineFromThreePoints(TriOf(ordered[2]));
        r := TriangleLineSegmentIntersected(TriOf(tri), l.r0, l.dir, GetPlane(TriOf(tri)));
      } else if ordered[1] != null && ordered[0] != null {
        r := TrianglePointIntersected(TriOf(ordered[1]), ordered[0][0]);
      } else {
        var l := GetLineFromThreePoints(TriOf(ordered[2]));
        r := LineSegmentPointIntersected(l.r0, l.dir, ordered[0][0]);
      }
    }
  }

  // ---------------------------------------------------------------------------
  // Properties of the dispatch

  /** Swapping the records gives the same answer, except for two line segment
      records, whose test is not symmetric (`SegmentSegmentAsymmetric`). */
  lemma IntersectionSymmetric(a: Tri, b: Tri)
    requires !(ThreePoints(a) == LineSegment && ThreePoints(b) == LineSegment)
    ensures Intersection(a, b) == Intersection(b, a)
  {
    ReWeighPairSwap(a, b);
    var w := ReWeighPair(a, b);
    if ThreePoints(a) == Triangle && ThreePoints(b) == Triangle {
      TriangleTriangleSymmetric(w.0, GetPlane(w.0), w.1, GetPlane(w.1));
    } else if ThreePoints(a) == Point && ThreePoints(b) == Point {
      VecEqLaws(w.0.v0, w.1.v0);
    }
  }

  /** Reweighing a record against itself gives two equal records. */
  lemma ReWeighSelf(a: Tri)
    ensures ReWeighPair(a, a).0 == ReWeighPair(a, a).1 == MulTri(a, Weights(a, a))
  {
    ReWeighPairPerAxis(a, a);
  }

  /** A point record and a line segment record each intersect themselves. */
  lemma NonTriangleMeetsItself(a: Tri)
    requires ThreePoints(a) != Triangle
    ensures Intersection(a, a)
  {
    ReWeighSelf(a);
    var t := ReWeighPair(a, a).0;
    if ThreePoints(a) == Point {
      VecEqLaws(t.v0, t.v0);
    } else {
      var l := GetLineFromThreePoints(t);
      SegmentMeetsItself(l.r0, l.dir);
    }
  }

  /** A triangle record whose vertices are not exactly collinear intersects
      itself; `CollinearTrianglesMiss` gives the other half: a collinear one
      does not. */
  lemma TriangleMeetsItselfAsRecord(a: Tri)
    requires ThreePoints(a) == Triangle
    requires EdgeCross(a) != Zero
    ensures Intersection(a, a)
  {
    ReWeighSelf(a);
    var t := ReWeighPair(a, a).0;
    var plane := GetPlane(t);
    ReWeighPairPerAxis(a, a);
    WeightsPositive(a, a);
    EdgeCrossWeighted(a, Weights(a, a));
    PositiveWeightsKeepNonZero(EdgeCross(a), Weights(a, a));
    PlaneNormalIsEdgeCross(t);
    PlaneContainsVertices(t);
    CrossOrthogonal(Sub(t.v1, t.v0), Sub(t.v2, t.v0));
    ComponentWise(plane.N(), Sub(t.v1, t.v0), 0.0, X);
    TriangleMeetsItself(t, plane);
  }

  /** Multiplying a non-zero vector axis by axis by products of positive
      weights leaves a vector of non-zero squared norm. */
  lemma PositiveWeightsKeepNonZero(c: Vec3, w: Vec3)
    requires w.x > 0.0 && w.y > 0.0 && w.z > 0.0
    requires c != Zero
    ensures SqrNorm(Mul(c, Vec3(w.y * w.z, w.z * w.x, w.x * w.y))) != 0.0
  {
    var m := Mul(c, Vec3(w.y * w.z, w.z * w.x, w.x * w.y));
    assert w.y * w.z > 0.0 && w.z * w.x > 0.0 && w.x * w.y > 0.0;
    assert m.x * m.x >= 0.0 && m.y * m.y >= 0.0 && m.z * m.z >= 0.0;
    if c.x != 0.0 {
      assert m.x != 0.0;
      assert m.x * m.x > 0.0;
    } else if c.y != 0.0 {
      assert m.y != 0.0;
      assert m.y * m.y > 0.0;
    } else {
      assert c.z != 0.0;
      assert m.z != 0.0;
      assert m.z * m.z > 0.0;
    }
  }

  /** A triangle record with exactly collinear vertices intersects every
      point record, in either order. */
  lemma CollinearTriangleMeetsEveryPointRecord(a: Tri, b: Tri)
    requires ThreePoints(a) == Triangle && EdgeCross(a) == Zero
    requires ThreePoints(b) == Point
    ensures Intersection(a, b) && Intersection(b, a)
  {
    ReWeighPairPerAxis(a, b);
    EdgeCrossWeighted(a, Weights(a, b));
    var w := ReWeighPair(a, b);
    CollinearTriangleMeetsEveryPoint(w.0, w.1.v0);
    IntersectionSymmetric(a, b);
  }

  /** A collinear triangle, reweighed, has a zero plane normal. */
  lemma CollinearPlaneNormal(a: Tri, b: Tri)
    requires EdgeCross(a) == Zero
    ensures GetPlane(ReWeighPair(a, b).0).N() == Zero
    ensures GetPlane(ReWeighPair(b, a).1).N() == Zero
  {
    ReWeighPairPerAxis(a, b);
    ReWeighPairSwap(a, b);
    EdgeCrossWeighted(a, Weights(a, b));
    PlaneNormalIsEdgeCross(ReWeighPair(a, b).0);
  }

  /** A triangle record with exactly collinear vertices intersects no line
      segment record, in either order. */
  lemma CollinearTriangleMissesSegments(a: Tri, b: Tri)
    requires ThreePoints(a) == Triangle && EdgeCross(a) == Zero
    requires ThreePoints(b) == LineSegment
    ensures !Intersection(a, b) && !Intersection(b, a)
  {
    CollinearPlaneNormal(a, b);
    var t := ReWeighPair(a, b).0;
    var l := GetLineFromThreePoints(ReWeighPair(a, b).1);
    ZeroNormalMisses(t, l.r0, l.dir, GetPlane(t));
    IntersectionSymmetric(a, b);
  }

  /** Two triangle records that are both exactly collinear never intersect,
      even when they cross or coincide. */
  lemma CollinearTrianglesMiss(a: Tri, b: Tri)
    requires ThreePoints(a) == Triangle && EdgeCross(a) == Zero
    requires ThreePoints(b) == Triangle && EdgeCross(b) == Zero
    ensures !Intersection(a, b)
  {
    CollinearPlaneNormal(a, b);
    CollinearPlaneNormal(b, a);
    var w := ReWeighPair(a, b);
    var p0 := GetPlane(w.0);
    var p1 := GetPlane(w.1);
    ZeroNormalMisses(w.0, w.1.v0, Sub(w.1.v1, w.1.v0), p0);
    ZeroNormalMisses(w.0, w.1.v0, Sub(w.1.v2, w.1.v0), p0);
    ZeroNormalMisses(w.1, w.0.v0, Sub(w.0.v1, w.0.v0), p1);
    ZeroNormalMisses(w.1, w.0.v0, Sub(w.0.v2, w.0.v0), p1);
  }

  /** The corrected routing keeps every intersection `intersected` reports,
      and differs from it only when one of the records is a triangle and the
      other is not a point. */
  lemma IntersectionCorrection(a: Tri, b: Tri)
    ensures Intersection(a, b) ==> IntersectionCorrected(a, b)
    ensures ThreePoints(a) != Triangle && ThreePoints(b) != Triangle
            ==> IntersectionCorrected(a, b) == Intersection(a, b)
    ensures ThreePoints(a) == Point || ThreePoints(b) == Point
            ==> IntersectionCorrected(a, b) == Intersection(a, b)
  {
    var w := ReWeighPair(a, b);
    var s0, s1 := ThreePoints(a), ThreePoints(b);
    if s0 == Triangle && s1 == Triangle {
      TriangleTriangleCorrection(w.0, GetPlane(w.0), w.1, GetPlane(w.1));
    } else if s0 == Triangle && s1 == LineSegment {
      var l := GetLineFromThreePoints(w.1);
      TriangleLineSegmentCorrection(w.0, l.r0, l.dir, GetPlane(w.0));
    } else if s0 == LineSegment && s1 == Triangle {
      var l := GetLineFromThreePoints(w.0);
      TriangleLineSegmentCorrection(w.1, l.r0, l.dir, GetPlane(w.1));
    }
  }

  /** Scale stability of the whole decision: scaling both records by a
      positive factor keeps the answer when every axis stays in the range
      where its weight scales back exactly and neither record changes shape. */
  lemma IntersectionScaleInvariant(a: Tri, b: Tri, s: real)
    requires s > 0.0
    requires ScaleInvariantAxis(a, b, X, s) && ScaleInvariantAxis(a, b, Y, s) && ScaleInvariantAxis(a, b, Z, s)
    requires ThreePoints(ScaleTri(a, s)) == ThreePoints(a) && ThreePoints(ScaleTri(b, s)) == ThreePoints(b)
    ensures Intersection(ScaleTri(a, s), ScaleTri(b, s)) == Intersection(a, b)
  {
    ReWeighPairScaleInvariant(a, b, s);
  }
}
