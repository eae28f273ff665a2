/** Concrete pairs of records on which `intersected` behaves in ways its
    description does not suggest. */
module Witnesses {
  import opened Algebra
  import opened Classification
  import opened Reshaping
  import opened Reweighing
  import opened Primitives
  import opened Dispatch

  /** The records (0,0,0), (1,1,0), (2,2,0) and (0,2,0), (1,1,0), (2,0,0):
      two collinear triples crossing at (1, 1, 0). */
  predicate CrossingCollinearRecords(a: Tri, b: Tri) {
    && a == Tri(Vec3(0.0, 0.0, 0.0), Vec3(1.0, 1.0, 0.0), Vec3(2.0, 2.0, 0.0))
    && b == Tri(Vec3(0.0, 2.0, 0.0), Vec3(1.0, 1.0, 0.0), Vec3(2.0, 0.0, 0.0))
  }

  /** Their vertices are pairwise apart, so both are classified as
      triangles ... */
  lemma CrossingRecordsAreTriangles(a: Tri, b: Tri)
    requires CrossingCollinearRecords(a, b)
    ensures ThreePoints(a) == Triangle && ThreePoints(b) == Triangle
  {
  }

  /** ... although each triple is exactly collinear. */
  lemma FirstCrossingRecordIsCollinear(a: Tri, b: Tri)
    requires CrossingCollinearRecords(a, b)
    ensures EdgeCross(a) == Zero
  {
  }

  lemma SecondCrossingRecordIsCollinear(a: Tri, b: Tri)
    requires CrossingCollinearRecords(a, b)
    ensures EdgeCross(b) == Zero
  {
  }

  /** So the two crossing records do not intersect. */
  lemma CrossingCollinearRecordsMiss(a: Tri, b: Tri)
    requires CrossingCollinearRecords(a, b)
    ensures !Intersection(a, b)
  {
    CrossingRecordsAreTriangles(a, b);
    FirstCrossingRecordIsCollinear(a, b);
    SecondCrossingRecordIsCollinear(a, b);
    CollinearTrianglesMiss(a, b);
  }

  // ---------------------------------------------------------------------------
  // The segment/segment test is not symmetric

  /** A height far below EPS. */
  const H: real := 0.00000000001

  /** A segment from the origin to (1, 0, 0), and a segment at height H
      crossing it at x = 0.5, each with a repeated first vertex. */
  predicate AsymmetricRecords(a: Tri, b: Tri) {
    && a == Tri(Zero, Zero, Vec3(1.0, 0.0, 0.0))
    && b == Tri(Vec3(0.5, -1.0, H), Vec3(0.5, -1.0, H), Vec3(0.5, 1.0, H))
  }

  /** The two records after reweighing: x and y scaled by 150, z left alone. */
  predicate AsymmetricReweighed(a2: Tri, b2: Tri) {
    && a2 == Tri(Zero, Zero, Vec3(150.0, 0.0, 0.0))
    && b2 == Tri(Vec3(75.0, -150.0, H), Vec3(75.0, -150.0, H), Vec3(75.0, 150.0, H))
  }

  lemma AsymmetricRecordsAreSegments(a: Tri, b: Tri)
    requires AsymmetricRecords(a, b)
    ensures ThreePoints(a) == LineSegment && ThreePoints(b) == LineSegment
  {
  }

  /** The largest magnitudes are 1, 1 and H, so the weights are 150, 150
      and 1. */
  lemma AsymmetricWeights(a: Tri, b: Tri)
    requires AsymmetricRecords(a, b)
    ensures Weights(a, b) == Vec3(150.0, 150.0, 1.0)
  {
    assert AxisMax(a, b, X) == 1.0;
    assert AxisMax(a, b, Y) == 1.0;
    assert AxisMax(a, b, Z) == H;
  }

  lemma AsymmetricWeighted(a: Tri, b: Tri, w: Vec3)
    requires AsymmetricRecords(a, b) && w == Vec3(150.0, 150.0, 1.0)
    ensures AsymmetricReweighed(MulTri(a, w), MulTri(b, w))
  {
    FirstAsymmetricWeighted();
    SecondAsymmetricWeighted();
  }

  /** The two records of `AsymmetricWeighted`, one at a time. */
  lemma FirstAsymmetricWeighted()
    ensures MulTri(Tri(Zero, Zero, Vec3(1.0, 0.0, 0.0)), Vec3(150.0, 150.0, 1.0))
            == Tri(Zero, Zero, Vec3(150.0, 0.0, 0.0))
  {
  }

  lemma SecondAsymmetricWeighted()
    ensures MulTri(Tri(Vec3(0.5, -1.0, H), Vec3(0.5, -1.0, H), Vec3(0.5, 1.0, H)), Vec3(150.0, 150.0, 1.0))
            == Tri(Vec3(75.0, -150.0, H), Vec3(75.0, -150.0, H), Vec3(75.0, 150.0, H))
  {
  }

  lemma AsymmetricReweighing(a: Tri, b: Tri)
    requires AsymmetricRecords(a, b)
    ensures AsymmetricReweighed(ReWeighPair(a, b).0, ReWeighPair(a, b).1)
  {
    ReWeighPairPerAxis(a, b);
    AsymmetricWeights(a, b);
    AsymmetricWeighted(a, b, Weights(a, b));
  }

  /** Two line segment records are decided by the segment/segment test on
      the reweighed records. */
  lemma SegmentRecords(a: Tri, b: Tri)
    requires ThreePoints(a) == LineSegment && ThreePoints(b) == LineSegment
    ensures Intersection(a, b) == SegmentSegment(ReWeighPair(a, b).0, ReWeighPair(a, b).1)
  {
  }

  /** The segments read off the reweighed records. */
  lemma AsymmetricLines(a2: Tri, b2: Tri)
    requires AsymmetricReweighed(a2, b2)
    ensures GetLineFromThreePoints(a2) == Line(Zero, Vec3(150.0, 0.0, 0.0))
    ensures GetLineFromThreePoints(b2) == Line(Vec3(75.0, -150.0, H), Vec3(0.0, 300.0, 0.0))
  {
  }

  /** Taken as (a, b), the directions' cross product (0, 0, 45000) and the
      shifted one (-3e-9, 0, 22500) cross to (0, -1.35e-4, 0), more than EPS
      away from zero, so the segments are found skew. */
  lemma SkewOneWay()
    ensures !LineSegmentLineSegmentIntersected(Zero, Vec3(150.0, 0.0, 0.0), Vec3(75.0, -150.0, H), Vec3(0.0, 300.0, 0.0))
  {
    SkewDirections();
    SkewShift();
    SkewCrossed();
    SkewValues();
    SkewRejected(Zero, Vec3(150.0, 0.0, 0.0), Vec3(75.0, -150.0, H), Vec3(0.0, 300.0, 0.0),
                 Vec3(0.0, 0.0, 45000.0), Vec3(-300.0 * H, 0.0, 22500.0), Vec3(0.0, -0.000135, 0.0));
  }

  /** Neither cross product is approximately zero, and crossed together
      they give `c`, which is not approximately zero either. */
  predicate SkewAt(abCrossed: Vec3, shiftCrossed: Vec3, c: Vec3) {
    !IsZeroVec(abCrossed) && !IsZeroVec(shiftCrossed) && Cross(abCrossed, shiftCrossed) == c && !IsZeroVec(c)
  }

  /** Segments whose cross products are as in `SkewAt` are rejected as skew. */
  lemma SkewRejected(lineR0A: Vec3, lineDirA: Vec3, lineR0B: Vec3, lineDirB: Vec3, abCrossed: Vec3, shiftCrossed: Vec3, c: Vec3)
    requires Cross(lineDirA, lineDirB) == abCrossed
    requires Cross(Sub(lineR0B, lineR0A), lineDirB) == shiftCrossed
    requires SkewAt(abCrossed, shiftCrossed, c)
    ensures !LineSegmentLineSegmentIntersected(lineR0A, lineDirA, lineR0B, lineDirB)
  {
    SegmentSegmentRejects(lineR0A, lineDirA, lineR0B, lineDirB);
  }

  lemma SkewValues()
    ensures SkewAt(Vec3(0.0, 0.0, 45000.0), Vec3(-300.0 * H, 0.0, 22500.0), Vec3(0.0, -0.000135, 0.0))
  {
    SkewCrossed();
  }

  /** The three cross products of `SkewOneWay`, one at a time. */
  lemma SkewDirections()
    ensures Cross(Vec3(150.0, 0.0, 0.0), Vec3(0.0, 300.0, 0.0)) == Vec3(0.0, 0.0, 45000.0)
  {
  }

  lemma SkewShift()
    ensures Cross(Sub(Vec3(75.0, -150.0, H), Zero), Vec3(0.0, 300.0, 0.0)) == Vec3(-300.0 * H, 0.0, 22500.0)
  {
  }

  lemma SkewCrossed()
    ensures Cross(Vec3(0.0, 0.0, 45000.0), Vec3(-300.0 * H, 0.0, 22500.0)) == Vec3(0.0, -0.000135, 0.0)
  {
  }

  lemma ReweighedSegmentsMissOneWay(a2: Tri, b2: Tri)
    requires AsymmetricReweighed(a2, b2)
    ensures !SegmentSegment(a2, b2)
  {
    AsymmetricLines(a2, b2);
    SkewOneWay();
  }

  /** Taken as (b, a), the two cross products cross to (-6.75e-5, 0, 0),
      within EPS, and both parameters come out as 0.5. */
  lemma ReweighedSegmentsMeetOtherWay(a2: Tri, b2: Tri)
    requires AsymmetricReweighed(a2, b2)
    ensures SegmentSegment(b2, a2)
  {
    var la := GetLineFromThreePoints(b2);
    var lb := GetLineFromThreePoints(a2);
    assert la == Line(Vec3(75.0, -150.0, H), Vec3(0.0, 300.0, 0.0));
    assert lb == Line(Zero, Vec3(150.0, 0.0, 0.0));
    var abCrossed := Cross(la.dir, lb.dir);
    assert abCrossed == Vec3(0.0, 0.0, -45000.0);
    var shiftCrossed := Cross(Sub(lb.r0, la.r0), lb.dir);
    assert shiftCrossed == Vec3(0.0, -150.0 * H, -22500.0);
    assert Cross(abCrossed, shiftCrossed) == Vec3(-45000.0 * (150.0 * H), 0.0, 0.0);
    var aTime := FactorOfParallelVectors(shiftCrossed, abCrossed);
    assert aTime == 0.5;
    var interPoint := Sub(Add(la.r0, Scale(la.dir, aTime)), lb.r0);
    assert interPoint == Vec3(75.0, 0.0, H);
    assert FactorOfParallelVectors(interPoint, lb.dir) == 0.5;
  }

  /** Two line segment records whose answer depends on their order. */
  lemma SegmentSegmentAsymmetric(a: Tri, b: Tri)
    requires AsymmetricRecords(a, b)
    ensures !Intersection(a, b) && Intersection(b, a)
  {
    AsymmetricRecordsAreSegments(a, b);
    AsymmetricReweighing(a, b);
    var w := ReWeighPair(a, b);
    ReweighedSegmentsMissOneWay(w.0, w.1);
    ReweighedSegmentsMeetOtherWay(w.0, w.1);
    ReWeighPairSwap(a, b);
    SegmentRecords(a, b);
    SegmentRecords(b, a);
  }

  // ---------------------------------------------------------------------------
  // Shapes are taken before reweighing

  /** A record whose vertices are within EPS of one another at x = 1e-4 and
      x = 1.5e-4, and a point record at x = 1.25e-4 within EPS of its first
      vertex. */
  predicate TinyPointRecords(a: Tri, b: Tri) {
    && a == Tri(Vec3(0.0001, 0.0, 0.0), Vec3(0.00015, 0.0, 0.0), Vec3(0.0001, 0.0, 0.0))
    && b == Tri(Vec3(0.000125, 0.0, 0.0), Vec3(0.000125, 0.0, 0.0), Vec3(0.000125, 0.0, 0.0))
  }

  /** The two records after reweighing: x scaled by 1e6. */
  predicate TinyReweighed(a2: Tri, b2: Tri) {
    && a2 == Tri(Vec3(100.0, 0.0, 0.0), Vec3(150.0, 0.0, 0.0), Vec3(100.0, 0.0, 0.0))
    && b2 == Tri(Vec3(125.0, 0.0, 0.0), Vec3(125.0, 0.0, 0.0), Vec3(125.0, 0.0, 0.0))
  }

  /** At their own scale both records are points, and the two points are
      approximately equal. */
  lemma TinyRecordsArePoints(a: Tri, b: Tri)
    requires TinyPointRecords(a, b)
    ensures ThreePoints(a) == Point && ThreePoints(b) == Point
    ensures VecEq(a.v0, b.v0)
  {
  }

  /** The largest x magnitude is 1.5e-4, at least EPS, so x is weighed by
      150 / 1.5e-4; y and z are zero and keep the weight 1. */
  lemma TinyWeights(a: Tri, b: Tri)
    requires TinyPointRecords(a, b)
    ensures Weights(a, b) == Vec3(1000000.0, 1.0, 1.0)
  {
    assert AxisMax(a, b, X) == 0.00015;
    assert AxisMax(a, b, Y) == 0.0;
    assert AxisMax(a, b, Z) == 0.0;
  }

  lemma TinyWeighted(a: Tri, b: Tri, w: Vec3)
    requires TinyPointRecords(a, b) && w == Vec3(1000000.0, 1.0, 1.0)
    ensures TinyReweighed(MulTri(a, w), MulTri(b, w))
  {
  }

  lemma TinyReweighing(a: Tri, b: Tri)
    requires TinyPointRecords(a, b)
    ensures TinyReweighed(ReWeighPair(a, b).0, ReWeighPair(a, b).1)
  {
    ReWeighPairPerAxis(a, b);
    TinyWeights(a, b);
    TinyWeighted(a, b, Weights(a, b));
  }

  /** Reweighed, the first record would be a line segment, and the first
      vertices are 25 apart. */
  lemma TinyReweighedShapes(a2: Tri, b2: Tri)
    requires TinyReweighed(a2, b2)
    ensures ThreePoints(a2) == LineSegment
    ensures !VecEq(a2.v0, b2.v0)
  {
  }

  /** The shapes come from the original records and the test from the
      reweighed ones: a record classified as a point is a line segment after
      reweighing, and two point records that are approximately equal at
      their own scale do not intersect. */
  lemma ClassifiedBeforeReweighing(a: Tri, b: Tri)
    requires TinyPointRecords(a, b)
    ensures ThreePoints(a) == Point && ThreePoints(ReWeighPair(a, b).0) == LineSegment
    ensures VecEq(a.v0, b.v0) && !Intersection(a, b)
  {
    TinyRecordsArePoints(a, b);
    TinyReweighing(a, b);
    TinyReweighedShapes(ReWeighPair(a, b).0, ReWeighPair(a, b).1);
  }
}
