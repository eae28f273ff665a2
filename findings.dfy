/** Inputs on which `triangleLineSegmentIntersected` and
    `triangleTriangleIntersected`, as written, miss an intersection that the
    corrected definitions find. Each witness is a predicate pinning its
    arguments to concrete values; every arithmetic fact about those values
    is proved once, and the witness lemmas only put the facts together. */
module Findings {
  import opened Algebra
  import opened Classification
  import opened Reshaping
  import opened Reweighing
  import opened Primitives
  import opened Dispatch

  // ---------------------------------------------------------------------------
  // General steps

  /** A direction parallel to the plane c * z == 0 from an origin on it:
      there is no plane point and the origin passes the projection test. */
  lemma InFlatPlane(c: real, x0: real, y0: real, dx: real, dy: real)
    requires SqrNorm(Vec3(0.0, 0.0, c)) != 0.0
    ensures PointInPlaneIntersectedWithLine(Plane(0.0, 0.0, c, 0.0), Vec3(x0, y0, 0.0), Vec3(dx, dy, 0.0)).None?
    ensures OnPlane(Plane(0.0, 0.0, c, 0.0), Vec3(x0, y0, 0.0))
  {
    var plane := Plane(0.0, 0.0, c, 0.0);
    var lineR0 := Vec3(x0, y0, 0.0);
    assert Dot(plane.N(), Vec3(dx, dy, 0.0)) == 0.0;
    assert Dot(lineR0, plane.N()) + plane.d == 0.0;
    ProjCanonFixesPlanePoints(plane, lineR0);
    VecEqLaws(lineR0, lineR0);
  }

  /** The directions' cross product `abCrossed` is not approximately zero and
      the shifted one is `abCrossed * t`, with `t` outside [-EPS, 1 + EPS]. */
  predicate OutsideAt(abCrossed: Vec3, shiftCrossed: Vec3, t: real) {
    !IsZeroVec(abCrossed) && shiftCrossed == Scale(abCrossed, t) && (t < -EPS || t > 1.0 + EPS)
  }

  /** Segments whose lines meet outside the first segment are rejected. */
  lemma MissedAtTime(lineR0A: Vec3, lineDirA: Vec3, lineR0B: Vec3, lineDirB: Vec3, abCrossed: Vec3, shiftCrossed: Vec3, t: real)
    requires Cross(lineDirA, lineDirB) == abCrossed
    requires Cross(Sub(lineR0B, lineR0A), lineDirB) == shiftCrossed
    requires OutsideAt(abCrossed, shiftCrossed, t)
    ensures !LineSegmentLineSegmentIntersected(lineR0A, lineDirA, lineR0B, lineDirB)
  {
    FactorOfScaled(abCrossed, t);
    SegmentSegmentRejects(lineR0A, lineDirA, lineR0B, lineDirB);
  }

  /** Both cross products are not approximately zero and `toP == toV * f`
      with `f < -EPS`: the point is on the far side of the edge. */
  predicate OutsideEdgeAt(toP: Vec3, toV: Vec3, f: real) {
    !IsZeroVec(toP) && !IsZeroVec(toV) && toP == Scale(toV, f) && f < -EPS
  }

  /** A point whose cross product is a negative multiple of the opposite
      vertex's is on the far side of the edge. */
  lemma OtherSideAt(p0: Vec3, tr0: Vec3, tr1: Vec3, tr2: Vec3, toP: Vec3, toV: Vec3, f: real)
    requires Cross(Sub(tr2, tr1), Sub(p0, tr1)) == toP
    requires Cross(Sub(tr2, tr1), Sub(tr0, tr1)) == toV
    requires OutsideEdgeAt(toP, toV, f)
    ensures !SameSide(p0, tr0, tr1, tr2)
  {
    CrossScaled(toV, f);
    IsZeroVecNeg(toV);
    FactorOfScaled(toV, f);
  }

  // ---------------------------------------------------------------------------
  // A segment lying inside a triangle, in its plane

  /** The triangle (0,0,0), (150,0,0), (0,150,0) and the segment from
      (15,15,0) to (30,20,0), strictly inside it. */
  predicate InsideSegment(tr: Tri, lineR0: Vec3, lineDir: Vec3) {
    && tr == Tri(Vec3(0.0, 0.0, 0.0), Vec3(150.0, 0.0, 0.0), Vec3(0.0, 150.0, 0.0))
    && lineR0 == Vec3(15.0, 15.0, 0.0)
    && lineDir == Vec3(15.0, 5.0, 0.0)
  }

  /** The triangle's plane is z == 0 ... */
  lemma InsideSegmentPlane(tr: Tri, lineR0: Vec3, lineDir: Vec3)
    requires InsideSegment(tr, lineR0, lineDir)
    ensures GetPlane(tr) == Plane(0.0, 0.0, 22500.0, 0.0)
  {
  }

  /** ... with a non-zero normal. */
  lemma InsideSegmentNormal()
    ensures SqrNorm(Vec3(0.0, 0.0, 22500.0)) != 0.0
  {
  }

  /** The segment lies in the triangle's plane. */
  lemma InsideSegmentInPlane(tr: Tri, lineR0: Vec3, lineDir: Vec3)
    requires InsideSegment(tr, lineR0, lineDir)
    ensures PointInPlaneIntersectedWithLine(GetPlane(tr), lineR0, lineDir).None?
    ensures OnPlane(GetPlane(tr), lineR0)
  {
    InsideSegmentPlane(tr, lineR0, lineDir);
    InsideSegmentNormal();
    InFlatPlane(22500.0, 15.0, 15.0, 15.0, 5.0);
  }

  /** The differences between the vertices and the segment's origin. */
  lemma InsideSegmentDifferences(tr: Tri, lineR0: Vec3, lineDir: Vec3)
    requires InsideSegment(tr, lineR0, lineDir)
    ensures Sub(tr.v1, tr.v0) == Vec3(150.0, 0.0, 0.0)
    ensures Sub(tr.v2, tr.v0) == Vec3(0.0, 150.0, 0.0)
    ensures Sub(tr.v2, tr.v1) == Vec3(-150.0, 150.0, 0.0)
    ensures Sub(tr.v0, tr.v1) == Vec3(-150.0, 0.0, 0.0)
    ensures Sub(tr.v0, tr.v2) == Vec3(0.0, -150.0, 0.0)
    ensures Sub(tr.v0, lineR0) == Vec3(-15.0, -15.0, 0.0)
    ensures Sub(tr.v1, lineR0) == Vec3(135.0, -15.0, 0.0)
    ensures Sub(lineR0, tr.v0) == Vec3(15.0, 15.0, 0.0)
    ensures Sub(lineR0, tr.v1) == Vec3(-135.0, 15.0, 0.0)
  {
  }

  /** The segment's direction and its shift to v0 against the edge (v0, v1) ... */
  lemma FirstEdgeCrosses(e01: Vec3, lineDir: Vec3, toV0: Vec3)
    requires e01 == Vec3(150.0, 0.0, 0.0) && lineDir == Vec3(15.0, 5.0, 0.0)
    requires toV0 == Vec3(-15.0, -15.0, 0.0)
    ensures Cross(lineDir, e01) == Vec3(0.0, 0.0, -750.0)
    ensures Cross(toV0, e01) == Vec3(0.0, 0.0, 2250.0)
  {
  }

  /** ... against the edge (v0, v2) ... */
  lemma SecondEdgeCrosses(e02: Vec3, lineDir: Vec3, toV0: Vec3)
    requires e02 == Vec3(0.0, 150.0, 0.0) && lineDir == Vec3(15.0, 5.0, 0.0)
    requires toV0 == Vec3(-15.0, -15.0, 0.0)
    ensures Cross(lineDir, e02) == Vec3(0.0, 0.0, 2250.0)
    ensures Cross(toV0, e02) == Vec3(0.0, 0.0, -2250.0)
  {
    SecondEdgeDirCross();
    SecondEdgeShiftCross();
  }

  lemma SecondEdgeDirCross()
    ensures Cross(Vec3(15.0, 5.0, 0.0), Vec3(0.0, 150.0, 0.0)) == Vec3(0.0, 0.0, 2250.0)
  {
  }

  lemma SecondEdgeShiftCross()
    ensures Cross(Vec3(-15.0, -15.0, 0.0), Vec3(0.0, 150.0, 0.0)) == Vec3(0.0, 0.0, -2250.0)
  {
  }

  /** ... and, shifted to v1, against the edge (v1, v2). */
  lemma ThirdEdgeCrosses(e12: Vec3, lineDir: Vec3, toV1: Vec3)
    requires e12 == Vec3(-150.0, 150.0, 0.0) && lineDir == Vec3(15.0, 5.0, 0.0)
    requires toV1 == Vec3(135.0, -15.0, 0.0)
    ensures Cross(lineDir, e12) == Vec3(0.0, 0.0, 3000.0)
    ensures Cross(toV1, e12) == Vec3(0.0, 0.0, 18000.0)
  {
  }

  /** The parameters -3, -1 and 6 at which the segment's line meets the
      edges' lines. */
  lemma FirstEdgeTime()
    ensures OutsideAt(Vec3(0.0, 0.0, -750.0), Vec3(0.0, 0.0, 2250.0), -3.0)
  {
  }

  lemma SecondEdgeTime()
    ensures OutsideAt(Vec3(0.0, 0.0, 2250.0), Vec3(0.0, 0.0, -2250.0), -1.0)
  {
  }

  lemma ThirdEdgeTime()
    ensures OutsideAt(Vec3(0.0, 0.0, 3000.0), Vec3(0.0, 0.0, 18000.0), 6.0)
  {
  }

  /** The segment's line meets the line of the edge (v0, v1) at its
      parameter -3 ... */
  lemma InsideSegmentMissesFirstEdge(tr: Tri, lineR0: Vec3, lineDir: Vec3)
    requires InsideSegment(tr, lineR0, lineDir)
    ensures !LineSegmentLineSegmentIntersected(lineR0, lineDir, tr.v0, Sub(tr.v1, tr.v0))
  {
    InsideSegmentDifferences(tr, lineR0, lineDir);
    FirstEdgeCrosses(Sub(tr.v1, tr.v0), lineDir, Sub(tr.v0, lineR0));
    FirstEdgeTime();
    MissedAtTime(lineR0, lineDir, tr.v0, Sub(tr.v1, tr.v0), Vec3(0.0, 0.0, -750.0), Vec3(0.0, 0.0, 2250.0), -3.0);
  }

  /** ... that of the edge (v0, v2) at -1 ... */
  lemma InsideSegmentMissesSecondEdge(tr: Tri, lineR0: Vec3, lineDir: Vec3)
    requires InsideSegment(tr, lineR0, lineDir)
    ensures !LineSegmentLineSegmentIntersected(lineR0, lineDir, tr.v0, Sub(tr.v2, tr.v0))
  {
    InsideSegmentDifferences(tr, lineR0, lineDir);
    SecondEdgeCrosses(Sub(tr.v2, tr.v0), lineDir, Sub(tr.v0, lineR0));
    SecondEdgeTime();
    MissedAtTime(lineR0, lineDir, tr.v0, Sub(tr.v2, tr.v0), Vec3(0.0, 0.0, 2250.0), Vec3(0.0, 0.0, -2250.0), -1.0);
  }

  /** ... and that of the edge (v1, v2) at 6, all outside the segment. */
  lemma InsideSegmentMissesThirdEdge(tr: Tri, lineR0: Vec3, lineDir: Vec3)
    requires InsideSegment(tr, lineR0, lineDir)
    ensures !LineSegmentLineSegmentIntersected(lineR0, lineDir, tr.v1, Sub(tr.v2, tr.v1))
  {
    InsideSegmentDifferences(tr, lineR0, lineDir);
    ThirdEdgeCrosses(Sub(tr.v2, tr.v1), lineDir, Sub(tr.v1, lineR0));
    ThirdEdgeTime();
    MissedAtTime(lineR0, lineDir, tr.v1, Sub(tr.v2, tr.v1), Vec3(0.0, 0.0, 3000.0), Vec3(0.0, 0.0, 18000.0), 6.0);
  }

  /** As written, the test misses the segment: it lies in the plane and
      crosses no edge. */
  lemma InsideSegmentMissedAsWritten(tr: Tri, lineR0: Vec3, lineDir: Vec3)
    requires InsideSegment(tr, lineR0, lineDir)
    ensures !TriangleLineSegmentIntersected(tr, lineR0, lineDir, GetPlane(tr))
  {
    InsideSegmentInPlane(tr, lineR0, lineDir);
    InsideSegmentMissesFirstEdge(tr, lineR0, lineDir);
    InsideSegmentMissesSecondEdge(tr, lineR0, lineDir);
    InsideSegmentMissesThirdEdge(tr, lineR0, lineDir);
  }

  /** The origin and v0 against the edge (v1, v2) ... */
  lemma FirstSideCrosses(e12: Vec3, fromV1: Vec3, e10: Vec3)
    requires e12 == Vec3(-150.0, 150.0, 0.0) && fromV1 == Vec3(-135.0, 15.0, 0.0)
    requires e10 == Vec3(-150.0, 0.0, 0.0)
    ensures Cross(e12, fromV1) == Vec3(0.0, 0.0, 18000.0)
    ensures Cross(e12, e10) == Vec3(0.0, 0.0, 22500.0)
  {
  }

  /** ... the origin and v1 against the edge (v0, v2) ... */
  lemma SecondSideCrosses(e02: Vec3, fromV0: Vec3, e01: Vec3)
    requires e02 == Vec3(0.0, 150.0, 0.0) && fromV0 == Vec3(15.0, 15.0, 0.0)
    requires e01 == Vec3(150.0, 0.0, 0.0)
    ensures Cross(e02, fromV0) == Vec3(0.0, 0.0, -2250.0)
    ensures Cross(e02, e01) == Vec3(0.0, 0.0, -22500.0)
  {
  }

  /** ... and the origin and v2 against the edge (v0, v1). */
  lemma ThirdSideCrosses(e01: Vec3, fromV0: Vec3, e02: Vec3)
    requires e01 == Vec3(150.0, 0.0, 0.0) && fromV0 == Vec3(15.0, 15.0, 0.0)
    requires e02 == Vec3(0.0, 150.0, 0.0)
    ensures Cross(e01, fromV0) == Vec3(0.0, 0.0, 2250.0)
    ensures Cross(e01, e02) == Vec3(0.0, 0.0, 22500.0)
  {
  }

  /** The factors 0.8, 0.1 and 0.1 of the origin's cross products to the
      opposite vertices'. */
  lemma FirstSideFactor()
    ensures InsideAt(Vec3(0.0, 0.0, 18000.0), Vec3(0.0, 0.0, 22500.0), 0.8)
  {
  }

  lemma SecondSideFactor()
    ensures InsideAt(Vec3(0.0, 0.0, -2250.0), Vec3(0.0, 0.0, -22500.0), 0.1)
  {
  }

  lemma ThirdSideFactor()
    ensures InsideAt(Vec3(0.0, 0.0, 2250.0), Vec3(0.0, 0.0, 22500.0), 0.1)
  {
  }

  /** The origin is on the inner side of the edge (v1, v2) ... */
  lemma OriginInsideFirstSide(tr: Tri, lineR0: Vec3, lineDir: Vec3)
    requires InsideSegment(tr, lineR0, lineDir)
    ensures SameSide(lineR0, tr.v0, tr.v1, tr.v2)
  {
    InsideSegmentDifferences(tr, lineR0, lineDir);
    FirstSideCrosses(Sub(tr.v2, tr.v1), Sub(lineR0, tr.v1), Sub(tr.v0, tr.v1));
    FirstSideFactor();
    SameSideScaled(lineR0, tr.v0, tr.v1, tr.v2, Vec3(0.0, 0.0, 18000.0), Vec3(0.0, 0.0, 22500.0), 0.8);
  }

  /** ... of the edge (v0, v2) ... */
  lemma OriginInsideSecondSide(tr: Tri, lineR0: Vec3, lineDir: Vec3)
    requires InsideSegment(tr, lineR0, lineDir)
    ensures SameSide(lineR0, tr.v1, tr.v0, tr.v2)
  {
    InsideSegmentDifferences(tr, lineR0, lineDir);
    SecondSideCrosses(Sub(tr.v2, tr.v0), Sub(lineR0, tr.v0), Sub(tr.v1, tr.v0));
    SecondSideFactor();
    SameSideScaled(lineR0, tr.v1, tr.v0, tr.v2, Vec3(0.0, 0.0, -2250.0), Vec3(0.0, 0.0, -22500.0), 0.1);
  }

  /** ... and of the edge (v0, v1). */
  lemma OriginInsideThirdSide(tr: Tri, lineR0: Vec3, lineDir: Vec3)
    requires InsideSegment(tr, lineR0, lineDir)
    ensures SameSide(lineR0, tr.v2, tr.v0, tr.v1)
  {
    InsideSegmentDifferences(tr, lineR0, lineDir);
    ThirdSideCrosses(Sub(tr.v1, tr.v0), Sub(lineR0, tr.v0), Sub(tr.v2, tr.v0));
    ThirdSideFactor();
    SameSideScaled(lineR0, tr.v2, tr.v0, tr.v1, Vec3(0.0, 0.0, 2250.0), Vec3(0.0, 0.0, 22500.0), 0.1);
  }

  /** The normal the point test uses, and the origin's offset along it, whose
      absolute value 0 is below EPS. */
  lemma InsideSegmentFlatness(e10: Vec3, e20: Vec3, toV0: Vec3)
    requires e10 == Vec3(-150.0, 0.0, 0.0) && e20 == Vec3(0.0, -150.0, 0.0)
    requires toV0 == Vec3(-15.0, -15.0, 0.0)
    ensures Abs(Dot(toV0, Cross(e10, e20))) < EPS
  {
  }

  /** The origin lies in the triangle. */
  lemma OriginInTriangle(tr: Tri, lineR0: Vec3, lineDir: Vec3)
    requires InsideSegment(tr, lineR0, lineDir)
    ensures TrianglePointIntersected(tr, lineR0)
  {
    OriginInsideFirstSide(tr, lineR0, lineDir);
    OriginInsideSecondSide(tr, lineR0, lineDir);
    OriginInsideThirdSide(tr, lineR0, lineDir);
    InsideSegmentDifferences(tr, lineR0, lineDir);
    InsideSegmentFlatness(Sub(tr.v0, tr.v1), Sub(tr.v0, tr.v2), Sub(tr.v0, lineR0));
  }

  /** The corrected test finds the segment. */
  lemma InsideSegmentFoundCorrected(tr: Tri, lineR0: Vec3, lineDir: Vec3)
    requires InsideSegment(tr, lineR0, lineDir)
    ensures TriangleLineSegmentCorrected(tr, lineR0, lineDir, GetPlane(tr))
  {
    InsideSegmentInPlane(tr, lineR0, lineDir);
    OriginInTriangle(tr, lineR0, lineDir);
  }

  /** The same triangle and segment as records of `intersected`: the
      segment record repeats its first vertex. */
  predicate InsideSegmentRecords(a: Tri, b: Tri) {
    && a == Tri(Vec3(0.0, 0.0, 0.0), Vec3(150.0, 0.0, 0.0), Vec3(0.0, 150.0, 0.0))
    && b == Tri(Vec3(15.0, 15.0, 0.0), Vec3(15.0, 15.0, 0.0), Vec3(30.0, 20.0, 0.0))
  }

  lemma InsideSegmentRecordShapes(a: Tri, b: Tri)
    requires InsideSegmentRecords(a, b)
    ensures ThreePoints(a) == Triangle && ThreePoints(b) == LineSegment
  {
  }

  /** The largest magnitudes are 150, 150 and 0, so every weight is 1 ... */
  lemma InsideSegmentRecordWeights(a: Tri, b: Tri)
    requires InsideSegmentRecords(a, b)
    ensures Weights(a, b) == Vec3(1.0, 1.0, 1.0)
  {
    assert AxisMax(a, b, X) == 150.0;
    assert AxisMax(a, b, Y) == 150.0;
    assert AxisMax(a, b, Z) == 0.0;
  }

  /** ... and weights of 1 change nothing. */
  lemma UnitWeightsKeep(t: Tri)
    ensures MulTri(t, Vec3(1.0, 1.0, 1.0)) == t
  {
  }

  lemma InsideSegmentRecordsKept(a: Tri, b: Tri)
    requires InsideSegmentRecords(a, b)
    ensures ReWeighPair(a, b) == (a, b)
  {
    ReWeighPairPerAxis(a, b);
    InsideSegmentRecordWeights(a, b);
    UnitWeightsKeep(a);
    UnitWeightsKeep(b);
  }

  /** The segment read off the record runs from (15,15,0) along (15,5,0). */
  lemma InsideSegmentRecordLine(a: Tri, b: Tri)
    requires InsideSegmentRecords(a, b)
    ensures InsideSegment(a, GetLineFromThreePoints(b).r0, GetLineFromThreePoints(b).dir)
  {
  }

  /** A triangle record against a line segment record that reweighing leaves
      alone is decided by the triangle/segment test on the records themselves. */
  lemma TriangleSegmentRecords(a: Tri, b: Tri)
    requires ThreePoints(a) == Triangle && ThreePoints(b) == LineSegment
    requires ReWeighPair(a, b) == (a, b)
    ensures Intersection(a, b) == TriangleSegment(a, b)
    ensures IntersectionCorrected(a, b) == TriangleSegmentCorrected(a, b)
  {
  }

  /** The first finding through `intersected` itself: the triangle record and
      the segment record lying inside it do not intersect, while the
      corrected routing finds them. */
  lemma InsideSegmentRecordsMissed(a: Tri, b: Tri)
    requires InsideSegmentRecords(a, b)
    ensures !Intersection(a, b) && IntersectionCorrected(a, b)
  {
    InsideSegmentRecordShapes(a, b);
    InsideSegmentRecordsKept(a, b);
    TriangleSegmentRecords(a, b);
    InsideSegmentRecordLine(a, b);
    var l := GetLineFromThreePoints(b);
    InsideSegmentMissedAsWritten(a, l.r0, l.dir);
    InsideSegmentFoundCorrected(a, l.r0, l.dir);
  }

  // ---------------------------------------------------------------------------
  // Two triangles meeting only through an edge (v1, v2)

  /** Unfolding step, not a property: a segment whose line meets the plane at
      a parameter outside the segment misses the triangle. */
  lemma MissedBeyondSegment(tr: Tri, lineR0: Vec3, lineDir: Vec3, plane: Plane, p: Vec3, offset: Vec3)
    requires PointInPlaneIntersectedWithLine(plane, lineR0, lineDir) == Some(p)
    requires Sub(p, lineR0) == offset && !WithinSegmentAlongFirstAxis(offset, lineDir)
    ensures !TriangleLineSegmentIntersected(tr, lineR0, lineDir, plane)
    ensures !TriangleLineSegmentCorrected(tr, lineR0, lineDir, plane)
  {
  }

  /** Unfolding step, not a property: a segment meeting the plane at a point
      on the far side of the triangle's edge (v1, v2) misses the triangle. */
  lemma MissedThroughPlane(tr: Tri, lineR0: Vec3, lineDir: Vec3, plane: Plane, p: Vec3)
    requires PointInPlaneIntersectedWithLine(plane, lineR0, lineDir) == Some(p)
    requires !SameSide(p, tr.v0, tr.v1, tr.v2)
    ensures !TriangleLineSegmentIntersected(tr, lineR0, lineDir, plane)
    ensures !TriangleLineSegmentCorrected(tr, lineR0, lineDir, plane)
  {
  }

  /** Unfolding step, not a property: a segment meeting the plane within its
      range at a point inside the triangle meets it. */
  lemma FoundThroughPlane(tr: Tri, lineR0: Vec3, lineDir: Vec3, plane: Plane, p: Vec3, offset: Vec3)
    requires PointInPlaneIntersectedWithLine(plane, lineR0, lineDir) == Some(p)
    requires Sub(p, lineR0) == offset && WithinSegmentAlongFirstAxis(offset, lineDir)
    requires TrianglePointIntersected(tr, p)
    ensures TriangleLineSegmentIntersected(tr, lineR0, lineDir, plane)
    ensures TriangleLineSegmentCorrected(tr, lineR0, lineDir, plane)
  {
  }

  /** A triangle in the plane y == 0 and a triangle in the plane z == 0 that
      overlap along x in [1.5, 2] of the x axis. The second triangle's edge
      from (1.5,1,0) to (1.5,-1,0) passes through the first at (1.5,0,0);
      every edge from either first vertex passes beside the other triangle. */
  predicate CrossingTriangles(a: Tri, b: Tri) {
    && a == Tri(Vec3(0.0, 0.0, 1.0), Vec3(2.0, 0.0, 2.0), Vec3(2.0, 0.0, -3.0))
    && b == Tri(Vec3(3.5, 1.5, 0.0), Vec3(1.5, 1.0, 0.0), Vec3(1.5, -1.0, 0.0))
  }

  /** The first triangle's plane is 10 * y == 0 ... */
  lemma FirstCrossingPlane(a: Tri, b: Tri)
    requires CrossingTriangles(a, b)
    ensures GetPlane(a) == Plane(0.0, 10.0, 0.0, 0.0)
  {
  }

  /** ... the second's is 4 * z == 0. */
  lemma SecondCrossingPlane(a: Tri, b: Tri)
    requires CrossingTriangles(a, b)
    ensures GetPlane(b) == Plane(0.0, 0.0, 4.0, 0.0)
  {
  }

  /** The edge vectors of both triangles. */
  lemma CrossingDifferences(a: Tri, b: Tri)
    requires CrossingTriangles(a, b)
    ensures Sub(a.v1, a.v0) == Vec3(2.0, 0.0, 1.0)
    ensures Sub(a.v2, a.v0) == Vec3(2.0, 0.0, -4.0)
    ensures Sub(a.v2, a.v1) == Vec3(0.0, 0.0, -5.0)
    ensures Sub(a.v0, a.v1) == Vec3(-2.0, 0.0, -1.0)
    ensures Sub(a.v0, a.v2) == Vec3(-2.0, 0.0, 4.0)
    ensures Sub(b.v1, b.v0) == Vec3(-2.0, -0.5, 0.0)
    ensures Sub(b.v2, b.v0) == Vec3(-2.0, -2.5, 0.0)
    ensures Sub(b.v2, b.v1) == Vec3(0.0, -2.0, 0.0)
    ensures Sub(b.v0, b.v1) == Vec3(2.0, 0.5, 0.0)
  {
  }

  /** The offsets of the points where the four edges tried as written meet
      the other plane ... */
  lemma CrossingMissOffsets(a: Tri, b: Tri)
    requires CrossingTriangles(a, b)
    ensures Sub(Vec3(-2.5, 0.0, 0.0), b.v0) == Vec3(-6.0, -1.5, 0.0)
    ensures Sub(Vec3(2.3, 0.0, 0.0), a.v1) == Vec3(0.3, 0.0, -2.0)
    ensures Sub(Vec3(-2.0, 0.0, 0.0), a.v0) == Vec3(-2.0, 0.0, -1.0)
    ensures Sub(Vec3(0.5, 0.0, 0.0), b.v1) == Vec3(-1.0, -1.0, 0.0)
  {
    MissOffsetsFromFirst(a, b);
    MissOffsetsFromSecond(a, b);
  }

  lemma MissOffsetsFromFirst(a: Tri, b: Tri)
    requires CrossingTriangles(a, b)
    ensures Sub(Vec3(2.3, 0.0, 0.0), a.v1) == Vec3(0.3, 0.0, -2.0)
    ensures Sub(Vec3(-2.0, 0.0, 0.0), a.v0) == Vec3(-2.0, 0.0, -1.0)
  {
  }

  lemma MissOffsetsFromSecond(a: Tri, b: Tri)
    requires CrossingTriangles(a, b)
    ensures Sub(Vec3(-2.5, 0.0, 0.0), b.v0) == Vec3(-6.0, -1.5, 0.0)
    ensures Sub(Vec3(0.5, 0.0, 0.0), b.v1) == Vec3(-1.0, -1.0, 0.0)
  {
  }

  /** ... and of the point (1.5, 0, 0) from the first triangle's vertices ... */
  lemma CrossingHitOffsets(a: Tri, b: Tri)
    requires CrossingTriangles(a, b)
    ensures Sub(Vec3(1.5, 0.0, 0.0), a.v1) == Vec3(-0.5, 0.0, -2.0)
    ensures Sub(Vec3(1.5, 0.0, 0.0), a.v0) == Vec3(1.5, 0.0, -1.0)
  {
  }

  /** ... to the first triangle's v0 ... */
  lemma CrossingHitReach(a: Tri, b: Tri)
    requires CrossingTriangles(a, b)
    ensures Sub(a.v0, Vec3(1.5, 0.0, 0.0)) == Vec3(-1.5, 0.0, 1.0)
  {
  }

  /** ... and from the second's v1. */
  lemma CrossingHitAlongEdge(a: Tri, b: Tri)
    requires CrossingTriangles(a, b)
    ensures Sub(Vec3(1.5, 0.0, 0.0), b.v1) == Vec3(0.0, -1.0, 0.0)
  {
  }

  /** The line of the second triangle's edge (v0, v1) meets the first's plane
      at (-2.5, 0, 0), three lengths back along the edge ... */
  lemma FirstEdgeMeetsFirstPlane()
    ensures PointInPlaneIntersectedWithLine(Plane(0.0, 10.0, 0.0, 0.0), Vec3(3.5, 1.5, 0.0), Vec3(-2.0, -0.5, 0.0))
            == Some(Vec3(-2.5, 0.0, 0.0))
  {
  }

  lemma FirstEdgeBeyond()
    ensures !WithinSegmentAlongFirstAxis(Vec3(-6.0, -1.5, 0.0), Vec3(-2.0, -0.5, 0.0))
  {
  }

  /** ... its edge (v0, v2) meets it at (2.3, 0, 0) ... */
  lemma SecondEdgeMeetsFirstPlane()
    ensures PointInPlaneIntersectedWithLine(Plane(0.0, 10.0, 0.0, 0.0), Vec3(3.5, 1.5, 0.0), Vec3(-2.0, -2.5, 0.0))
            == Some(Vec3(2.3, 0.0, 0.0))
  {
  }

  /** ... the line of the first triangle's edge (v0, v1) meets the second's
      plane at (-2, 0, 0), one length before the edge ... */
  lemma FirstEdgeMeetsSecondPlane()
    ensures PointInPlaneIntersectedWithLine(Plane(0.0, 0.0, 4.0, 0.0), Vec3(0.0, 0.0, 1.0), Vec3(2.0, 0.0, 1.0))
            == Some(Vec3(-2.0, 0.0, 0.0))
  {
  }

  lemma FirstEdgeBefore()
    ensures !WithinSegmentAlongFirstAxis(Vec3(-2.0, 0.0, -1.0), Vec3(2.0, 0.0, 1.0))
  {
  }

  /** ... and its edge (v0, v2) meets it at (0.5, 0, 0). */
  lemma SecondEdgeMeetsSecondPlane()
    ensures PointInPlaneIntersectedWithLine(Plane(0.0, 0.0, 4.0, 0.0), Vec3(0.0, 0.0, 1.0), Vec3(2.0, 0.0, -4.0))
            == Some(Vec3(0.5, 0.0, 0.0))
  {
  }

  /** The first triangle's vertex v0 against its edge (v1, v2) ... */
  lemma FirstVertexCrosses(e12: Vec3, toV: Vec3)
    requires e12 == Vec3(0.0, 0.0, -5.0) && toV == Vec3(-2.0, 0.0, -1.0)
    ensures Cross(e12, toV) == Vec3(0.0, 10.0, 0.0)
  {
  }

  /** ... and (2.3, 0, 0) against the same edge ... */
  lemma FirstOutsideCrosses(e12: Vec3, toP: Vec3)
    requires e12 == Vec3(0.0, 0.0, -5.0) && toP == Vec3(0.3, 0.0, -2.0)
    ensures Cross(e12, toP) == Vec3(0.0, -1.5, 0.0)
  {
  }

  /** ... and (0.5, 0, 0) and the vertex v0 of the second triangle against its
      edge (v1, v2). */
  lemma SecondOutsideCrosses(e12: Vec3, toP: Vec3, toV: Vec3)
    requires e12 == Vec3(0.0, -2.0, 0.0) && toP == Vec3(-1.0, -1.0, 0.0) && toV == Vec3(2.0, 0.5, 0.0)
    ensures Cross(e12, toP) == Vec3(0.0, 0.0, -2.0)
    ensures Cross(e12, toV) == Vec3(0.0, 0.0, 4.0)
  {
  }

  /** The factor -0.15 puts (2.3, 0, 0) on the far side ... */
  lemma FirstOutsideFactor()
    ensures OutsideEdgeAt(Vec3(0.0, -1.5, 0.0), Vec3(0.0, 10.0, 0.0), -0.15)
  {
  }

  /** ... and the factor -0.5 puts (0.5, 0, 0) there. */
  lemma SecondOutsideFactor()
    ensures OutsideEdgeAt(Vec3(0.0, 0.0, -2.0), Vec3(0.0, 0.0, 4.0), -0.5)
  {
  }

  /** (2.3, 0, 0) is outside the first triangle ... */
  lemma FirstPlanePointOutside(a: Tri, b: Tri)
    requires CrossingTriangles(a, b)
    ensures !SameSide(Vec3(2.3, 0.0, 0.0), a.v0, a.v1, a.v2)
  {
    CrossingDifferences(a, b);
    CrossingMissOffsets(a, b);
    FirstOutsideCrosses(Sub(a.v2, a.v1), Sub(Vec3(2.3, 0.0, 0.0), a.v1));
    FirstVertexCrosses(Sub(a.v2, a.v1), Sub(a.v0, a.v1));
    FirstOutsideFactor();
    OtherSideAt(Vec3(2.3, 0.0, 0.0), a.v0, a.v1, a.v2, Vec3(0.0, -1.5, 0.0), Vec3(0.0, 10.0, 0.0), -0.15);
  }

  /** ... and (0.5, 0, 0) outside the second. */
  lemma SecondPlanePointOutside(a: Tri, b: Tri)
    requires CrossingTriangles(a, b)
    ensures !SameSide(Vec3(0.5, 0.0, 0.0), b.v0, b.v1, b.v2)
  {
    CrossingDifferences(a, b);
    CrossingMissOffsets(a, b);
    SecondOutsideCrosses(Sub(b.v2, b.v1), Sub(Vec3(0.5, 0.0, 0.0), b.v1), Sub(b.v0, b.v1));
    SecondOutsideFactor();
    OtherSideAt(Vec3(0.5, 0.0, 0.0), b.v0, b.v1, b.v2, Vec3(0.0, 0.0, -2.0), Vec3(0.0, 0.0, 4.0), -0.5);
  }

  /** The second triangle's edge (v0, v1) misses the first triangle ... */
  lemma CrossingFirstCallMisses(a: Tri, b: Tri)
    requires CrossingTriangles(a, b)
    ensures !TriangleLineSegmentIntersected(a, b.v0, Sub(b.v1, b.v0), GetPlane(a))
  {
    FirstCrossingPlane(a, b);
    CrossingDifferences(a, b);
    CrossingMissOffsets(a, b);
    FirstEdgeMeetsFirstPlane();
    FirstEdgeBeyond();
    MissedBeyondSegment(a, b.v0, Sub(b.v1, b.v0), GetPlane(a), Vec3(-2.5, 0.0, 0.0), Vec3(-6.0, -1.5, 0.0));
  }

  /** ... its edge (v0, v2) meets the plane outside it ... */
  lemma CrossingSecondCallMisses(a: Tri, b: Tri)
    requires CrossingTriangles(a, b)
    ensures !TriangleLineSegmentIntersected(a, b.v0, Sub(b.v2, b.v0), GetPlane(a))
  {
    FirstCrossingPlane(a, b);
    CrossingDifferences(a, b);
    SecondEdgeMeetsFirstPlane();
    FirstPlanePointOutside(a, b);
    MissedThroughPlane(a, b.v0, Sub(b.v2, b.v0), GetPlane(a), Vec3(2.3, 0.0, 0.0));
  }

  /** ... the first triangle's edge (v0, v1) misses the second ... */
  lemma CrossingThirdCallMisses(a: Tri, b: Tri)
    requires CrossingTriangles(a, b)
    ensures !TriangleLineSegmentIntersected(b, a.v0, Sub(a.v1, a.v0), GetPlane(b))
  {
    SecondCrossingPlane(a, b);
    CrossingDifferences(a, b);
    CrossingMissOffsets(a, b);
    FirstEdgeMeetsSecondPlane();
    FirstEdgeBefore();
    MissedBeyondSegment(b, a.v0, Sub(a.v1, a.v0), GetPlane(b), Vec3(-2.0, 0.0, 0.0), Vec3(-2.0, 0.0, -1.0));
  }

  /** ... and its edge (v0, v2) meets the second's plane outside it. */
  lemma CrossingFourthCallMisses(a: Tri, b: Tri)
    requires CrossingTriangles(a, b)
    ensures !TriangleLineSegmentIntersected(b, a.v0, Sub(a.v2, a.v0), GetPlane(b))
  {
    SecondCrossingPlane(a, b);
    CrossingDifferences(a, b);
    SecondEdgeMeetsSecondPlane();
    SecondPlanePointOutside(a, b);
    MissedThroughPlane(b, a.v0, Sub(a.v2, a.v0), GetPlane(b), Vec3(0.5, 0.0, 0.0));
  }

  /** As written, the test tries only the edges (v0, v1) and (v0, v2) of
      each triangle, and all four miss. */
  lemma CrossingTrianglesMissedAsWritten(a: Tri, b: Tri)
    requires CrossingTriangles(a, b)
    ensures !TriangleTriangleIntersected(a, GetPlane(a), b, GetPlane(b))
  {
    CrossingFirstCallMisses(a, b);
    CrossingSecondCallMisses(a, b);
    CrossingThirdCallMisses(a, b);
    CrossingFourthCallMisses(a, b);
  }

  /** The edge (v1, v2) of the second triangle meets the first's plane at
      (1.5, 0, 0) ... */
  lemma ThirdEdgeMeetsFirstPlane()
    ensures PointInPlaneIntersectedWithLine(Plane(0.0, 10.0, 0.0, 0.0), Vec3(1.5, 1.0, 0.0), Vec3(0.0, -2.0, 0.0))
            == Some(Vec3(1.5, 0.0, 0.0))
  {
  }

  /** ... halfway along the edge. */
  lemma ThirdEdgeHalfway()
    ensures WithinSegmentAlongFirstAxis(Vec3(0.0, -1.0, 0.0), Vec3(0.0, -2.0, 0.0))
  {
  }

  /** (1.5, 0, 0) against the first triangle's edge (v1, v2) ... */
  lemma HitFirstSideCrosses(e12: Vec3, toP: Vec3)
    requires e12 == Vec3(0.0, 0.0, -5.0) && toP == Vec3(-0.5, 0.0, -2.0)
    ensures Cross(e12, toP) == Vec3(0.0, 2.5, 0.0)
  {
  }

  /** ... (1.5, 0, 0) and v1 against the edge (v0, v2) ... */
  lemma HitSecondSideCrosses(e02: Vec3, toP: Vec3)
    requires e02 == Vec3(2.0, 0.0, -4.0) && toP == Vec3(1.5, 0.0, -1.0)
    ensures Cross(e02, toP) == Vec3(0.0, -4.0, 0.0)
  {
  }

  lemma SecondVertexCrosses(e02: Vec3, toV: Vec3)
    requires e02 == Vec3(2.0, 0.0, -4.0) && toV == Vec3(2.0, 0.0, 1.0)
    ensures Cross(e02, toV) == Vec3(0.0, -10.0, 0.0)
  {
  }

  /** ... and (1.5, 0, 0) and v2 against the edge (v0, v1). */
  lemma HitThirdSideCrosses(e01: Vec3, toP: Vec3, toV: Vec3)
    requires e01 == Vec3(2.0, 0.0, 1.0) && toP == Vec3(1.5, 0.0, -1.0) && toV == Vec3(2.0, 0.0, -4.0)
    ensures Cross(e01, toP) == Vec3(0.0, 3.5, 0.0)
    ensures Cross(e01, toV) == Vec3(0.0, 10.0, 0.0)
  {
  }

  /** The factors 0.25, 0.4 and 0.35. */
  lemma HitFirstSideFactor()
    ensures InsideAt(Vec3(0.0, 2.5, 0.0), Vec3(0.0, 10.0, 0.0), 0.25)
  {
  }

  lemma HitSecondSideFactor()
    ensures InsideAt(Vec3(0.0, -4.0, 0.0), Vec3(0.0, -10.0, 0.0), 0.4)
  {
  }

  lemma HitThirdSideFactor()
    ensures InsideAt(Vec3(0.0, 3.5, 0.0), Vec3(0.0, 10.0, 0.0), 0.35)
  {
  }

  /** (1.5, 0, 0) is on the inner side of the first triangle's edge (v1, v2) ... */
  lemma HitInsideFirstSide(a: Tri, b: Tri)
    requires CrossingTriangles(a, b)
    ensures SameSide(Vec3(1.5, 0.0, 0.0), a.v0, a.v1, a.v2)
  {
    CrossingDifferences(a, b);
    CrossingHitOffsets(a, b);
    HitFirstSideCrosses(Sub(a.v2, a.v1), Sub(Vec3(1.5, 0.0, 0.0), a.v1));
    FirstVertexCrosses(Sub(a.v2, a.v1), Sub(a.v0, a.v1));
    HitFirstSideFactor();
    SameSideScaled(Vec3(1.5, 0.0, 0.0), a.v0, a.v1, a.v2, Vec3(0.0, 2.5, 0.0), Vec3(0.0, 10.0, 0.0), 0.25);
  }

  /** ... of its edge (v0, v2) ... */
  lemma HitInsideSecondSide(a: Tri, b: Tri)
    requires CrossingTriangles(a, b)
    ensures SameSide(Vec3(1.5, 0.0, 0.0), a.v1, a.v0, a.v2)
  {
    CrossingDifferences(a, b);
    CrossingHitOffsets(a, b);
    HitSecondSideCrosses(Sub(a.v2, a.v0), Sub(Vec3(1.5, 0.0, 0.0), a.v0));
    SecondVertexCrosses(Sub(a.v2, a.v0), Sub(a.v1, a.v0));
    HitSecondSideFactor();
    SameSideScaled(Vec3(1.5, 0.0, 0.0), a.v1, a.v0, a.v2, Vec3(0.0, -4.0, 0.0), Vec3(0.0, -10.0, 0.0), 0.4);
  }

  /** ... and of its edge (v0, v1). */
  lemma HitInsideThirdSide(a: Tri, b: Tri)
    requires CrossingTriangles(a, b)
    ensures SameSide(Vec3(1.5, 0.0, 0.0), a.v2, a.v0, a.v1)
  {
    CrossingDifferences(a, b);
    CrossingHitOffsets(a, b);
    HitThirdSideCrosses(Sub(a.v1, a.v0), Sub(Vec3(1.5, 0.0, 0.0), a.v0), Sub(a.v2, a.v0));
    HitThirdSideFactor();
    SameSideScaled(Vec3(1.5, 0.0, 0.0), a.v2, a.v0, a.v1, Vec3(0.0, 3.5, 0.0), Vec3(0.0, 10.0, 0.0), 0.35);
  }

  /** The first triangle's normal as the point test computes it, and the
      point's offset along it. */
  lemma HitFlatness(e10: Vec3, e20: Vec3, toV0: Vec3)
    requires e10 == Vec3(-2.0, 0.0, -1.0) && e20 == Vec3(-2.0, 0.0, 4.0)
    requires toV0 == Vec3(-1.5, 0.0, 1.0)
    ensures Abs(Dot(toV0, Cross(e10, e20))) < EPS
  {
  }

  /** (1.5, 0, 0) lies in the first triangle. */
  lemma HitInFirstTriangle(a: Tri, b: Tri)
    requires CrossingTriangles(a, b)
    ensures TrianglePointIntersected(a, Vec3(1.5, 0.0, 0.0))
  {
    HitInsideFirstSide(a, b);
    HitInsideSecondSide(a, b);
    HitInsideThirdSide(a, b);
    CrossingDifferences(a, b);
    CrossingHitOffsets(a, b);
    CrossingHitReach(a, b);
    HitFlatness(Sub(a.v0, a.v1), Sub(a.v0, a.v2), Sub(a.v0, Vec3(1.5, 0.0, 0.0)));
  }

  /** The second triangle's edge (v1, v2) meets the first triangle. */
  lemma CrossingThirdEdgeMeets(a: Tri, b: Tri)
    requires CrossingTriangles(a, b)
    ensures TriangleLineSegmentCorrected(a, b.v1, Sub(b.v2, b.v1), GetPlane(a))
  {
    FirstCrossingPlane(a, b);
    CrossingDifferences(a, b);
    CrossingHitAlongEdge(a, b);
    ThirdEdgeMeetsFirstPlane();
    ThirdEdgeHalfway();
    HitInFirstTriangle(a, b);
    FoundThroughPlane(a, b.v1, Sub(b.v2, b.v1), GetPlane(a), Vec3(1.5, 0.0, 0.0), Vec3(0.0, -1.0, 0.0));
  }

  /** The corrected test, trying all three edges, finds the intersection. */
  lemma CrossingTrianglesFoundCorrected(a: Tri, b: Tri)
    requires CrossingTriangles(a, b)
    ensures TriangleTriangleCorrected(a, GetPlane(a), b, GetPlane(b))
  {
    CrossingThirdEdgeMeets(a, b);
  }
}
