/** `Classification` of `src/triangle_intersection.cpp`: a 3-point record is a
    point, a line segment or a triangle, decided by approximate equality of
    its vertices at their original scale. */
module Classification {
  import opened Algebra

  /** `ThreePointsShape`. */
  datatype Shape = Point | Triangle | LineSegment

  /** All three vertices approximately equal the first. */
  predicate IsPoint(tr: Tri) { VecEq(tr.v0, tr.v1) && VecEq(tr.v0, tr.v2) }

  /** The three vertices are pairwise not approximately equal; collinear
      vertices are not excluded. */
  predicate IsTriangle(tr: Tri) { VecNe(tr.v0, tr.v1) && VecNe(tr.v0, tr.v2) && VecNe(tr.v1, tr.v2) }

  predicate IsLineSegment(tr: Tri) { !IsPoint(tr) && !IsTriangle(tr) }

  /** `threePoints`: the triangle test first, then the point test. The shape
      returned is the one whose predicate holds, and exactly one does. */
  function ThreePoints(tr: Tri): (s: Shape)
    ensures s == Triangle <==> IsTriangle(tr)
    ensures s == Point <==> IsPoint(tr)
    ensures s == LineSegment <==> IsLineSegment(tr)
  {
    if IsTriangle(tr) then Triangle
    else if IsPoint(tr) then Point
    else LineSegment
  }

  /** A line segment record has exactly one approximately equal pair in the
      sense of the source's pairwise tests: at least one pair is equal and at
      least one is not. */
  lemma LineSegmentPairs(tr: Tri)
    requires ThreePoints(tr) == LineSegment
    ensures VecEq(tr.v0, tr.v1) || VecEq(tr.v0, tr.v2) || VecEq(tr.v1, tr.v2)
    ensures VecNe(tr.v0, tr.v1) || VecNe(tr.v0, tr.v2)
  {
  }

  /** Approximate equality is not transitive: with v0 ~ v1 and v1 ~ v2 but
      v0 and v2 more than EPS apart, the record is a line segment, not a
      point, although each vertex is near the next. */
  lemma ChainIsLineSegment()
    ensures ThreePoints(Tri(Zero, Vec3(0.00006, 0.0, 0.0), Vec3(0.00012, 0.0, 0.0))) == LineSegment
  {
  }
}
