/** `Reshaping` of `src/triangle_intersection.cpp`: the plane through a
    triangle and the (origin, direction) form of a line segment record. */
module Reshaping {
  import opened Algebra
  import opened Classification

  /** `getPlane`: the coefficients expanded over the vertices, without edge
      vectors. */
  function GetPlane(tr: Tri): Plane {
    var v0, v1, v2 := tr.v0, tr.v1, tr.v2;
    Plane(
      v0.y * v1.z - v0.y * v2.z - v1.y * v0.z + v1.y * v2.z + v2.y * v0.z - v2.y * v1.z,
      -v0.x * v1.z + v0.x * v2.z + v1.x * v0.z - v1.x * v2.z - v2.x * v0.z + v2.x * v1.z,
      v0.x * v1.y - v0.x * v2.y - v1.x * v0.y + v1.x * v2.y + v2.x * v0.y - v2.x * v1.y,
      -v0.x * v1.y * v2.z + v0.x * v2.y * v1.z + v1.x * v0.y * v2.z
        - v1.x * v2.y * v0.z - v2.x * v0.y * v1.z + v2.x * v1.y * v0.z)
  }

  /** The plane's normal is the cross product of the edges (v1 - v0) and
      (v2 - v0), exactly. */
  lemma PlaneNormalIsEdgeCross(tr: Tri)
    ensures GetPlane(tr).N() == Cross(Sub(tr.v1, tr.v0), Sub(tr.v2, tr.v0))
  {
  }

  /** All three vertices satisfy the plane equation exactly. */
  lemma PlaneContainsVertices(tr: Tri)
    ensures Dot(tr.v0, GetPlane(tr).N()) + GetPlane(tr).d == 0.0
    ensures Dot(tr.v1, GetPlane(tr).N()) + GetPlane(tr).d == 0.0
    ensures Dot(tr.v2, GetPlane(tr).N()) + GetPlane(tr).d == 0.0
  {
  }

  /** A segment as its origin and its direction (`lineR0`, `lineDir`). */
  datatype Line = Line(r0: Vec3, dir: Vec3)

  /** `getLineFromThreePoins`: from v0 towards v2, or towards v1 when v2
      approximately equals v0. */
  function GetLineFromThreePoints(tr: Tri): (l: Line)
    ensures l.r0 == tr.v0
    ensures VecNe(tr.v0, tr.v2) ==> Add(l.r0, l.dir) == tr.v2
    ensures VecEq(tr.v0, tr.v2) ==> Add(l.r0, l.dir) == tr.v1
  {
    if VecNe(tr.v0, tr.v2) then Line(tr.v0, Sub(tr.v2, tr.v0))
    else Line(tr.v0, Sub(tr.v1, tr.v0))
  }

  /** For a line segment record the direction is not approximately zero, and
      every vertex approximately equals one of the two endpoints. */
  lemma LineOfSegmentRecord(tr: Tri)
    requires ThreePoints(tr) == LineSegment
    ensures !IsZeroVec(GetLineFromThreePoints(tr).dir)
    ensures var l := GetLineFromThreePoints(tr);
            forall v | v in [tr.v0, tr.v1, tr.v2] :: VecEq(v, l.r0) || VecEq(v, Add(l.r0, l.dir))
  {
    var l := GetLineFromThreePoints(tr);
    VecEqLaws(tr.v0, tr.v1);
    VecEqLaws(tr.v0, tr.v2);
    VecEqLaws(tr.v1, tr.v2);
    VecEqLaws(tr.v0, tr.v0);
    VecEqLaws(tr.v1, tr.v1);
    VecEqLaws(tr.v2, tr.v2);
  }
}
