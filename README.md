# Triangle intersection, modelled in Dafny

The library decides whether two records of three 3-D vertices touch within the
absolute tolerance `EPS = 1e-4`. `intersected` works in three steps:

1. It classifies each record, at its original scale, as a point, a line segment
   or a triangle. The test is pairwise approximate equality of the vertices.
2. It rescales every coordinate axis of both records together (the
   "linear reweighing"), so that the fixed tolerance stays meaningful at any
   input scale.
3. It routes the pair of shapes to one of five primitive tests:
   segment/point, segment/segment, triangle/point, triangle/segment and
   triangle/triangle.

The model treats every `double` as an exact `real` and `EPS` as `1/10000`. It
states what the epsilon logic does over exact arithmetic.

Modules, following the source files:

- `Algebra` (`algebra.dfy`) covers `include/3d_algebra.hpp`.
  - Datatypes: `Vec3`, `Plane` and the record `Tri`.
  - Operations: `isZero`, `eq`, vector `==` and `!=` (`VecEq`, `VecNe`),
    `+ - *`, `crossCanon` (`Cross`), `dotCanon` (`Dot`), `Plane::n` (`N`)
    and `projCanon(Plane, Vec3)` (`ProjCanon`).
- `Primitives` (`primitives.dfy`) covers `src/triangle_intersection_private.cpp`.
  - Each test is a predicate with the source's branches:
    - `isParallel`, `getFactorOfParallelVectors` (`FactorOfParallelVectors`);
    - `sameSide` and `isPointInTriangle` (`TrianglePointIntersected`);
    - `getPointInPlaneIntersectedWithLine`, which returns `Option<Vec3>`;
    - `isLineTimeWithinSegment`;
    - `lineSegmentPointIntersected`, `lineSegmentLineSegmentIntersected`;
    - `triangleLineSegmentIntersected`, `triangleTriangleIntersected`.
  - The last two exist twice. The source's names (`TriangleLineSegmentIntersected`,
    `TriangleTriangleIntersected`) model the code as written, and
    `intersected` uses them. `TriangleLineSegmentCorrected` and
    `TriangleTriangleCorrected` are the corrections described under Findings.
- `Classification` (`classification.dfy`) covers `Classification::threePoints`
  and its `isPoint` / `isTriangle` / `isLineSegment`.
- `Reshaping` (`reshaping.dfy`) covers `getPlane` and `getLineFromThreePoins`.
  - The line's two out-parameters are returned as one `Line` value.
- `Reweighing` (`reweighing.dfy`) covers both `linearReWeighing` overloads.
  - Both are methods that update two three-element `Vec3` arrays in place.
  - Each method is proved equal to the pure functions `ReWeighAxis` and
    `ReWeighPair`. The lemmas are about those functions.
- `Dispatch` (`dispatch.dfy`) covers `intersected`.
  - The method copies the nine-value buffers into local arrays, classifies
    them, reweighs the copies in place, then fills and reads the slot array
    indexed by shape.
  - It is proved to return `Intersection(a, b)`: the shapes of the original
    records, passed to `Route` on the reweighed records.
  - `IntersectionCorrected` is the same decision with the two corrected
    tests; it is not what the code computes.
- `Witnesses` (`witnesses.dfy`) holds concrete records on which `intersected`
  does what its description does not lead one to expect.
- `Findings` (`findings.dfy`) holds concrete inputs on which the two source
  defects show, with both halves of each finding. The first one is also shown
  on two records passed to `intersected`
  (`Findings.InsideSegmentRecordsMissed`).

Where the design description and the code disagree, the model follows the code:

- **Caller buffers are never changed.** The description says the caller's
  coordinate buffers are reweighed in place. The code copies them into local
  `Vec3` arrays first (`src/triangle_intersection.cpp:114-115`), so the caller's
  buffers are never written. `Dispatch.Intersected` takes its inputs as values.
- **Crossing collinear triples do not intersect.** The description gives
  ((0,0,0),(1,1,0),(2,2,0)) against ((0,2,0),(1,1,0),(2,0,0)) as crossing
  segments that intersect. The code classifies both as triangles, because their
  vertices are pairwise apart. Their planes have zero normals, so the answer is
  false (`Witnesses.CrossingCollinearRecordsMiss`).
- **Scale invariance holds only within a range.** The description says the
  answer is invariant under uniform scaling of both inputs. The code gives
  this only where every axis's largest magnitude stays between `EPS` and
  `1.5e7` (or is zero) and neither record changes shape
  (`Dispatch.IntersectionScaleInvariant`). The records in
  `Witnesses.ClassifiedBeforeReweighing` show how the original scale decides
  the shapes.

## Model

| member | source | states |
|---|---|---|
| Algebra.IsZeroWindow | include/3d_algebra.hpp:108-110 | `isZero(v)` holds iff `abs(v) < EPS`, so it ignores the sign of `v` |
| Algebra.EqSymmetric | include/3d_algebra.hpp:111-113 | `eq(a, b) == eq(b, a)` |
| Algebra.EqNotTransitive | include/3d_algebra.hpp:111-113 | 0 ~ 6e-5 and 6e-5 ~ 1.2e-4, but not 0 ~ 1.2e-4: approximate equality is not transitive |
| Algebra.VecEqLaws | include/3d_algebra.hpp:127-132 | vector `==` is reflexive and symmetric; `!=` is its negation; `l == r` iff `r - l` is approximately the zero vector |
| Algebra.IsZeroVecNeg | include/3d_algebra.hpp:134-136 | `isZero(-v) == isZero(v)` for vectors, and the zero vector is zero |
| Algebra.CrossAntiSymmetric | include/3d_algebra.hpp:62-64 | `a x b == -(b x a)` and `a x a == 0` exactly |
| Algebra.CrossOrthogonal | include/3d_algebra.hpp:62-67 | `a x b` is orthogonal to both `a` and `b` |
| Algebra.ComponentWise | include/3d_algebra.hpp:115-126 | the dot product is symmetric, and `+`, `-`, scalar `*` act axis by axis |
| Algebra.ProjCanonOnPlane | include/3d_algebra.hpp:155-157 | with a non-zero normal the projection satisfies the plane equation exactly |
| Algebra.ProjCanonFixesPlanePoints | include/3d_algebra.hpp:155-157 | a point on the plane is its own projection |
| Algebra.CrossOfShift | include/3d_algebra.hpp:140-142 | `(a*t - b*s) x b == (a x b) * t`: the identity the segment/segment test relies on |
| Primitives.PointInPlaneIntersectedWithLine | src/triangle_intersection_private.cpp:70-77 | there is no point iff the direction's component along the normal is approximately zero; any point returned lies exactly on the plane and exactly on the line |
| Primitives.LinePlanePointUnique | src/triangle_intersection_private.cpp:70-77 | when the direction is not approximately parallel to the plane, every point of the line on the plane is the point returned |
| Primitives.FactorAlongFirstAxis | src/triangle_intersection_private.cpp:17-27 | for a direction not approximately zero, the divisor is non-zero and the factor is the ratio on the first axis (x, y, z order) whose component is not approximately zero |
| Primitives.FactorOfScaled | src/triangle_intersection_private.cpp:17-27 | the factor of `b * s` against `b` is exactly `s` |
| Primitives.SameSideScaled | src/triangle_intersection_private.cpp:47-57 | a point whose cross product against the edge is `f >= -EPS` times the vertex's is on the vertex's side |
| Primitives.SameSideAtCorner | src/triangle_intersection_private.cpp:47-57 | an edge endpoint is on the same side of that edge as any vertex |
| Primitives.SameSideAsItself | src/triangle_intersection_private.cpp:47-57 | a vertex is on its own side of any edge |
| Primitives.VertexInTriangle | src/triangle_intersection_private.cpp:31-44 | each of the three vertices passes the triangle/point test |
| Primitives.CollinearTriangleSides | src/triangle_intersection_private.cpp:31-44 | for exactly collinear vertices, every point passes all three side tests |
| Primitives.CollinearTriangleFlat | src/triangle_intersection_private.cpp:38-39 | for exactly collinear vertices, the coplanarity product is zero for every point |
| Primitives.CollinearTriangleMeetsEveryPoint | src/triangle_intersection_private.cpp:31-44 | a triangle with exactly collinear vertices accepts every point |
| Primitives.LineTimeScaled | src/triangle_intersection_private.cpp:79-87 | for an offset `s * t1` along a component `t1` of either sign, the check holds iff `-EPS <= s*abs(t1) <= abs(t1) + EPS` |
| Primitives.WithinSegmentAtTime | src/triangle_intersection_private.cpp:100-111 | for the offset `dir * t`, the check reads the first axis whose offset component is not approximately zero, and passes iff `t * abs(c)` is in [-EPS, abs(c) + EPS] for that axis's direction component `c`; with no such axis it passes |
| Primitives.WithinSegmentOnSegment | src/triangle_intersection_private.cpp:100-111 | every parameter `t` in [0, 1] passes the within-segment check |
| Primitives.PointOnSegmentLine | src/triangle_intersection_private.cpp:129-141 | for a direction with a non-zero divisor (e.g. any direction not approximately zero), a point `r0 + t*dir` of the line tests as on the segment iff `t` is in (-EPS, 1 + EPS) or the offset is approximately zero |
| Primitives.SegmentEndpoints | src/triangle_intersection_private.cpp:129-141 | both endpoints of a segment test as on it |
| Primitives.SegmentSegmentParallelSymmetric | src/triangle_intersection_private.cpp:144-150 | in that branch, swapping the two segments does not change the answer |
| Primitives.SegmentMeetsItself | src/triangle_intersection_private.cpp:144-150 | every segment intersects itself |
| Primitives.CrossingSegments | src/triangle_intersection_private.cpp:144-167 | for a direction with a non-zero divisor (e.g. any direction not approximately zero) and lines crossing at `r0a + t*da == r0b + s*db`, the test accepts iff `t` is in [-EPS, 1 + EPS] and `s` in (-EPS, 1 + EPS) |
| Primitives.TransversalSegment | src/triangle_intersection_private.cpp:89-114 | for a segment not approximately parallel to the plane, whose line meets it at parameter `t`, the test accepts iff `dir * t` passes the within-segment check and the point `r0 + dir * t` passes the triangle/point test; the corrected test agrees |
| Primitives.SegmentThroughPlane | src/triangle_intersection_private.cpp:89-114 | for such a segment crossing the plane at `t` in [0, 1], the test accepts iff the crossing point is in the triangle |
| Primitives.ZeroNormalMisses | src/triangle_intersection_private.cpp:89-114 | a plane with a zero normal (a collinear triangle's) meets no segment |
| Primitives.InPlaneEdgeCrossingMeets | src/triangle_intersection_private.cpp:92-96 | a segment lying in the plane that crosses an edge meets the triangle |
| Primitives.TriangleLineSegmentCorrection | src/triangle_intersection_private.cpp:89-114 | the corrected triangle/segment test keeps every hit of the original; it differs only for a segment parallel to the plane, where it also accepts an origin inside the triangle |
| Primitives.TriangleMeetsItself | src/triangle_intersection_private.cpp:122-127 | a triangle meets itself through a plane on which its edge (v0, v1) lies, both as written and corrected |
| Primitives.TriangleTriangleSymmetric | src/triangle_intersection_private.cpp:122-127 | swapping `(tr0, plane0)` with `(tr1, plane1)` does not change the answer, as written or corrected |
| Primitives.TriangleTriangleCorrection | src/triangle_intersection_private.cpp:122-127 | the corrected triangle/triangle test keeps every hit of the original and also tries each triangle's edge (v1, v2) |
| Classification.ThreePoints | src/triangle_intersection.cpp:14-32 | the result is Triangle iff all pairs differ, Point iff v0 equals v1 and v2, LineSegment iff neither; exactly one holds |
| Classification.LineSegmentPairs | src/triangle_intersection.cpp:24-31 | a line segment record has at least one approximately equal pair, and v0 differs from v1 or from v2 |
| Classification.ChainIsLineSegment | src/triangle_intersection.cpp:24-28 | vertices 6e-5 apart in a chain form a line segment, not a point |
| Reshaping.PlaneNormalIsEdgeCross | src/triangle_intersection.cpp:39-67 | the plane's normal is `(v1 - v0) x (v2 - v0)` exactly |
| Reshaping.PlaneContainsVertices | src/triangle_intersection.cpp:39-67 | all three vertices satisfy the plane equation exactly |
| Reshaping.GetLineFromThreePoints | src/triangle_intersection.cpp:69-77 | the origin is v0; the segment ends at v2 when v2 differs from v0, otherwise at v1 |
| Reshaping.LineOfSegmentRecord | src/triangle_intersection.cpp:69-77 | for a line segment record the direction is not approximately zero, and every vertex is approximately one of the two endpoints |
| Reweighing.LinearReWeighingAxis | src/triangle_intersection.cpp:82-96 | the six `k` components of the two arrays become `ReWeighAxis` of the old records; nothing else changes |
| Reweighing.LinearReWeighing | src/triangle_intersection.cpp:97-101 | both arrays become `ReWeighPair` of the old records: axis x, then y, then z |
| Reweighing.MaxAbsIsLargest | src/triangle_intersection.cpp:85 | the nested maximum bounds all six magnitudes and equals one of them |
| Reweighing.WeightValue | src/triangle_intersection.cpp:88 | the weight is positive; it is 1 below EPS; it takes the maximum to exactly 150 up to 1.5e7; above that it is 1e-5 |
| Reweighing.WeightsPositive | src/triangle_intersection.cpp:88 | every axis weight is positive, so signs and zeros survive reweighing |
| Reweighing.ReWeighPairPerAxis | src/triangle_intersection.cpp:97-101 | although the axes are processed in turn, each weight comes from the original records, and every coordinate is multiplied by its axis's weight |
| Reweighing.AxisMaxIsLargest | src/triangle_intersection.cpp:85 | an axis's largest magnitude bounds all six coordinates and is reached by one of them |
| Reweighing.ReWeighedAxisMax | src/triangle_intersection.cpp:82-101 | below EPS an axis is left alone (weight 1); from EPS to 1.5e7 its largest magnitude becomes exactly 150 |
| Reweighing.AxisMaxSwap | src/triangle_intersection.cpp:85 | an axis's largest magnitude does not depend on the records' order |
| Reweighing.ReWeighPairSwap | src/triangle_intersection.cpp:97-101 | swapping the two records swaps the two results |
| Reweighing.AxisMaxScaled | src/triangle_intersection.cpp:85 | scaling both records by `s > 0` scales each axis's largest magnitude by `s` |
| Reweighing.WeightOfScaledAxis | src/triangle_intersection.cpp:88 | in range, scaling the maximum by `s` divides the weight by `s` |
| Reweighing.ReWeighPairScaleInvariant | src/triangle_intersection.cpp:82-101 | scaling both records by `s > 0` leaves the reweighed records unchanged, while every axis stays in range |
| Reweighing.EdgeCrossWeighted | src/triangle_intersection.cpp:97-101 | reweighing multiplies each axis of the edge cross product by the other two weights, so exactly collinear records stay collinear |
| Dispatch.SlotIndex | src/triangle_intersection.cpp:10 | every shape indexes one of the three slots |
| Dispatch.Intersected | src/triangle_intersection.cpp:110-156 | the answer is `Route` of the shapes taken before reweighing, applied to the reweighed records |
| Dispatch.IntersectionSymmetric | src/triangle_intersection.cpp:122-155 | swapping the records keeps the answer, unless both are line segments |
| Dispatch.ReWeighSelf | src/triangle_intersection.cpp:97-101 | a record reweighed against itself gives two equal records |
| Dispatch.NonTriangleMeetsItself | src/triangle_intersection.cpp:125-135 | a point record and a line segment record each intersect themselves |
| Dispatch.TriangleMeetsItselfAsRecord | src/triangle_intersection.cpp:122-124 | a triangle record whose vertices are not exactly collinear (non-zero edge cross product) intersects itself; with `CollinearTrianglesMiss`, a triangle record meets itself iff its vertices are not exactly collinear |
| Dispatch.CollinearTriangleMeetsEveryPointRecord | src/triangle_intersection.cpp:147-148 | a triangle record with exactly collinear vertices intersects every point record, in either order |
| Dispatch.CollinearPlaneNormal | src/triangle_intersection.cpp:120-124 | a collinear triangle has a zero plane normal after reweighing |
| Dispatch.CollinearTriangleMissesSegments | src/triangle_intersection.cpp:141-146 | a collinear triangle record intersects no line segment record, in either order |
| Dispatch.CollinearTrianglesMiss | src/triangle_intersection.cpp:122-124 | two collinear triangle records never intersect, even when they cross |
| Dispatch.IntersectionScaleInvariant | src/triangle_intersection.cpp:110-156 | scaling both records by `s > 0` keeps the answer when every axis stays in the reweighing range and neither record changes shape |
| Dispatch.IntersectionCorrection | src/triangle_intersection.cpp:122-155 | every pair `intersected` finds intersecting, the corrected routing finds too; the two agree whenever neither record is a triangle or one of them is a point |
| Witnesses.CrossingRecordsAreTriangles | src/triangle_intersection.cpp:14-28 | the two crossing collinear triples are classified as triangles |
| Witnesses.CrossingCollinearRecordsMiss | src/triangle_intersection.cpp:122-124 | the two crossing collinear triples do not intersect |
| Witnesses.AsymmetricWeights | src/triangle_intersection.cpp:82-96 | for a unit segment and one at height 1e-11, the weights are 150, 150, 1 |
| Witnesses.SkewOneWay | src/triangle_intersection_private.cpp:152-155 | taken one way round, the segments' shift cross product is not parallel to the directions' cross product, so they are rejected as skew |
| Witnesses.ReweighedSegmentsMeetOtherWay | src/triangle_intersection_private.cpp:144-166 | taken the other way round, the same reweighed segments are accepted |
| Witnesses.SegmentSegmentAsymmetric | src/triangle_intersection.cpp:125-132 | two line segment records whose answer depends on their order |
| Witnesses.TinyRecordsArePoints | src/triangle_intersection.cpp:14-28 | at their own scale both tiny records are points, and approximately equal ones |
| Witnesses.TinyWeights | src/triangle_intersection.cpp:82-96 | the x weight of the tiny records is 1e6 |
| Witnesses.TinyReweighedShapes | src/triangle_intersection.cpp:14-28 | reweighed, the first tiny record would be a line segment and the points are apart |
| Witnesses.ClassifiedBeforeReweighing | src/triangle_intersection.cpp:117-120 | the shapes come from the original records, yet the point test runs on the reweighed ones: two approximately equal point records do not intersect |
| Findings.MissedAtTime | src/triangle_intersection_private.cpp:152-160 | segments whose lines meet outside the first segment are rejected |
| Findings.OtherSideAt | src/triangle_intersection_private.cpp:47-57 | a point whose cross product is a multiple below -EPS of the vertex's is on the other side |
| Findings.InsideSegmentMissedAsWritten | src/triangle_intersection_private.cpp:92-97 | as written, a segment lying strictly inside a triangle, in its plane, is missed |
| Findings.InsideSegmentFoundCorrected | src/triangle_intersection_private.cpp:92-97 | the corrected test finds that segment |
| Findings.InsideSegmentRecordsMissed | src/triangle_intersection.cpp:141-146 | through `intersected` itself, the triangle record (0,0,0), (150,0,0), (0,150,0) and the segment record (15,15,0), (15,15,0), (30,20,0) do not intersect, while the corrected routing finds them |
| Findings.CrossingTrianglesMissedAsWritten | src/triangle_intersection_private.cpp:122-127 | as written, two triangles that cross through one's edge (v1, v2) are missed: all four edge tests fail |
| Findings.CrossingTrianglesFoundCorrected | src/triangle_intersection_private.cpp:122-127 | the corrected test, trying all three edges of each, finds them |

## Left out

- IEEE rounding, overflow and non-finite values: every `double` is an exact `real`, and nothing is claimed about rounding.
- The finiteness guard `isfinite` (src/triangle_intersection.cpp:103-108) is not part of this model. `Dispatch.Intersected` takes finite records. The guard's loop bound divides `sizeof` of an array parameter that has decayed to an address, so it inspects fewer than the nine values it appears to check.
- `normL2` and `normalizedL2` need a square root; `projCanon(Vec3, Vec3)` is not used by the modelled core.
- The in-place operators `=`, `+=`, `-=`, `*=` of `Vec3`, the reference members aliasing the array storage, and construction from a raw `double` buffer: the model uses value datatypes.
- The `tr_p_ordered` slots hold raw addresses in the source. The model's slot array holds references to the two local arrays, and `Route` states the same routing as one case per pair of shapes.
- `include/triangle_intersection_private.hpp`: declarations only.
- Primitives.FactorOfParallelVectors: requires a non-zero divisor. Where the source divides by a `z` component that is exactly zero, its result is an infinity or NaN. At every such call site the model evaluates the range comparison the source makes on that value, which is false.
- Algebra.ProjCanon: requires a non-zero normal. `Primitives.OnPlane` evaluates the source's comparison on the NaN projection of a zero normal, which is false.
- Dispatch.TriangleMeetsItselfAsRecord: requires vertices that are not exactly collinear, because a triangle with exactly collinear vertices does not meet itself (`Dispatch.CollinearTrianglesMiss`).
- Dispatch.IntersectionScaleInvariant: holds only while every axis's largest magnitude stays between EPS and 1.5e7 (or is zero) and neither record changes shape. Outside that range the weight is clamped, and the code does not promise invariance.
- Primitives.LineTimeScaled: states the within-segment check for offsets written as a multiple of the direction component, not for arbitrary offsets.

## Findings

| source | as written | input that shows it | evidently intended | confidence | as-written member | corrected member |
|---|---|---|---|---|---|---|
| src/triangle_intersection_private.cpp:92-97 | when the segment is parallel to the plane and lies in it, only its crossings with the three edges are tried | triangle (0,0,0), (150,0,0), (0,150,0); segment from (15,15,0) along (15,5,0), strictly inside the triangle | a segment lying inside the triangle also intersects it: also check whether its origin is inside the triangle | not executed | Findings.InsideSegmentMissedAsWritten | Findings.InsideSegmentFoundCorrected |
| src/triangle_intersection_private.cpp:122-127 | only the edges (v0, v1) and (v0, v2) of each triangle are tried against the other | triangles (0,0,1), (2,0,2), (2,0,-3) and (3.5,1.5,0), (1.5,1,0), (1.5,-1,0), which share the points from (1.5,0,0) to (2,0,0) | try all three edges of each triangle, including (v1, v2) | not executed | Findings.CrossingTrianglesMissedAsWritten | Findings.CrossingTrianglesFoundCorrected |
