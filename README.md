# Visibility polygon: a Dafny model

This project models the geometric core of a small 2D lighting demo. The observer
stands at the mouse position. The demo casts rays past every vertex of the
scene's wall segments and keeps the nearest wall each ray hits. It then sorts
those hits by angle and closes them into a ring that is drawn as a triangle fan.

The model has one module per part of the source:

- `Geometry` covers `Point` and `Line` from `line.hpp`. This covers the default
  constructor, exact `operator==`, the direction `b - a`, and the parametric
  point `a + t·(b - a)`.
- `Intersections` covers the `Intersection` record from `intersection.hpp` and
  its constructor defaults.
- `RaySegment` covers `getIntersection` (main.cpp). It solves the ray equation
  and the segment equation for `T1` and `T2`, and accepts `T1 >= 0` and
  `0 <= T2 <= 1`. The source computes `T1` from the x equation only. There are
  two versions:
  - `GetIntersection` is the model the rest of the project uses. A zero
    denominator at line 32 gives a non-hit; when `r_dx == 0`, T1 comes from
    the y equation instead of line 33 (see Findings).
  - `GetIntersectionAsWritten` follows the source's arithmetic step by step.
    It reports the first line that divides by zero: 24 for a zero-length ray
    or segment, then 32 or 33.
- `UniquePoints` covers `findUniquePoints`. It scans the segments in order and
  appends each start point, then each end point, unless an exactly equal point
  is already present. The source's linear search with a flag and `break` is
  modelled as a method with loop invariants. The method is proved against the
  fold `AddAll`.
- `Visibility` covers one frame of the main loop (main.cpp lines 149-180):
  - three sampling angles per unique vertex;
  - one ray per angle, keeping the hit with the strictly smallest `T1` in
    segment order;
  - an in-place sort of the records by angle;
  - closing the ring with a copy of the first record.

`Algebra` holds small facts of real arithmetic used by the intersection proofs.

Coordinates are exact reals. The sqrt-based parallel test of lines 21-24
compares the two unit vectors component by component. Over the reals it is
exactly "cross product zero and dot product positive", which is
`RaySegment.SameDirection`. `RaySegment.UnitVectorTest` proves the equivalence,
given any positive magnitudes whose squares are the squared lengths.

The non-hit record is not dropped when a ray hits nothing. The frame pushes the
non-hit `closest` record anyway. That record keeps its default point (0, 0) and
angle 0, and it is sorted with key 0 (see `Visibility.CastKeys`).

## Model

| member | source | states |
|---|---|---|
| Geometry.MakePoint | line.hpp:11 | The `Point` constructor with both coordinates defaulting to 0 (its defaults are stated by `DefaultPointIsOrigin`). |
| Geometry.Equal | line.hpp:20-22 | `operator==`: both coordinates compare exactly equal (its meaning is stated by `EqualIsIdentity`). |
| Geometry.DefaultPointIsOrigin | line.hpp:11 | A default-constructed point is (0, 0); with only x given it is (x, 0). |
| Geometry.EqualIsIdentity | line.hpp:20-22 | `==` on points holds iff both coordinates are exactly equal, i.e. iff the points are identical; there is no tolerance. |
| Geometry.EqualIsEquivalence | line.hpp:20-22 | Point `==` is reflexive, symmetric and transitive. |
| Geometry.LineKeepsOrder | line.hpp:25-28 | A line stores `a` and `b` in the order given; parameter 0 is `a` and parameter 1 is `b`, so `b - a` is the direction. |
| Intersections.MakeIntersection | intersection.hpp:8-15 | The `Intersection` constructor: status, point (x, y), T1 and angle, with x, y, T1 and angle defaulting to 0 (stated by `ConstructorStoresFields` and `NoHitDefaults`). |
| Intersections.NoHit | main.cpp:165 | `Intersection{ false }`, the record returned for a miss and the initial `closest` (stated by `NoHitDefaults`). |
| Intersections.NoHitDefaults | intersection.hpp:8-15 | `Intersection{false}` has status false, point (0, 0), T1 0 and angle 0. |
| Intersections.ConstructorStoresFields | intersection.hpp:15 | The constructor stores status, point (x, y), T1 and angle exactly as passed. |
| Intersections.FourArgumentHitHasZeroAngle | intersection.hpp:13-15 | A hit built from four arguments, as getIntersection builds it, has angle 0. |
| RaySegment.Report | main.cpp:36-45 | Given T1 and T2: a hit iff T1 >= 0 and 0 <= T2 <= 1; a hit carries that T1, the point of the ray at T1 and angle 0; a miss is the `{ false }` record. |
| RaySegment.GetIntersection | main.cpp:9-46 | getIntersection corrected: a zero denominator at line 32 gives a non-hit, and when `r_dx == 0` T1 comes from the y equation instead of line 33. A hit has T1 >= 0, lies on the ray at T1 and has angle 0; a miss is the `{ false }` record. Its full characterisation is `HitIffCrosses`. |
| RaySegment.GetIntersectionAsWritten | main.cpp:9-46 | getIntersection as written: a division by zero ends it at line 24, 32 or 33; a returned hit has T1 >= 0 and lies on the ray at T1. How it relates to the guarded model is `AsWrittenAgreesElsewhere`. |
| RaySegment.SameDirection | main.cpp:21-25 | The parallel test of line 24: the two unit vectors are equal. Over the reals this is cross product zero and dot product positive, with both magnitudes positive (proved equivalent by `UnitVectorTest`). |
| RaySegment.ZeroLength | main.cpp:21-22 | A direction whose magnitude `sqrt(dx*dx + dy*dy)` is zero, which is the case exactly when both components are zero. |
| RaySegment.Denominator | main.cpp:32 | The denominator `s_dx*r_dy - s_dy*r_dx` of T2, the cross product of the two directions. |
| RaySegment.ClosedT2 | main.cpp:32 | T2 over the eight coordinates: `(r_dx*(s_py-r_py) + r_dy*(r_px-s_px)) / (s_dx*r_dy - s_dy*r_dx)`, for a nonzero denominator (it solves both equations by `ClosedFormsSolve`). |
| RaySegment.SegmentParameter | main.cpp:32 | T2 of a ray and a segment: `ClosedT2` over their start points and directions. |
| RaySegment.T1FromCoordinate | main.cpp:33 | T1 from one coordinate equation, `(s_p + s_d*T2 - r_p) / r_d`, for a nonzero `r_d`; line 33 is its x instance. |
| RaySegment.ClosedT1 | main.cpp:29-33 | T1 over the eight coordinates: from the x equation as at line 33 when `r_dx != 0`. Its `r_dx == 0` branch departs from line 33 and uses the y equation, the other form given in the comment on line 29. |
| RaySegment.RayParameter | main.cpp:33 | T1 of a ray and a segment: `ClosedT1` over their start points and directions. |
| RaySegment.Crosses | main.cpp:28-45 | The reference notion of a hit, independent of the closed forms: the ray at some t1 >= 0 and the segment at some t2 in [0, 1] are the same point (tied to getIntersection by `HitIffCrosses`). |
| RaySegment.UnitVectorTest | main.cpp:20-25 | With positive magnitudes, the unit vectors are equal component-wise iff the cross product is zero and the dot product positive. |
| RaySegment.SameDirectionIsParallel | main.cpp:24-25 | A same-direction pair has a zero denominator and gives a non-hit, both guarded and as written. |
| RaySegment.ParallelIsNoHit | main.cpp:32 | Every pair with a zero denominator (parallel or degenerate, either orientation) gives a non-hit in the guarded model. |
| RaySegment.ClosedFormsSolve | main.cpp:28-33 | The closed forms of T2 and T1 solve both coordinate equations; T1 comes from the y equation when `r_dx == 0`. |
| RaySegment.SolutionIsClosedForm | main.cpp:28-33 | Any solution of the two coordinate equations is the closed form, so it is unique. |
| RaySegment.ParametersSolve | main.cpp:28-33 | With a nonzero denominator, the ray at T1 and the segment at T2 are the same point. |
| RaySegment.ParametersUnique | main.cpp:28-33 | With a nonzero denominator, every (t1, t2) at which the ray and the segment meet is (T1, T2). |
| RaySegment.HitLiesOnBoth | main.cpp:36-45 | A reported hit has a nonzero denominator and T1 >= 0 and 0 <= T2 <= 1; its point is the ray at T1 and the segment at T2; its angle is 0. |
| RaySegment.CrossingIsHit | main.cpp:36-45 | Every crossing of a non-parallel pair (t1 >= 0, 0 <= t2 <= 1) is reported as a hit with that t1 and that point. |
| RaySegment.HitIffCrosses | main.cpp:9-46 | getIntersection reports a hit iff the denominator is nonzero and some t1 >= 0 and 0 <= t2 <= 1 make the ray and the segment meet. |
| RaySegment.AsWrittenAgreesElsewhere | main.cpp:21-45 | The source divides by zero at line 24 exactly when the ray or the segment has length zero. Otherwise it divides by zero exactly for pairs that are not same-direction and have a zero denominator or `r_dx == 0`. Everywhere else it returns what the guarded model returns. |
| RaySegment.ZeroLengthDividesByZero | main.cpp:21-24 | A zero-length ray or segment makes line 24 divide by a zero magnitude; the guarded model gives a non-hit. |
| RaySegment.AntiParallelDividesByZero | main.cpp:24-32 | An anti-parallel pair of nonzero lengths passes the test of line 24 and divides by a zero denominator at line 32; the guarded model gives a non-hit. |
| RaySegment.VerticalRayDividesByZero | main.cpp:33 | A vertical ray that crosses a segment divides by `r_dx == 0` at line 33; the guarded model reports the crossing as a hit with its own T1. |
| UniquePoints.AddIfAbsent | main.cpp:54-62 | One scan step: the point is appended iff no `==`-equal point is present. |
| UniquePoints.Endpoints | main.cpp:50-52 | The points scanned, in order: each segment's `a`, then its `b`, so there are twice as many as segments. |
| UniquePoints.AddAll | main.cpp:50-73 | The accumulator after scanning points in order, one `AddIfAbsent` each; its properties are the `AddAll…` and `Appended…` lemmas below. |
| UniquePoints.IsUnique | main.cpp:54-60 | The linear search clears its flag iff the candidate is `==` to some point of the accumulator. |
| UniquePoints.FindUniquePoints | main.cpp:49-74 | The result is the fold `AddAll` of the endpoints over the accumulator. The accumulator stays a prefix, and no duplicates are introduced. The result holds exactly the accumulator's points and the segment endpoints. |
| UniquePoints.AddAllExtends | main.cpp:61-72 | The scan only appends; the original accumulator stays a prefix. |
| UniquePoints.AddAllKeepsNoDuplicates | main.cpp:49-74 | An accumulator without `==`-equal pairs stays without them. |
| UniquePoints.AddAllContents | main.cpp:50-72 | A point is in the result iff it is in the accumulator or is an endpoint of some segment. |
| UniquePoints.AppendedAreNew | main.cpp:54-72 | Every appended point is a segment endpoint that was not in the original accumulator. |
| UniquePoints.AppendedInFirstSeenOrder | main.cpp:50-72 | Appended points appear in the order in which they are first met in the scan (segments in order, `a` before `b`). |
| UniquePoints.ScanOneSegment | main.cpp:50-73 | Scanning one more segment appends its start, if new, and then its end, if new. |
| UniquePoints.BorderCorners | main.cpp:94-99 | The four border walls of the 800 by 600 scene give their four corners, once each, in wall order. |
| Visibility.Sampled | main.cpp:149-154 | The angle list: `angle - 0.0001`, `angle`, `angle + 0.0001` for each vertex in order (laid out by `SampledLayout`). |
| Visibility.VertexAngle | main.cpp:150 | The angle `atan2(v.y - observer.y, v.x - observer.x)` of a vertex as seen from the observer, with `atan2` as a parameter. |
| Visibility.Offset | main.cpp:151-153 | The three offsets `-0.0001`, `0` and `+0.0001`, in push order. |
| Visibility.RayFrom | main.cpp:158-162 | The ray from the observer to observer + (cos angle, sin angle). |
| Visibility.Candidates | main.cpp:166-168 | Each segment's getIntersection result along one ray, in segment order, tagged with the ray's angle. |
| Visibility.Nearest | main.cpp:165-173 | The record kept after scanning the candidates from `{ false }`: a hit replaces it when nothing was kept yet or its T1 is strictly smaller (characterised by `NearestMissesOnlyWithoutHits` and `NearestIsNearest`). |
| Visibility.CastAll | main.cpp:157-176 | The `intersections` vector before sorting: one `Nearest` record per sampling angle, in angle-list order (the terms in which `CastKeys` and `BuildPolygon` are stated). |
| Visibility.SampledLayout | main.cpp:149-154 | There are 3 angles per vertex; angle `3k + r` is the angle of vertex k plus -0.0001, 0 or +0.0001 for r = 0, 1, 2. |
| Visibility.SampleAngles | main.cpp:149-154 | The loop builds exactly that list of 3·n angles for n unique points, in vertex order. |
| Visibility.NearestMissesOnlyWithoutHits | main.cpp:165-173 | The kept record is a non-hit iff no segment hits, and then it is the default non-hit record. |
| Visibility.NearestIsNearest | main.cpp:165-173 | A kept hit is one of the candidates. Its T1 is <= every hit's T1 and strictly below every earlier hit's T1, so ties go to the earliest segment. |
| Visibility.CastRay | main.cpp:157-173 | The loop over the segments, with `continue` and the strict `<`, keeps the nearest candidate as defined by `Nearest`. |
| Visibility.CastKeys | main.cpp:168-175 | Each stored record is keyed by its ray's angle if it is a hit; otherwise it is the non-hit record, with key 0. |
| Visibility.Swap | main.cpp:179 | One exchange step of the sort: the two records trade places, so the contents are a permutation of the old ones. |
| Visibility.InsertLast | main.cpp:179 | One insertion step of the sort: a sorted prefix of length i grows to i + 1, the contents are a permutation, and the records after position i are unchanged. |
| Visibility.SortByAngle | main.cpp:179 | After the sort, the records are in non-decreasing angle order and are a permutation of the records before it. |
| Visibility.BuildPolygon | main.cpp:149-180 | The ring has 3·n + 1 records, for n unique points. Without its last record it is sorted by angle and is a permutation of one nearest record per sampling angle. Its last record equals its first. |

## Left out

- Window, frame limit, shaders, render textures, events, the mouse and all
  drawing (main.cpp:6, 77-91, 130-143, 182-205; the SFML helpers of line.hpp).
  These are I/O and foreign library calls. The mouse position is the `observer`
  parameter.
- `Point::display` (line.hpp:16-18) is console output.
- `std::atan2`, `std::cos` and `std::sin` are function parameters of the frame
  model, with no properties assumed. `std::sqrt` appears only through the
  magnitudes that `RaySegment.UnitVectorTest` takes as parameters.
- Float arithmetic is modelled as exact reals:
  - there is no rounding, infinity or NaN;
  - `0.0001f` is the real 0.0001;
  - a division by zero is either guarded (`GetIntersection`) or an explicit
    `DividesByZero` outcome (`GetIntersectionAsWritten`).
- `std::sort` is unstable and its algorithm is unspecified. The model sorts by
  insertion sort on an array, and promises only what `std::sort` promises:
  sorted by angle and a permutation. The order among equal angles is not
  modelled.
- Visibility.BuildPolygon: requires at least one unique vertex. The source reads
  element 0 of the sorted vector, which is undefined behaviour on an empty
  vector.
- The hard-coded scene (main.cpp:94-124) is used only for its border walls, in
  `UniquePoints.BorderCorners`. The frame model takes any segments.
- The frame loop is modelled one frame at a time. The frame body keeps no state
  from one frame to the next.

## Findings

| source | as written | input that shows it | evidently intended | confidence | as-written member | corrected member |
|---|---|---|---|---|---|---|
| main.cpp:24-32 | The unit-vector test rejects only same-direction pairs. An anti-parallel pair reaches line 32 and divides by the zero denominator `s_dx*r_dy - s_dy*r_dx`. | ray (0,0)→(1,0), segment (3,0)→(2,0) | Parallel pairs of either orientation give a non-hit. | not executed | RaySegment.AntiParallelDividesByZero | RaySegment.ParallelIsNoHit |
| main.cpp:21-24 | A ray or a segment of length zero has magnitude 0, and line 24 divides by it. | ray (0,0)→(1,0), segment (1,1)→(1,1) | Zero-length geometry is rejected rather than divided by; the source shows no intended result. Returning a non-hit is this model's own choice in `GetIntersection`, as for any pair with a zero denominator. | not executed | RaySegment.ZeroLengthDividesByZero | RaySegment.ParallelIsNoHit |
| main.cpp:33 | `T1` is divided by `r_dx`, which is zero for a vertical ray even when the ray and the segment cross. | ray (0,0)→(0,1), segment (-1,2)→(1,2): they cross at (0,2) with T1 = 2, T2 = 0.5 | T1 is taken from the y equation when `r_dx == 0`, the alternative form given in the source's comment on line 29. The crossing is reported as a hit. | not executed | RaySegment.VerticalRayDividesByZero | RaySegment.HitIffCrosses |
