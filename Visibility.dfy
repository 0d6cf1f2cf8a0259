// One frame of the visibility polygon (the body of the main loop, main.cpp
// lines 149-180): sample three angles per vertex, cast a ray along each, keep
// the nearest hit per ray, sort the hits by angle and close the ring.
//
// atan2, cos and sin are parameters: the model does not fix them.

module Visibility {
  import opened Geometry
  import opened Intersections
  import opened RaySegment

  /** The offset added on either side of each vertex angle. */
  const Epsilon: real := 0.0001

  /** The angle of vertex `v` seen from the observer. */
  function VertexAngle(observer: Point, v: Point, atan2: (real, real) -> real): real
  {
    atan2(v.y - observer.y, v.x - observer.x)
  }

  /** The three sampling angles of each vertex, vertex after vertex. */
  function Sampled(observer: Point, vertices: seq<Point>, atan2: (real, real) -> real): seq<real>
    decreases |vertices|
  {
    if vertices == [] then []
    else
      var angle := VertexAngle(observer, vertices[|vertices| - 1], atan2);
      Sampled(observer, vertices[..|vertices| - 1], atan2) + [angle - Epsilon, angle, angle + Epsilon]
  }

  /** The offset of the sample at position `r` (0, 1 or 2) within a vertex's three. */
  function Offset(r: nat): real
  {
    if r == 0 then -Epsilon else if r == 1 then 0.0 else Epsilon
  }

  /** The ray from the observer along `angle`: from the observer to observer + (cos, sin). */
  function RayFrom(observer: Point, angle: real, cos: real -> real, sin: real -> real): Line
  {
    Line(observer, Point(observer.x + cos(angle), observer.y + sin(angle)))
  }

  /**
   * The candidates along one ray: each segment's intersection, in segment
   * order, tagged with the ray's angle (lines 167-168).
   */
  function Candidates(ray: Line, segments: seq<Line>, angle: real): seq<Intersection>
  {
    seq(|segments|, k requires 0 <= k < |segments| => GetIntersection(ray, segments[k]).(angle := angle))
  }

  /**
   * The record kept after scanning the candidates in order, starting from
   * the non-hit record: a hit replaces the kept record when nothing was kept
   * yet or when its T1 is strictly smaller.
   */
  function Nearest(candidates: seq<Intersection>): Intersection
    decreases |candidates|
  {
    if candidates == [] then NoHit()
    else
      var kept := Nearest(candidates[..|candidates| - 1]);
      var candidate := candidates[|candidates| - 1];
      if !candidate.status then kept
      else if !kept.status || candidate.t1 < kept.t1 then candidate
      else kept
  }

  /**
   * Candidate `j` is a hit no farther than any other hit, and strictly
   * nearer than every hit before it.
   */
  predicate IsNearest(candidates: seq<Intersection>, j: int)
  {
    && 0 <= j < |candidates|
    && candidates[j].status
    && forall k :: 0 <= k < |candidates| && candidates[k].status ==>
         if k < j then candidates[j].t1 < candidates[k].t1 else candidates[j].t1 <= candidates[k].t1
  }

  /** One kept record per sampling angle, in angle order. */
  function CastAll(segments: seq<Line>, observer: Point, angles: seq<real>, cos: real -> real, sin: real -> real): seq<Intersection>
  {
    seq(|angles|, i requires 0 <= i < |angles| =>
      Nearest(Candidates(RayFrom(observer, angles[i], cos, sin), segments, angles[i])))
  }

  predicate SortedByAngle(s: seq<Intersection>)
  {
    forall i, j :: 0 <= i < j < |s| ==> s[i].angle <= s[j].angle
  }

  // ----- angle sampling -----

  /** Sample `3k + r` is the angle of vertex `k` plus the `r`-th offset. */
  lemma {:induction false} SampledLayout(observer: Point, vertices: seq<Point>, atan2: (real, real) -> real)
    ensures |Sampled(observer, vertices, atan2)| == 3 * |vertices|
    ensures forall k :: 0 <= k < 3 * |vertices| ==>
      Sampled(observer, vertices, atan2)[k] == VertexAngle(observer, vertices[k / 3], atan2) + Offset(k % 3)
    decreases |vertices|
  {
    if vertices != [] {
      var n := |vertices| - 1;
      var init := vertices[..n];
      SampledLayout(observer, init, atan2);
      var s := Sampled(observer, vertices, atan2);
      forall k | 0 <= k < 3 * |vertices|
        ensures s[k] == VertexAngle(observer, vertices[k / 3], atan2) + Offset(k % 3)
      {
        if k < 3 * n {
          assert k / 3 < n;
          assert vertices[k / 3] == init[k / 3];
        } else {
          assert k / 3 == n;
        }
      }
    }
  }

  /** Lines 149-154: three angles per unique point, in the points' order. */
  method SampleAngles(observer: Point, uniquePoints: seq<Point>, atan2: (real, real) -> real) returns (angles: seq<real>)
    ensures angles == Sampled(observer, uniquePoints, atan2)
    ensures |angles| == 3 * |uniquePoints|
    ensures forall k :: 0 <= k < |angles| ==>
      angles[k] == VertexAngle(observer, uniquePoints[k / 3], atan2) + Offset(k % 3)
  {
    angles := [];
    for i := 0 to |uniquePoints|
      invariant angles == Sampled(observer, uniquePoints[..i], atan2)
    {
      var angle := VertexAngle(observer, uniquePoints[i], atan2);
      angles := angles + [angle - Epsilon];
      angles := angles + [angle];
      angles := angles + [angle + Epsilon];
      assert uniquePoints[..i + 1][..i] == uniquePoints[..i];
    }
    assert uniquePoints[..|uniquePoints|] == uniquePoints;
    SampledLayout(observer, uniquePoints, atan2);
  }

  // ----- nearest hit along one ray -----

  /** The kept record is the non-hit record (angle 0) exactly when no candidate is a hit. */
  lemma {:induction false} NearestMissesOnlyWithoutHits(candidates: seq<Intersection>)
    ensures !Nearest(candidates).status <==> forall k :: 0 <= k < |candidates| ==> !candidates[k].status
    ensures !Nearest(candidates).status ==> Nearest(candidates) == NoHit()
    decreases |candidates|
  {
    if candidates != [] {
      var n := |candidates| - 1;
      NearestMissesOnlyWithoutHits(candidates[..n]);
      assert forall k :: 0 <= k < n ==> candidates[..n][k] == candidates[k];
    }
  }

  /**
   * When a hit is kept, it is the nearest hit, the earliest one among
   * equally near hits.
   */
  lemma {:induction false} NearestIsNearest(candidates: seq<Intersection>)
    ensures Nearest(candidates).status ==> exists j :: IsNearest(candidates, j) && Nearest(candidates) == candidates[j]
    decreases |candidates|
  {
    if candidates != [] {
      var n := |candidates| - 1;
      var init := candidates[..n];
      NearestIsNearest(init);
      NearestMissesOnlyWithoutHits(init);
      var kept := Nearest(init);
      var candidate := candidates[n];
      assert forall k :: 0 <= k < n ==> init[k] == candidates[k];
      if kept.status {
        var j :| IsNearest(init, j) && kept == init[j];
        if candidate.status && candidate.t1 < kept.t1 {
          assert IsNearest(candidates, n);
        } else {
          assert IsNearest(candidates, j);
        }
      } else if candidate.status {
        assert IsNearest(candidates, n);
      }
    }
  }

  /** Lines 157-173: cast the ray along `angle` and keep the nearest hit. */
  method CastRay(segments: seq<Line>, observer: Point, angle: real, cos: real -> real, sin: real -> real)
    returns (closest: Intersection)
    ensures closest == Nearest(Candidates(RayFrom(observer, angle, cos, sin), segments, angle))
  {
    var dx := cos(angle);
    var dy := sin(angle);
    var ray := Line(observer, Point(observer.x + dx, observer.y + dy));
    ghost var candidates := Candidates(ray, segments, angle);

    closest := MakeIntersection(false);
    for i := 0 to |segments|
      invariant closest == Nearest(candidates[..i])
    {
      assert candidates[..i + 1][..i] == candidates[..i];
      var intersect := GetIntersection(ray, segments[i]);
      intersect := intersect.(angle := angle);
      assert intersect == candidates[i];
      if !intersect.status {
        continue;
      }
      if !closest.status || intersect.t1 < closest.t1 {
        closest := intersect;
      }
    }
    assert candidates[..|segments|] == candidates;
  }

  /** Each kept record is keyed by its sampling angle if it is a hit, and by 0 if not. */
  lemma CastKeys(segments: seq<Line>, observer: Point, angles: seq<real>, cos: real -> real, sin: real -> real)
    ensures forall i :: 0 <= i < |angles| && CastAll(segments, observer, angles, cos, sin)[i].status ==>
      CastAll(segments, observer, angles, cos, sin)[i].angle == angles[i]
    ensures forall i :: 0 <= i < |angles| && !CastAll(segments, observer, angles, cos, sin)[i].status ==>
      CastAll(segments, observer, angles, cos, sin)[i] == NoHit() && NoHit().angle == 0.0
  {
    forall i | 0 <= i < |angles|
      ensures CastAll(segments, observer, angles, cos, sin)[i].status ==>
        CastAll(segments, observer, angles, cos, sin)[i].angle == angles[i]
      ensures !CastAll(segments, observer, angles, cos, sin)[i].status ==>
        CastAll(segments, observer, angles, cos, sin)[i] == NoHit()
    {
      var candidates := Candidates(RayFrom(observer, angles[i], cos, sin), segments, angles[i]);
      NearestMissesOnlyWithoutHits(candidates);
      NearestIsNearest(candidates);
    }
  }

  // ----- sorting and closing -----

  /** Exchange two records of the vector. */
  method Swap(a: array<Intersection>, i: int, j: int)
    requires 0 <= i < a.Length && 0 <= j < a.Length
    modifies a
    ensures a[..] == old(a[..])[i := old(a[j])][j := old(a[i])]
    ensures multiset(a[..]) == multiset(old(a[..]))
  {
    a[i], a[j] := a[j], a[i];
  }

  /** Move the record at `i` left past every record with a larger angle. */
  method InsertLast(a: array<Intersection>, i: int)
    requires 0 <= i < a.Length && SortedByAngle(a[..i])
    modifies a
    ensures SortedByAngle(a[..i + 1])
    ensures multiset(a[..]) == multiset(old(a[..]))
    ensures a[i + 1..] == old(a[i + 1..])
  {
    var j := i;
    while j > 0 && a[j - 1].angle > a[j].angle
      invariant 0 <= j <= i
      invariant a[i + 1..] == old(a[i + 1..])
      invariant forall m, n :: 0 <= m < n <= i && m != j && n != j ==> a[m].angle <= a[n].angle
      invariant forall n :: j < n <= i ==> a[j].angle <= a[n].angle
      invariant multiset(a[..]) == multiset(old(a[..]))
    {
      Swap(a, j - 1, j);
      j := j - 1;
    }
  }

  /** Line 179: sort the records by angle, in place (std::sort, an insertion sort here). */
  method SortByAngle(a: array<Intersection>)
    modifies a
    ensures SortedByAngle(a[..])
    ensures multiset(a[..]) == multiset(old(a[..]))
  {
    var i := 0;
    while i < a.Length
      invariant 0 <= i <= a.Length
      invariant SortedByAngle(a[..i])
      invariant multiset(a[..]) == multiset(old(a[..]))
    {
      InsertLast(a, i);
      i := i + 1;
    }
    assert a[..a.Length] == a[..];
  }

  /**
   * Lines 149-180: the sorted records, one per sampling angle, closed by a
   * copy of the first. The source reads element 0 of the sorted vector, which
   * exists only when there is at least one vertex.
   */
  method BuildPolygon(segments: seq<Line>, uniquePoints: seq<Point>, observer: Point,
                      atan2: (real, real) -> real, cos: real -> real, sin: real -> real)
    returns (ring: seq<Intersection>)
    requires |uniquePoints| > 0
    ensures |ring| == 3 * |uniquePoints| + 1
    ensures SortedByAngle(ring[..|ring| - 1])
    ensures multiset(ring[..|ring| - 1])
         == multiset(CastAll(segments, observer, Sampled(observer, uniquePoints, atan2), cos, sin))
    ensures ring[|ring| - 1] == ring[0]
  {
    var angles := SampleAngles(observer, uniquePoints, atan2);

    var intersections: seq<Intersection> := [];
    for i := 0 to |angles|
      invariant |intersections| == i
      invariant forall k :: 0 <= k < i ==>
        intersections[k] == Nearest(Candidates(RayFrom(observer, angles[k], cos, sin), segments, angles[k]))
    {
      var closest := CastRay(segments, observer, angles[i], cos, sin);
      intersections := intersections + [closest];
    }
    assert intersections == CastAll(segments, observer, angles, cos, sin);

    var sorted := new Intersection[|intersections|](k requires 0 <= k < |intersections| => intersections[k]);
    assert sorted[..] == intersections;
    SortByAngle(sorted);
    ring := sorted[..] + [sorted[0]];
    assert ring[..|ring| - 1] == sorted[..];
  }
}
