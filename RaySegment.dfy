// Ray-segment intersection (getIntersection in main.cpp).
//
// The ray `r_p + T1 * r_d` and the segment `s_p + T2 * s_d` are solved for
// `T1` and `T2`; a hit needs `T1 >= 0` and `0 <= T2 <= 1`.

module RaySegment {
  import opened Geometry
  import opened Intersections
  import opened Algebra

  function Cross(u: Point, v: Point): real
  {
    u.x * v.y - u.y * v.x
  }

  function Dot(u: Point, v: Point): real
  {
    u.x * v.x + u.y * v.y
  }

  /**
   * The source's parallel test compares the two unit vectors exactly; over the
   * reals that is "cross product zero and dot product positive"
   * (see UnitVectorTest).
   */
  predicate SameDirection(u: Point, v: Point)
  {
    Cross(u, v) == 0.0 && Dot(u, v) > 0.0
  }

  /** The denominator `s_dx*r_dy - s_dy*r_dx` of T2. */
  function Denominator(ray: Line, seg: Line): real
  {
    Cross(Direction(seg), Direction(ray))
  }

  /**
   * T2 over the coordinates of the ray start `rp`, the ray direction `rd`,
   * the segment start `sp` and the segment direction `sd`.
   */
  function ClosedT2(rpx: real, rpy: real, rdx: real, rdy: real, spx: real, spy: real, sdx: real, sdy: real): real
    requires sdx * rdy - sdy * rdx != 0.0
  {
    (rdx * (spy - rpy) + rdy * (rpx - spx)) / (sdx * rdy - sdy * rdx)
  }

  /** T1 from one coordinate equation `rp + T1 * rd == sp + T2 * sd` of the ray and the segment. */
  function T1FromCoordinate(rp: real, rd: real, sp: real, sd: real, t2: real): real
    requires rd != 0.0
  {
    (sp + sd * t2 - rp) / rd
  }

  /**
   * T1 over the coordinates, from the x equation; when the ray is vertical,
   * from the y equation instead (the alternative form of T1).
   */
  function ClosedT1(rpx: real, rpy: real, rdx: real, rdy: real, spx: real, spy: real, sdx: real, sdy: real): real
    requires sdx * rdy - sdy * rdx != 0.0
  {
    var t2 := ClosedT2(rpx, rpy, rdx, rdy, spx, spy, sdx, sdy);
    if rdx != 0.0 then
      T1FromCoordinate(rpx, rdx, spx, sdx, t2)
    else
      assert rdy != 0.0;
      T1FromCoordinate(rpy, rdy, spy, sdy, t2)
  }

  /** T2, the parameter along the segment. */
  function SegmentParameter(ray: Line, seg: Line): real
    requires Denominator(ray, seg) != 0.0
  {
    var rd, sd := Direction(ray), Direction(seg);
    ClosedT2(ray.a.x, ray.a.y, rd.x, rd.y, seg.a.x, seg.a.y, sd.x, sd.y)
  }

  /** T1, the parameter along the ray. */
  function RayParameter(ray: Line, seg: Line): real
    requires Denominator(ray, seg) != 0.0
  {
    var rd, sd := Direction(ray), Direction(seg);
    ClosedT1(ray.a.x, ray.a.y, rd.x, rd.y, seg.a.x, seg.a.y, sd.x, sd.y)
  }

  /** The ray, from `t1 >= 0`, meets the segment, within `0 <= t2 <= 1`, at one point. */
  predicate Crosses(ray: Line, seg: Line, t1: real, t2: real)
  {
    t1 >= 0.0 && 0.0 <= t2 <= 1.0 && At(ray, t1) == At(seg, t2)
  }

  /**
   * The end of getIntersection, once T1 and T2 are known: a non-hit behind
   * the ray start or outside the segment, otherwise a hit at the point of the
   * ray at T1.
   */
  function Report(ray: Line, t1: real, t2: real): (r: Intersection)
    ensures r.status <==> t1 >= 0.0 && 0.0 <= t2 <= 1.0
    ensures r.status ==> r.t1 == t1 && r.point == At(ray, t1) && r.angle == 0.0
    ensures !r.status ==> r == NoHit()
  {
    var rd := Direction(ray);
    if t1 < 0.0 then NoHit()
    else if t2 < 0.0 || t2 > 1.0 then NoHit()
    else MakeIntersection(true, ray.a.x + rd.x * t1, ray.a.y + rd.y * t1, t1)
  }

  /**
   * getIntersection corrected: a zero denominator at line 32 (parallel lines
   * of either orientation, or a zero-length direction) gives a non-hit; when
   * `r_dx == 0`, T1 comes from the y equation instead of line 33.
   */
  function GetIntersection(ray: Line, seg: Line): (r: Intersection)
    ensures r.status ==> r.t1 >= 0.0 && r.point == At(ray, r.t1) && r.angle == 0.0
    ensures !r.status ==> r == NoHit()
  {
    var rd, sd := Direction(ray), Direction(seg);
    if SameDirection(rd, sd) then NoHit()
    else if Denominator(ray, seg) == 0.0 then NoHit()
    else Report(ray, RayParameter(ray, seg), SegmentParameter(ray, seg))
  }

  /** How the source's getIntersection ends: it returns a record, or divides by zero at a line. */
  datatype Evaluation = Returns(value: Intersection) | DividesByZero(line: nat)

  /**
   * A direction of length zero: its magnitude `sqrt(dx*dx + dy*dy)` (lines
   * 21-22) is zero exactly then.
   */
  predicate ZeroLength(v: Point)
  {
    v == Point(0.0, 0.0)
  }

  /**
   * getIntersection as written, ending at the first division by zero: the
   * unit vectors of line 24 divide by a zero magnitude, and after the
   * same-direction test it divides by the denominator (line 32) and by
   * `r_dx` (line 33) without a guard.
   */
  function GetIntersectionAsWritten(ray: Line, seg: Line): (r: Evaluation)
    ensures r.DividesByZero? ==> r.line == 24 || r.line == 32 || r.line == 33
    ensures r.Returns? && r.value.status ==> r.value.t1 >= 0.0 && r.value.point == At(ray, r.value.t1)
  {
    var rd, sd := Direction(ray), Direction(seg);
    if ZeroLength(rd) || ZeroLength(sd) then DividesByZero(24)
    else if SameDirection(rd, sd) then Returns(NoHit())
    else if Denominator(ray, seg) == 0.0 then DividesByZero(32)
    else if rd.x == 0.0 then DividesByZero(33)
    else
      var t2 := SegmentParameter(ray, seg);
      Returns(Report(ray, T1FromCoordinate(ray.a.x, rd.x, seg.a.x, sd.x, t2), t2))
  }

  // ----- the parallel test -----

  /**
   * With magnitudes `um`, `vm` (the square roots of lines 21-22), comparing the
   * unit vectors component-wise is exactly SameDirection.
   */
  lemma UnitVectorTest(u: Point, v: Point, um: real, vm: real)
    requires um > 0.0 && um * um == u.x * u.x + u.y * u.y
    requires vm > 0.0 && vm * vm == v.x * v.x + v.y * v.y
    ensures (u.x / um == v.x / vm && u.y / um == v.y / vm) <==> SameDirection(u, v)
  {
    UnitVectorsEqual(u.x, u.y, v.x, v.y, um, vm);
  }

  /** Same-direction pairs have a zero denominator, so the guard of line 32 covers them too. */
  lemma SameDirectionIsParallel(ray: Line, seg: Line)
    requires SameDirection(Direction(ray), Direction(seg))
    ensures Denominator(ray, seg) == 0.0
    ensures GetIntersection(ray, seg) == NoHit()
    ensures GetIntersectionAsWritten(ray, seg) == Returns(NoHit())
  {
  }

  /** Parallel or degenerate pairs (zero denominator) never hit. */
  lemma ParallelIsNoHit(ray: Line, seg: Line)
    requires Denominator(ray, seg) == 0.0
    ensures GetIntersection(ray, seg) == NoHit()
  {
  }

  // ----- solving the two equations -----

  /** The closed forms of T1 and T2 solve both coordinate equations. */
  lemma ClosedFormsSolve(rpx: real, rpy: real, rdx: real, rdy: real, spx: real, spy: real, sdx: real, sdy: real)
    requires sdx * rdy - sdy * rdx != 0.0
    ensures rpx + ClosedT1(rpx, rpy, rdx, rdy, spx, spy, sdx, sdy) * rdx == spx + ClosedT2(rpx, rpy, rdx, rdy, spx, spy, sdx, sdy) * sdx
    ensures rpy + ClosedT1(rpx, rpy, rdx, rdy, spx, spy, sdx, sdy) * rdy == spy + ClosedT2(rpx, rpy, rdx, rdy, spx, spy, sdx, sdy) * sdy
  {
    var t2, t1 := ClosedT2(rpx, rpy, rdx, rdy, spx, spy, sdx, sdy), ClosedT1(rpx, rpy, rdx, rdy, spx, spy, sdx, sdy);
    assert t2 * (sdx * rdy - sdy * rdx) == rdx * (spy - rpy) + rdy * (rpx - spx);
    if rdx != 0.0 {
      assert rdx * t1 == spx + sdx * t2 - rpx;
      SolveYFromX(rpx, rpy, rdx, rdy, spx, spy, sdx, sdy, t1, t2);
    } else {
      assert rdy * t1 == spy + sdy * t2 - rpy;
      SolveXFromY(rpx, spx, rdy, sdx, t2);
    }
  }

  /** Any solution of both coordinate equations is given by the closed forms. */
  lemma SolutionIsClosedForm(rpx: real, rpy: real, rdx: real, rdy: real, spx: real, spy: real, sdx: real, sdy: real, t1: real, t2: real)
    requires sdx * rdy - sdy * rdx != 0.0
    requires rpx + t1 * rdx == spx + t2 * sdx
    requires rpy + t1 * rdy == spy + t2 * sdy
    ensures t1 == ClosedT1(rpx, rpy, rdx, rdy, spx, spy, sdx, sdy)
    ensures t2 == ClosedT2(rpx, rpy, rdx, rdy, spx, spy, sdx, sdy)
  {
    EliminateRayParameter(rpx, rpy, rdx, rdy, spx, spy, sdx, sdy, t1, t2);
    Quotient(t2, sdx * rdy - sdy * rdx, rdx * (spy - rpy) + rdy * (rpx - spx));
    if rdx != 0.0 {
      Quotient(t1, rdx, spx + sdx * t2 - rpx);
    } else {
      Quotient(t1, rdy, spy + sdy * t2 - rpy);
    }
  }

  /** The closed forms of T1 and T2 give the same point on the ray and on the segment. */
  lemma ParametersSolve(ray: Line, seg: Line)
    requires Denominator(ray, seg) != 0.0
    ensures At(ray, RayParameter(ray, seg)) == At(seg, SegmentParameter(ray, seg))
  {
    var rd, sd := Direction(ray), Direction(seg);
    var t1, t2 := RayParameter(ray, seg), SegmentParameter(ray, seg);
    assert t1 == ClosedT1(ray.a.x, ray.a.y, rd.x, rd.y, seg.a.x, seg.a.y, sd.x, sd.y);
    assert t2 == ClosedT2(ray.a.x, ray.a.y, rd.x, rd.y, seg.a.x, seg.a.y, sd.x, sd.y);
    ClosedFormsSolve(ray.a.x, ray.a.y, rd.x, rd.y, seg.a.x, seg.a.y, sd.x, sd.y);
    assert ray.a.x + t1 * rd.x == seg.a.x + t2 * sd.x;
    assert ray.a.y + t1 * rd.y == seg.a.y + t2 * sd.y;
  }

  /** With a nonzero denominator the crossing parameters are unique. */
  lemma ParametersUnique(ray: Line, seg: Line, t1: real, t2: real)
    requires Denominator(ray, seg) != 0.0
    requires At(ray, t1) == At(seg, t2)
    ensures t1 == RayParameter(ray, seg) && t2 == SegmentParameter(ray, seg)
  {
    var rd, sd := Direction(ray), Direction(seg);
    assert ray.a.x + t1 * rd.x == seg.a.x + t2 * sd.x && ray.a.y + t1 * rd.y == seg.a.y + t2 * sd.y by {
      assert At(ray, t1).x == At(seg, t2).x && At(ray, t1).y == At(seg, t2).y;
    }
    SolutionIsClosedForm(ray.a.x, ray.a.y, rd.x, rd.y, seg.a.x, seg.a.y, sd.x, sd.y, t1, t2);
  }

  /**
   * A reported hit lies on the ray at `T1 >= 0` and on the segment at
   * `0 <= T2 <= 1`, and carries angle 0.
   */
  lemma HitLiesOnBoth(ray: Line, seg: Line)
    requires GetIntersection(ray, seg).status
    ensures Denominator(ray, seg) != 0.0
    ensures var r := GetIntersection(ray, seg);
      && r.t1 == RayParameter(ray, seg)
      && Crosses(ray, seg, r.t1, SegmentParameter(ray, seg))
      && r.point == At(ray, r.t1) == At(seg, SegmentParameter(ray, seg))
      && r.angle == 0.0
  {
    ParametersSolve(ray, seg);
  }

  /** Every crossing of a non-parallel pair is reported, with its own T1. */
  lemma CrossingIsHit(ray: Line, seg: Line, t1: real, t2: real)
    requires Denominator(ray, seg) != 0.0
    requires Crosses(ray, seg, t1, t2)
    ensures var r := GetIntersection(ray, seg);
      r.status && r.t1 == t1 && r.point == At(ray, t1) == At(seg, t2)
  {
    ParametersUnique(ray, seg, t1, t2);
  }

  /** getIntersection reports a hit exactly when a non-parallel pair crosses. */
  lemma HitIffCrosses(ray: Line, seg: Line)
    ensures GetIntersection(ray, seg).status <==>
      Denominator(ray, seg) != 0.0 && exists t1, t2 :: Crosses(ray, seg, t1, t2)
  {
    if GetIntersection(ray, seg).status {
      HitLiesOnBoth(ray, seg);
    }
    if Denominator(ray, seg) != 0.0 && exists t1, t2 :: Crosses(ray, seg, t1, t2) {
      var t1, t2 :| Crosses(ray, seg, t1, t2);
      CrossingIsHit(ray, seg, t1, t2);
    }
  }

  // ----- the source as written -----

  /**
   * The source divides by zero at line 24 exactly when a direction has length
   * zero, and otherwise exactly for pairs that are not same-direction but
   * parallel, and for vertical rays; elsewhere it returns what
   * GetIntersection returns.
   */
  lemma AsWrittenAgreesElsewhere(ray: Line, seg: Line)
    ensures var e, rd, sd := GetIntersectionAsWritten(ray, seg), Direction(ray), Direction(seg);
      && (e == DividesByZero(24) <==> ZeroLength(rd) || ZeroLength(sd))
      && (e.DividesByZero? <==>
           ZeroLength(rd) || ZeroLength(sd)
           || (!SameDirection(rd, sd) && (Denominator(ray, seg) == 0.0 || rd.x == 0.0)))
      && (e.Returns? ==> e.value == GetIntersection(ray, seg))
  {
    var rd, sd := Direction(ray), Direction(seg);
    if !ZeroLength(rd) && !ZeroLength(sd) && !SameDirection(rd, sd) && Denominator(ray, seg) != 0.0 && rd.x != 0.0 {
      assert RayParameter(ray, seg) == T1FromCoordinate(ray.a.x, rd.x, seg.a.x, sd.x, SegmentParameter(ray, seg));
    }
  }

  /**
   * A ray or a segment of length zero makes line 24 divide by a zero
   * magnitude; the guarded model reports a non-hit.
   */
  lemma ZeroLengthDividesByZero(ray: Line, seg: Line)
    requires ZeroLength(Direction(ray)) || ZeroLength(Direction(seg))
    ensures Denominator(ray, seg) == 0.0
    ensures GetIntersectionAsWritten(ray, seg) == DividesByZero(24)
    ensures GetIntersection(ray, seg) == NoHit()
  {
  }

  /**
   * Anti-parallel pairs of nonzero length pass the test of line 24 and reach
   * line 32 with a zero denominator; for them the guarded model reports a
   * non-hit.
   */
  lemma AntiParallelDividesByZero(ray: Line, seg: Line)
    requires !ZeroLength(Direction(ray)) && !ZeroLength(Direction(seg))
    requires Cross(Direction(ray), Direction(seg)) == 0.0
    requires Dot(Direction(ray), Direction(seg)) <= 0.0
    ensures !SameDirection(Direction(ray), Direction(seg))
    ensures Denominator(ray, seg) == 0.0
    ensures GetIntersectionAsWritten(ray, seg) == DividesByZero(32)
    ensures GetIntersection(ray, seg) == NoHit()
  {
  }

  /**
   * A vertical ray (`r_dx == 0`) that crosses a segment reaches line 33 and
   * divides by zero, while the crossing is a genuine hit, which the guarded
   * model reports with its own T1.
   */
  lemma VerticalRayDividesByZero(ray: Line, seg: Line, t1: real, t2: real)
    requires Direction(ray).x == 0.0 && Denominator(ray, seg) != 0.0
    requires Crosses(ray, seg, t1, t2)
    ensures GetIntersectionAsWritten(ray, seg) == DividesByZero(33)
    ensures GetIntersection(ray, seg).status && GetIntersection(ray, seg).t1 == t1
  {
    CrossingIsHit(ray, seg, t1, t2);
  }
}
