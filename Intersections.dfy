// The intersection record (intersection.hpp).

module Intersections {
  import opened Geometry

  /**
   * Result of casting one ray against one segment: whether it hit, where,
   * the ray parameter `t1` of the hit, and the sampling angle that produced
   * the ray (attached afterwards, for sorting).
   */
  datatype Intersection = Intersection(status: bool, point: Point, t1: real, angle: real)

  /** The `Intersection` constructor with its default arguments. */
  function MakeIntersection(s: bool, x: real := 0.0, y: real := 0.0, t1: real := 0.0, a: real := 0.0): Intersection
  {
    Intersection(s, MakePoint(x, y), t1, a)
  }

  /** `Intersection{ false }`: the non-hit record. */
  function NoHit(): Intersection
  {
    MakeIntersection(false)
  }

  lemma NoHitDefaults()
    ensures !NoHit().status
    ensures NoHit().point == Point(0.0, 0.0)
    ensures NoHit().t1 == 0.0 && NoHit().angle == 0.0
  {
  }

  lemma ConstructorStoresFields(s: bool, x: real, y: real, t1: real, a: real)
    ensures MakeIntersection(s, x, y, t1, a) == Intersection(s, Point(x, y), t1, a)
  {
  }

  /** A hit built from four arguments has angle 0 until the caller overwrites it. */
  lemma FourArgumentHitHasZeroAngle(x: real, y: real, t1: real)
    ensures MakeIntersection(true, x, y, t1).status
    ensures MakeIntersection(true, x, y, t1).angle == 0.0
  {
  }
}
