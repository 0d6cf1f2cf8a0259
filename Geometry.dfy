// Points and lines of the plane (line.hpp). Coordinates are exact reals.

module Geometry {

  /** A point of the plane, also used as a direction vector. */
  datatype Point = Point(x: real, y: real)

  /** The `Point` constructor with its default arguments (both coordinates 0). */
  function MakePoint(x: real := 0.0, y: real := 0.0): Point
  {
    Point(x, y)
  }

  /** `Point::operator==`: both coordinates compare exactly equal, no tolerance. */
  predicate Equal(p: Point, q: Point)
  {
    p.x == q.x && p.y == q.y
  }

  /** A line given by two points; `a` is where it starts, `b - a` its direction. */
  datatype Line = Line(a: Point, b: Point)

  /** The direction vector `b - a` of a line. */
  function Direction(l: Line): Point
  {
    Point(l.b.x - l.a.x, l.b.y - l.a.y)
  }

  /** The point `a + t * (b - a)` of the parametric line through `l`. */
  function At(l: Line, t: real): Point
  {
    Point(l.a.x + t * Direction(l).x, l.a.y + t * Direction(l).y)
  }

  lemma DefaultPointIsOrigin(x: real)
    ensures MakePoint() == Point(0.0, 0.0)
    ensures MakePoint(x) == Point(x, 0.0)
  {
  }

  /** Exact comparison is the identity of points: no two distinct points are equal. */
  lemma EqualIsIdentity(p: Point, q: Point)
    ensures Equal(p, q) <==> p == q
  {
  }

  lemma EqualIsEquivalence(p: Point, q: Point, r: Point)
    ensures Equal(p, p)
    ensures Equal(p, q) <==> Equal(q, p)
    ensures Equal(p, q) && Equal(q, r) ==> Equal(p, r)
  {
  }

  /** A line keeps its endpoints in order: parameter 0 is `a`, parameter 1 is `b`. */
  lemma LineKeepsOrder(a: Point, b: Point)
    ensures Line(a, b).a == a && Line(a, b).b == b
    ensures At(Line(a, b), 0.0) == a
    ensures At(Line(a, b), 1.0) == b
  {
  }
}
