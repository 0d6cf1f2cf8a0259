// Unique-vertex extraction (findUniquePoints in main.cpp).
//
// The segments are scanned in order and, for each, its start then its end is
// appended to the accumulator unless an exactly equal point is already there.

module UniquePoints {
  import opened Geometry

  /** The endpoints of the segments in scan order: a0, b0, a1, b1, ... */
  function Endpoints(segments: seq<Line>): (ps: seq<Point>)
    ensures |ps| == 2 * |segments|
    ensures forall i :: 0 <= i < |segments| ==> ps[2 * i] == segments[i].a && ps[2 * i + 1] == segments[i].b
    decreases |segments|
  {
    if segments == [] then []
    else
      var last := segments[|segments| - 1];
      Endpoints(segments[..|segments| - 1]) + [last.a, last.b]
  }

  /** One scan step: append `p` unless it is already present. */
  function AddIfAbsent(acc: seq<Point>, p: Point): seq<Point>
  {
    if p in acc then acc else acc + [p]
  }

  /** The accumulator after scanning the points `ps` in order. */
  function AddAll(acc: seq<Point>, ps: seq<Point>): seq<Point>
    decreases |ps|
  {
    if ps == [] then acc
    else AddIfAbsent(AddAll(acc, ps[..|ps| - 1]), ps[|ps| - 1])
  }

  predicate NoDuplicates(s: seq<Point>)
  {
    forall i, j :: 0 <= i < j < |s| ==> s[i] != s[j]
  }

  /** The position where `p` first occurs in `ps`. */
  function FirstIndex(ps: seq<Point>, p: Point): (k: nat)
    requires p in ps
    ensures k < |ps| && ps[k] == p && p !in ps[..k]
  {
    if ps[0] == p then 0
    else
      assert p in ps[1..];
      var k := 1 + FirstIndex(ps[1..], p);
      assert ps[..k] == [ps[0]] + ps[1..][..k - 1];
      k
  }

  lemma FirstIndexOfPrefix(ps: seq<Point>, n: nat, p: Point)
    requires n <= |ps| && p in ps[..n]
    ensures p in ps && FirstIndex(ps, p) == FirstIndex(ps[..n], p)
  {
    var k := FirstIndex(ps[..n], p);
    var m := FirstIndex(ps, p);
    assert ps[..n][..k] == ps[..k];
  }

  // ----- the linear search -----

  /**
   * The inner loop of findUniquePoints: a linear search with `==` that
   * clears the flag and stops at the first equal point.
   */
  method IsUnique(uniquePoints: seq<Point>, candidate: Point) returns (unique: bool)
    ensures unique <==> candidate !in uniquePoints
  {
    unique := true;
    for i := 0 to |uniquePoints|
      invariant candidate !in uniquePoints[..i]
    {
      if Equal(uniquePoints[i], candidate) {
        unique := false;
        break;
      }
    }
  }

  /**
   * findUniquePoints: `uniquePoints` is the vector passed by reference, the
   * result its new contents.
   */
  method FindUniquePoints(segments: seq<Line>, uniquePoints: seq<Point>) returns (result: seq<Point>)
    ensures result == AddAll(uniquePoints, Endpoints(segments))
    ensures |result| >= |uniquePoints| && result[..|uniquePoints|] == uniquePoints
    ensures NoDuplicates(uniquePoints) ==> NoDuplicates(result)
    ensures forall p :: p in result <==> p in uniquePoints || p in Endpoints(segments)
  {
    result := uniquePoints;
    for i := 0 to |segments|
      invariant result == AddAll(uniquePoints, Endpoints(segments[..i]))
    {
      var startPoint := segments[i].a;
      var endPoint := segments[i].b;

      var startPointUnique := IsUnique(result, startPoint);
      if startPointUnique {
        result := result + [startPoint];
      }

      var endPointUnique := IsUnique(result, endPoint);
      if endPointUnique {
        result := result + [endPoint];
      }

      assert segments[..i + 1] == segments[..i] + [segments[i]];
      ScanOneSegment(uniquePoints, segments[..i], segments[i]);
    }
    assert segments[..|segments|] == segments;
    AddAllExtends(uniquePoints, Endpoints(segments));
    if NoDuplicates(uniquePoints) {
      AddAllKeepsNoDuplicates(uniquePoints, Endpoints(segments));
    }
    AddAllContents(uniquePoints, Endpoints(segments));
  }

  // ----- properties of the scan -----

  /** Points are only appended: the original accumulator stays a prefix. */
  lemma {:induction false} AddAllExtends(acc: seq<Point>, ps: seq<Point>)
    ensures |AddAll(acc, ps)| >= |acc|
    ensures AddAll(acc, ps)[..|acc|] == acc
    decreases |ps|
  {
    if ps != [] {
      AddAllExtends(acc, ps[..|ps| - 1]);
      var prev := AddAll(acc, ps[..|ps| - 1]);
      assert (prev + [ps[|ps| - 1]])[..|acc|] == prev[..|acc|];
    }
  }

  /** An accumulator without duplicates stays without duplicates. */
  lemma {:induction false} AddAllKeepsNoDuplicates(acc: seq<Point>, ps: seq<Point>)
    requires NoDuplicates(acc)
    ensures NoDuplicates(AddAll(acc, ps))
    decreases |ps|
  {
    if ps != [] {
      AddAllKeepsNoDuplicates(acc, ps[..|ps| - 1]);
    }
  }

  /** The result holds exactly the accumulator's points and the scanned points. */
  lemma {:induction false} AddAllContents(acc: seq<Point>, ps: seq<Point>)
    ensures forall p :: p in AddAll(acc, ps) <==> p in acc || p in ps
    decreases |ps|
  {
    if ps != [] {
      var init := ps[..|ps| - 1];
      AddAllContents(acc, init);
      assert ps == init + [ps[|ps| - 1]];
    }
  }

  /** Every appended point is a scanned point that was not in the accumulator. */
  lemma {:induction false} AppendedAreNew(acc: seq<Point>, ps: seq<Point>)
    ensures forall i :: |acc| <= i < |AddAll(acc, ps)| ==> AddAll(acc, ps)[i] in ps && AddAll(acc, ps)[i] !in acc
    decreases |ps|
  {
    AddAllExtends(acc, ps);
    var r := AddAll(acc, ps);
    if ps != [] {
      var init := ps[..|ps| - 1];
      AppendedAreNew(acc, init);
      AddAllContents(acc, init);
      forall i | |acc| <= i < |r|
        ensures r[i] in ps && r[i] !in acc
      {
        if i < |AddAll(acc, init)| {
          assert r[i] == AddAll(acc, init)[i];
          assert r[i] in init;
        }
      }
    }
  }

  /** Appended points follow the order in which they were first seen in the scan. */
  lemma {:induction false} AppendedInFirstSeenOrder(acc: seq<Point>, ps: seq<Point>)
    ensures forall i, j :: |acc| <= i < j < |AddAll(acc, ps)| ==>
      AddAll(acc, ps)[i] in ps && AddAll(acc, ps)[j] in ps &&
      FirstIndex(ps, AddAll(acc, ps)[i]) < FirstIndex(ps, AddAll(acc, ps)[j])
    decreases |ps|
  {
    AppendedAreNew(acc, ps);
    if ps != [] {
      var n := |ps| - 1;
      var init := ps[..n];
      var prev := AddAll(acc, init);
      var r := AddAll(acc, ps);
      AppendedInFirstSeenOrder(acc, init);
      AppendedAreNew(acc, init);
      AddAllExtends(acc, init);
      AddAllContents(acc, init);
      forall i, j | |acc| <= i < j < |r|
        ensures FirstIndex(ps, r[i]) < FirstIndex(ps, r[j])
      {
        assert r[i] == prev[i] && r[i] in init;
        FirstIndexOfPrefix(ps, n, r[i]);
        if j < |prev| {
          assert r[j] == prev[j] && r[j] in init;
          FirstIndexOfPrefix(ps, n, r[j]);
        } else {
          assert r[j] == ps[n] && ps[n] !in prev;
          assert ps[n] !in init;
          assert FirstIndex(ps, r[j]) == n;
        }
      }
    }
  }

  lemma EndpointsAppend(segments: seq<Line>, l: Line)
    ensures Endpoints(segments + [l]) == Endpoints(segments) + [l.a, l.b]
  {
    assert (segments + [l])[..|segments|] == segments;
  }

  lemma AddAllAppend(acc: seq<Point>, ps: seq<Point>, p: Point)
    ensures AddAll(acc, ps + [p]) == AddIfAbsent(AddAll(acc, ps), p)
  {
    assert (ps + [p])[..|ps|] == ps;
  }

  /** Scanning one more segment adds its start, then its end. */
  lemma ScanOneSegment(acc: seq<Point>, segments: seq<Line>, l: Line)
    ensures AddAll(acc, Endpoints(segments + [l]))
         == AddIfAbsent(AddIfAbsent(AddAll(acc, Endpoints(segments)), l.a), l.b)
  {
    var done := Endpoints(segments);
    EndpointsAppend(segments, l);
    assert done + [l.a, l.b] == (done + [l.a]) + [l.b];
    AddAllAppend(acc, done + [l.a], l.b);
    AddAllAppend(acc, done, l.a);
  }

  /**
   * The four border walls of the 800 by 600 window: their eight endpoints give
   * the four corners, once each, in the order the walls list them.
   */
  lemma BorderCorners()
    ensures var a, b, c, d := Point(0.0, 0.0), Point(800.0, 0.0), Point(800.0, 600.0), Point(0.0, 600.0);
      AddAll([], Endpoints([Line(a, b), Line(b, c), Line(c, d), Line(d, a)])) == [a, b, c, d]
  {
    var a, b, c, d := Point(0.0, 0.0), Point(800.0, 0.0), Point(800.0, 600.0), Point(0.0, 600.0);
    var ab, bc, cd, da := Line(a, b), Line(b, c), Line(c, d), Line(d, a);
    assert Endpoints([]) == [] && AddAll([], []) == [];
    ScanOneSegment([], [], ab);
    assert [] + [ab] == [ab];
    assert AddAll([], Endpoints([ab])) == [a, b];
    ScanOneSegment([], [ab], bc);
    assert [ab] + [bc] == [ab, bc];
    assert AddAll([], Endpoints([ab, bc])) == [a, b, c];
    ScanOneSegment([], [ab, bc], cd);
    assert [ab, bc] + [cd] == [ab, bc, cd];
    assert AddAll([], Endpoints([ab, bc, cd])) == [a, b, c, d];
    ScanOneSegment([], [ab, bc, cd], da);
    assert [ab, bc, cd] + [da] == [ab, bc, cd, da];
  }
}
