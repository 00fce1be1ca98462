/** `GeometryUtils` of backend/geometry_utils.py (and of its identical copy
    backend/prueba/geometry_utils.py): bounding boxes, translation,
    normalisation, the shoelace area and the orientation test over polygons
    given as vertex lists. */
module Geometry {
  import opened Common

  datatype Point = Point(x: real, y: real)

  type Polygon = seq<Point>

  /** A bounding box `(min_x, min_y, max_x, max_y)`. */
  datatype Box = Box(minX: real, minY: real, maxX: real, maxY: real)

  datatype Orientation = Undefined | Clockwise | Counterclockwise | Collinear

  function Xs(ps: Polygon): (r: seq<real>)
    ensures |r| == |ps| && forall i {:trigger r[i]} :: 0 <= i < |ps| ==> r[i] == ps[i].x
  {
    seq(|ps|, i requires 0 <= i < |ps| => ps[i].x)
  }

  function Ys(ps: Polygon): (r: seq<real>)
    ensures |r| == |ps| && forall i {:trigger r[i]} :: 0 <= i < |ps| ==> r[i] == ps[i].y
  {
    seq(|ps|, i requires 0 <= i < |ps| => ps[i].y)
  }

  predicate InBox(p: Point, b: Box)
  {
    b.minX <= p.x <= b.maxX && b.minY <= p.y <= b.maxY
  }

  /** `b` grown just enough to take in `p`. */
  function Extend(b: Box, p: Point): Box
  {
    Box(if p.x < b.minX then p.x else b.minX, if p.y < b.minY then p.y else b.minY,
        if p.x > b.maxX then p.x else b.maxX, if p.y > b.maxY then p.y else b.maxY)
  }

  /** `get_polygon_bounds`: the all-zero box for no points, otherwise the
      coordinate-wise minima and maxima (computed here in one pass;
      `BoundsContain` and `BoundsAttained` show the result is exactly those
      minima and maxima). */
  function Bounds(ps: Polygon): (b: Box)
    ensures ps == [] ==> b == Box(0.0, 0.0, 0.0, 0.0)
    ensures ps != [] ==> b.minX <= b.maxX && b.minY <= b.maxY
    decreases |ps|
  {
    if ps == [] then Box(0.0, 0.0, 0.0, 0.0)
    else if |ps| == 1 then Box(ps[0].x, ps[0].y, ps[0].x, ps[0].y)
    else Extend(Bounds(ps[..|ps| - 1]), ps[|ps| - 1])
  }

  /** Every point lies in the box. */
  lemma {:induction false} BoundsContain(ps: Polygon)
    ensures forall i :: 0 <= i < |ps| ==> InBox(ps[i], Bounds(ps))
    decreases |ps|
  {
    if |ps| > 1 {
      var init := ps[..|ps| - 1];
      BoundsContain(init);
      assert forall i :: 0 <= i < |init| ==> ps[i] == init[i];
    }
  }

  /** Each side of the box of a non-empty polygon touches one of its points. */
  lemma {:induction false} BoundsAttained(ps: Polygon)
    requires ps != []
    ensures exists i :: 0 <= i < |ps| && ps[i].x == Bounds(ps).minX
    ensures exists i :: 0 <= i < |ps| && ps[i].y == Bounds(ps).minY
    ensures exists i :: 0 <= i < |ps| && ps[i].x == Bounds(ps).maxX
    ensures exists i :: 0 <= i < |ps| && ps[i].y == Bounds(ps).maxY
    decreases |ps|
  {
    if |ps| > 1 {
      var init, last := ps[..|ps| - 1], |ps| - 1;
      var b := Bounds(init);
      BoundsAttained(init);
      var a :| 0 <= a < |init| && init[a].x == b.minX;
      var c :| 0 <= c < |init| && init[c].y == b.minY;
      var d :| 0 <= d < |init| && init[d].x == b.maxX;
      var e :| 0 <= e < |init| && init[e].y == b.maxY;
      assert ps[a] == init[a] && ps[c] == init[c] && ps[d] == init[d] && ps[e] == init[e];
      var p, bb := ps[last], Bounds(ps);
      assert bb == Extend(b, p);
      if p.x < b.minX { assert ps[last].x == bb.minX; } else { assert ps[a].x == bb.minX; }
      if p.y < b.minY { assert ps[last].y == bb.minY; } else { assert ps[c].y == bb.minY; }
      if p.x > b.maxX { assert ps[last].x == bb.maxX; } else { assert ps[d].x == bb.maxX; }
      if p.y > b.maxY { assert ps[last].y == bb.maxY; } else { assert ps[e].y == bb.maxY; }
    } else {
      assert ps[0].x == Bounds(ps).minX == Bounds(ps).maxX && ps[0].y == Bounds(ps).minY == Bounds(ps).maxY;
    }
  }

  /** A box that holds every point of a non-empty polygon holds its
      bounding box: the bounding box is the smallest such box. */
  lemma {:induction false} BoundsWithin(ps: Polygon, b: Box)
    requires ps != []
    requires forall i :: 0 <= i < |ps| ==> InBox(ps[i], b)
    ensures b.minX <= Bounds(ps).minX && Bounds(ps).maxX <= b.maxX
    ensures b.minY <= Bounds(ps).minY && Bounds(ps).maxY <= b.maxY
    decreases |ps|
  {
    if |ps| > 1 {
      var init := ps[..|ps| - 1];
      assert forall i :: 0 <= i < |init| ==> init[i] == ps[i];
      BoundsWithin(init, b);
      assert InBox(ps[|ps| - 1], b);
    } else {
      assert InBox(ps[0], b);
    }
  }

  /** A box that holds every point and touches a point on each side is the
      bounding box. */
  lemma BoundsUnique(ps: Polygon, b: Box)
    requires forall i :: 0 <= i < |ps| ==> InBox(ps[i], b)
    requires exists i :: 0 <= i < |ps| && ps[i].x == b.minX
    requires exists i :: 0 <= i < |ps| && ps[i].y == b.minY
    requires exists i :: 0 <= i < |ps| && ps[i].x == b.maxX
    requires exists i :: 0 <= i < |ps| && ps[i].y == b.maxY
    ensures Bounds(ps) == b
  {
    BoundsContain(ps);
    BoundsAttained(ps);
    var bb := Bounds(ps);
    var i0 :| 0 <= i0 < |ps| && ps[i0].x == bb.minX;
    var i1 :| 0 <= i1 < |ps| && ps[i1].y == bb.minY;
    var i2 :| 0 <= i2 < |ps| && ps[i2].x == bb.maxX;
    var i3 :| 0 <= i3 < |ps| && ps[i3].y == bb.maxY;
    var j0 :| 0 <= j0 < |ps| && ps[j0].x == b.minX;
    var j1 :| 0 <= j1 < |ps| && ps[j1].y == b.minY;
    var j2 :| 0 <= j2 < |ps| && ps[j2].x == b.maxX;
    var j3 :| 0 <= j3 < |ps| && ps[j3].y == b.maxY;
    assert InBox(ps[i0], b) && InBox(ps[i1], b) && InBox(ps[i2], b) && InBox(ps[i3], b);
    assert InBox(ps[j0], bb) && InBox(ps[j1], bb) && InBox(ps[j2], bb) && InBox(ps[j3], bb);
  }

  function Width(b: Box): real { b.maxX - b.minX }

  function Height(b: Box): real { b.maxY - b.minY }

  /** `translate_polygon`. */
  function Translate(ps: Polygon, dx: real, dy: real): (r: Polygon)
    ensures |r| == |ps|
    ensures forall i {:trigger r[i]} :: 0 <= i < |ps| ==> r[i] == Point(ps[i].x + dx, ps[i].y + dy)
  {
    seq(|ps|, i requires 0 <= i < |ps| => Point(ps[i].x + dx, ps[i].y + dy))
  }

  /** Translating back by the opposite vector restores the polygon. */
  lemma TranslateRoundTrip(ps: Polygon, dx: real, dy: real)
    ensures Translate(Translate(ps, dx, dy), -dx, -dy) == ps
  {
    var r := Translate(Translate(ps, dx, dy), -dx, -dy);
    assert forall i :: 0 <= i < |ps| ==> r[i] == ps[i];
  }

  /** Two translations are one translation by the summed vector. */
  lemma TranslateCompose(ps: Polygon, a: real, b: real, c: real, d: real)
    ensures Translate(Translate(ps, a, b), c, d) == Translate(ps, a + c, b + d)
  {
  }

  /** Translating a polygon moves its bounding box by the same vector. */
  lemma TranslateBounds(ps: Polygon, dx: real, dy: real)
    requires ps != []
    ensures Bounds(Translate(ps, dx, dy))
            == Box(Bounds(ps).minX + dx, Bounds(ps).minY + dy, Bounds(ps).maxX + dx, Bounds(ps).maxY + dy)
  {
    var b, t := Bounds(ps), Translate(ps, dx, dy);
    var moved := Box(b.minX + dx, b.minY + dy, b.maxX + dx, b.maxY + dy);
    BoundsContain(ps);
    BoundsAttained(ps);
    var i0 :| 0 <= i0 < |ps| && ps[i0].x == b.minX;
    var i1 :| 0 <= i1 < |ps| && ps[i1].y == b.minY;
    var i2 :| 0 <= i2 < |ps| && ps[i2].x == b.maxX;
    var i3 :| 0 <= i3 < |ps| && ps[i3].y == b.maxY;
    assert t[i0].x == moved.minX && t[i1].y == moved.minY && t[i2].x == moved.maxX && t[i3].y == moved.maxY;
    forall i | 0 <= i < |t|
      ensures InBox(t[i], moved)
    {
      assert InBox(ps[i], b);
    }
    BoundsUnique(t, moved);
  }

  /** `normalize_polygon`: an empty list is returned as it is, otherwise the
      polygon is moved so that its bounding box starts at the origin. */
  function Normalize(ps: Polygon): (r: Polygon)
    ensures |r| == |ps|
  {
    if ps == [] then ps
    else
      var b := Bounds(ps);
      Translate(ps, -b.minX, -b.minY)
  }

  /** The normalised box starts at the origin and keeps the width and height
      of the original box. */
  lemma NormalizeBounds(ps: Polygon)
    requires ps != []
    ensures Bounds(Normalize(ps)) == Box(0.0, 0.0, Width(Bounds(ps)), Height(Bounds(ps)))
  {
    var b := Bounds(ps);
    TranslateBounds(ps, -b.minX, -b.minY);
  }

  /** Normalising an already normalised polygon changes nothing. */
  lemma NormalizeIdempotent(ps: Polygon)
    ensures Normalize(Normalize(ps)) == Normalize(ps)
  {
    if ps != [] {
      var n := Normalize(ps);
      NormalizeBounds(ps);
      var m := Normalize(n);
      assert forall i :: 0 <= i < |n| ==> m[i] == n[i];
    }
  }

  /** Normalisation forgets where the polygon was: translated copies
      normalise to the same vertex list. */
  lemma NormalizeTranslate(ps: Polygon, dx: real, dy: real)
    ensures Normalize(Translate(ps, dx, dy)) == Normalize(ps)
  {
    if ps != [] {
      TranslateBounds(ps, dx, dy);
      var b := Bounds(ps);
      TranslateCompose(ps, dx, dy, -(b.minX + dx), -(b.minY + dy));
    }
  }

  /** `polygon_fits_in_rectangle`: the bounding box is no wider and no taller
      than the rectangle. */
  predicate FitsInRectangle(ps: Polygon, rectWidth: real, rectHeight: real)
  {
    var b := Bounds(ps);
    b.maxX - b.minX <= rectWidth && b.maxY - b.minY <= rectHeight
  }

  /** Whether a polygon fits depends only on its shape, not on its place. */
  lemma FitsInRectangleTranslate(ps: Polygon, dx: real, dy: real, w: real, h: real)
    ensures FitsInRectangle(Translate(ps, dx, dy), w, h) == FitsInRectangle(ps, w, h)
  {
    if ps != [] {
      TranslateBounds(ps, dx, dy);
    }
  }

  /** The key `(y, x)` of `find_lowest_leftmost_point`, compared
      lexicographically. */
  predicate LowerLeftOrSame(p: Point, q: Point)
  {
    p.y < q.y || (p.y == q.y && p.x <= q.x)
  }

  /** `find_lowest_leftmost_point`: `(0, 0)` for no points, otherwise the first
      point whose `(y, x)` is smallest. */
  function LowestLeftmost(ps: Polygon): (r: Point)
    ensures ps == [] ==> r == Point(0.0, 0.0)
    ensures ps != [] ==> r in ps && forall i :: 0 <= i < |ps| ==> LowerLeftOrSame(r, ps[i])
    decreases |ps|
  {
    if ps == [] then Point(0.0, 0.0)
    else if |ps| == 1 then ps[0]
    else
      var rest := LowestLeftmost(ps[1..]);
      assert forall i :: 1 <= i < |ps| ==> ps[i] == ps[1..][i - 1];
      if rest.y < ps[0].y || (rest.y == ps[0].y && rest.x < ps[0].x) then rest else ps[0]
  }

  /** `create_rectangle`: the corners counterclockwise from `(x, y)`. */
  function CreateRectangle(width: real, height: real, x: real, y: real): (r: Polygon)
    ensures |r| == 4 && r[0] == Point(x, y)
  {
    [Point(x, y), Point(x + width, y), Point(x + width, y + height), Point(x, y + height)]
  }

  /** A rectangle of non-negative size has exactly the box it was built from. */
  lemma RectangleBounds(width: real, height: real, x: real, y: real)
    requires width >= 0.0 && height >= 0.0
    ensures Bounds(CreateRectangle(width, height, x, y)) == Box(x, y, x + width, y + height)
  {
    var r := CreateRectangle(width, height, x, y);
    assert r[0].x == x && r[0].y == y && r[2].x == x + width && r[2].y == y + height;
    BoundsUnique(r, Box(x, y, x + width, y + height));
  }

  // ---------------------------------------------------------------------
  // Sums over the closed edge cycle: vertex i is joined to vertex (i+1) % n.

  /** `(i + 1) % n`. */
  function Succ(n: nat, i: nat): (j: nat)
    requires i < n
    ensures j < n
  {
    if i + 1 == n then 0 else i + 1
  }

  /** One term of the shoelace sum. */
  function Cross(p: Point, q: Point): real
  {
    p.x * q.y - q.x * p.y
  }

  /** One term of the orientation sum. */
  function EdgeTerm(p: Point, q: Point): real
  {
    (q.x - p.x) * (q.y + p.y)
  }

  /** The shoelace sum over the first `k` edges. */
  function CrossSum(ps: Polygon, k: nat): real
    requires k <= |ps|
  {
    if k == 0 then 0.0 else CrossSum(ps, k - 1) + Cross(ps[k - 1], ps[Succ(|ps|, k - 1)])
  }

  /** The orientation sum over the first `k` edges. */
  function EdgeSum(ps: Polygon, k: nat): real
    requires k <= |ps|
  {
    if k == 0 then 0.0 else EdgeSum(ps, k - 1) + EdgeTerm(ps[k - 1], ps[Succ(|ps|, k - 1)])
  }

  function Abs(r: real): real { if r < 0.0 then -r else r }

  /** The area `calculate_polygon_area` computes: 0 below three vertices,
      otherwise half the absolute shoelace sum. */
  function PolygonArea(ps: Polygon): real
  {
    if |ps| < 3 then 0.0 else Abs(CrossSum(ps, |ps|)) / 2.0
  }

  /** The orientation `get_polygon_orientation` reports. */
  function OrientationOf(ps: Polygon): Orientation
  {
    if |ps| < 3 then Undefined
    else
      var s := EdgeSum(ps, |ps|);
      if s > 0.0 then Clockwise else if s < 0.0 then Counterclockwise else Collinear
  }

  /** `calculate_polygon_area`: the accumulator loop of the shoelace formula. */
  method CalculatePolygonArea(points: Polygon) returns (area: real)
    ensures area == PolygonArea(points)
  {
    if |points| < 3 {
      return 0.0;
    }
    var n := |points|;
    var acc := 0.0;
    var i := 0;
    while i < n
      invariant 0 <= i <= n
      invariant acc == CrossSum(points, i)
    {
      var j := if i + 1 == n then 0 else i + 1;
      acc := acc + points[i].x * points[j].y;
      acc := acc - points[j].x * points[i].y;
      i := i + 1;
    }
    area := Abs(acc) / 2.0;
  }

  /** `get_polygon_orientation`: the accumulator loop of the signed edge sum. */
  method GetPolygonOrientation(points: Polygon) returns (o: Orientation)
    ensures o == OrientationOf(points)
  {
    if |points| < 3 {
      return Undefined;
    }
    var n := |points|;
    var signedArea := 0.0;
    var i := 0;
    while i < n
      invariant 0 <= i <= n
      invariant signedArea == EdgeSum(points, i)
    {
      var j := if i + 1 == n then 0 else i + 1;
      signedArea := signedArea + (points[j].x - points[i].x) * (points[j].y + points[i].y);
      i := i + 1;
    }
    if signedArea > 0.0 {
      o := Clockwise;
    } else if signedArea < 0.0 {
      o := Counterclockwise;
    } else {
      o := Collinear;
    }
  }

  /** The area is never negative and vanishes below three vertices. */
  lemma AreaNonNegative(ps: Polygon)
    ensures PolygonArea(ps) >= 0.0
    ensures |ps| < 3 ==> PolygonArea(ps) == 0.0
  {
  }

  function Wrap(n: nat, k: nat): nat
    requires 0 < n && k <= n
  {
    if k == n then 0 else k
  }

  /** One edge's orientation term, rewritten through its shoelace term. */
  lemma EdgeTermThroughCross(p: Point, q: Point)
    ensures EdgeTerm(p, q) == q.x * q.y - p.x * p.y - Cross(p, q)
  {
  }

  lemma {:induction false} EdgeSumVsCrossSum(ps: Polygon, k: nat)
    requires 0 < |ps| && k <= |ps|
    ensures EdgeSum(ps, k) == -CrossSum(ps, k) + ps[Wrap(|ps|, k)].x * ps[Wrap(|ps|, k)].y - ps[0].x * ps[0].y
  {
    if k > 0 {
      EdgeSumVsCrossSum(ps, k - 1);
      var n := |ps|;
      var p, q := ps[k - 1], ps[Succ(n, k - 1)];
      assert Wrap(n, k - 1) == k - 1 && Succ(n, k - 1) == Wrap(n, k);
      EdgeTermThroughCross(p, q);
      var e, c := EdgeTerm(p, q), Cross(p, q);
      assert EdgeSum(ps, k) == EdgeSum(ps, k - 1) + e;
      assert CrossSum(ps, k) == CrossSum(ps, k - 1) + c;
    }
  }

  /** The orientation sum is the negated shoelace sum: both measure the same
      signed area, so the area is half the absolute orientation sum. */
  lemma OrientationSumIsNegatedShoelace(ps: Polygon)
    requires |ps| > 0
    ensures EdgeSum(ps, |ps|) == -CrossSum(ps, |ps|)
    ensures |ps| >= 3 ==> PolygonArea(ps) == Abs(EdgeSum(ps, |ps|)) / 2.0
  {
    EdgeSumVsCrossSum(ps, |ps|);
  }

  /** The area of `create_rectangle(w, h, x, y)` is `w * h`, and its vertex
      order is counterclockwise when the rectangle is not degenerate. */
  lemma RectangleAreaAndOrientation(width: real, height: real, x: real, y: real)
    requires width >= 0.0 && height >= 0.0
    ensures PolygonArea(CreateRectangle(width, height, x, y)) == width * height
    ensures width > 0.0 && height > 0.0 ==> OrientationOf(CreateRectangle(width, height, x, y)) == Counterclockwise
  {
    var r := CreateRectangle(width, height, x, y);
    assert Succ(4, 0) == 1 && Succ(4, 1) == 2 && Succ(4, 2) == 3 && Succ(4, 3) == 0;
    assert CrossSum(r, 1) == x * y - (x + width) * y;
    assert CrossSum(r, 2) == CrossSum(r, 1) + (x + width) * (y + height) - (x + width) * y;
    assert CrossSum(r, 3) == CrossSum(r, 2) + (x + width) * (y + height) - x * (y + height);
    assert CrossSum(r, 4) == CrossSum(r, 3) + x * y - x * (y + height);
    assert CrossSum(r, 4) == 2.0 * width * height;
    OrientationSumIsNegatedShoelace(r);
  }

  /** The vertices in the opposite order. */
  function Reverse(ps: Polygon): (r: Polygon)
    ensures |r| == |ps|
    ensures forall i :: 0 <= i < |ps| ==> r[i] == ps[|ps| - 1 - i]
  {
    seq(|ps|, i requires 0 <= i < |ps| => ps[|ps| - 1 - i])
  }

  lemma {:induction false} EdgeSumReversePrefix(ps: Polygon, k: nat)
    requires 0 < |ps| && k < |ps|
    ensures EdgeSum(Reverse(ps), k) == -(EdgeSum(ps, |ps| - 1) - EdgeSum(ps, |ps| - 1 - k))
  {
    if k > 0 {
      EdgeSumReversePrefix(ps, k - 1);
      var n := |ps|;
      var r := Reverse(ps);
      assert r[k - 1] == ps[n - k] && r[k] == ps[n - 1 - k];
      assert Succ(n, n - 1 - k) == n - k;
      assert EdgeTerm(ps[n - k], ps[n - 1 - k]) == -EdgeTerm(ps[n - 1 - k], ps[n - k]);
    }
  }

  /** Reversing the vertex order negates the orientation sum. */
  lemma ReverseNegatesEdgeSum(ps: Polygon)
    requires |ps| > 0
    ensures EdgeSum(Reverse(ps), |ps|) == -EdgeSum(ps, |ps|)
  {
    var n := |ps|;
    EdgeSumReversePrefix(ps, n - 1);
    var r := Reverse(ps);
    assert r[n - 1] == ps[0] && r[0] == ps[n - 1];
    assert EdgeTerm(ps[0], ps[n - 1]) == -EdgeTerm(ps[n - 1], ps[0]);
  }

  /** Reversal turns a clockwise polygon counterclockwise and keeps its area. */
  lemma ReverseOrientationAndArea(ps: Polygon)
    ensures OrientationOf(ps) == Clockwise ==> OrientationOf(Reverse(ps)) == Counterclockwise
    ensures OrientationOf(ps) == Counterclockwise ==> OrientationOf(Reverse(ps)) == Clockwise
    ensures PolygonArea(Reverse(ps)) == PolygonArea(ps)
  {
    if |ps| >= 3 {
      ReverseNegatesEdgeSum(ps);
      OrientationSumIsNegatedShoelace(ps);
      OrientationSumIsNegatedShoelace(Reverse(ps));
    }
  }

  /** `ensure_counterclockwise`: a clockwise vertex list is reversed, any other
      is returned unchanged. */
  function EnsureCounterclockwise(ps: Polygon): (r: Polygon)
    ensures OrientationOf(r) != Clockwise
    ensures OrientationOf(ps) != Clockwise ==> r == ps
    ensures |r| == |ps| && PolygonArea(r) == PolygonArea(ps)
  {
    ReverseOrientationAndArea(ps);
    if OrientationOf(ps) == Clockwise then Reverse(ps) else ps
  }
}
