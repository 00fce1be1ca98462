/** The helpers of backend/utils.py that are not already in `Geometry`:
    the vertex centroid, ray-casting point-in-polygon, bin utilisation,
    placement height, sorting by bounding-box size and the validators.

    `polygon_area`, `get_bounding_box` and `normalize_polygon_to_origin`
    compute exactly `Geometry.CalculatePolygonArea`, `Geometry.Bounds` and
    `Geometry.Normalize`; `polygons_intersect` is
    `Separation.UtilsPolygonsIntersect`. Pieces that the source holds as
    shapely polygons are vertex lists here, and `p.bounds` is the bounding
    box of the vertices. */
module PolygonUtils {
  import opened Common
  import opened Geometry
  import opened Sorting

  /** `polygon_centroid`: `(0, 0)` for no points, otherwise the average of
      the vertices. */
  function Centroid(ps: Polygon): (c: Point)
    ensures ps == [] ==> c == Point(0.0, 0.0)
  {
    if ps == [] then Point(0.0, 0.0)
    else Point(Average(Xs(ps)), Average(Ys(ps)))
  }

  /** `sum(...) / n` for a non-empty list. */
  function Average(s: seq<real>): real
    requires s != []
  {
    Sum(s) / |s| as real
  }

  lemma DivBounds(s: real, n: real, lo: real, hi: real)
    requires n > 0.0 && n * lo <= s <= n * hi
    ensures lo <= s / n <= hi
  {
  }

  /** An average lies between any bounds of the elements. */
  lemma AverageBounds(s: seq<real>, lo: real, hi: real)
    requires s != [] && forall i :: 0 <= i < |s| ==> lo <= s[i] <= hi
    ensures lo <= Average(s) <= hi
  {
    SumBounded(s, lo, hi);
    DivBounds(Sum(s), |s| as real, lo, hi);
  }

  /** Shifting every element shifts the average by the same amount. */
  lemma AverageShift(s: seq<real>, t: seq<real>, d: real)
    requires s != [] && |t| == |s| && forall i :: 0 <= i < |s| ==> t[i] == s[i] + d
    ensures Average(t) == Average(s) + d
  {
    SumShift(s, t, d);
    var n := |s| as real;
    assert (Sum(s) + n * d) / n == Sum(s) / n + d;
  }

  /** The centroid of a non-empty polygon lies inside its bounding box. */
  lemma CentroidInBounds(ps: Polygon)
    requires ps != []
    ensures InBox(Centroid(ps), Bounds(ps))
  {
    var b := Bounds(ps);
    BoundsContain(ps);
    forall i | 0 <= i < |ps|
      ensures b.minX <= Xs(ps)[i] <= b.maxX && b.minY <= Ys(ps)[i] <= b.maxY
    {
      assert InBox(ps[i], b);
    }
    AverageBounds(Xs(ps), b.minX, b.maxX);
    AverageBounds(Ys(ps), b.minY, b.maxY);
  }

  /** Translating a polygon translates its centroid by the same vector. */
  lemma CentroidTranslate(ps: Polygon, dx: real, dy: real)
    requires ps != []
    ensures Centroid(Translate(ps, dx, dy)) == Point(Centroid(ps).x + dx, Centroid(ps).y + dy)
  {
    var t := Translate(ps, dx, dy);
    forall i | 0 <= i < |ps|
      ensures Xs(t)[i] == Xs(ps)[i] + dx && Ys(t)[i] == Ys(ps)[i] + dy
    {
      assert t[i] == Point(ps[i].x + dx, ps[i].y + dy);
    }
    AverageShift(Xs(ps), Xs(t), dx);
    AverageShift(Ys(ps), Ys(t), dy);
  }

  // ---------------------------------------------------------------------
  // Ray casting.

  /** Whether the horizontal ray from `pt` towards +x crosses the edge from
      `p1` to `p2`, with the tests of `point_in_polygon` in their order. The
      intersection abscissa is only needed when `p1.y != p2.y`, which the two
      height tests already guarantee. */
  predicate Crosses(p1: Point, p2: Point, pt: Point)
  {
    pt.y > Min2(p1.y, p2.y) && pt.y <= Max2(p1.y, p2.y) && pt.x <= Max2(p1.x, p2.x)
    && (p1.x == p2.x
        || (p1.y != p2.y && pt.x <= XInters(p1, p2, pt)))
  }

  /** `xinters`: where the edge meets the horizontal line through `pt`. */
  function XInters(p1: Point, p2: Point, pt: Point): real
    requires p1.y != p2.y
  {
    (pt.y - p1.y) * (p2.x - p1.x) / (p2.y - p1.y) + p1.x
  }

  function Min2(a: real, b: real): real { if a <= b then a else b }

  function Max2(a: real, b: real): real { if a >= b then a else b }

  /** The number of crossed edges among the first `k` edges of the closed
      polygon. */
  function Crossings(ps: Polygon, pt: Point, k: nat): nat
    requires k <= |ps|
  {
    if k == 0 then 0
    else Crossings(ps, pt, k - 1) + (if Crosses(ps[k - 1], ps[Succ(|ps|, k - 1)], pt) then 1 else 0)
  }

  /** The verdict of `point_in_polygon`: an odd number of crossings. With no
      vertices `polygon[0]` raises `IndexError`, modelled as `None`. */
  function PointInPolygonSpec(pt: Point, ps: Polygon): Option<bool>
  {
    if ps == [] then None else Some(Crossings(ps, pt, |ps|) % 2 == 1)
  }

  /** `point_in_polygon`: walks the edges `(polygon[i - 1], polygon[i % n])`
      for `i` in `1..n`, toggling `inside` at every crossing. */
  method PointInPolygon(pt: Point, polygon: Polygon) returns (r: Option<bool>)
    ensures r == PointInPolygonSpec(pt, polygon)
  {
    var n := |polygon|;
    if n == 0 {
      return None;
    }
    var inside := false;
    var p1 := polygon[0];
    var i := 1;
    while i <= n
      invariant 1 <= i <= n + 1
      invariant p1 == polygon[if i <= n then i - 1 else 0]
      invariant inside == (Crossings(polygon, pt, i - 1) % 2 == 1)
    {
      NextIndex(n, i);
      var p2 := polygon[i % n];
      var crosses := EdgeCrossed(p1, p2, pt);
      if crosses {
        inside := !inside;
      }
      p1 := p2;
      i := i + 1;
    }
    return Some(inside);
  }

  /** The nested tests of one iteration of `point_in_polygon`. */
  method EdgeCrossed(p1: Point, p2: Point, pt: Point) returns (crosses: bool)
    ensures crosses == Crosses(p1, p2, pt)
  {
    crosses := false;
    if pt.y > Min2(p1.y, p2.y) {
      if pt.y <= Max2(p1.y, p2.y) {
        if pt.x <= Max2(p1.x, p2.x) {
          if p1.x == p2.x {
            crosses := true;
          } else if p1.y != p2.y {
            var xinters := XInters(p1, p2, pt);
            crosses := pt.x <= xinters;
          }
        }
      }
    }
  }

  lemma NextIndex(n: nat, i: nat)
    requires 1 <= i <= n
    ensures i % n == Succ(n, i - 1)
  {
    if i < n {
      assert i % n == i;
    }
  }

  /** No edge is crossed from a point that is strictly right of, or not
      above, every vertex. */
  lemma {:induction false} NoCrossings(ps: Polygon, pt: Point, k: nat)
    requires k <= |ps|
    requires (forall i :: 0 <= i < |ps| ==> pt.x > ps[i].x) || (forall i :: 0 <= i < |ps| ==> pt.y <= ps[i].y)
    ensures Crossings(ps, pt, k) == 0
  {
    if k > 0 {
      NoCrossings(ps, pt, k - 1);
      var p, q := ps[k - 1], ps[Succ(|ps|, k - 1)];
      assert !Crosses(p, q, pt);
    }
  }

  /** Such a point is reported outside. */
  lemma PointOutside(ps: Polygon, pt: Point)
    requires ps != []
    requires (forall i :: 0 <= i < |ps| ==> pt.x > ps[i].x) || (forall i :: 0 <= i < |ps| ==> pt.y <= ps[i].y)
    ensures PointInPolygonSpec(pt, ps) == Some(false)
  {
    NoCrossings(ps, pt, |ps|);
  }

  // ---------------------------------------------------------------------
  // NestingOptimizer helpers.

  /** `calculate_utilization`: the placed area as a percentage of the bin
      area, or 0 when the bin area is not positive. `areas` are the shapely
      areas of the placed pieces. */
  function CalculateUtilization(areas: seq<real>, binWidth: real, binHeight: real): (u: real)
    ensures binWidth * binHeight <= 0.0 ==> u == 0.0
    ensures binWidth * binHeight > 0.0 ==> u * (binWidth * binHeight) == Sum(areas) * 100.0
  {
    var binArea := binWidth * binHeight;
    if binArea > 0.0 then (Sum(areas) / binArea) * 100.0 else 0.0
  }

  /** Non-negative areas that together fit in the bin give a utilisation
      between 0 and 100. */
  lemma UtilizationBounds(areas: seq<real>, binWidth: real, binHeight: real)
    requires forall i :: 0 <= i < |areas| ==> areas[i] >= 0.0
    requires Sum(areas) <= binWidth * binHeight
    ensures 0.0 <= CalculateUtilization(areas, binWidth, binHeight) <= 100.0
  {
    SumNonNegative(areas);
    var binArea := binWidth * binHeight;
    if binArea > 0.0 {
      DivBounds(Sum(areas), binArea, 0.0, 1.0);
    }
  }

  function TopOf(p: Polygon): real
  {
    Bounds(p).maxY
  }

  function Tops(pieces: seq<Polygon>): (r: seq<real>)
    ensures |r| == |pieces|
    ensures forall i {:trigger r[i]} :: 0 <= i < |pieces| ==> r[i] == TopOf(pieces[i])
  {
    seq(|pieces|, i requires 0 <= i < |pieces| => TopOf(pieces[i]))
  }

  /** `get_placement_height`: 0 for no pieces, otherwise the largest top
      edge among the pieces' bounding boxes. */
  function PlacementHeight(pieces: seq<Polygon>): (h: real)
    ensures pieces == [] ==> h == 0.0
    ensures forall i :: 0 <= i < |pieces| ==> Bounds(pieces[i]).maxY <= h
    ensures pieces != [] ==> exists i :: 0 <= i < |pieces| && Bounds(pieces[i]).maxY == h
  {
    if pieces == [] then 0.0
    else
      TopsMax(pieces);
      Max(Tops(pieces))
  }

  lemma TopsMax(pieces: seq<Polygon>)
    requires pieces != []
    ensures forall i :: 0 <= i < |pieces| ==> Bounds(pieces[i]).maxY <= Max(Tops(pieces))
    ensures exists i :: 0 <= i < |pieces| && Bounds(pieces[i]).maxY == Max(Tops(pieces))
  {
    var tops := Tops(pieces);
    var k :| 0 <= k < |tops| && tops[k] == Max(tops);
    forall i | 0 <= i < |pieces|
      ensures Bounds(pieces[i]).maxY <= Max(tops)
    {
      assert tops[i] <= Max(tops);
    }
    assert Bounds(pieces[k]).maxY == Max(tops);
  }

  function PieceWidth(p: Polygon): real
  {
    Width(Bounds(p))
  }

  function PieceHeight(p: Polygon): real
  {
    Height(Bounds(p))
  }

  /** `sort_pieces_by_width`: Python's stable `sorted` on the bounding-box
      width, largest first by default. */
  function SortPiecesByWidth(pieces: seq<Polygon>, descending: bool): (r: seq<Polygon>)
    ensures SortedBy(r, PieceWidth, descending)
    ensures multiset(r) == multiset(pieces)
    ensures forall v :: WithKey(r, PieceWidth, v) == WithKey(pieces, PieceWidth, v)
  {
    SortBySorted(pieces, PieceWidth, descending);
    SortByPermutation(pieces, PieceWidth, descending);
    forall v ensures WithKey(SortBy(pieces, PieceWidth, descending), PieceWidth, v) == WithKey(pieces, PieceWidth, v) {
      SortByStable(pieces, PieceWidth, descending, v);
    }
    SortBy(pieces, PieceWidth, descending)
  }

  /** `sort_pieces_by_height`: the same on the bounding-box height. */
  function SortPiecesByHeight(pieces: seq<Polygon>, descending: bool): (r: seq<Polygon>)
    ensures SortedBy(r, PieceHeight, descending)
    ensures multiset(r) == multiset(pieces)
    ensures forall v :: WithKey(r, PieceHeight, v) == WithKey(pieces, PieceHeight, v)
  {
    SortBySorted(pieces, PieceHeight, descending);
    SortByPermutation(pieces, PieceHeight, descending);
    forall v ensures WithKey(SortBy(pieces, PieceHeight, descending), PieceHeight, v) == WithKey(pieces, PieceHeight, v) {
      SortByStable(pieces, PieceHeight, descending, v);
    }
    SortBy(pieces, PieceHeight, descending)
  }

  // ---------------------------------------------------------------------
  // ValidationUtils.

  function DistinctPoints(ps: Polygon): set<Point>
  {
    set p | p in ps
  }

  /** `validate_polygon`: at least three points, at least three distinct
      points, and then shapely's own verdict (`shapelyValid`, standing for
      `polygon.is_valid and not polygon.is_empty`). */
  function ValidatePolygon(points: Polygon, shapelyValid: bool): (ok: bool)
    ensures ok <==> shapelyValid && |points| >= 3 && HasThreeDistinct(points)
  {
    if |points| < 3 then false
    else if |DistinctPoints(points)| < 3 then
      DistinctAtLeastThree(points);
      false
    else
      ThreeDistinct(points);
      shapelyValid
  }

  /** Three pairwise different points occur in the list. */
  predicate HasThreeDistinct(ps: Polygon)
  {
    exists i, j, k :: 0 <= i < |ps| && 0 <= j < |ps| && 0 <= k < |ps|
      && ps[i] != ps[j] && ps[j] != ps[k] && ps[i] != ps[k]
  }

  /** A set holding three pairwise different members has at least three. */
  lemma HoldsThree<T>(s: set<T>, a: T, b: T, c: T)
    requires a in s && b in s && c in s && a != b && b != c && a != c
    ensures |s| >= 3
  {
    var s1 := s - {a};
    assert s == s1 + {a};
    var s2 := s1 - {b};
    assert s1 == s2 + {b};
    assert c in s2;
  }

  /** Three pairwise different points make a set of at least three. */
  lemma DistinctAtLeastThree(ps: Polygon)
    ensures HasThreeDistinct(ps) ==> |DistinctPoints(ps)| >= 3
  {
    if !HasThreeDistinct(ps) {
      return;
    }
    var i, j, k :| 0 <= i < |ps| && 0 <= j < |ps| && 0 <= k < |ps|
      && ps[i] != ps[j] && ps[j] != ps[k] && ps[i] != ps[k];
    HoldsThree(DistinctPoints(ps), ps[i], ps[j], ps[k]);
  }

  lemma PickThree<T>(s: set<T>) returns (a: T, b: T, c: T)
    requires |s| >= 3
    ensures a in s && b in s && c in s && a != b && b != c && a != c
  {
    a :| a in s;
    var s1 := s - {a};
    assert s == s1 + {a};
    b :| b in s1;
    var s2 := s1 - {b};
    assert s1 == s2 + {b};
    c :| c in s2;
  }

  lemma ThreeDistinct(ps: Polygon)
    requires |DistinctPoints(ps)| >= 3
    ensures HasThreeDistinct(ps)
  {
    var a, b, c := PickThree(DistinctPoints(ps));
    var i :| 0 <= i < |ps| && ps[i] == a;
    var j :| 0 <= j < |ps| && ps[j] == b;
    var k :| 0 <= k < |ps| && ps[k] == c;
  }

  /** Fewer than three distinct points are always rejected, whatever the
      shapely verdict: in particular every polygon whose points all
      coincide. */
  lemma RepeatedPointRejected(points: Polygon, shapelyValid: bool)
    requires forall i :: 0 <= i < |points| ==> points[i] == points[0]
    ensures !ValidatePolygon(points, shapelyValid)
  {
    forall i, j | 0 <= i < |points| && 0 <= j < |points|
      ensures points[i] == points[j]
    {
    }
  }

  /** `validate_bin_dimensions`. */
  predicate ValidateBinDimensions(width: real, height: real)
  {
    width > 0.0 && height > 0.0 && width < 1000000.0 && height < 1000000.0
  }

  /** A bin that passes validation is a proper rectangle: its frame has
      positive area below 10^12 and is counterclockwise. */
  lemma ValidBinRectangle(width: real, height: real)
    requires ValidateBinDimensions(width, height)
    ensures 0.0 < PolygonArea(CreateRectangle(width, height, 0.0, 0.0)) < 1000000000000.0
    ensures OrientationOf(CreateRectangle(width, height, 0.0, 0.0)) == Counterclockwise
  {
    RectangleAreaAndOrientation(width, height, 0.0, 0.0);
    assert width * height < 1000000.0 * height;
  }

  /** A piece fits the bin upright or turned by 90 degrees. */
  predicate FitsEitherWay(p: Polygon, binWidth: real, binHeight: real)
  {
    var w, h := PieceWidth(p), PieceHeight(p);
    (w <= binWidth && h <= binHeight) || (h <= binWidth && w <= binHeight)
  }

  /** `validate_pieces_fit_in_bin`: the loop returns true at the first piece
      that fits either way, and false after the last. */
  function PiecesFitInBin(pieces: seq<Polygon>, binWidth: real, binHeight: real): (ok: bool)
    ensures ok <==> exists i :: 0 <= i < |pieces| && FitsEitherWay(pieces[i], binWidth, binHeight)
    decreases |pieces|
  {
    if pieces == [] then false
    else if FitsEitherWay(pieces[0], binWidth, binHeight) then true
    else
      FitsInTail(pieces, binWidth, binHeight);
      PiecesFitInBin(pieces[1..], binWidth, binHeight)
  }

  lemma FitsInTail(pieces: seq<Polygon>, binWidth: real, binHeight: real)
    requires pieces != [] && !FitsEitherWay(pieces[0], binWidth, binHeight)
    ensures (exists i :: 0 <= i < |pieces| && FitsEitherWay(pieces[i], binWidth, binHeight))
        <==> (exists i :: 0 <= i < |pieces[1..]| && FitsEitherWay(pieces[1..][i], binWidth, binHeight))
  {
    var tail := pieces[1..];
    if exists i :: 0 <= i < |pieces| && FitsEitherWay(pieces[i], binWidth, binHeight) {
      var i :| 0 <= i < |pieces| && FitsEitherWay(pieces[i], binWidth, binHeight);
      assert tail[i - 1] == pieces[i];
    }
    if exists i :: 0 <= i < |tail| && FitsEitherWay(tail[i], binWidth, binHeight) {
      var i :| 0 <= i < |tail| && FitsEitherWay(tail[i], binWidth, binHeight);
      assert pieces[i + 1] == tail[i];
    }
  }
}
