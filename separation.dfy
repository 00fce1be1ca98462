/** The separating-axis test shared by `NFPAlgorithm._polygons_intersect`
    (backend/nfp_algorithm.py) and `GeometryUtils.polygons_intersect`
    (backend/utils.py): two vertex lists are reported as intersecting unless
    the normal of one of their edges strictly separates their projections.

    Both sources raise `ValueError` when a polygon with no vertices has to be
    projected (Python's `min` of an empty list); the model answers `None`
    there. */
module Separation {
  import opened Common
  import opened Geometry

  /** Vectors are written as points: `Point(dx, dy)`. */
  function Edge(ps: Polygon, i: nat): Point
    requires i < |ps|
  {
    var j := Succ(|ps|, i);
    Point(ps[j].x - ps[i].x, ps[j].y - ps[i].y)
  }

  /** `get_normal`: the edge turned by a quarter. */
  function Normal(e: Point): Point
  {
    Point(-e.y, e.x)
  }

  /** `get_normals(get_edges(polygon))`: one normal per edge of the closed
      polygon, in edge order. */
  function Normals(ps: Polygon): (r: seq<Point>)
    ensures |r| == |ps|
    ensures forall i {:trigger r[i]} :: 0 <= i < |ps| ==> r[i] == Normal(Edge(ps, i))
  {
    seq(|ps|, i requires 0 <= i < |ps| => Normal(Edge(ps, i)))
  }

  /** The candidate axes: the normals of the first polygon, then those of the
      second. */
  function AllNormals(p1: Polygon, p2: Polygon): seq<Point>
  {
    Normals(p1) + Normals(p2)
  }

  predicate IsZero(a: Point)
  {
    a.x == 0.0 && a.y == 0.0
  }

  function Dot(p: Point, a: Point): real
  {
    p.x * a.x + p.y * a.y
  }

  /** `project_polygon` before taking the minimum and maximum. */
  function Projection(ps: Polygon, a: Point): (r: seq<real>)
    ensures |r| == |ps|
    ensures forall i {:trigger r[i]} :: 0 <= i < |ps| ==> r[i] == Dot(ps[i], a)
  {
    seq(|ps|, i requires 0 <= i < |ps| => Dot(ps[i], a))
  }

  /** `max1 < min2 or max2 < min1` on axis `a`. */
  predicate Separates(p1: Polygon, p2: Polygon, a: Point)
    requires p1 != [] && p2 != []
  {
    Max(Projection(p1, a)) < Min(Projection(p2, a)) || Max(Projection(p2, a)) < Min(Projection(p1, a))
  }

  predicate AllZero(axes: seq<Point>)
  {
    forall i :: 0 <= i < |axes| ==> IsZero(axes[i])
  }

  /** Some non-zero candidate axis separates the two polygons. */
  predicate SomeAxisSeparates(p1: Polygon, p2: Polygon)
    requires p1 != [] && p2 != []
  {
    var axes := AllNormals(p1, p2);
    exists i :: 0 <= i < |axes| && !IsZero(axes[i]) && Separates(p1, p2, axes[i])
  }

  /** What both loops compute. With no non-zero axis the loop body never
      runs and the answer is "intersecting"; otherwise the first non-zero axis
      projects both polygons, which raises when either is empty; otherwise
      the polygons intersect unless some non-zero axis separates them. */
  function Intersects(p1: Polygon, p2: Polygon): Option<bool>
  {
    if AllZero(AllNormals(p1, p2)) then Some(true)
    else if p1 == [] || p2 == [] then None
    else Some(!SomeAxisSeparates(p1, p2))
  }

  /** The non-zero axes of `s`, in order (the `if normalized != (0, 0)`
      filter of backend/nfp_algorithm.py). */
  function NonZero(s: seq<Point>): (r: seq<Point>)
    ensures forall a :: a in r <==> a in s && !IsZero(a)
    decreases |s|
  {
    if s == [] then []
    else
      var rest := NonZero(s[..|s| - 1]);
      assert forall a :: a in s <==> a in s[..|s| - 1] || a == s[|s| - 1];
      if IsZero(s[|s| - 1]) then rest else rest + [s[|s| - 1]]
  }

  /** The axis-collecting loop of `_polygons_intersect`: append every
      non-zero normal. */
  method CollectAxes(normals: seq<Point>) returns (axes: seq<Point>)
    ensures axes == NonZero(normals)
  {
    axes := [];
    var i := 0;
    while i < |normals|
      invariant 0 <= i <= |normals|
      invariant axes == NonZero(normals[..i])
    {
      assert normals[..i + 1][..i] == normals[..i];
      if !IsZero(normals[i]) {
        axes := axes + [normals[i]];
      }
      i := i + 1;
    }
    assert normals[..|normals|] == normals;
  }

  /** `_polygons_intersect` of backend/nfp_algorithm.py: first collect the
      non-zero edge normals, then return false at the first one that
      separates. The `sqrt` normalisation is left out; `SeparatesScaled`
      shows it cannot change the verdict. */
  method NfpPolygonsIntersect(poly1: Polygon, poly2: Polygon) returns (r: Option<bool>)
    ensures r == Intersects(poly1, poly2)
  {
    var normals := AllNormals(poly1, poly2);
    var axes := CollectAxes(normals);
    if axes == [] {
      NoAxesAllZero(normals);
      return Some(true);
    }
    if poly1 == [] || poly2 == [] {
      assert axes[0] in normals;
      return None;
    }
    var separated := AnyAxisSeparates(poly1, poly2, axes);
    if separated {
      var j :| 0 <= j < |axes| && Separates(poly1, poly2, axes[j]);
      assert axes[j] in normals;
      return Some(false);
    }
    NoSeparatingAxis(poly1, poly2, axes);
    return Some(true);
  }

  /** The checking loop of `_polygons_intersect`: stop at the first axis on
      which the projections are strictly apart. */
  method AnyAxisSeparates(poly1: Polygon, poly2: Polygon, axes: seq<Point>) returns (found: bool)
    requires poly1 != [] && poly2 != []
    ensures found <==> exists j :: 0 <= j < |axes| && Separates(poly1, poly2, axes[j])
  {
    var k := 0;
    while k < |axes|
      invariant 0 <= k <= |axes|
      invariant forall j :: 0 <= j < k ==> !Separates(poly1, poly2, axes[j])
    {
      var axis := axes[k];
      var min1, max1 := Min(Projection(poly1, axis)), Max(Projection(poly1, axis));
      var min2, max2 := Min(Projection(poly2, axis)), Max(Projection(poly2, axis));
      if max1 < min2 || max2 < min1 {
        return true;
      }
      k := k + 1;
    }
    return false;
  }

  lemma NoAxesAllZero(normals: seq<Point>)
    requires NonZero(normals) == []
    ensures AllZero(normals)
  {
    forall k | 0 <= k < |normals|
      ensures IsZero(normals[k])
    {
      assert normals[k] !in NonZero(normals);
    }
  }

  lemma NoSeparatingAxis(p1: Polygon, p2: Polygon, axes: seq<Point>)
    requires p1 != [] && p2 != [] && axes == NonZero(AllNormals(p1, p2))
    requires forall j :: 0 <= j < |axes| ==> !Separates(p1, p2, axes[j])
    ensures !SomeAxisSeparates(p1, p2)
  {
    var normals := AllNormals(p1, p2);
    forall j | 0 <= j < |normals| && !IsZero(normals[j])
      ensures !Separates(p1, p2, normals[j])
    {
      assert normals[j] in axes;
    }
  }

  /** `polygons_intersect` of backend/utils.py: one pass over the normals,
      skipping zero normals and returning false at the first separating one. */
  method UtilsPolygonsIntersect(poly1: Polygon, poly2: Polygon) returns (r: Option<bool>)
    ensures r == Intersects(poly1, poly2)
  {
    var normals := AllNormals(poly1, poly2);
    var i := 0;
    while i < |normals|
      invariant 0 <= i <= |normals|
      invariant forall j :: 0 <= j < i ==>
                  (IsZero(normals[j]) || (poly1 != [] && poly2 != [] && !Separates(poly1, poly2, normals[j])))
    {
      var normal := normals[i];
      if !IsZero(normal) {
        if poly1 == [] || poly2 == [] {
          return None;
        }
        var min1, max1 := Min(Projection(poly1, normal)), Max(Projection(poly1, normal));
        var min2, max2 := Min(Projection(poly2, normal)), Max(Projection(poly2, normal));
        if max1 < min2 || max2 < min1 {
          return Some(false);
        }
      }
      i := i + 1;
    }
    return Some(true);
  }

  // ---------------------------------------------------------------------
  // Properties of the test.

  /** Separation on one axis does not depend on the order of the polygons. */
  lemma SeparatesSymmetric(p1: Polygon, p2: Polygon, a: Point)
    requires p1 != [] && p2 != []
    ensures Separates(p1, p2, a) == Separates(p2, p1, a)
  {
  }

  /** The test is symmetric in its two polygons. */
  lemma IntersectsSymmetric(p1: Polygon, p2: Polygon)
    ensures Intersects(p1, p2) == Intersects(p2, p1)
  {
    var a12, a21 := AllNormals(p1, p2), AllNormals(p2, p1);
    assert forall x :: x in a12 <==> x in a21;
    if !AllZero(a12) {
      var k :| 0 <= k < |a12| && !IsZero(a12[k]);
      assert a12[k] in a21;
    }
    if !AllZero(a21) {
      var k :| 0 <= k < |a21| && !IsZero(a21[k]);
      assert a21[k] in a12;
    }
    if p1 != [] && p2 != [] {
      if SomeAxisSeparates(p1, p2) {
        var k :| 0 <= k < |a12| && !IsZero(a12[k]) && Separates(p1, p2, a12[k]);
        assert a12[k] in a21;
      }
      if SomeAxisSeparates(p2, p1) {
        var k :| 0 <= k < |a21| && !IsZero(a21[k]) && Separates(p2, p1, a21[k]);
        assert a21[k] in a12;
      }
    }
  }

  /** The test returns false exactly when some non-zero edge normal strictly
      separates the projections of two non-empty polygons. */
  lemma IntersectsFalseIff(p1: Polygon, p2: Polygon)
    requires p1 != [] && p2 != []
    ensures Intersects(p1, p2) == Some(false) <==> SomeAxisSeparates(p1, p2)
  {
    if SomeAxisSeparates(p1, p2) {
      var axes := AllNormals(p1, p2);
      var k :| 0 <= k < |axes| && !IsZero(axes[k]) && Separates(p1, p2, axes[k]);
    }
  }

  /** Polygons that share a vertex are always reported as intersecting: the
      shared vertex projects into both intervals on every axis. */
  lemma SharedVertexIntersects(p1: Polygon, p2: Polygon, i: nat, j: nat)
    requires i < |p1| && j < |p2| && p1[i] == p2[j]
    ensures Intersects(p1, p2) == Some(true)
  {
    forall a | true
      ensures !Separates(p1, p2, a)
    {
      var d := Dot(p1[i], a);
      assert Projection(p1, a)[i] == d && Projection(p2, a)[j] == d;
    }
  }

  function Scale(a: Point, c: real): Point
  {
    Point(c * a.x, c * a.y)
  }

  lemma DotScale(p: Point, a: Point, c: real)
    ensures Dot(p, Scale(a, c)) == c * Dot(p, a)
  {
    calc {
      Dot(p, Scale(a, c));
      p.x * (c * a.x) + p.y * (c * a.y);
      c * (p.x * a.x) + c * (p.y * a.y);
    }
  }

  /** The largest element of `s` is below the smallest of `t` exactly when
      every element of `s` is below every element of `t`. */
  lemma MaxBelowMin(s: seq<real>, t: seq<real>)
    requires s != [] && t != []
    ensures Max(s) < Min(t) <==> forall i, j :: 0 <= i < |s| && 0 <= j < |t| ==> s[i] < t[j]
  {
    if forall i, j :: 0 <= i < |s| && 0 <= j < |t| ==> s[i] < t[j] {
      var i :| 0 <= i < |s| && s[i] == Max(s);
      var j :| 0 <= j < |t| && t[j] == Min(t);
      assert s[i] < t[j];
    }
  }

  lemma MulMonotone(c: real, u: real, v: real)
    requires c > 0.0
    ensures u < v <==> c * u < c * v
  {
  }

  /** Every projection of `p1` on `a` lies below every projection of `p2`. */
  predicate AllBelow(p1: Polygon, p2: Polygon, a: Point)
  {
    forall i, j :: 0 <= i < |p1| && 0 <= j < |p2| ==> Projection(p1, a)[i] < Projection(p2, a)[j]
  }

  /** Separation on an axis is strict ordering of all projections, one way
      or the other. */
  lemma SeparatesAllBelow(p1: Polygon, p2: Polygon, a: Point)
    requires p1 != [] && p2 != []
    ensures Separates(p1, p2, a) <==> AllBelow(p1, p2, a) || AllBelow(p2, p1, a)
  {
    MaxBelowMin(Projection(p1, a), Projection(p2, a));
    MaxBelowMin(Projection(p2, a), Projection(p1, a));
  }

  /** On a scaled axis every projection of `p1` lies below every projection
      of `p2` exactly when it does on the original axis. */
  lemma AllBelowScaled(p1: Polygon, p2: Polygon, a: Point, c: real)
    requires c > 0.0
    ensures AllBelow(p1, p2, Scale(a, c)) <==> AllBelow(p1, p2, a)
  {
    var s1, s2 := Projection(p1, a), Projection(p2, a);
    var t1, t2 := Projection(p1, Scale(a, c)), Projection(p2, Scale(a, c));
    forall i, j | 0 <= i < |p1| && 0 <= j < |p2|
      ensures t1[i] < t2[j] <==> s1[i] < s2[j]
    {
      DotScale(p1[i], a, c);
      DotScale(p2[j], a, c);
      MulMonotone(c, s1[i], s2[j]);
    }
  }

  /** Scaling an axis by a positive factor, as the `sqrt` normalisation of
      backend/nfp_algorithm.py does, never changes whether it separates. */
  lemma SeparatesScaled(p1: Polygon, p2: Polygon, a: Point, c: real)
    requires p1 != [] && p2 != [] && c > 0.0
    ensures Separates(p1, p2, Scale(a, c)) == Separates(p1, p2, a)
  {
    SeparatesAllBelow(p1, p2, a);
    SeparatesAllBelow(p1, p2, Scale(a, c));
    AllBelowScaled(p1, p2, a, c);
    AllBelowScaled(p2, p1, a, c);
  }

  /** A non-zero vector stays non-zero when scaled by a positive factor, so
      the normalised and the raw normals pass the same zero filter. */
  lemma ScaleKeepsNonZero(a: Point, c: real)
    requires c > 0.0
    ensures IsZero(Scale(a, c)) == IsZero(a)
  {
    if a.x != 0.0 {
      assert c * a.x != 0.0;
    }
    if a.y != 0.0 {
      assert c * a.y != 0.0;
    }
  }
}
