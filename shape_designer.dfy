/** The free-hand shape editor of `shape-designer-modal.tsx`: points are
    clicked onto a 10-unit grid, dragged, undone, cleared or turned a
    quarter about their centroid, and a named shape is saved with its points
    shifted to the origin. */
module ShapeDesigner {
  import opened Common
  import opened Geometry
  import opened Text
  import opened PolygonUtils

  /** The grid cell size (`gridSize`). */
  const GridSize: real := 10.0

  /** JavaScript's `Math.round`: the nearest integer, halves rounded up. */
  function RoundHalfUp(v: real): int
  {
    (v + 0.5).Floor
  }

  /** One coordinate moved to the nearest grid line. */
  function SnapCoord(v: real): real
  {
    RoundHalfUp(v / GridSize) as real * GridSize
  }

  /** A coordinate on a grid line. */
  predicate OnGrid(v: real)
  {
    (v / GridSize).Floor as real * GridSize == v
  }

  /** `snapPoint`: the identity with snapping off, otherwise both
      coordinates moved to the nearest grid line. */
  function Snap(p: Point, snapToGrid: bool): Point
  {
    if snapToGrid then Point(SnapCoord(p.x), SnapCoord(p.y)) else p
  }

  /** A snapped coordinate lies on a grid line within half a cell of the
      input, and snapping it again changes nothing. */
  lemma SnapCoordProperties(v: real)
    ensures OnGrid(SnapCoord(v))
    ensures v - GridSize / 2.0 < SnapCoord(v) <= v + GridSize / 2.0
    ensures SnapCoord(SnapCoord(v)) == SnapCoord(v)
  {
    var k := RoundHalfUp(v / GridSize);
    var r := k as real * GridSize;
    assert r / GridSize == k as real;
    assert (r / GridSize + 0.5).Floor == k;
  }

  /** Snapping off is the identity; snapping on puts the point on the grid
      within half a cell on each axis, and is idempotent. */
  lemma SnapProperties(p: Point, snapToGrid: bool)
    ensures !snapToGrid ==> Snap(p, snapToGrid) == p
    ensures snapToGrid ==> OnGrid(Snap(p, snapToGrid).x) && OnGrid(Snap(p, snapToGrid).y)
    ensures snapToGrid ==> p.x - GridSize / 2.0 < Snap(p, snapToGrid).x <= p.x + GridSize / 2.0
    ensures snapToGrid ==> p.y - GridSize / 2.0 < Snap(p, snapToGrid).y <= p.y + GridSize / 2.0
    ensures Snap(Snap(p, snapToGrid), snapToGrid) == Snap(p, snapToGrid)
  {
    SnapCoordProperties(p.x);
    SnapCoordProperties(p.y);
  }

  /** The points after the drag handler: the dragged index holds the new
      point, every other index its old one. */
  function Replaced(ps: Polygon, k: nat, q: Point): (r: Polygon)
    ensures |r| == |ps|
    ensures forall i :: 0 <= i < |ps| ==> r[i] == (if i == k then q else ps[i])
  {
    seq(|ps|, i requires 0 <= i < |ps| => if i == k then q else ps[i])
  }

  /** One point turned a quarter about `c` (x' = cx - dy, y' = cy + dx). */
  function QuarterAbout(p: Point, c: Point): Point
  {
    Point(c.x - (p.y - c.y), c.y + (p.x - c.x))
  }

  /** `rotateShape`: nothing for no points, otherwise every point turned a
      quarter about the vertex centroid, then snapped. */
  function RotateShape(ps: Polygon, snapToGrid: bool): (r: Polygon)
    ensures |r| == |ps|
  {
    if ps == [] then ps
    else
      var c := Centroid(ps);
      seq(|ps|, i requires 0 <= i < |ps| => Snap(QuarterAbout(ps[i], c), snapToGrid))
  }

  /** Reflecting every element about `d / 2` reflects the average. */
  lemma AverageReflect(s: seq<real>, t: seq<real>, d: real)
    requires s != [] && |t| == |s| && forall i :: 0 <= i < |s| ==> t[i] == d - s[i]
    ensures Average(t) == d - Average(s)
  {
    SumReflect(s, t, d);
    var n := |s| as real;
    assert (n * d - Sum(s)) / n == d - Sum(s) / n;
  }

  /** The coordinates of the turned points, without snapping. */
  lemma RotatedCoordinates(ps: Polygon)
    requires ps != []
    ensures var c := Centroid(ps);
      var r := RotateShape(ps, false);
      && (forall i :: 0 <= i < |ps| ==> Xs(r)[i] == (c.x + c.y) - Ys(ps)[i])
      && (forall i :: 0 <= i < |ps| ==> Ys(r)[i] == Xs(ps)[i] + (c.y - c.x))
  {
    var c := Centroid(ps);
    var r := RotateShape(ps, false);
    forall i | 0 <= i < |ps|
      ensures Xs(r)[i] == (c.x + c.y) - Ys(ps)[i] && Ys(r)[i] == Xs(ps)[i] + (c.y - c.x)
    {
      assert r[i] == QuarterAbout(ps[i], c);
    }
  }

  /** Without snapping a quarter turn keeps the vertex centroid where it is. */
  lemma RotateKeepsCentroid(ps: Polygon)
    requires ps != []
    ensures Centroid(RotateShape(ps, false)) == Centroid(ps)
  {
    var c := Centroid(ps);
    var r := RotateShape(ps, false);
    RotatedCoordinates(ps);
    AverageReflect(Ys(ps), Xs(r), c.x + c.y);
    AverageShift(Xs(ps), Ys(r), c.y - c.x);
  }

  /** Without snapping two quarter turns reflect every point through the
      centroid. */
  lemma HalfTurn(ps: Polygon)
    requires ps != []
    ensures var c := Centroid(ps);
      RotateShape(RotateShape(ps, false), false)
      == seq(|ps|, i requires 0 <= i < |ps| => Point(2.0 * c.x - ps[i].x, 2.0 * c.y - ps[i].y))
  {
    var c := Centroid(ps);
    var r := RotateShape(ps, false);
    RotateKeepsCentroid(ps);
    var rr := RotateShape(r, false);
    forall i | 0 <= i < |ps|
      ensures rr[i] == Point(2.0 * c.x - ps[i].x, 2.0 * c.y - ps[i].y)
    {
      assert r[i] == QuarterAbout(ps[i], c);
      assert rr[i] == QuarterAbout(r[i], c);
    }
  }

  /** Without snapping four quarter turns give back the original points. */
  lemma FourTurnsRestore(ps: Polygon)
    ensures RotateShape(RotateShape(RotateShape(RotateShape(ps, false), false), false), false) == ps
  {
    if ps != [] {
      var c := Centroid(ps);
      var h := RotateShape(RotateShape(ps, false), false);
      HalfTurn(ps);
      RotateKeepsCentroid(ps);
      RotateKeepsCentroid(RotateShape(ps, false));
      assert h != [] && Centroid(h) == c;
      HalfTurn(h);
    }
  }

  /** `parseInt(...) || 1` then `Math.max(1, ...)`: an unreadable entry or a
      zero gives 1, anything else is clamped to at least 1. */
  function QuantityInput(parsed: Option<int>): (q: int)
    ensures q >= 1
    ensures parsed.Some? && parsed.value >= 1 ==> q == parsed.value
    ensures parsed.None? || parsed.value < 1 ==> q == 1
  {
    match parsed
    case None => 1
    case Some(n) => if n == 0 then 1 else if n < 1 then 1 else n
  }

  /** The shape handed to `onSaveShape`. */
  datatype SavedShape = SavedShape(id: string, points: Polygon, quantity: int)

  /** `canSave`: at least three points and a name that is not blank. */
  predicate SaveAllowed(points: Polygon, shapeId: string)
  {
    |points| >= 3 && Trim(shapeId) != []
  }

  /** What `saveShape` emits: nothing unless saving is allowed, otherwise
      the trimmed name, the points shifted by their minimum coordinates and
      the quantity. */
  function SaveResult(points: Polygon, shapeId: string, quantity: int): Option<SavedShape>
  {
    if SaveAllowed(points, shapeId) then Some(SavedShape(Trim(shapeId), Normalize(points), quantity))
    else None
  }

  /** A saved shape exists exactly when saving is allowed; its points are the
      drawn ones translated so that the smallest x and y are 0, and its name
      is trimmed and not blank. */
  lemma SaveResultProperties(points: Polygon, shapeId: string, quantity: int)
    ensures SaveResult(points, shapeId, quantity).Some? <==> |points| >= 3 && Trim(shapeId) != []
    ensures SaveResult(points, shapeId, quantity).Some? ==>
      var s := SaveResult(points, shapeId, quantity).value;
      && s.points == Translate(points, -Bounds(points).minX, -Bounds(points).minY)
      && Bounds(s.points).minX == 0.0 && Bounds(s.points).minY == 0.0
      && s.id == Trim(shapeId) && Trim(s.id) == s.id && s.quantity == quantity
  {
    if SaveAllowed(points, shapeId) {
      NormalizedAtOrigin(points);
      TrimIdempotent(shapeId);
    }
  }

  lemma NormalizedAtOrigin(points: Polygon)
    requires points != []
    ensures Normalize(points) == Translate(points, -Bounds(points).minX, -Bounds(points).minY)
    ensures Bounds(Normalize(points)).minX == 0.0 && Bounds(Normalize(points)).minY == 0.0
  {
    NormalizeBounds(points);
  }

  /** The editor's state. */
  class Designer {
    var points: seq<Point>
    var draggedIndex: Option<nat>
    var shapeId: string
    var quantity: int
    var snapToGrid: bool

    /** An empty canvas, no drag, no name, quantity 1, snapping on. */
    constructor()
      ensures points == [] && draggedIndex == None && shapeId == "" && quantity == 1 && snapToGrid
    {
      points := [];
      draggedIndex := None;
      shapeId := "";
      quantity := 1;
      snapToGrid := true;
    }

    /** `canSave`: the save button is enabled exactly when saving would emit
        a shape. */
    function CanSave(): (r: bool)
      reads this
      ensures r <==> SaveResult(points, shapeId, quantity).Some?
    {
      SaveAllowed(points, shapeId)
    }

    /** `handleSVGClick`: during a drag nothing happens; otherwise the
        snapped point is appended. */
    method Click(raw: Point)
      modifies this
      ensures draggedIndex == old(draggedIndex) && shapeId == old(shapeId)
      ensures quantity == old(quantity) && snapToGrid == old(snapToGrid)
      ensures old(draggedIndex).Some? ==> points == old(points)
      ensures old(draggedIndex).None? ==> points == old(points) + [Snap(raw, snapToGrid)]
    {
      if draggedIndex.Some? {
        return;
      }
      points := points + [Snap(raw, snapToGrid)];
    }

    /** `handlePointMouseDown`: start dragging point `index`. */
    method PointMouseDown(index: nat)
      modifies this
      ensures draggedIndex == Some(index)
      ensures points == old(points) && shapeId == old(shapeId)
      ensures quantity == old(quantity) && snapToGrid == old(snapToGrid)
    {
      draggedIndex := Some(index);
    }

    /** `handleMouseMove`: while dragging, the dragged point follows the
        snapped cursor; nothing else moves. */
    method MouseMove(raw: Point)
      modifies this
      ensures draggedIndex == old(draggedIndex) && shapeId == old(shapeId)
      ensures quantity == old(quantity) && snapToGrid == old(snapToGrid)
      ensures old(draggedIndex).None? ==> points == old(points)
      ensures old(draggedIndex).Some? ==>
        points == Replaced(old(points), old(draggedIndex).value, Snap(raw, snapToGrid))
    {
      if draggedIndex.None? {
        return;
      }
      points := Replaced(points, draggedIndex.value, Snap(raw, snapToGrid));
    }

    /** `handleMouseUp`: the drag ends. */
    method MouseUp()
      modifies this
      ensures draggedIndex == None
      ensures points == old(points) && shapeId == old(shapeId)
      ensures quantity == old(quantity) && snapToGrid == old(snapToGrid)
    {
      draggedIndex := None;
    }

    /** `clearCanvas`. */
    method Clear()
      modifies this
      ensures points == []
      ensures draggedIndex == old(draggedIndex) && shapeId == old(shapeId)
      ensures quantity == old(quantity) && snapToGrid == old(snapToGrid)
    {
      points := [];
    }

    /** `undoLastPoint`: drop the last point; no points stay no points. */
    method Undo()
      modifies this
      ensures old(points) == [] ==> points == []
      ensures old(points) != [] ==> points + [old(points)[|old(points)| - 1]] == old(points)
      ensures draggedIndex == old(draggedIndex) && shapeId == old(shapeId)
      ensures quantity == old(quantity) && snapToGrid == old(snapToGrid)
    {
      if points != [] {
        points := points[..|points| - 1];
      }
    }

    /** `rotateShape`. */
    method Rotate()
      modifies this
      ensures points == RotateShape(old(points), snapToGrid)
      ensures draggedIndex == old(draggedIndex) && shapeId == old(shapeId)
      ensures quantity == old(quantity) && snapToGrid == old(snapToGrid)
    {
      if points == [] {
        return;
      }
      points := RotateShape(points, snapToGrid);
    }

    /** The name field. */
    method SetShapeId(text: string)
      modifies this
      ensures shapeId == text
      ensures points == old(points) && draggedIndex == old(draggedIndex)
      ensures quantity == old(quantity) && snapToGrid == old(snapToGrid)
    {
      shapeId := text;
    }

    /** The quantity field, given what `parseInt` read from it. */
    method SetQuantity(parsed: Option<int>)
      modifies this
      ensures quantity == QuantityInput(parsed) && quantity >= 1
      ensures points == old(points) && draggedIndex == old(draggedIndex)
      ensures shapeId == old(shapeId) && snapToGrid == old(snapToGrid)
    {
      quantity := QuantityInput(parsed);
    }

    /** The snap check box. */
    method SetSnapToGrid(on: bool)
      modifies this
      ensures snapToGrid == on
      ensures points == old(points) && draggedIndex == old(draggedIndex)
      ensures shapeId == old(shapeId) && quantity == old(quantity)
    {
      snapToGrid := on;
    }

    /** `saveShape`: when allowed, emit the shape and reset the form;
        otherwise nothing happens. */
    method Save() returns (saved: Option<SavedShape>)
      modifies this
      ensures saved == SaveResult(old(points), old(shapeId), old(quantity))
      ensures saved.Some? ==> points == [] && shapeId == "" && quantity == 1
      ensures saved.None? ==> points == old(points) && shapeId == old(shapeId) && quantity == old(quantity)
      ensures draggedIndex == old(draggedIndex) && snapToGrid == old(snapToGrid)
    {
      if !(|points| >= 3 && Trim(shapeId) != []) {
        return None;
      }
      var b := Bounds(points);
      var normalized := Translate(points, -b.minX, -b.minY);
      saved := Some(SavedShape(Trim(shapeId), normalized, quantity));
      points := [];
      shapeId := "";
      quantity := 1;
    }
  }
}
