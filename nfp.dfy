/** `NFPAlgorithm` of backend/nfp_algorithm.py: the candidate-position
    placement engine. A new piece is tried at the container's lower-left
    corner, at the corners next to every placed piece and on a coarse grid;
    near-duplicate candidates are dropped; a candidate is valid when the
    shifted piece lies inside the container's bounding box and overlaps no
    placed piece; the lowest, then leftmost, valid position wins.

    Placed pieces are given by their point lists (the `'points'` entry of
    each placed-piece record, the only entry this class reads). */
module Nfp {
  import opened Common
  import opened Geometry
  import opened Separation

  /** `self.tolerance`. */
  const Tolerance: real := 0.000001

  // ---------------------------------------------------------------------------
  // Containment and overlap
  // ---------------------------------------------------------------------------

  /** `_piece_inside_container`: the piece's bounding box lies inside the
      container's. */
  predicate PieceInsideContainer(piece: Polygon, container: Polygon)
  {
    var cb, pb := Bounds(container), Bounds(piece);
    pb.minX >= cb.minX && pb.maxX <= cb.maxX && pb.minY >= cb.minY && pb.maxY <= cb.maxY
  }

  /** The bounding boxes are disjoint or merely touch along some axis. */
  predicate BoxesApart(b1: Box, b2: Box)
  {
    b1.maxX <= b2.minX || b2.maxX <= b1.minX || b1.maxY <= b2.minY || b2.maxY <= b1.minY
  }

  /** What `_pieces_overlap` answers: no overlap when the boxes are apart,
      otherwise the separating-axis test, and "overlapping" when that test
      raises (the `except` branch). */
  predicate Overlaps(p1: Polygon, p2: Polygon)
  {
    if BoxesApart(Bounds(p1), Bounds(p2)) then false
    else
      match Intersects(p1, p2)
      case None => true
      case Some(v) => v
  }

  /** `_pieces_overlap`. */
  method PiecesOverlap(piece1: Polygon, piece2: Polygon) returns (r: bool)
    ensures r == Overlaps(piece1, piece2)
  {
    var bounds1, bounds2 := Bounds(piece1), Bounds(piece2);
    if BoxesApart(bounds1, bounds2) {
      return false;
    }
    var answer := NfpPolygonsIntersect(piece1, piece2);
    match answer
    case None => r := true;
    case Some(v) => r := v;
  }

  /** The overlap test does not depend on the order of the two pieces. */
  lemma OverlapsSymmetric(p1: Polygon, p2: Polygon)
    ensures Overlaps(p1, p2) == Overlaps(p2, p1)
  {
    IntersectsSymmetric(p1, p2);
  }

  /** Pieces one of which lies wholly to the left of the other, touching at
      most, never overlap. */
  lemma LeftOfNoOverlap(p1: Polygon, p2: Polygon)
    requires p1 != [] && p2 != []
    requires forall i, j :: 0 <= i < |p1| && 0 <= j < |p2| ==> p1[i].x <= p2[j].x
    ensures !Overlaps(p1, p2) && !Overlaps(p2, p1)
  {
    BoundsAttained(p1);
    BoundsAttained(p2);
    var i :| 0 <= i < |p1| && p1[i].x == Bounds(p1).maxX;
    var j :| 0 <= j < |p2| && p2[j].x == Bounds(p2).minX;
    assert Bounds(p1).maxX <= Bounds(p2).minX;
  }

  /** Pieces one of which lies wholly below the other, touching at most,
      never overlap. */
  lemma BelowNoOverlap(p1: Polygon, p2: Polygon)
    requires p1 != [] && p2 != []
    requires forall i, j :: 0 <= i < |p1| && 0 <= j < |p2| ==> p1[i].y <= p2[j].y
    ensures !Overlaps(p1, p2) && !Overlaps(p2, p1)
  {
    BoundsAttained(p1);
    BoundsAttained(p2);
    var i :| 0 <= i < |p1| && p1[i].y == Bounds(p1).maxY;
    var j :| 0 <= j < |p2| && p2[j].y == Bounds(p2).minY;
    assert Bounds(p1).maxY <= Bounds(p2).minY;
  }

  /** `t` overlaps one of the placed pieces. */
  predicate OverlapsAny(t: Polygon, placed: seq<Polygon>)
    decreases |placed|
  {
    placed != [] && (OverlapsAny(t, placed[..|placed| - 1]) || Overlaps(t, placed[|placed| - 1]))
  }

  lemma {:induction false} OverlapsAnyIff(t: Polygon, placed: seq<Polygon>)
    ensures OverlapsAny(t, placed) <==> exists k :: 0 <= k < |placed| && Overlaps(t, placed[k])
    decreases |placed|
  {
    if placed != [] {
      var init := placed[..|placed| - 1];
      OverlapsAnyIff(t, init);
      assert forall k :: 0 <= k < |init| ==> init[k] == placed[k];
    }
  }

  /** What `_is_position_valid` answers: the piece moved to `pos` lies inside
      the container and overlaps no placed piece. */
  predicate ValidPosition(piece: Polygon, pos: Point, container: Polygon, placed: seq<Polygon>)
  {
    var t := Translate(piece, pos.x, pos.y);
    PieceInsideContainer(t, container) && !OverlapsAny(t, placed)
  }

  /** `_is_position_valid`: the containment test, then the placed pieces one
      by one until one overlaps. */
  method IsPositionValid(piece: Polygon, pos: Point, container: Polygon, placed: seq<Polygon>)
    returns (valid: bool)
    ensures valid == ValidPosition(piece, pos, container, placed)
  {
    var translated := Translate(piece, pos.x, pos.y);
    if !PieceInsideContainer(translated, container) {
      return false;
    }
    var k := 0;
    while k < |placed|
      invariant 0 <= k <= |placed|
      invariant !OverlapsAny(translated, placed[..k])
    {
      var overlap := PiecesOverlap(translated, placed[k]);
      assert placed[..k + 1][..k] == placed[..k];
      if overlap {
        OverlapsAnyIff(translated, placed);
        return false;
      }
      k := k + 1;
    }
    assert placed[..|placed|] == placed;
    return true;
  }

  /** At a valid position every vertex of the moved piece lies in the
      container's bounding box. */
  lemma ValidPositionInside(piece: Polygon, pos: Point, container: Polygon, placed: seq<Polygon>)
    requires ValidPosition(piece, pos, container, placed)
    ensures forall i :: 0 <= i < |piece| ==> InBox(Point(piece[i].x + pos.x, piece[i].y + pos.y), Bounds(container))
  {
    var t := Translate(piece, pos.x, pos.y);
    BoundsContain(t);
    forall i | 0 <= i < |piece|
      ensures InBox(Point(piece[i].x + pos.x, piece[i].y + pos.y), Bounds(container))
    {
      assert t[i] == Point(piece[i].x + pos.x, piece[i].y + pos.y);
      assert InBox(t[i], Bounds(t));
    }
  }

  // ---------------------------------------------------------------------------
  // Candidate positions
  // ---------------------------------------------------------------------------

  /** `max(20, size // 4)`: the grid step for a piece of the given size. */
  function GridStep(size: real): (r: real)
    ensures r >= 20.0 && r >= (size / 4.0).Floor as real
    ensures r == 20.0 || r == (size / 4.0).Floor as real
  {
    var quarter := (size / 4.0).Floor as real;
    if quarter > 20.0 then quarter else 20.0
  }

  /** How many grid values from `v` up to `vMax` a step of at least 1 can
      still visit: the termination measure of the grid loops. */
  function Steps(v: real, vMax: real): nat
  {
    if v <= vMax then (vMax - v).Floor + 1 else 0
  }

  lemma StepsDecrease(v: real, vMax: real, step: real)
    requires step >= 1.0 && v <= vMax
    ensures Steps(v + step, vMax) < Steps(v, vMax)
  {
  }

  /** The inner grid loop: `(x, y)` for `y` from `y` while `y <= yMax`. */
  function Column(x: real, y: real, yMax: real, stepY: real): (r: seq<Point>)
    requires stepY >= 1.0
    decreases Steps(y, yMax)
  {
    if y <= yMax then
      StepsDecrease(y, yMax, stepY);
      [Point(x, y)] + Column(x, y + stepY, yMax, stepY)
    else []
  }

  /** The outer grid loop: one column for `x` from `x` while `x <= xMax`. */
  function Grid(x: real, xMax: real, y0: real, yMax: real, stepX: real, stepY: real): (r: seq<Point>)
    requires stepX >= 1.0 && stepY >= 1.0
    decreases Steps(x, xMax)
  {
    if x <= xMax then
      StepsDecrease(x, xMax, stepX);
      Column(x, y0, yMax, stepY) + Grid(x + stepX, xMax, y0, yMax, stepX, stepY)
    else []
  }

  /** Every point of a column is on its vertical line, between its ends. */
  lemma {:induction false} ColumnInRange(x: real, y: real, yMax: real, stepY: real, p: Point)
    requires stepY >= 1.0 && p in Column(x, y, yMax, stepY)
    ensures p.x == x && y <= p.y <= yMax
    decreases Steps(y, yMax)
  {
    if p != Point(x, y) {
      StepsDecrease(y, yMax, stepY);
      ColumnInRange(x, y + stepY, yMax, stepY, p);
    }
  }

  /** Every grid point lies in the rectangle the loops sweep. */
  lemma {:induction false} GridInRange(x: real, xMax: real, y0: real, yMax: real, stepX: real, stepY: real, p: Point)
    requires stepX >= 1.0 && stepY >= 1.0 && p in Grid(x, xMax, y0, yMax, stepX, stepY)
    ensures x <= p.x <= xMax && y0 <= p.y <= yMax
    decreases Steps(x, xMax)
  {
    StepsDecrease(x, xMax, stepX);
    if p in Column(x, y0, yMax, stepY) {
      ColumnInRange(x, y0, yMax, stepY, p);
    } else {
      GridInRange(x + stepX, xMax, y0, yMax, stepX, stepY, p);
    }
  }

  /** The four positions next to one placed piece with box `b`: right of it
      aligned with its bottom, right of it on the container's floor, above it
      aligned with its left side, above it on the container's left wall. */
  function AnchorsOf(b: Box, cb: Box): seq<Point>
  {
    [Point(b.maxX, b.minY), Point(b.maxX, cb.minY), Point(b.minX, b.maxY), Point(cb.minX, b.maxY)]
  }

  function Anchors(placed: seq<Polygon>, cb: Box): (r: seq<Point>)
    ensures |r| == 4 * |placed|
    decreases |placed|
  {
    if placed == [] then []
    else Anchors(placed[..|placed| - 1], cb) + AnchorsOf(Bounds(placed[|placed| - 1]), cb)
  }

  /** The container's lower-left corner. */
  function Corner(cb: Box): Point
  {
    Point(cb.minX, cb.minY)
  }

  /** All candidates before deduplication: the corner, the anchors of every
      placed piece in order, then the grid column by column. */
  function RawCandidates(cb: Box, placed: seq<Polygon>, width: real, height: real): seq<Point>
  {
    [Corner(cb)] + Anchors(placed, cb)
      + Grid(cb.minX, cb.maxX - width, cb.minY, cb.maxY - height, GridStep(width), GridStep(height))
  }

  /** Two positions agree within the tolerance on both coordinates. */
  predicate Near(p: Point, q: Point)
  {
    Abs(p.x - q.x) < Tolerance && Abs(p.y - q.y) < Tolerance
  }

  predicate HasNear(d: seq<Point>, p: Point)
  {
    exists k :: 0 <= k < |d| && Near(d[k], p)
  }

  /** The deduplication loop: keep a position unless an already kept one is
      near it. */
  function Dedup(s: seq<Point>): (r: seq<Point>)
    ensures |r| <= |s|
    ensures s != [] ==> r != [] && r[0] == s[0]
    decreases |s|
  {
    if s == [] then []
    else
      var d, last := Dedup(s[..|s| - 1]), s[|s| - 1];
      if HasNear(d, last) then d else d + [last]
  }

  /** No two kept positions are near each other. */
  lemma {:induction false} DedupApart(s: seq<Point>)
    ensures forall i, j :: 0 <= i < j < |Dedup(s)| ==> !Near(Dedup(s)[i], Dedup(s)[j])
    decreases |s|
  {
    if s != [] {
      var d, last := Dedup(s[..|s| - 1]), s[|s| - 1];
      DedupApart(s[..|s| - 1]);
      if !HasNear(d, last) {
        var r := d + [last];
        assert forall i :: 0 <= i < |d| ==> r[i] == d[i] && !Near(d[i], last);
      }
    }
  }

  /** Every kept position is an input position, and every input position
      has a kept one near it. */
  lemma {:induction false} DedupCovers(s: seq<Point>)
    ensures forall p :: p in Dedup(s) ==> p in s
    ensures forall i :: 0 <= i < |s| ==> HasNear(Dedup(s), s[i])
    decreases |s|
  {
    if s != [] {
      var d, last := Dedup(s[..|s| - 1]), s[|s| - 1];
      DedupCovers(s[..|s| - 1]);
      assert forall i :: 0 <= i < |s| - 1 ==> s[i] == s[..|s| - 1][i];
      if !HasNear(d, last) {
        assert Near((d + [last])[|d|], last);
        HasNearExtend(d, last);
      }
    }
  }

  lemma HasNearExtend(d: seq<Point>, x: Point)
    ensures forall p :: HasNear(d, p) ==> HasNear(d + [x], p)
  {
    forall p | HasNear(d, p)
      ensures HasNear(d + [x], p)
    {
      var k :| 0 <= k < |d| && Near(d[k], p);
      assert (d + [x])[k] == d[k];
    }
  }

  /** The kept positions appear in the input in the same order. */
  lemma {:induction false} DedupSubseq(s: seq<Point>)
    ensures IsSubseq(Dedup(s), s)
    decreases |s|
  {
    if s != [] {
      var d, last := Dedup(s[..|s| - 1]), s[|s| - 1];
      DedupSubseq(s[..|s| - 1]);
      if !HasNear(d, last) {
        assert (d + [last])[..|d + [last]| - 1] == d;
      }
    }
  }

  /** `_generate_candidate_positions`: only the corner when nothing is placed,
      otherwise the deduplicated raw candidates. */
  function CandidatePositions(cb: Box, placed: seq<Polygon>, width: real, height: real): (r: seq<Point>)
  {
    if placed == [] then [Corner(cb)] else Dedup(RawCandidates(cb, placed, width, height))
  }

  /** The candidate list starts with the container's corner, is exactly that
      corner when nothing is placed, never holds two near positions, and has
      a near representative of every raw candidate. */
  lemma CandidatePositionsProperties(cb: Box, placed: seq<Polygon>, width: real, height: real)
    ensures var r := CandidatePositions(cb, placed, width, height);
      && r != [] && r[0] == Corner(cb)
      && (placed == [] ==> r == [Corner(cb)])
      && (forall i, j :: 0 <= i < j < |r| ==> !Near(r[i], r[j]))
      && (placed != [] ==> forall p :: p in RawCandidates(cb, placed, width, height) ==> HasNear(r, p))
  {
    if placed != [] {
      DedupCovers(RawCandidates(cb, placed, width, height));
      DedupApart(RawCandidates(cb, placed, width, height));
    }
  }

  /** Every grid candidate leaves room for the piece inside the container's
      box: its lower-left corner is in the box and its far corner is too. */
  lemma GridCandidatesLeaveRoom(cb: Box, width: real, height: real, p: Point)
    requires p in Grid(cb.minX, cb.maxX - width, cb.minY, cb.maxY - height, GridStep(width), GridStep(height))
    ensures cb.minX <= p.x && p.x + width <= cb.maxX && cb.minY <= p.y && p.y + height <= cb.maxY
  {
    GridInRange(cb.minX, cb.maxX - width, cb.minY, cb.maxY - height, GridStep(width), GridStep(height), p);
  }

  /** The deduplication loop with its `is_duplicate` flag. */
  method RemoveNearDuplicates(positions: seq<Point>) returns (unique: seq<Point>)
    ensures unique == Dedup(positions)
  {
    unique := [];
    var i := 0;
    while i < |positions|
      invariant 0 <= i <= |positions|
      invariant unique == Dedup(positions[..i])
    {
      var pos := positions[i];
      var isDuplicate := false;
      var j := 0;
      while j < |unique|
        invariant 0 <= j <= |unique|
        invariant !isDuplicate
        invariant forall k :: 0 <= k < j ==> !Near(unique[k], pos)
      {
        if Near(unique[j], pos) {
          isDuplicate := true;
          break;
        }
        j := j + 1;
      }
      assert isDuplicate == HasNear(unique, pos);
      assert positions[..i + 1][..i] == positions[..i];
      if !isDuplicate {
        unique := unique + [pos];
      }
      i := i + 1;
    }
    assert positions[..|positions|] == positions;
  }

  /** The anchor loop: four positions appended per placed piece. */
  method AppendAnchors(positions: seq<Point>, placed: seq<Polygon>, cb: Box) returns (out: seq<Point>)
    ensures out == positions + Anchors(placed, cb)
  {
    out := positions;
    var k := 0;
    while k < |placed|
      invariant 0 <= k <= |placed|
      invariant out == positions + Anchors(placed[..k], cb)
    {
      var b := Bounds(placed[k]);
      ghost var before := out;
      out := out + [Point(b.maxX, b.minY)];
      out := out + [Point(b.maxX, cb.minY)];
      out := out + [Point(b.minX, b.maxY)];
      out := out + [Point(cb.minX, b.maxY)];
      assert out == before + AnchorsOf(b, cb);
      assert placed[..k + 1][..k] == placed[..k];
      k := k + 1;
    }
    assert placed[..|placed|] == placed;
  }

  /** The inner grid loop. */
  method AppendColumn(positions: seq<Point>, x: real, y0: real, yMax: real, stepY: real) returns (out: seq<Point>)
    requires stepY >= 1.0
    ensures out == positions + Column(x, y0, yMax, stepY)
  {
    out := positions;
    var y := y0;
    while y <= yMax
      invariant out + Column(x, y, yMax, stepY) == positions + Column(x, y0, yMax, stepY)
      decreases Steps(y, yMax)
    {
      assert Column(x, y, yMax, stepY) == [Point(x, y)] + Column(x, y + stepY, yMax, stepY);
      out := out + [Point(x, y)];
      StepsDecrease(y, yMax, stepY);
      y := y + stepY;
    }
  }

  /** The outer grid loop. */
  method AppendGrid(positions: seq<Point>, x0: real, xMax: real, y0: real, yMax: real, stepX: real, stepY: real)
    returns (out: seq<Point>)
    requires stepX >= 1.0 && stepY >= 1.0
    ensures out == positions + Grid(x0, xMax, y0, yMax, stepX, stepY)
  {
    out := positions;
    var x := x0;
    while x <= xMax
      invariant out + Grid(x, xMax, y0, yMax, stepX, stepY) == positions + Grid(x0, xMax, y0, yMax, stepX, stepY)
      decreases Steps(x, xMax)
    {
      var column := Column(x, y0, yMax, stepY);
      var rest := Grid(x + stepX, xMax, y0, yMax, stepX, stepY);
      assert Grid(x, xMax, y0, yMax, stepX, stepY) == column + rest;
      var before := out;
      out := AppendColumn(out, x, y0, yMax, stepY);
      assert out + rest == before + (column + rest);
      StepsDecrease(x, xMax, stepX);
      x := x + stepX;
    }
  }

  /** `_generate_candidate_positions`: the corner, then four anchors per
      placed piece, then the grid, then deduplication. */
  method GenerateCandidatePositions(cb: Box, placed: seq<Polygon>, width: real, height: real)
    returns (unique: seq<Point>)
    ensures unique == CandidatePositions(cb, placed, width, height)
  {
    var positions := [Corner(cb)];
    if placed == [] {
      return positions;
    }
    positions := AppendAnchors(positions, placed, cb);
    positions := AppendGrid(positions, cb.minX, cb.maxX - width, cb.minY, cb.maxY - height,
                            GridStep(width), GridStep(height));
    assert positions == [Corner(cb)] + Anchors(placed, cb) + Grid(cb.minX, cb.maxX - width, cb.minY, cb.maxY - height, GridStep(width), GridStep(height));
    assert positions == RawCandidates(cb, placed, width, height);
    unique := RemoveNearDuplicates(positions);
  }

  // ---------------------------------------------------------------------------
  // Selection
  // ---------------------------------------------------------------------------

  /** `_select_best_position`: the lowest, then leftmost, position for
      `bottom_left` and `best_fit` (the first such in the list, as Python's
      `min` keeps), the first position for any other strategy. */
  function SelectBestPosition(positions: seq<Point>, strategy: string): (r: Point)
    requires positions != []
    ensures r in positions
    ensures strategy == "bottom_left" || strategy == "best_fit" ==>
      forall i :: 0 <= i < |positions| ==> LowerLeftOrSame(r, positions[i])
  {
    if strategy == "bottom_left" then LowestLeftmost(positions)
    else if strategy == "best_fit" then LowestLeftmost(positions)
    else positions[0]
  }

  /** The positions of `s` that `keep` accepts, in order. */
  function KeepIf(s: seq<Point>, keep: Point -> bool): (r: seq<Point>)
    ensures |r| <= |s|
    decreases |s|
  {
    if s == [] then []
    else
      var rest := KeepIf(s[..|s| - 1], keep);
      if keep(s[|s| - 1]) then rest + [s[|s| - 1]] else rest
  }

  /** A position is kept exactly when it is in the input and accepted. */
  lemma {:induction false} KeepIfMembers(s: seq<Point>, keep: Point -> bool)
    ensures forall p :: p in KeepIf(s, keep) <==> p in s && keep(p)
    decreases |s|
  {
    if s != [] {
      KeepIfMembers(s[..|s| - 1], keep);
      assert s == s[..|s| - 1] + [s[|s| - 1]];
    }
  }

  /** The first position kept is the first accepted one of the input. */
  lemma {:induction false} KeepIfFirst(s: seq<Point>, keep: Point -> bool)
    requires KeepIf(s, keep) != []
    ensures exists i :: (0 <= i < |s| && KeepIf(s, keep)[0] == s[i]
      && forall j :: 0 <= j < i ==> !keep(s[j]))
    decreases |s|
  {
    var s', last := s[..|s| - 1], s[|s| - 1];
    var rest := KeepIf(s', keep);
    if rest != [] {
      KeepIfFirst(s', keep);
      var i :| 0 <= i < |s'| && rest[0] == s'[i] && forall j :: 0 <= j < i ==> !keep(s'[j]);
      assert s[i] == s'[i];
      assert forall j :: 0 <= j < i ==> s[j] == s'[j];
    } else {
      KeepIfMembers(s', keep);
      assert forall j :: 0 <= j < |s'| ==> s[j] == s'[j] && s'[j] in s';
    }
  }

  /** The validity test of `find_best_position` for one piece, as a
      predicate on positions. */
  function ValidAt(piece: Polygon, container: Polygon, placed: seq<Polygon>): Point -> bool
  {
    p => ValidPosition(piece, p, container, placed)
  }

  /** The candidates shifted by the piece's own lower-left corner, so that
      the piece's box, not its origin, lands on each candidate. */
  function AdjustedCandidates(container: Polygon, placed: seq<Polygon>, piece: Polygon): seq<Point>
  {
    Shifted(CandidatePositions(Bounds(container), placed, Width(Bounds(piece)), Height(Bounds(piece))), Bounds(piece))
  }

  /** Each candidate moved by the opposite of the box's lower-left corner. */
  function Shifted(candidates: seq<Point>, pb: Box): seq<Point>
  {
    Translate(candidates, -pb.minX, -pb.minY)
  }

  /** The selection step of `find_best_position`: among the shifted
      candidates `adjusted`, keep those `keep` accepts and select one. */
  function BestAmong(adjusted: seq<Point>, keep: Point -> bool, strategy: string): Option<Point>
  {
    var valid := KeepIf(adjusted, keep);
    if valid == [] then None else Some(SelectBestPosition(valid, strategy))
  }

  /** What `find_best_position` returns. */
  function BestPosition(container: Polygon, placed: seq<Polygon>, piece: Polygon, strategy: string): Option<Point>
  {
    BestAmong(AdjustedCandidates(container, placed, piece), ValidAt(piece, container, placed), strategy)
  }

  /** `find_best_position`: generate, shift, filter, select. */
  method FindBestPosition(container: Polygon, placed: seq<Polygon>, piece: Polygon, strategy: string)
    returns (r: Option<Point>)
    ensures r == BestAmong(AdjustedCandidates(container, placed, piece), ValidAt(piece, container, placed), strategy)
  {
    var pieceBounds := Bounds(piece);
    var containerBounds := Bounds(container);
    var candidates := GenerateCandidatePositions(containerBounds, placed, Width(pieceBounds), Height(pieceBounds));
    var validPositions := KeepValidPositions(candidates, pieceBounds, piece, container, placed, ValidAt(piece, container, placed));
    assert Shifted(candidates, pieceBounds) == AdjustedCandidates(container, placed, piece);
    if validPositions == [] {
      return None;
    }
    return Some(SelectBestPosition(validPositions, strategy));
  }

  /** One more position of the input: it is kept or not as `keep` says. */
  lemma KeepIfStep(s: seq<Point>, i: nat, keep: Point -> bool, kept: seq<Point>, accepted: bool)
    requires i < |s| && kept == KeepIf(s[..i], keep) && accepted == keep(s[i])
    ensures KeepIf(s[..i + 1], keep) == if accepted then kept + [s[i]] else kept
  {
    assert s[..i + 1][..i] == s[..i];
  }

  /** The evaluation loop of `find_best_position`: shift each candidate by
      the piece's lower-left corner and keep it when valid. The validity
      test is also passed as the predicate `keep` the result is stated
      with. */
  method KeepValidPositions(candidates: seq<Point>, pieceBounds: Box, piece: Polygon, container: Polygon,
                            placed: seq<Polygon>, ghost keep: Point -> bool)
    returns (validPositions: seq<Point>)
    requires forall p {:trigger ValidPosition(piece, p, container, placed)} :: keep(p) == ValidPosition(piece, p, container, placed)
    ensures validPositions == KeepIf(Shifted(candidates, pieceBounds), keep)
  {
    ghost var adjusted := Shifted(candidates, pieceBounds);
    validPositions := [];
    var i := 0;
    while i < |candidates|
      invariant 0 <= i <= |candidates| == |adjusted|
      invariant validPositions == KeepIf(adjusted[..i], keep)
    {
      var pos := candidates[i];
      var adjustedPos := Point(pos.x - pieceBounds.minX, pos.y - pieceBounds.minY);
      assert adjusted[i] == adjustedPos;
      var valid := IsPositionValid(piece, adjustedPos, container, placed);
      KeepIfStep(adjusted, i, keep, validPositions, valid);
      if valid {
        validPositions := validPositions + [adjustedPos];
      }
      i := i + 1;
    }
    assert adjusted[..|candidates|] == adjusted;
  }

  /** `optimize_position`: the older entry point, which delegates to
      `find_best_position`. */
  method OptimizePosition(container: Polygon, placed: seq<Polygon>, piece: Polygon, strategy: string)
    returns (r: Option<Point>)
    ensures r == BestPosition(container, placed, piece, strategy)
  {
    r := FindBestPosition(container, placed, piece, strategy);
  }

  /** No position is found exactly when no shifted candidate is accepted. */
  lemma BestAmongNoneIff(adjusted: seq<Point>, keep: Point -> bool, strategy: string)
    ensures BestAmong(adjusted, keep, strategy) == None <==> forall p :: p in adjusted ==> !keep(p)
  {
    var valid := KeepIf(adjusted, keep);
    KeepIfMembers(adjusted, keep);
    if valid != [] {
      assert valid[0] in valid;
    }
  }

  /** A found position is an accepted shifted candidate. */
  lemma BestAmongValid(adjusted: seq<Point>, keep: Point -> bool, strategy: string)
    requires BestAmong(adjusted, keep, strategy).Some?
    ensures var p := BestAmong(adjusted, keep, strategy).value; p in adjusted && keep(p)
  {
    KeepIfMembers(adjusted, keep);
  }

  /** For `bottom_left` and `best_fit` the found position is lowest, then
      leftmost, among all accepted shifted candidates. */
  lemma BestAmongLowestLeftmost(adjusted: seq<Point>, keep: Point -> bool, strategy: string, q: Point)
    requires strategy == "bottom_left" || strategy == "best_fit"
    requires q in adjusted && keep(q)
    ensures BestAmong(adjusted, keep, strategy).Some?
    ensures LowerLeftOrSame(BestAmong(adjusted, keep, strategy).value, q)
  {
    var valid := KeepIf(adjusted, keep);
    KeepIfMembers(adjusted, keep);
    var k :| 0 <= k < |valid| && valid[k] == q;
  }

  /** For any other strategy the found position is the first accepted
      shifted candidate. */
  lemma BestAmongFirstValid(adjusted: seq<Point>, keep: Point -> bool, strategy: string)
    requires strategy != "bottom_left" && strategy != "best_fit"
    requires BestAmong(adjusted, keep, strategy).Some?
    ensures exists i :: (0 <= i < |adjusted| && BestAmong(adjusted, keep, strategy).value == adjusted[i]
      && forall j :: 0 <= j < i ==> !keep(adjusted[j]))
  {
    KeepIfFirst(adjusted, keep);
  }

  /** With a single candidate the piece goes there or nowhere. */
  lemma BestAmongSingle(at: Point, keep: Point -> bool, strategy: string)
    ensures BestAmong([at], keep, strategy) == if keep(at) then Some(at) else None
  {
    assert [at][..0] == [];
  }

  /** In an empty container the only candidate is the container's corner,
      shifted so that the piece's box, not its origin, lands there. */
  lemma EmptyContainerCandidates(container: Polygon, piece: Polygon)
    ensures AdjustedCandidates(container, [], piece)
            == [Point(Bounds(container).minX - Bounds(piece).minX, Bounds(container).minY - Bounds(piece).minY)]
  {
    var pb, cb := Bounds(piece), Bounds(container);
    NoPlacedCandidates(cb, Width(pb), Height(pb));
    TranslateSingle(Corner(cb), -pb.minX, -pb.minY);
  }

  lemma NoPlacedCandidates(cb: Box, width: real, height: real)
    ensures CandidatePositions(cb, [], width, height) == [Corner(cb)]
  {
  }

  lemma TranslateSingle(p: Point, dx: real, dy: real)
    ensures Translate([p], dx, dy) == [Point(p.x + dx, p.y + dy)]
  {
  }

  // ---------------------------------------------------------------------------
  // An empty rectangular container
  // ---------------------------------------------------------------------------

  /** With nothing placed, a position is valid exactly when the moved piece
      lies inside the container. */
  lemma ValidInEmpty(piece: Polygon, pos: Point, container: Polygon)
    ensures ValidPosition(piece, pos, container, [])
            <==> PieceInsideContainer(Translate(piece, pos.x, pos.y), container)
  {
  }

  /** A rectangle no larger than an empty rectangular container at the
      origin is put at the origin, whatever the strategy. */
  lemma RectangleFitsEmpty(width: real, height: real, pieceWidth: real, pieceHeight: real, strategy: string)
    requires 0.0 <= pieceWidth <= width && 0.0 <= pieceHeight <= height
    ensures BestPosition(CreateRectangle(width, height, 0.0, 0.0), [],
                         CreateRectangle(pieceWidth, pieceHeight, 0.0, 0.0), strategy)
            == Some(Point(0.0, 0.0))
  {
    var c, u := CreateRectangle(width, height, 0.0, 0.0), CreateRectangle(pieceWidth, pieceHeight, 0.0, 0.0);
    var corner := Point(0.0, 0.0);
    RectangleBounds(width, height, 0.0, 0.0);
    RectangleBounds(pieceWidth, pieceHeight, 0.0, 0.0);
    EmptyContainerCandidates(c, u);
    TranslateBounds(u, 0.0, 0.0);
    ValidInEmpty(u, corner, c);
    BestAmongSingle(corner, ValidAt(u, c, []), strategy);
  }
}
