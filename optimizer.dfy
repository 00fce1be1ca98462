/** The single-container optimiser of `prueba/nesting_optimizer.py`
    (class `NestingOptimizer`): pieces are expanded into numbered copies,
    sorted by area, and placed one by one at the best of their rotations; the
    used area is reported as a percentage of the frame.

    Three computations the optimiser delegates are parameters here: the
    margin offset of a polygon (`expand`, done with shapely), the rotation
    of a polygon by a whole angle (`rotate`, trigonometry), and the outcome
    of the randomised genetic search (`search`). */
module Optimizer {
  import opened Common
  import opened Geometry
  import opened Text
  import opened Sorting
  import Nfp

  /** A piece as the request gives it; `id` and `quantity` may be missing. */
  datatype PieceSpec = PieceSpec(id: Option<string>, points: Polygon, quantity: Option<int>)

  /** One entry of `available_rotations`. */
  datatype RotationOption = RotationOption(points: Polygon, angle: int, area: real)

  /** A prepared copy of a piece; `position` is set once it is placed. */
  datatype Piece = Piece(
    id: string, originalId: string, copyNumber: nat,
    points: Polygon, rotation: int, originalPoints: Polygon, area: real,
    rotations: seq<RotationOption>, position: Option<Point>)

  /** The outcome of a placement pass. */
  datatype Outcome = Outcome(placed: seq<Piece>, unplaced: seq<Piece>)

  type Expander = (Polygon, real) -> Polygon
  type Rotator = (Polygon, int) -> Polygon

  // ---------------------------------------------------------------------------
  // Preparing the pieces
  // ---------------------------------------------------------------------------

  /** `piece.get('id', 'piece')`. */
  function SpecId(p: PieceSpec): string
  {
    match p.id
    case None => "piece"
    case Some(s) => s
  }

  /** The number of copies `range(piece.get('quantity', 1))` produces. */
  function CopyCount(p: PieceSpec): nat
  {
    match p.quantity
    case None => 1
    case Some(q) => if q > 0 then q else 0
  }

  /** The normalised outline, offset by the margin when it is positive. */
  function Outline(p: PieceSpec, margin: real, expand: Expander): Polygon
  {
    var n := Normalize(p.points);
    if margin > 0.0 then expand(n, margin) else n
  }

  /** One rotation option per angle, in the order of the angles. */
  function RotatedOptions(outline: Polygon, angles: seq<int>, rotate: Rotator): (r: seq<RotationOption>)
    ensures |r| == |angles|
    decreases |angles|
  {
    if angles == [] then []
    else
      var a := angles[|angles| - 1];
      RotatedOptions(outline, angles[..|angles| - 1], rotate)
        + [RotationOption(rotate(outline, a), a, PolygonArea(rotate(outline, a)))]
  }

  /** `available_rotations`: the listed angles, or the outline alone at 0. */
  function RotationOptions(outline: Polygon, allowRotation: bool, angles: seq<int>, rotate: Rotator): seq<RotationOption>
  {
    if allowRotation then RotatedOptions(outline, angles, rotate)
    else [RotationOption(outline, 0, PolygonArea(outline))]
  }

  /** Copy number `n` of a piece, with id `"<id>_<n>"`. */
  function CopyOf(p: PieceSpec, outline: Polygon, options: seq<RotationOption>, n: nat): Piece
  {
    Piece(SpecId(p) + "_" + NatToString(n), SpecId(p), n, outline, 0, p.points,
          PolygonArea(outline), options, None)
  }

  /** Copies 1 to `n` of a piece. */
  function Copies(p: PieceSpec, outline: Polygon, options: seq<RotationOption>, n: nat): (r: seq<Piece>)
    ensures |r| == n
  {
    if n == 0 then [] else Copies(p, outline, options, n - 1) + [CopyOf(p, outline, options, n)]
  }

  /** All copies of one requested piece. */
  function PieceCopies(p: PieceSpec, margin: real, allowRotation: bool, angles: seq<int>,
                       expand: Expander, rotate: Rotator): seq<Piece>
  {
    var outline := Outline(p, margin, expand);
    Copies(p, outline, RotationOptions(outline, allowRotation, angles, rotate), CopyCount(p))
  }

  /** The copies of every requested piece, in request order. */
  function Expanded(pieces: seq<PieceSpec>, margin: real, allowRotation: bool, angles: seq<int>,
                    expand: Expander, rotate: Rotator): seq<Piece>
    decreases |pieces|
  {
    if pieces == [] then []
    else Expanded(pieces[..|pieces| - 1], margin, allowRotation, angles, expand, rotate)
         + PieceCopies(pieces[|pieces| - 1], margin, allowRotation, angles, expand, rotate)
  }

  function AreaKey(p: Piece): real { p.area }

  /** What `_prepare_pieces` returns: the copies, largest area first. */
  function Prepared(pieces: seq<PieceSpec>, margin: real, allowRotation: bool, angles: seq<int>,
                    expand: Expander, rotate: Rotator): seq<Piece>
  {
    SortBy(Expanded(pieces, margin, allowRotation, angles, expand, rotate), AreaKey, true)
  }

  /** The number of copies requested in total. */
  function TotalCopies(pieces: seq<PieceSpec>): nat
    decreases |pieces|
  {
    if pieces == [] then 0 else TotalCopies(pieces[..|pieces| - 1]) + CopyCount(pieces[|pieces| - 1])
  }

  /** There is exactly one prepared copy per requested unit of quantity. */
  lemma {:induction false} ExpandedLength(pieces: seq<PieceSpec>, margin: real, allowRotation: bool, angles: seq<int>,
                                          expand: Expander, rotate: Rotator)
    ensures |Expanded(pieces, margin, allowRotation, angles, expand, rotate)| == TotalCopies(pieces)
    decreases |pieces|
  {
    if pieces != [] {
      ExpandedLength(pieces[..|pieces| - 1], margin, allowRotation, angles, expand, rotate);
    }
  }

  /** Copy `i + 1` sits at index `i`, is named `"<id>_<i+1>"`, remembers the
      requested id and outline, and starts unrotated and unplaced. */
  lemma {:induction false} CopiesNumbered(p: PieceSpec, outline: Polygon, options: seq<RotationOption>, n: nat)
    ensures forall i :: 0 <= i < n ==>
      && Copies(p, outline, options, n)[i].copyNumber == i + 1
      && Copies(p, outline, options, n)[i].id == SpecId(p) + "_" + NatToString(i + 1)
      && Copies(p, outline, options, n)[i].originalId == SpecId(p)
      && Copies(p, outline, options, n)[i].points == outline
      && Copies(p, outline, options, n)[i].originalPoints == p.points
      && Copies(p, outline, options, n)[i].rotation == 0
      && Copies(p, outline, options, n)[i].rotations == options
      && Copies(p, outline, options, n)[i].position == None
  {
    if n > 0 {
      CopiesAt(p, outline, options, n);
    }
  }

  /** Copy `i + 1` of a piece is the record `CopyOf` builds for that number. */
  lemma {:induction false} CopiesAt(p: PieceSpec, outline: Polygon, options: seq<RotationOption>, n: nat)
    ensures forall i :: 0 <= i < n ==> Copies(p, outline, options, n)[i] == CopyOf(p, outline, options, i + 1)
  {
    if n > 0 {
      CopiesAt(p, outline, options, n - 1);
      var prev := Copies(p, outline, options, n - 1);
      assert Copies(p, outline, options, n) == prev + [CopyOf(p, outline, options, n)];
      forall i | 0 <= i < n
        ensures Copies(p, outline, options, n)[i] == CopyOf(p, outline, options, i + 1)
      {
        if i < n - 1 {
          assert Copies(p, outline, options, n)[i] == prev[i];
        }
      }
    }
  }

  /** Without rotation a copy has the single option of angle 0; with it, one
      option per listed angle, in order, holding the rotated outline and its
      area. */
  lemma {:induction false} RotationOptionsShape(outline: Polygon, allowRotation: bool, angles: seq<int>, rotate: Rotator)
    ensures var r := RotationOptions(outline, allowRotation, angles, rotate);
      && (!allowRotation ==> r == [RotationOption(outline, 0, PolygonArea(outline))])
      && (allowRotation ==> |r| == |angles| && forall i :: 0 <= i < |angles| ==>
            r[i] == RotationOption(rotate(outline, angles[i]), angles[i], PolygonArea(rotate(outline, angles[i]))))
  {
    if allowRotation {
      RotatedOptionsAt(outline, angles, rotate);
    }
  }

  lemma {:induction false} RotatedOptionsAt(outline: Polygon, angles: seq<int>, rotate: Rotator)
    ensures var r := RotatedOptions(outline, angles, rotate);
      forall i :: 0 <= i < |angles| ==>
        r[i] == RotationOption(rotate(outline, angles[i]), angles[i], PolygonArea(rotate(outline, angles[i])))
    decreases |angles|
  {
    if angles != [] {
      var init := angles[..|angles| - 1];
      RotatedOptionsAt(outline, init, rotate);
      assert forall i :: 0 <= i < |init| ==> angles[i] == init[i];
    }
  }

  /** The prepared list holds the same copies, and is ordered by
      non-increasing area, ties in request order. */
  lemma PreparedSortedPermutation(pieces: seq<PieceSpec>, margin: real, allowRotation: bool, angles: seq<int>,
                                  expand: Expander, rotate: Rotator)
    ensures var e := Expanded(pieces, margin, allowRotation, angles, expand, rotate);
      var r := Prepared(pieces, margin, allowRotation, angles, expand, rotate);
      && multiset(r) == multiset(e)
      && (forall i, j :: 0 <= i < j < |r| ==> r[i].area >= r[j].area)
      && (forall v :: WithKey(r, AreaKey, v) == WithKey(e, AreaKey, v))
  {
    var e := Expanded(pieces, margin, allowRotation, angles, expand, rotate);
    SortByPermutation(e, AreaKey, true);
    SortBySorted(e, AreaKey, true);
    forall v ensures WithKey(SortBy(e, AreaKey, true), AreaKey, v) == WithKey(e, AreaKey, v) {
      SortByStable(e, AreaKey, true, v);
    }
  }

  /** The rotation loop of `_prepare_pieces`. */
  method BuildRotations(outline: Polygon, allowRotation: bool, angles: seq<int>, rotate: Rotator)
    returns (options: seq<RotationOption>)
    ensures options == RotationOptions(outline, allowRotation, angles, rotate)
  {
    options := [];
    if allowRotation {
      var k := 0;
      while k < |angles|
        invariant 0 <= k <= |angles|
        invariant options == RotatedOptions(outline, angles[..k], rotate)
      {
        var rotated := rotate(outline, angles[k]);
        var area := CalculatePolygonArea(rotated);
        assert angles[..k + 1][..k] == angles[..k];
        options := options + [RotationOption(rotated, angles[k], area)];
        k := k + 1;
      }
      assert angles[..|angles|] == angles;
    } else {
      var area := CalculatePolygonArea(outline);
      options := [RotationOption(outline, 0, area)];
    }
  }

  /** The copy loop of `_prepare_pieces`. */
  method AppendCopies(processed: seq<Piece>, p: PieceSpec, outline: Polygon, options: seq<RotationOption>)
    returns (out: seq<Piece>)
    ensures out == processed + Copies(p, outline, options, CopyCount(p))
  {
    out := processed;
    var area := CalculatePolygonArea(outline);
    var i := 0;
    while i < CopyCount(p)
      invariant 0 <= i <= CopyCount(p)
      invariant out == processed + Copies(p, outline, options, i)
    {
      out := out + [Piece(SpecId(p) + "_" + NatToString(i + 1), SpecId(p), i + 1, outline, 0, p.points,
                          area, options, None)];
      i := i + 1;
    }
  }

  /** `_prepare_pieces`: normalise, offset, build the rotations, make the
      copies, then sort by area, largest first (Python's sort is stable). */
  method PreparePieces(pieces: seq<PieceSpec>, margin: real, allowRotation: bool, angles: seq<int>,
                       expand: Expander, rotate: Rotator)
    returns (processed: seq<Piece>)
    ensures processed == Prepared(pieces, margin, allowRotation, angles, expand, rotate)
  {
    processed := [];
    var k := 0;
    while k < |pieces|
      invariant 0 <= k <= |pieces|
      invariant processed == Expanded(pieces[..k], margin, allowRotation, angles, expand, rotate)
    {
      var p := pieces[k];
      var outline := Normalize(p.points);
      if margin > 0.0 {
        outline := expand(outline, margin);
      }
      var options := BuildRotations(outline, allowRotation, angles, rotate);
      processed := AppendCopies(processed, p, outline, options);
      assert pieces[..k + 1][..k] == pieces[..k];
      k := k + 1;
    }
    assert pieces[..|pieces|] == pieces;
    processed := SortBy(processed, AreaKey, true);
  }

  // ---------------------------------------------------------------------------
  // Fitting in the container
  // ---------------------------------------------------------------------------

  /** `_piece_fits_in_container`: the piece's coordinate ranges lie within
      the container's; `min` of an empty list raises, which the source turns
      into `False`. */
  predicate PieceFitsInContainer(piece: Polygon, container: Polygon)
  {
    if piece == [] || container == [] then false
    else
      var pb, cb := Bounds(piece), Bounds(container);
      pb.minX >= cb.minX && pb.maxX <= cb.maxX && pb.minY >= cb.minY && pb.maxY <= cb.maxY
  }

  /** A piece fits exactly when both lists are non-empty and every vertex of
      the piece lies in the container's bounding box. */
  lemma PieceFitsIff(piece: Polygon, container: Polygon)
    ensures PieceFitsInContainer(piece, container)
      <==> piece != [] && container != [] && forall i :: 0 <= i < |piece| ==> InBox(piece[i], Bounds(container))
  {
    if piece != [] && container != [] {
      if forall i :: 0 <= i < |piece| ==> InBox(piece[i], Bounds(container)) {
        VerticesInsideFit(piece, container);
      }
      if PieceFitsInContainer(piece, container) {
        FitVerticesInside(piece, container);
      }
    }
  }

  lemma VerticesInsideFit(piece: Polygon, container: Polygon)
    requires piece != [] && container != []
    requires forall i :: 0 <= i < |piece| ==> InBox(piece[i], Bounds(container))
    ensures PieceFitsInContainer(piece, container)
  {
    BoundsWithin(piece, Bounds(container));
  }

  lemma FitVerticesInside(piece: Polygon, container: Polygon)
    requires PieceFitsInContainer(piece, container)
    ensures forall i :: 0 <= i < |piece| ==> InBox(piece[i], Bounds(container))
  {
    BoundsContain(piece);
  }

  // ---------------------------------------------------------------------------
  // The greedy pass
  // ---------------------------------------------------------------------------

  /** A position search: the outlines already placed and the outline to
      place give a position, or none. */
  type Finder = (seq<Polygon>, Polygon) -> Option<Point>

  /** The search `_greedy_optimization` uses: `optimize_position` of the
      candidate-position algorithm. */
  function NfpFinder(container: Polygon, strategy: string): Finder
  {
    (placed: seq<Polygon>, piece: Polygon) => Nfp.BestPosition(container, placed, piece, strategy)
  }

  /** The outlines of the placed pieces. */
  function Outlines(placed: seq<Piece>): (r: seq<Polygon>)
    ensures |r| == |placed| && forall i :: 0 <= i < |placed| ==> r[i] == placed[i].points
  {
    seq(|placed|, i requires 0 <= i < |placed| => placed[i].points)
  }

  /** A feasible placement of one rotation: its score, position, option and
      translated outline. */
  datatype Choice = Choice(score: real, position: Point, option: RotationOption, points: Polygon)

  /** The score `_greedy_optimization` minimises: `y + 0.1 x` for
      `bottom_left`, `x + 0.1 y` otherwise. */
  function Score(pos: Point, strategy: string): real
  {
    if strategy == "bottom_left" then pos.y + pos.x * 0.1 else pos.x + pos.y * 0.1
  }

  /** One rotation option tried against the placed outlines: found and
      fitting in the container, or not. */
  function Evaluate(container: Polygon, placed: seq<Polygon>, option: RotationOption, strategy: string, find: Finder)
    : (r: Option<Choice>)
    ensures r.Some? ==> PieceFitsInContainer(r.value.points, container)
  {
    match find(placed, option.points)
    case None => None
    case Some(pos) =>
      var t := Translate(option.points, pos.x, pos.y);
      if PieceFitsInContainer(t, container) then Some(Choice(Score(pos, strategy), pos, option, t)) else None
  }

  /** The rotation loop: the feasible option of strictly smallest score,
      the earliest one on ties (`best_score` starts at infinity). */
  function Choose(container: Polygon, placed: seq<Polygon>, options: seq<RotationOption>, strategy: string, find: Finder)
    : (r: Option<Choice>)
    ensures r.Some? ==> PieceFitsInContainer(r.value.points, container)
    decreases |options|
  {
    if options == [] then None
    else
      var best := Choose(container, placed, options[..|options| - 1], strategy, find);
      var c := Evaluate(container, placed, options[|options| - 1], strategy, find);
      if c.Some? && (best.None? || c.value.score < best.value.score) then c else best
  }

  /** No rotation is chosen exactly when no option is feasible. */
  lemma {:induction false} ChooseNoneIff(container: Polygon, placed: seq<Polygon>, options: seq<RotationOption>,
                                         strategy: string, find: Finder)
    ensures Choose(container, placed, options, strategy, find).None?
      <==> forall i :: 0 <= i < |options| ==> Evaluate(container, placed, options[i], strategy, find).None?
    decreases |options|
  {
    if options != [] {
      var init := options[..|options| - 1];
      ChooseNoneIff(container, placed, init, strategy, find);
      assert forall i :: 0 <= i < |init| ==> init[i] == options[i];
    }
  }

  /** The chosen rotation is a feasible option whose score no feasible
      option beats, and every earlier option scores strictly worse. */
  lemma {:induction false} ChooseBest(container: Polygon, placed: seq<Polygon>, options: seq<RotationOption>,
                                      strategy: string, find: Finder)
    requires Choose(container, placed, options, strategy, find).Some?
    ensures var c := Choose(container, placed, options, strategy, find).value;
      exists k :: 0 <= k < |options| && Evaluate(container, placed, options[k], strategy, find) == Some(c)
        && forall j :: 0 <= j < k && Evaluate(container, placed, options[j], strategy, find).Some?
             ==> Evaluate(container, placed, options[j], strategy, find).value.score > c.score
    ensures var c := Choose(container, placed, options, strategy, find).value;
      forall j :: 0 <= j < |options| && Evaluate(container, placed, options[j], strategy, find).Some?
        ==> c.score <= Evaluate(container, placed, options[j], strategy, find).value.score
    decreases |options|
  {
    var init, last := options[..|options| - 1], options[|options| - 1];
    var best := Choose(container, placed, init, strategy, find);
    var e := Evaluate(container, placed, last, strategy, find);
    assert forall i :: 0 <= i < |init| ==> init[i] == options[i];
    if best.Some? {
      ChooseBest(container, placed, init, strategy, find);
    } else {
      ChooseNoneIff(container, placed, init, strategy, find);
    }
  }

  /** The piece placed with a choice: outline, position, angle and area of
      the chosen rotation, everything else as prepared. */
  function PlaceAt(p: Piece, c: Choice): Piece
  {
    p.(points := c.points, position := Some(c.position), rotation := c.option.angle, area := c.option.area)
  }

  /** What `_greedy_optimization` returns. */
  function Greedy(container: Polygon, pieces: seq<Piece>, strategy: string, find: Finder): (r: Outcome)
    ensures |r.placed| + |r.unplaced| == |pieces|
    decreases |pieces|
  {
    if pieces == [] then Outcome([], [])
    else
      var g := Greedy(container, pieces[..|pieces| - 1], strategy, find);
      var p := pieces[|pieces| - 1];
      match Choose(container, Outlines(g.placed), p.rotations, strategy, find)
      case None => Outcome(g.placed, g.unplaced + [p])
      case Some(c) => Outcome(g.placed + [PlaceAt(p, c)], g.unplaced)
  }

  /** `q` is piece `p` placed somewhere. */
  predicate PlacedFrom(q: Piece, p: Piece)
  {
    q.position.Some? && q.id == p.id && q.originalId == p.originalId && q.copyNumber == p.copyNumber
    && q.originalPoints == p.originalPoints && q.rotations == p.rotations
  }

  /** `pieces` is split, in order, into `placed` (each entry a placed
      version of its input piece) and `unplaced` (input pieces as they
      were). */
  predicate Splits(pieces: seq<Piece>, placed: seq<Piece>, unplaced: seq<Piece>)
    decreases |pieces|
  {
    if pieces == [] then placed == [] && unplaced == []
    else
      var p := pieces[|pieces| - 1];
      (placed != [] && PlacedFrom(placed[|placed| - 1], p) && Splits(pieces[..|pieces| - 1], placed[..|placed| - 1], unplaced))
      || (unplaced != [] && unplaced[|unplaced| - 1] == p && Splits(pieces[..|pieces| - 1], placed, unplaced[..|unplaced| - 1]))
  }

  /** The greedy pass sends every piece to exactly one of its two lists,
      keeping the input order in both. */
  lemma {:induction false} GreedySplits(container: Polygon, pieces: seq<Piece>, strategy: string, find: Finder)
    ensures var g := Greedy(container, pieces, strategy, find); Splits(pieces, g.placed, g.unplaced)
    decreases |pieces|
  {
    if pieces != [] {
      var init := pieces[..|pieces| - 1];
      GreedySplits(container, init, strategy, find);
      var g := Greedy(container, init, strategy, find);
      var r := Greedy(container, pieces, strategy, find);
      if r.placed == g.placed {
        assert r.unplaced[..|r.unplaced| - 1] == g.unplaced;
      } else {
        assert r.placed[..|r.placed| - 1] == g.placed;
      }
    }
  }

  /** Every placed piece lies within the container's coordinate ranges. */
  lemma {:induction false} GreedyPlacedFit(container: Polygon, pieces: seq<Piece>, strategy: string, find: Finder)
    ensures var g := Greedy(container, pieces, strategy, find);
      forall i :: 0 <= i < |g.placed| ==> PieceFitsInContainer(g.placed[i].points, container)
    decreases |pieces|
  {
    if pieces != [] {
      var init := pieces[..|pieces| - 1];
      GreedyPlacedFit(container, init, strategy, find);
      assert forall i :: 0 <= i < |Greedy(container, init, strategy, find).placed| ==>
                PieceFitsInContainer(Greedy(container, init, strategy, find).placed[i].points, container);
      var g := Greedy(container, init, strategy, find);
      var p := pieces[|pieces| - 1];
      var choice := Choose(container, Outlines(g.placed), p.rotations, strategy, find);
      var r := Greedy(container, pieces, strategy, find);
      if choice.Some? {
        assert r.placed == g.placed + [PlaceAt(p, choice.value)];
        forall i | 0 <= i < |r.placed| ensures PieceFitsInContainer(r.placed[i].points, container) {
          if i < |g.placed| {
            assert r.placed[i] == g.placed[i];
          } else {
            assert r.placed[i].points == choice.value.points;
          }
        }
      } else {
        assert r.placed == g.placed;
      }
    }
  }

  /** A search that never proposes a position where the moved piece would
      overlap (in the sense of `overlaps`) a placed outline. */
  ghost predicate AvoidsOverlap(find: Finder, overlaps: (Polygon, Polygon) -> bool)
  {
    forall placed: seq<Polygon>, piece: Polygon, k: int ::
      find(placed, piece).Some? && 0 <= k < |placed| ==>
        !overlaps(Translate(piece, find(placed, piece).value.x, find(placed, piece).value.y), placed[k])
  }

  /** The candidate-position search is such a search for its own overlap
      test. */
  lemma NfpFinderAvoidsOverlap(container: Polygon, strategy: string)
    ensures AvoidsOverlap(NfpFinder(container, strategy), Nfp.Overlaps)
  {
    var find := NfpFinder(container, strategy);
    forall placed: seq<Polygon>, piece: Polygon, k: int | find(placed, piece).Some? && 0 <= k < |placed|
      ensures !Nfp.Overlaps(Translate(piece, find(placed, piece).value.x, find(placed, piece).value.y), placed[k])
    {
      NfpPositionAvoidsOverlap(container, placed, piece, strategy);
    }
  }

  lemma NfpPositionAvoidsOverlap(container: Polygon, placed: seq<Polygon>, piece: Polygon, strategy: string)
    requires Nfp.BestPosition(container, placed, piece, strategy).Some?
    ensures var pos := Nfp.BestPosition(container, placed, piece, strategy).value;
      forall k :: 0 <= k < |placed| ==> !Nfp.Overlaps(Translate(piece, pos.x, pos.y), placed[k])
  {
    var pos := Nfp.BestPosition(container, placed, piece, strategy).value;
    var adjusted := Nfp.AdjustedCandidates(container, placed, piece);
    var keep := Nfp.ValidAt(piece, container, placed);
    Nfp.BestAmongValid(adjusted, keep, strategy);
    Nfp.OverlapsAnyIff(Translate(piece, pos.x, pos.y), placed);
  }

  /** With such a search, and so with the candidate-position search and its
      overlap test, a piece is placed only where it overlaps none of the
      pieces placed before it. */
  lemma {:induction false} GreedyNoOverlap(container: Polygon, pieces: seq<Piece>, strategy: string, find: Finder,
                                           overlaps: (Polygon, Polygon) -> bool)
    requires AvoidsOverlap(find, overlaps)
    ensures var g := Greedy(container, pieces, strategy, find);
      forall i, j :: 0 <= i < j < |g.placed| ==> !overlaps(g.placed[j].points, g.placed[i].points)
    decreases |pieces|
  {
    if pieces != [] {
      var init := pieces[..|pieces| - 1];
      GreedyNoOverlap(container, init, strategy, find, overlaps);
      assert forall i, j :: 0 <= i < j < |Greedy(container, init, strategy, find).placed| ==>
                !overlaps(Greedy(container, init, strategy, find).placed[j].points,
                          Greedy(container, init, strategy, find).placed[i].points);
      var g := Greedy(container, init, strategy, find);
      var p := pieces[|pieces| - 1];
      var outlines := Outlines(g.placed);
      var choice := Choose(container, outlines, p.rotations, strategy, find);
      var r := Greedy(container, pieces, strategy, find);
      if choice.Some? {
        var c := choice.value;
        ChooseBest(container, outlines, p.rotations, strategy, find);
        var k :| 0 <= k < |p.rotations| && Evaluate(container, outlines, p.rotations[k], strategy, find) == Some(c);
        var pos := find(outlines, p.rotations[k].points).value;
        assert c.points == Translate(p.rotations[k].points, pos.x, pos.y);
        assert r.placed == g.placed + [PlaceAt(p, c)];
        forall i, j | 0 <= i < j < |r.placed| ensures !overlaps(r.placed[j].points, r.placed[i].points) {
          if j == |g.placed| {
            assert r.placed[j].points == c.points && r.placed[i].points == outlines[i];
          } else {
            assert r.placed[j] == g.placed[j] && r.placed[i] == g.placed[i];
          }
        }
      } else {
        assert r.placed == g.placed;
      }
    }
  }

  /** The running best after one more option: the new option when it is
      feasible and strictly better, the old best otherwise. */
  function Better(best: Option<Choice>, c: Option<Choice>): Option<Choice>
  {
    if c.Some? && (best.None? || c.value.score < best.value.score) then c else best
  }

  lemma ChooseSnoc(container: Polygon, placed: seq<Polygon>, options: seq<RotationOption>, k: int, strategy: string,
                   find: Finder)
    requires 0 <= k < |options|
    ensures Choose(container, placed, options[..k + 1], strategy, find)
            == Better(Choose(container, placed, options[..k], strategy, find),
                      Evaluate(container, placed, options[k], strategy, find))
  {
    assert options[..k + 1][..k] == options[..k];
  }

  /** The body of the rotation loop for one option: the position `find`
      gives, the translated outline when it fits, and its score. */
  method EvaluateOption(container: Polygon, placed: seq<Polygon>, option: RotationOption, strategy: string,
                        find: Finder)
    returns (r: Option<Choice>)
    ensures r == Evaluate(container, placed, option, strategy, find)
  {
    var position := find(placed, option.points);
    if position.None? {
      return None;
    }
    var pos := position.value;
    var translated := Translate(option.points, pos.x, pos.y);
    if !PieceFitsInContainer(translated, container) {
      return None;
    }
    var score := if strategy == "bottom_left" then pos.y + pos.x * 0.1 else pos.x + pos.y * 0.1;
    return Some(Choice(score, pos, option, translated));
  }

  /** The rotation loop of `_greedy_optimization`. */
  method ChooseRotation(container: Polygon, placed: seq<Polygon>, options: seq<RotationOption>, strategy: string,
                        find: Finder)
    returns (best: Option<Choice>)
    ensures best == Choose(container, placed, options, strategy, find)
  {
    best := None;
    var k := 0;
    while k < |options|
      invariant 0 <= k <= |options|
      invariant best == Choose(container, placed, options[..k], strategy, find)
    {
      var candidate := EvaluateOption(container, placed, options[k], strategy, find);
      ChooseSnoc(container, placed, options, k, strategy, find);
      if candidate.Some? && (best.None? || candidate.value.score < best.value.score) {
        best := candidate;
      }
      k := k + 1;
    }
    assert options[..|options|] == options;
  }

  /** `_greedy_optimization`: each piece in turn, at its best rotation, or
      to the unplaced list. */
  method GreedyOptimization(container: Polygon, pieces: seq<Piece>, strategy: string, find: Finder)
    returns (r: Outcome)
    ensures r == Greedy(container, pieces, strategy, find)
  {
    var placed: seq<Piece> := [];
    var unplaced: seq<Piece> := [];
    var k := 0;
    while k < |pieces|
      invariant 0 <= k <= |pieces|
      invariant Outcome(placed, unplaced) == Greedy(container, pieces[..k], strategy, find)
    {
      var piece := pieces[k];
      var best := ChooseRotation(container, Outlines(placed), piece.rotations, strategy, find);
      assert pieces[..k + 1][..k] == pieces[..k];
      if best.Some? {
        placed := placed + [PlaceAt(piece, best.value)];
      } else {
        unplaced := unplaced + [piece];
      }
      k := k + 1;
    }
    assert pieces[..|pieces|] == pieces;
    return Outcome(placed, unplaced);
  }

  // ---------------------------------------------------------------------------
  // Material efficiency
  // ---------------------------------------------------------------------------

  /** The areas of the placed pieces. */
  function Areas(placed: seq<Piece>): (r: seq<real>)
    ensures |r| == |placed| && forall i :: 0 <= i < |placed| ==> r[i] == placed[i].area
  {
    seq(|placed|, i requires 0 <= i < |placed| => placed[i].area)
  }

  /** `_calculate_material_efficiency`: used area as a percentage of the
      frame, 0 when nothing is placed or the frame has no positive area. */
  function MaterialEfficiency(placed: seq<Piece>, frameWidth: real, frameHeight: real): real
  {
    if placed == [] then 0.0
    else
      var total := frameWidth * frameHeight;
      if total <= 0.0 then 0.0 else Sum(Areas(placed)) / total * 100.0
  }

  /** With non-negative areas the efficiency is non-negative, and it is at
      most 100 when the pieces' areas add up to no more than the frame's. */
  lemma EfficiencyRange(placed: seq<Piece>, frameWidth: real, frameHeight: real)
    requires forall i :: 0 <= i < |placed| ==> placed[i].area >= 0.0
    ensures MaterialEfficiency(placed, frameWidth, frameHeight) >= 0.0
    ensures Sum(Areas(placed)) <= frameWidth * frameHeight ==> MaterialEfficiency(placed, frameWidth, frameHeight) <= 100.0
  {
    SumNonNegative(Areas(placed));
    var total := frameWidth * frameHeight;
    if placed != [] && total > 0.0 {
      var u := Sum(Areas(placed));
      assert u / total >= 0.0;
      if u <= total {
        assert u / total <= 1.0;
      }
    }
  }

  /** The efficiency scales the used area by the frame: efficiency times
      frame area is 100 times the used area whenever both are non-zero. */
  lemma EfficiencyUsedArea(placed: seq<Piece>, frameWidth: real, frameHeight: real)
    requires placed != [] && frameWidth * frameHeight > 0.0
    ensures MaterialEfficiency(placed, frameWidth, frameHeight) * (frameWidth * frameHeight) == Sum(Areas(placed)) * 100.0
  {
  }

  // ---------------------------------------------------------------------------
  // Crossover
  // ---------------------------------------------------------------------------

  /** A gene of the genetic search: which prepared piece, at which of its
      rotations. */
  datatype Gene = Gene(pieceIndex: int, rotationIndex: int)

  /** The piece indices a list of genes mentions. */
  function Indices(s: seq<Gene>): set<int>
    decreases |s|
  {
    if s == [] then {} else Indices(s[..|s| - 1]) + {s[|s| - 1].pieceIndex}
  }

  lemma {:induction false} IndicesMembers(s: seq<Gene>)
    ensures forall x :: x in Indices(s) <==> exists i :: 0 <= i < |s| && s[i].pieceIndex == x
    decreases |s|
  {
    if s != [] {
      var init := s[..|s| - 1];
      IndicesMembers(init);
      assert forall i :: 0 <= i < |init| ==> init[i] == s[i];
    }
  }

  /** The first gene for each piece index, in order (the `seen_pieces` loop). */
  function FirstPerPiece(s: seq<Gene>): (r: seq<Gene>)
    decreases |s|
  {
    if s == [] then []
    else
      var rest := FirstPerPiece(s[..|s| - 1]);
      if s[|s| - 1].pieceIndex in Indices(rest) then rest else rest + [s[|s| - 1]]
  }

  /** The genes kept have pairwise distinct piece indices, come from the
      input in order, and mention every piece index the input mentions. */
  lemma FirstPerPieceProperties(s: seq<Gene>)
    ensures var r := FirstPerPiece(s);
      && (forall i, j :: 0 <= i < j < |r| ==> r[i].pieceIndex != r[j].pieceIndex)
      && IsSubseq(r, s)
      && Indices(r) == Indices(s)
  {
    FirstPerPieceDistinct(s);
    FirstPerPieceSubseq(s);
    FirstPerPieceIndices(s);
  }

  lemma {:induction false} FirstPerPieceDistinct(s: seq<Gene>)
    ensures var r := FirstPerPiece(s); forall i, j :: 0 <= i < j < |r| ==> r[i].pieceIndex != r[j].pieceIndex
    decreases |s|
  {
    if s != [] {
      var init, last := s[..|s| - 1], s[|s| - 1];
      var rest := FirstPerPiece(init);
      FirstPerPieceDistinct(init);
      assert forall i, j :: 0 <= i < j < |FirstPerPiece(init)| ==>
                FirstPerPiece(init)[i].pieceIndex != FirstPerPiece(init)[j].pieceIndex;
      if last.pieceIndex !in Indices(rest) {
        IndicesMembers(rest);
        var r := rest + [last];
        forall i, j | 0 <= i < j < |r| ensures r[i].pieceIndex != r[j].pieceIndex {
          if j == |rest| {
            assert r[i] == rest[i] && r[j] == last;
            assert rest[i].pieceIndex != last.pieceIndex;
          } else {
            assert r[i] == rest[i] && r[j] == rest[j];
          }
        }
      }
    }
  }

  lemma {:induction false} FirstPerPieceSubseq(s: seq<Gene>)
    ensures IsSubseq(FirstPerPiece(s), s)
    decreases |s|
  {
    if s != [] {
      var init, last := s[..|s| - 1], s[|s| - 1];
      var rest := FirstPerPiece(init);
      FirstPerPieceSubseq(init);
      if last.pieceIndex !in Indices(rest) {
        var r := rest + [last];
        assert r[..|r| - 1] == rest;
      }
    }
  }

  lemma {:induction false} FirstPerPieceIndices(s: seq<Gene>)
    ensures Indices(FirstPerPiece(s)) == Indices(s)
    decreases |s|
  {
    if s != [] {
      var init, last := s[..|s| - 1], s[|s| - 1];
      var rest := FirstPerPiece(init);
      FirstPerPieceIndices(init);
      if last.pieceIndex !in Indices(rest) {
        var r := rest + [last];
        assert r[..|r| - 1] == rest;
      }
    }
  }

  /** The `seen_pieces` loop of `_crossover_with_rotation`. */
  method UniqueGenes(child: seq<Gene>) returns (unique: seq<Gene>)
    ensures unique == FirstPerPiece(child)
  {
    var seen: set<int> := {};
    unique := [];
    var i := 0;
    while i < |child|
      invariant 0 <= i <= |child|
      invariant unique == FirstPerPiece(child[..i]) && seen == Indices(unique)
    {
      var gene := child[i];
      assert child[..i + 1][..i] == child[..i];
      if gene.pieceIndex !in seen {
        seen := seen + {gene.pieceIndex};
        unique := unique + [gene];
        assert unique[..|unique| - 1] == FirstPerPiece(child[..i]);
      }
      i := i + 1;
    }
    assert child[..|child|] == child;
  }

  /** The crossover point lies where `random.randint(1, size - 1)` puts it
      whenever one is drawn. */
  predicate CrossoverPointInRange(parent1: seq<Gene>, parent2: seq<Gene>, k: int)
  {
    var size := if |parent1| < |parent2| then |parent1| else |parent2|;
    size > 2 ==> 1 <= k < size
  }

  /** What `_crossover_with_rotation` returns for crossover point `k`. */
  function Crossover(parent1: seq<Gene>, parent2: seq<Gene>, k: int): seq<Gene>
    requires CrossoverPointInRange(parent1, parent2, k)
  {
    if parent1 == [] || parent2 == [] then (if parent1 != [] then parent1 else parent2)
    else if |parent1| <= 2 || |parent2| <= 2 then parent1
    else FirstPerPiece(parent1[..k] + parent2[k..])
  }

  /** When a point is drawn, the child repeats no piece, is an in-order
      selection from `parent1[:k] + parent2[k:]`, and keeps every piece
      index found there. */
  lemma CrossoverChild(parent1: seq<Gene>, parent2: seq<Gene>, k: int)
    requires |parent1| > 2 && |parent2| > 2 && CrossoverPointInRange(parent1, parent2, k)
    ensures var c := Crossover(parent1, parent2, k);
      && (forall i, j :: 0 <= i < j < |c| ==> c[i].pieceIndex != c[j].pieceIndex)
      && IsSubseq(c, parent1[..k] + parent2[k..])
      && Indices(c) == Indices(parent1[..k] + parent2[k..])
  {
    FirstPerPieceProperties(parent1[..k] + parent2[k..]);
  }

  /** `_crossover_with_rotation` with its crossover point given. */
  method CrossoverWithRotation(parent1: seq<Gene>, parent2: seq<Gene>, k: int) returns (child: seq<Gene>)
    requires CrossoverPointInRange(parent1, parent2, k)
    ensures child == Crossover(parent1, parent2, k)
  {
    if parent1 == [] || parent2 == [] {
      return if parent1 != [] then parent1 else parent2;
    }
    var size := if |parent1| < |parent2| then |parent1| else |parent2|;
    if size <= 2 {
      return parent1;
    }
    child := UniqueGenes(parent1[..k] + parent2[k..]);
  }

  /** The piece indices a list of genes mentions are the indices of its
      two parts. */
  lemma {:induction false} IndicesConcat(a: seq<Gene>, b: seq<Gene>)
    ensures Indices(a + b) == Indices(a) + Indices(b)
    decreases |b|
  {
    if b == [] {
      assert a + b == a;
    } else {
      var b' := b[..|b| - 1];
      IndicesConcat(a, b');
      var ab := a + b;
      assert ab[..|ab| - 1] == a + b';
      assert ab[|ab| - 1] == b[|b| - 1];
      assert Indices(ab) == Indices(a + b') + {b[|b| - 1].pieceIndex};
      assert Indices(b) == Indices(b') + {b[|b| - 1].pieceIndex};
    }
  }

  /** Genes with pairwise distinct piece indices mention as many indices as
      there are genes. */
  lemma {:induction false} DistinctIndicesCount(s: seq<Gene>)
    requires forall i, j :: 0 <= i < j < |s| ==> s[i].pieceIndex != s[j].pieceIndex
    ensures |Indices(s)| == |s|
    decreases |s|
  {
    if s != [] {
      var init := s[..|s| - 1];
      DistinctIndicesCount(init);
      IndicesMembers(init);
      assert s[|s| - 1].pieceIndex !in Indices(init);
    }
  }

  /** The indices of `n` prepared pieces. */
  function AllPieces(n: nat): (r: set<int>)
    ensures forall i :: i in r <==> 0 <= i < n
    ensures |r| == n
  {
    if n == 0 then {} else AllPieces(n - 1) + {n - 1}
  }

  /** An individual as `_create_random_individual` builds it for `n`
      pieces: every piece exactly once, at a rotation index from 0 up. */
  predicate IsOrdering(individual: seq<Gene>, n: nat)
  {
    && (forall i, j :: 0 <= i < j < |individual| ==> individual[i].pieceIndex != individual[j].pieceIndex)
    && Indices(individual) == AllPieces(n)
    && (forall i :: 0 <= i < |individual| ==> individual[i].rotationIndex >= 0)
  }

  // ---------------------------------------------------------------------------
  // Evaluating an individual
  // ---------------------------------------------------------------------------

  /** Python's `s[i]` on a list of length `n`: a negative index counts from
      the end, and `None` stands for the `IndexError` the lookup raises. */
  function PyIndex(i: int, n: nat): (r: Option<nat>)
    ensures r.Some? <==> -(n as int) <= i < n
    ensures r.Some? ==> r.value < n && (r.value == i || r.value == n + i)
  {
    if 0 <= i < n then Some(i) else if -(n as int) <= i < 0 then Some(n + i) else None
  }

  /** One gene of `_evaluate_individual_with_rotation`. A piece index past
      the end is skipped. The piece and rotation lookups stand before the
      `try`, so their `IndexError` escapes (`None`). Otherwise the piece is
      placed where `find` puts it and it fits, and is unplaced otherwise. */
  function EvaluateGene(container: Polygon, acc: Outcome, gene: Gene, pieces: seq<Piece>, find: Finder)
    : Option<Outcome>
  {
    if gene.pieceIndex >= |pieces| then Some(acc)
    else match PyIndex(gene.pieceIndex, |pieces|)
      case None => None
      case Some(pi) =>
        var piece := pieces[pi];
        var rotationIndex := if gene.rotationIndex >= |piece.rotations| then 0 else gene.rotationIndex;
        match PyIndex(rotationIndex, |piece.rotations|)
        case None => None
        case Some(ri) =>
          var option := piece.rotations[ri];
          match find(Outlines(acc.placed), option.points)
          case None => Some(Outcome(acc.placed, acc.unplaced + [piece]))
          case Some(pos) =>
            var t := Translate(option.points, pos.x, pos.y);
            if PieceFitsInContainer(t, container) then
              Some(Outcome(acc.placed + [piece.(points := t, position := Some(pos), rotation := option.angle,
                                                area := option.area)], acc.unplaced))
            else Some(Outcome(acc.placed, acc.unplaced + [piece]))
  }

  /** What `_evaluate_individual_with_rotation` returns, `None` when it
      raises. */
  function EvaluateIndividual(container: Polygon, individual: seq<Gene>, pieces: seq<Piece>, find: Finder)
    : Option<Outcome>
    decreases |individual|
  {
    if individual == [] then Some(Outcome([], []))
    else match EvaluateIndividual(container, individual[..|individual| - 1], pieces, find)
      case None => None
      case Some(acc) => EvaluateGene(container, acc, individual[|individual| - 1], pieces, find)
  }

  /** The number of genes whose piece index is below `n`. */
  function CountBelow(individual: seq<Gene>, n: nat): nat
    decreases |individual|
  {
    if individual == [] then 0
    else CountBelow(individual[..|individual| - 1], n) + (if individual[|individual| - 1].pieceIndex < n then 1 else 0)
  }

  /** The genes whose piece and rotation can be looked up. */
  predicate GenesInRange(individual: seq<Gene>, pieces: seq<Piece>)
  {
    forall i :: 0 <= i < |individual| ==>
      && 0 <= individual[i].pieceIndex < |pieces|
      && individual[i].rotationIndex >= 0
      && pieces[individual[i].pieceIndex].rotations != []
  }

  /** An evaluation reports one record, placed or unplaced, for each gene
      whose piece index is below the number of pieces, and no other; with
      every gene in range it does not raise and reports one record per
      gene. */
  lemma {:induction false} EvaluateCounts(container: Polygon, individual: seq<Gene>, pieces: seq<Piece>, find: Finder)
    ensures EvaluateIndividual(container, individual, pieces, find).Some? ==>
      |EvaluateIndividual(container, individual, pieces, find).value.placed|
        + |EvaluateIndividual(container, individual, pieces, find).value.unplaced|
        == CountBelow(individual, |pieces|)
    ensures GenesInRange(individual, pieces) ==>
      EvaluateIndividual(container, individual, pieces, find).Some? && CountBelow(individual, |pieces|) == |individual|
    decreases |individual|
  {
    if individual != [] {
      var init := individual[..|individual| - 1];
      EvaluateCounts(container, init, pieces, find);
      assert GenesInRange(individual, pieces) ==> GenesInRange(init, pieces);
    }
  }

  /** Once an evaluation raises, evaluating more genes raises too. */
  lemma {:induction false} EvaluateRaisesOn(container: Polygon, individual: seq<Gene>, k: nat, pieces: seq<Piece>,
                                           find: Finder)
    requires k <= |individual| && EvaluateIndividual(container, individual[..k], pieces, find).None?
    ensures EvaluateIndividual(container, individual, pieces, find).None?
    decreases |individual| - k
  {
    if k < |individual| {
      assert individual[..k + 1][..k] == individual[..k];
      EvaluateRaisesOn(container, individual, k + 1, pieces, find);
    } else {
      assert individual[..k] == individual;
    }
  }

  /** `_evaluate_individual_with_rotation`: the genes in order, each piece
      placed at the position `find` gives or sent to the unplaced list. */
  method EvaluateIndividualWithRotation(container: Polygon, individual: seq<Gene>, pieces: seq<Piece>, find: Finder)
    returns (r: Option<Outcome>)
    ensures r == EvaluateIndividual(container, individual, pieces, find)
  {
    var placed: seq<Piece> := [];
    var unplaced: seq<Piece> := [];
    var k := 0;
    while k < |individual|
      invariant 0 <= k <= |individual|
      invariant EvaluateIndividual(container, individual[..k], pieces, find) == Some(Outcome(placed, unplaced))
    {
      var gene := individual[k];
      assert individual[..k + 1][..k] == individual[..k];
      var pieceIdx, rotationIdx := gene.pieceIndex, gene.rotationIndex;
      if pieceIdx < |pieces| {
        if pieceIdx < -|pieces| {
          EvaluateRaisesOn(container, individual, k + 1, pieces, find);
          return None;
        }
        var piece := pieces[if pieceIdx < 0 then |pieces| + pieceIdx else pieceIdx];
        if rotationIdx >= |piece.rotations| {
          rotationIdx := 0;
        }
        if rotationIdx < -|piece.rotations| || |piece.rotations| == 0 {
          EvaluateRaisesOn(container, individual, k + 1, pieces, find);
          return None;
        }
        var option := piece.rotations[if rotationIdx < 0 then |piece.rotations| + rotationIdx else rotationIdx];
        var position := find(Outlines(placed), option.points);
        if position.Some? {
          var pos := position.value;
          var translated := Translate(option.points, pos.x, pos.y);
          if PieceFitsInContainer(translated, container) {
            placed := placed + [piece.(points := translated, position := Some(pos), rotation := option.angle,
                                       area := option.area)];
          } else {
            unplaced := unplaced + [piece];
          }
        } else {
          unplaced := unplaced + [piece];
        }
      }
      k := k + 1;
    }
    assert individual[..|individual|] == individual;
    return Some(Outcome(placed, unplaced));
  }

  // ---------------------------------------------------------------------------
  // The crossover loses pieces
  // ---------------------------------------------------------------------------

  const DropParent1: seq<Gene> := [Gene(0, 0), Gene(1, 0), Gene(2, 0)]
  const DropParent2: seq<Gene> := [Gene(1, 0), Gene(0, 0), Gene(2, 0)]

  /** The piece indices of three genes. */
  lemma IndicesOfThree(x: Gene, y: Gene, z: Gene)
    ensures Indices([x, y, z]) == {x.pieceIndex, y.pieceIndex, z.pieceIndex}
  {
    assert [x][..0] == [];
    assert Indices([x]) == {x.pieceIndex};
    assert [x, y][..1] == [x];
    assert Indices([x, y]) == {x.pieceIndex, y.pieceIndex};
    assert [x, y, z][..2] == [x, y];
  }

  /** The indices of three prepared pieces. */
  lemma AllPiecesThree()
    ensures AllPieces(3) == {0, 1, 2}
  {
    var all := AllPieces(3);
    assert forall i :: i in all <==> 0 <= i < 3;
  }

  /** Three genes at rotation 0 naming three distinct pieces, all the `n`
      pieces there are, form an ordering. */
  lemma OrderingOfThree(x: Gene, y: Gene, z: Gene, n: nat)
    requires x.pieceIndex != y.pieceIndex && x.pieceIndex != z.pieceIndex && y.pieceIndex != z.pieceIndex
    requires {x.pieceIndex, y.pieceIndex, z.pieceIndex} == AllPieces(n)
    requires x.rotationIndex == 0 && y.rotationIndex == 0 && z.rotationIndex == 0
    ensures IsOrdering([x, y, z], n)
  {
    IndicesOfThree(x, y, z);
  }

  /** Both parents order the three pieces. */
  lemma DropParentsOrder()
    ensures IsOrdering(DropParent1, 3) && IsOrdering(DropParent2, 3)
  {
    AllPiecesThree();
    OrderingOfThree(Gene(0, 0), Gene(1, 0), Gene(2, 0), 3);
    OrderingOfThree(Gene(1, 0), Gene(0, 0), Gene(2, 0), 3);
  }

  /** Two orderings of three pieces crossed after their first gene: the
      splice `[0] + [0, 2]` keeps piece 0 once and piece 2, and piece 1,
      in both parents, is lost. */
  lemma CrossoverDropsPiece()
    ensures IsOrdering(DropParent1, 3) && IsOrdering(DropParent2, 3)
    ensures CrossoverPointInRange(DropParent1, DropParent2, 1)
    ensures Crossover(DropParent1, DropParent2, 1) == [Gene(0, 0), Gene(2, 0)]
    ensures 1 !in Indices(Crossover(DropParent1, DropParent2, 1))
  {
    DropParentsOrder();
    var splice := DropParent1[..1] + DropParent2[1..];
    assert splice == [Gene(0, 0), Gene(0, 0), Gene(2, 0)];
    var head := [Gene(0, 0)];
    assert splice[..2] == head + head && (head + head)[..1] == head && head[..0] == [];
    assert FirstPerPiece(head) == head;
    assert FirstPerPiece(head + head) == head;
    assert splice[..2] + [Gene(2, 0)] == splice;
    assert FirstPerPiece(splice) == head + [Gene(2, 0)];
    assert (head + [Gene(2, 0)])[..1] == head;
  }

  /** Evaluating that child for three pieces reports two records: one
      requested piece is neither placed nor unplaced. */
  lemma DroppedPieceVanishes(container: Polygon, pieces: seq<Piece>, find: Finder)
    requires |pieces| == 3 && forall i :: 0 <= i < 3 ==> pieces[i].rotations != []
    ensures EvaluateIndividual(container, Crossover(DropParent1, DropParent2, 1), pieces, find).Some?
    ensures |EvaluateIndividual(container, Crossover(DropParent1, DropParent2, 1), pieces, find).value.placed|
            + |EvaluateIndividual(container, Crossover(DropParent1, DropParent2, 1), pieces, find).value.unplaced|
            == |pieces| - 1
  {
    CrossoverDropsPiece();
    var child := Crossover(DropParent1, DropParent2, 1);
    assert GenesInRange(child, pieces);
    EvaluateCounts(container, child, pieces, find);
  }

  /** The crossover the de-duplication evidently intends: the splice
      `parent1[:k] + parent2[k:]` followed by `parent2[:k]`, keeping the
      first gene of each piece, so that the pieces the splice misses are
      appended in `parent2` order and the child again orders every piece. */
  function CrossoverComplete(parent1: seq<Gene>, parent2: seq<Gene>, k: int): seq<Gene>
    requires CrossoverPointInRange(parent1, parent2, k)
  {
    if parent1 == [] || parent2 == [] then (if parent1 != [] then parent1 else parent2)
    else if |parent1| <= 2 || |parent2| <= 2 then parent1
    else FirstPerPiece(parent1[..k] + parent2[k..] + parent2[..k])
  }

  /** The genes spliced by the complete crossover mention the pieces of
      `parent1[:k]` and all those of `parent2`. */
  lemma {:induction false} SpliceIndices(parent1: seq<Gene>, parent2: seq<Gene>, k: nat)
    requires k <= |parent1| && k <= |parent2|
    ensures Indices(parent1[..k] + parent2[k..] + parent2[..k]) == Indices(parent1[..k]) + Indices(parent2)
    ensures Indices(parent1[..k]) <= Indices(parent1)
  {
    IndicesConcat(parent1[..k] + parent2[k..], parent2[..k]);
    IndicesConcat(parent1[..k], parent2[k..]);
    IndicesConcat(parent2[..k], parent2[k..]);
    assert parent2[..k] + parent2[k..] == parent2;
    IndicesConcat(parent1[..k], parent1[k..]);
    assert parent1[..k] + parent1[k..] == parent1;
  }

  /** Genes drawn from individuals with rotation indices from 0 up have
      rotation indices from 0 up. */
  lemma RotationsFromZero(c: seq<Gene>, s: seq<Gene>)
    requires IsSubseq(c, s) && forall g :: g in s ==> g.rotationIndex >= 0
    ensures forall i :: 0 <= i < |c| ==> c[i].rotationIndex >= 0
  {
    SubseqMembers(c, s);
    forall i | 0 <= i < |c| ensures c[i].rotationIndex >= 0 {
      assert c[i] in s;
    }
  }

  /** Every gene of the splice comes from one of the parents, so its
      rotation index is from 0 up when theirs are. */
  lemma SpliceFromZero(parent1: seq<Gene>, parent2: seq<Gene>, k: nat)
    requires k <= |parent1| && k <= |parent2|
    requires forall i :: 0 <= i < |parent1| ==> parent1[i].rotationIndex >= 0
    requires forall i :: 0 <= i < |parent2| ==> parent2[i].rotationIndex >= 0
    ensures forall g :: g in parent1[..k] + parent2[k..] + parent2[..k] ==> g.rotationIndex >= 0
  {
    assert forall g :: g in parent1[..k] ==> g in parent1;
    assert forall g :: g in parent2[k..] ==> g in parent2;
    assert forall g :: g in parent2[..k] ==> g in parent2;
  }

  /** De-duplicating genes that mention exactly the pieces `0 .. n - 1`, at
      rotation indices from 0 up, orders those pieces. */
  lemma DedupOrders(genes: seq<Gene>, n: nat)
    requires Indices(genes) == AllPieces(n)
    requires forall g :: g in genes ==> g.rotationIndex >= 0
    ensures IsOrdering(FirstPerPiece(genes), n)
  {
    FirstPerPieceProperties(genes);
    RotationsFromZero(FirstPerPiece(genes), genes);
  }

  /** The de-duplicated splice of two orderings of the same pieces orders
      those pieces. */
  lemma SpliceOrders(parent1: seq<Gene>, parent2: seq<Gene>, k: nat, n: nat)
    requires k <= |parent1| && k <= |parent2|
    requires IsOrdering(parent1, n) && IsOrdering(parent2, n)
    ensures IsOrdering(FirstPerPiece(parent1[..k] + parent2[k..] + parent2[..k]), n)
  {
    var splice := parent1[..k] + parent2[k..] + parent2[..k];
    SpliceIndices(parent1, parent2, k);
    assert Indices(splice) == Indices(parent2);
    SpliceFromZero(parent1, parent2, k);
    DedupOrders(parent1[..k] + parent2[k..] + parent2[..k], n);
  }

  /** Crossing two orderings of the same pieces gives an ordering of those
      pieces. */
  lemma CrossoverCompleteOrders(parent1: seq<Gene>, parent2: seq<Gene>, k: int, n: nat)
    requires CrossoverPointInRange(parent1, parent2, k)
    requires IsOrdering(parent1, n) && IsOrdering(parent2, n)
    ensures IsOrdering(CrossoverComplete(parent1, parent2, k), n)
  {
    if parent2 != [] && |parent1| > 2 && |parent2| > 2 {
      SpliceOrders(parent1, parent2, k, n);
    }
  }

  /** An ordering of all the pieces, each with a rotation, has one gene per
      piece and every gene in range. */
  lemma OrderingInRange(c: seq<Gene>, pieces: seq<Piece>)
    requires IsOrdering(c, |pieces|)
    requires forall i :: 0 <= i < |pieces| ==> pieces[i].rotations != []
    ensures GenesInRange(c, pieces) && |c| == |pieces|
  {
    IndicesMembers(c);
    forall i | 0 <= i < |c| ensures 0 <= c[i].pieceIndex < |pieces| {
      assert c[i].pieceIndex in Indices(c);
    }
    DistinctIndicesCount(c);
  }

  /** Evaluating a child of two orderings of all the pieces reports every
      piece, placed or unplaced, provided every piece has a rotation. */
  lemma CompleteChildAccountsForAll(container: Polygon, pieces: seq<Piece>, find: Finder,
                                    parent1: seq<Gene>, parent2: seq<Gene>, k: int)
    requires CrossoverPointInRange(parent1, parent2, k)
    requires IsOrdering(parent1, |pieces|) && IsOrdering(parent2, |pieces|)
    requires forall i :: 0 <= i < |pieces| ==> pieces[i].rotations != []
    ensures EvaluateIndividual(container, CrossoverComplete(parent1, parent2, k), pieces, find).Some?
    ensures |EvaluateIndividual(container, CrossoverComplete(parent1, parent2, k), pieces, find).value.placed|
            + |EvaluateIndividual(container, CrossoverComplete(parent1, parent2, k), pieces, find).value.unplaced|
            == |pieces|
  {
    var c := CrossoverComplete(parent1, parent2, k);
    CrossoverCompleteOrders(parent1, parent2, k, |pieces|);
    OrderingInRange(c, pieces);
    EvaluateCounts(container, c, pieces, find);
  }


  // ---------------------------------------------------------------------------
  // The entry point
  // ---------------------------------------------------------------------------

  /** What `optimize` returns, without the measured execution time. */
  datatype Optimization = Optimization(
    placed: seq<Piece>, unplaced: seq<Piece>, all: seq<Piece>, efficiency: real, container: Polygon)

  /** The outcome of the genetic search for a container and prepared pieces. */
  type Search = (Polygon, seq<Piece>) -> Outcome

  /** The angles used when none are given. */
  function AnglesOrDefault(angles: Option<seq<int>>): seq<int>
  {
    match angles
    case None => [0, 90, 180, 270]
    case Some(a) => a
  }

  /** What `optimize` computes: the frame as a rectangle at the origin, the
      prepared pieces, the genetic search for `genetic_algorithm` and the
      greedy pass for any other strategy, and the efficiency. */
  function Optimized(pieces: seq<PieceSpec>, frameWidth: real, frameHeight: real, allowRotation: bool,
                     angles: Option<seq<int>>, margin: real, strategy: string,
                     expand: Expander, rotate: Rotator, search: Search): Optimization
  {
    var container := CreateRectangle(frameWidth, frameHeight, 0.0, 0.0);
    var processed := Prepared(pieces, margin, allowRotation, AnglesOrDefault(angles), expand, rotate);
    var result := if strategy == "genetic_algorithm" then search(container, processed)
                  else Greedy(container, processed, strategy, NfpFinder(container, strategy));
    Optimization(result.placed, result.unplaced, processed,
                 MaterialEfficiency(result.placed, frameWidth, frameHeight), container)
  }

  /** `optimize`. */
  method Optimize(pieces: seq<PieceSpec>, frameWidth: real, frameHeight: real, allowRotation: bool,
                  angles: Option<seq<int>>, margin: real, strategy: string,
                  expand: Expander, rotate: Rotator, search: Search)
    returns (r: Optimization)
    ensures r == Optimized(pieces, frameWidth, frameHeight, allowRotation, angles, margin, strategy, expand, rotate, search)
  {
    var rotationAngles := if angles.None? then [0, 90, 180, 270] else angles.value;
    var container := CreateRectangle(frameWidth, frameHeight, 0.0, 0.0);
    var processed := PreparePieces(pieces, margin, allowRotation, rotationAngles, expand, rotate);
    var result: Outcome;
    if strategy == "genetic_algorithm" {
      result := search(container, processed);
    } else {
      result := GreedyOptimization(container, processed, strategy, NfpFinder(container, strategy));
    }
    var efficiency := MaterialEfficiency(result.placed, frameWidth, frameHeight);
    return Optimization(result.placed, result.unplaced, processed, efficiency, container);
  }

  /** With a greedy strategy every prepared piece ends up placed or
      unplaced, in order; placed pieces lie inside the frame and overlap no
      piece placed before them. */
  lemma GreedyOptimizationSound(pieces: seq<PieceSpec>, frameWidth: real, frameHeight: real, allowRotation: bool,
                                angles: Option<seq<int>>, margin: real, strategy: string,
                                expand: Expander, rotate: Rotator, search: Search)
    requires strategy != "genetic_algorithm"
    ensures var r := Optimized(pieces, frameWidth, frameHeight, allowRotation, angles, margin, strategy, expand, rotate, search);
      && Splits(r.all, r.placed, r.unplaced)
      && (forall i :: 0 <= i < |r.placed| ==> PieceFitsInContainer(r.placed[i].points, r.container))
      && (forall i, j :: 0 <= i < j < |r.placed| ==> !Nfp.Overlaps(r.placed[j].points, r.placed[i].points))
  {
    var container := CreateRectangle(frameWidth, frameHeight, 0.0, 0.0);
    var processed := Prepared(pieces, margin, allowRotation, AnglesOrDefault(angles), expand, rotate);
    var find := NfpFinder(container, strategy);
    GreedySplits(container, processed, strategy, find);
    GreedyPlacedFit(container, processed, strategy, find);
    NfpFinderAvoidsOverlap(container, strategy);
    GreedyNoOverlap(container, processed, strategy, find, Nfp.Overlaps);
  }
}
