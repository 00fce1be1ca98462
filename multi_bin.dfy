/** The multi-container driver of `multi_bin_nesting.py` (class
    `MultiBinNesting`): containers ("bins") of one size are filled one after
    another, each with the pieces the previous one could not take, until
    every piece is placed or a container takes none. */
module MultiBin {
  import opened Common
  import opened Geometry
  import opened Optimizer

  /** One filled container. */
  datatype Bin = Bin(
    binId: nat, width: real, height: real,
    placed: seq<Piece>, unplaced: seq<PieceSpec>,
    efficiency: real, totalPieces: nat)

  /** The parameters every round passes on to `optimize`. */
  datatype Settings = Settings(
    width: real, height: real, allowRotation: bool, angles: seq<int>, margin: real, strategy: string,
    expand: Expander, rotate: Rotator, search: Search)

  // ---------------------------------------------------------------------------
  // Regrouping the leftovers
  // ---------------------------------------------------------------------------

  /** The quantity a group has counted so far. */
  function Counted(q: Option<int>): int
  {
    match q
    case None => 0
    case Some(n) => n
  }

  /** The position of the group for `id`, or -1. */
  function GroupIndex(groups: seq<PieceSpec>, id: string): (k: int)
    ensures -1 <= k < |groups|
    ensures k >= 0 ==> groups[k].id == Some(id)
    ensures k < 0 ==> forall j :: 0 <= j < |groups| ==> groups[j].id != Some(id)
    decreases |groups|
  {
    if groups == [] then -1
    else
      var k := GroupIndex(groups[..|groups| - 1], id);
      if k >= 0 then k else if groups[|groups| - 1].id == Some(id) then |groups| - 1 else -1
  }

  /** What `_prepare_remaining_pieces` returns: one request per original id,
      in the order the ids first occur, holding that piece's original
      points and the number of its copies left. */
  function Regroup(unplaced: seq<Piece>): seq<PieceSpec>
    decreases |unplaced|
  {
    if unplaced == [] then []
    else
      var groups := Regroup(unplaced[..|unplaced| - 1]);
      var p := unplaced[|unplaced| - 1];
      var k := GroupIndex(groups, p.originalId);
      if k < 0 then groups + [PieceSpec(Some(p.originalId), p.originalPoints, Some(1))]
      else groups[k := groups[k].(quantity := Some(Counted(groups[k].quantity) + 1))]
  }

  /** The distinct original ids of `s`, in order of first occurrence. */
  function FirstIds(s: seq<Piece>): seq<string>
    decreases |s|
  {
    if s == [] then []
    else
      var ids := FirstIds(s[..|s| - 1]);
      if s[|s| - 1].originalId in ids then ids else ids + [s[|s| - 1].originalId]
  }

  /** How many pieces of `s` have original id `id`. */
  function Count(s: seq<Piece>, id: string): nat
    decreases |s|
  {
    if s == [] then 0 else Count(s[..|s| - 1], id) + (if s[|s| - 1].originalId == id then 1 else 0)
  }

  /** The ids of a list of groups (a missing id as the empty string). */
  function GroupIds(groups: seq<PieceSpec>): (r: seq<string>)
    ensures |r| == |groups|
    ensures forall k :: 0 <= k < |groups| ==> r[k] == SpecId(groups[k])
  {
    seq(|groups|, k requires 0 <= k < |groups| => SpecId(groups[k]))
  }

  /** The groups are the distinct original ids, in the order they first
      occur. */
  lemma {:induction false} RegroupIds(unplaced: seq<Piece>)
    ensures |Regroup(unplaced)| == |FirstIds(unplaced)|
    ensures forall k :: 0 <= k < |Regroup(unplaced)| ==> Regroup(unplaced)[k].id == Some(FirstIds(unplaced)[k])
    decreases |unplaced|
  {
    if unplaced != [] {
      var init, p := unplaced[..|unplaced| - 1], unplaced[|unplaced| - 1];
      RegroupIds(init);
      var g, ids := Regroup(init), FirstIds(init);
      assert forall k :: 0 <= k < |g| ==> g[k].id == Some(ids[k]);
      var k := GroupIndex(g, p.originalId);
      if k < 0 {
        assert p.originalId !in ids;
      } else {
        assert ids[k] == p.originalId;
      }
    }
  }

  /** Each group's quantity is the number of leftover pieces with its id. */
  lemma {:induction false} RegroupCounts(unplaced: seq<Piece>)
    ensures var g := Regroup(unplaced);
      forall k :: 0 <= k < |g| ==> g[k].quantity == Some(Count(unplaced, SpecId(g[k])))
    decreases |unplaced|
  {
    if unplaced != [] {
      var init, p := unplaced[..|unplaced| - 1], unplaced[|unplaced| - 1];
      RegroupCounts(init);
      RegroupIds(init);
      FirstIdsDistinct(init);
      var g, ids := Regroup(init), FirstIds(init);
      assert forall k :: 0 <= k < |g| ==> g[k].quantity == Some(Count(init, SpecId(g[k])));
      assert forall k :: 0 <= k < |g| ==> g[k].id == Some(ids[k]);
      var r := Regroup(unplaced);
      var k := GroupIndex(g, p.originalId);
      if k < 0 {
        assert p.originalId !in ids;
        CountAbsent(init, p.originalId);
        forall m | 0 <= m < |r| ensures r[m].quantity == Some(Count(unplaced, SpecId(r[m]))) {
          if m < |g| {
            assert r[m] == g[m] && SpecId(g[m]) != p.originalId;
          }
        }
      } else {
        forall m | 0 <= m < |r| ensures r[m].quantity == Some(Count(unplaced, SpecId(r[m]))) {
          if m != k {
            assert r[m] == g[m] && ids[m] != ids[k];
          }
        }
      }
    }
  }

  /** An id that occurs nowhere in `s` is the first occurrence of nothing. */
  lemma {:induction false} CountAbsent(s: seq<Piece>, id: string)
    requires id !in FirstIds(s)
    ensures Count(s, id) == 0
    ensures forall j :: 0 <= j < |s| ==> s[j].originalId != id
    decreases |s|
  {
    if s != [] {
      var init := s[..|s| - 1];
      assert id !in FirstIds(init);
      CountAbsent(init, id);
      assert forall j :: 0 <= j < |init| ==> s[j] == init[j];
    }
  }

  /** The first-occurrence ids are pairwise distinct. */
  lemma {:induction false} FirstIdsDistinct(s: seq<Piece>)
    ensures forall a, b :: 0 <= a < b < |FirstIds(s)| ==> FirstIds(s)[a] != FirstIds(s)[b]
    decreases |s|
  {
    if s != [] {
      FirstIdsDistinct(s[..|s| - 1]);
    }
  }

  /** The regrouped quantities add up to the number of leftover pieces: no
      copy is lost or gained between rounds. */
  lemma {:induction false} RegroupTotal(unplaced: seq<Piece>)
    ensures TotalCopies(Regroup(unplaced)) == |unplaced|
    decreases |unplaced|
  {
    if unplaced != [] {
      var init, p := unplaced[..|unplaced| - 1], unplaced[|unplaced| - 1];
      RegroupTotal(init);
      RegroupQuantities(init);
      var g := Regroup(init);
      var k := GroupIndex(g, p.originalId);
      if k < 0 {
        TotalCopiesAppend(g, PieceSpec(Some(p.originalId), p.originalPoints, Some(1)));
      } else {
        TotalCopiesBump(g, k);
      }
    }
  }

  /** Every group counts at least one piece. */
  lemma {:induction false} RegroupQuantities(unplaced: seq<Piece>)
    ensures forall k :: 0 <= k < |Regroup(unplaced)| ==> Regroup(unplaced)[k].quantity.Some? && Regroup(unplaced)[k].quantity.value >= 1
    decreases |unplaced|
  {
    if unplaced != [] {
      RegroupQuantities(unplaced[..|unplaced| - 1]);
    }
  }

  lemma {:induction false} TotalCopiesAppend(g: seq<PieceSpec>, p: PieceSpec)
    ensures TotalCopies(g + [p]) == TotalCopies(g) + CopyCount(p)
  {
    assert (g + [p])[..|g|] == g;
  }

  /** Counting one more copy in group `k` adds one to the total. */
  lemma {:induction false} TotalCopiesBump(g: seq<PieceSpec>, k: nat)
    requires k < |g| && g[k].quantity.Some? && g[k].quantity.value >= 1
    ensures TotalCopies(g[k := g[k].(quantity := Some(Counted(g[k].quantity) + 1))]) == TotalCopies(g) + 1
    decreases |g|
  {
    var h := g[k := g[k].(quantity := Some(Counted(g[k].quantity) + 1))];
    if k == |g| - 1 {
      assert h[..|h| - 1] == g[..|g| - 1];
    } else {
      TotalCopiesBump(g[..|g| - 1], k);
      assert h[..|h| - 1] == g[..|g| - 1][k := g[k].(quantity := Some(Counted(g[k].quantity) + 1))];
    }
  }

  /** The dictionary from each group's id to its position, keeping the
      first position of an id. */
  function Positions(groups: seq<PieceSpec>): map<string, nat>
    decreases |groups|
  {
    if groups == [] then map[]
    else
      var m := Positions(groups[..|groups| - 1]);
      var id := SpecId(groups[|groups| - 1]);
      if id in m then m else m[id := |groups| - 1]
  }

  /** `_prepare_remaining_pieces`: count the copies per original id in a
      dictionary that remembers the order ids were first seen. */
  method PrepareRemainingPieces(unplaced: seq<Piece>) returns (groups: seq<PieceSpec>)
    ensures groups == Regroup(unplaced)
  {
    groups := [];
    var position: map<string, nat> := map[];
    var i := 0;
    while i < |unplaced|
      invariant 0 <= i <= |unplaced|
      invariant groups == Regroup(unplaced[..i])
      invariant position == Positions(groups)
    {
      var piece := unplaced[i];
      var id := piece.originalId;
      PrefixExtend(unplaced, i);
      if id !in position {
        var group := PieceSpec(Some(id), piece.originalPoints, Some(1));
        OpenStep(position, groups, unplaced[..i], piece, unplaced[..i + 1]);
        position := position[id := |groups|];
        groups := groups + [group];
      } else {
        var k := position[id];
        BumpStep(position, groups, unplaced[..i], piece, unplaced[..i + 1]);
        var group := groups[k].(quantity := Some(Counted(groups[k].quantity) + 1));
        groups := groups[k := group];
      }
      i := i + 1;
    }
    assert unplaced[..|unplaced|] == unplaced;
  }

  lemma PrefixExtend<T>(s: seq<T>, i: nat)
    requires i < |s|
    ensures s[..i + 1] == s[..i] + [s[i]]
  {
  }

  /** A leftover piece of an id not seen yet opens a group of one. */
  lemma RegroupOpen(s: seq<Piece>, p: Piece)
    requires GroupIndex(Regroup(s), p.originalId) < 0
    ensures Regroup(s + [p]) == Regroup(s) + [PieceSpec(Some(p.originalId), p.originalPoints, Some(1))]
  {
    assert (s + [p])[..|s|] == s;
  }

  /** A leftover piece of an id already seen counts one more copy in its group. */
  lemma RegroupBump(s: seq<Piece>, p: Piece, k: int)
    requires k == GroupIndex(Regroup(s), p.originalId) && k >= 0
    ensures Regroup(s + [p]) == Regroup(s)[k := Regroup(s)[k].(quantity := Some(Counted(Regroup(s)[k].quantity) + 1))]
  {
    assert (s + [p])[..|s|] == s;
  }

  /** The dictionary step for an id not seen yet. */
  lemma OpenStep(position: map<string, nat>, groups: seq<PieceSpec>, s: seq<Piece>, p: Piece, next: seq<Piece>)
    requires groups == Regroup(s) && position == Positions(groups) && p.originalId !in position
    requires next == s + [p]
    ensures Regroup(next) == groups + [PieceSpec(Some(p.originalId), p.originalPoints, Some(1))]
    ensures Positions(groups + [PieceSpec(Some(p.originalId), p.originalPoints, Some(1))]) == position[p.originalId := |groups|]
  {
    var g := PieceSpec(Some(p.originalId), p.originalPoints, Some(1));
    RegroupIds(s);
    PositionsIndex(groups, p.originalId);
    RegroupOpen(s, p);
    PositionsOpen(groups, g);
  }

  /** A group with a new id is remembered at its own position. */
  lemma PositionsOpen(groups: seq<PieceSpec>, g: PieceSpec)
    requires SpecId(g) !in Positions(groups)
    ensures Positions(groups + [g]) == Positions(groups)[SpecId(g) := |groups|]
  {
    assert (groups + [g])[..|groups|] == groups;
  }

  /** The dictionary step for an id already seen. */
  lemma BumpStep(position: map<string, nat>, groups: seq<PieceSpec>, s: seq<Piece>, p: Piece, next: seq<Piece>)
    requires groups == Regroup(s) && position == Positions(groups) && p.originalId in position
    requires next == s + [p]
    ensures position[p.originalId] < |groups|
    ensures Regroup(next) == groups[position[p.originalId] := groups[position[p.originalId]].(quantity := Some(Counted(groups[position[p.originalId]].quantity) + 1))]
    ensures Positions(groups[position[p.originalId] := groups[position[p.originalId]].(quantity := Some(Counted(groups[position[p.originalId]].quantity) + 1))]) == position
  {
    RegroupIds(s);
    PositionsIndex(groups, p.originalId);
    var k := position[p.originalId];
    var q := groups[k].(quantity := Some(Counted(groups[k].quantity) + 1));
    PositionsUpdate(groups, k, q);
    RegroupBump(s, p, k);
  }

  /** The dictionary agrees with `GroupIndex` on every id that groups carry. */
  lemma {:induction false} PositionsIndex(groups: seq<PieceSpec>, id: string)
    requires forall j :: 0 <= j < |groups| ==> groups[j].id.Some?
    ensures id in Positions(groups) <==> GroupIndex(groups, id) >= 0
    ensures id in Positions(groups) ==> Positions(groups)[id] == GroupIndex(groups, id)
    decreases |groups|
  {
    if groups != [] {
      PositionsIndex(groups[..|groups| - 1], id);
    }
  }

  /** Changing the quantity of a group keeps the dictionary. */
  lemma {:induction false} PositionsUpdate(groups: seq<PieceSpec>, k: nat, q: PieceSpec)
    requires k < |groups| && q.id == groups[k].id
    ensures Positions(groups[k := q]) == Positions(groups)
    decreases |groups|
  {
    var h := groups[k := q];
    if k == |groups| - 1 {
      assert h[..|h| - 1] == groups[..|groups| - 1];
    } else {
      PositionsUpdate(groups[..|groups| - 1], k, q);
      assert h[..|h| - 1] == groups[..|groups| - 1][k := q];
    }
  }

  // ---------------------------------------------------------------------------
  // Filling containers one after another
  // ---------------------------------------------------------------------------

  /** The genetic search never reports more pieces than it was given (its
      individuals hold distinct piece indices). */
  ghost predicate SearchShrinks(search: Search)
  {
    forall c, ps :: |search(c, ps).placed| + |search(c, ps).unplaced| <= |ps|
  }

  /** What the driver needs of the settings: the genetic search, when it is
      used, never grows the piece list. */
  ghost predicate Terminates(s: Settings)
  {
    s.strategy == "genetic_algorithm" ==> SearchShrinks(s.search)
  }

  /** One call of `optimize` on the pieces still to place. */
  type Rounds = seq<PieceSpec> -> Optimization

  /** `optimize` with the settings of the run. */
  function RoundOf(s: Settings): Rounds
  {
    remaining => Optimized(remaining, s.width, s.height, s.allowRotation, Some(s.angles), s.margin, s.strategy,
                           s.expand, s.rotate, s.search)
  }

  /** A round never reports more pieces than the copies it was asked for. */
  ghost predicate Shrinks(round: Rounds)
  {
    forall remaining :: |round(remaining).placed| + |round(remaining).unplaced| <= TotalCopies(remaining)
  }

  /** A round reports every copy it was asked for, placed or not. */
  ghost predicate Keeps(round: Rounds)
  {
    forall remaining :: |round(remaining).placed| + |round(remaining).unplaced| == TotalCopies(remaining)
  }

  /** Each round prepares one piece per requested copy; the greedy pass
      reports each of them once and the genetic search no more. */
  lemma RoundOfShrinks(s: Settings)
    requires Terminates(s)
    ensures Shrinks(RoundOf(s))
    ensures s.strategy != "genetic_algorithm" ==> Keeps(RoundOf(s))
  {
    forall remaining
      ensures |RoundOf(s)(remaining).placed| + |RoundOf(s)(remaining).unplaced| <= TotalCopies(remaining)
      ensures s.strategy != "genetic_algorithm" ==>
                |RoundOf(s)(remaining).placed| + |RoundOf(s)(remaining).unplaced| == TotalCopies(remaining)
    {
      ExpandedLength(remaining, s.margin, s.allowRotation, s.angles, s.expand, s.rotate);
    }
  }

  /** The record kept for a container that took at least one piece. */
  function NewBin(binNumber: nat, width: real, height: real, r: Optimization): Bin
  {
    Bin(binNumber, width, height, r.placed, [], r.efficiency, |r.placed|)
  }

  /** The pieces nobody could place go to the last container, if any. */
  function AttachLeftovers(bins: seq<Bin>, remaining: seq<PieceSpec>): (r: seq<Bin>)
    ensures |r| == |bins|
  {
    if bins == [] then []
    else
      var last := bins[|bins| - 1];
      bins[..|bins| - 1] + [last.(unplaced := last.unplaced + remaining)]
  }

  /** The rounds of `optimize_multiple_bins` from `remaining` on, given the
      containers filled so far and the number of the next one. */
  function Run(remaining: seq<PieceSpec>, bins: seq<Bin>, binNumber: nat, width: real, height: real,
               round: Rounds): seq<Bin>
    requires Shrinks(round)
    decreases TotalCopies(remaining)
  {
    if remaining == [] then bins
    else
      var r := round(remaining);
      if r.placed == [] then AttachLeftovers(bins, remaining)
      else
        RegroupTotal(r.unplaced);
        Run(Regroup(r.unplaced), bins + [NewBin(binNumber, width, height, r)], binNumber + 1, width, height, round)
  }

  /** `optimize_multiple_bins`: fill containers of the given size until every
      piece is placed or a container takes none. */
  method OptimizeMultipleBins(pieces: seq<PieceSpec>, binWidth: real, binHeight: real, allowRotation: bool,
                              angles: Option<seq<int>>, margin: real, strategy: string,
                              expand: Expander, rotate: Rotator, search: Search)
    returns (bins: seq<Bin>)
    requires strategy == "genetic_algorithm" ==> SearchShrinks(search)
    ensures Shrinks(RoundOf(Settings(binWidth, binHeight, allowRotation, AnglesOrDefault(angles),
                                     margin, strategy, expand, rotate, search)))
            && bins == Run(pieces, [], 1, binWidth, binHeight,
                           RoundOf(Settings(binWidth, binHeight, allowRotation, AnglesOrDefault(angles),
                                            margin, strategy, expand, rotate, search)))
  {
    var rotationAngles := if angles.None? then [0, 90, 180, 270] else angles.value;
    ghost var s := Settings(binWidth, binHeight, allowRotation, rotationAngles, margin, strategy, expand, rotate, search);
    RoundOfShrinks(s);
    ghost var round := RoundOf(s);
    bins := [];
    var remaining := pieces;
    var binNumber := 1;
    while remaining != []
      invariant Run(remaining, bins, binNumber, binWidth, binHeight, round)
                == Run(pieces, [], 1, binWidth, binHeight, round)
      decreases TotalCopies(remaining)
    {
      var result := Optimize(remaining, binWidth, binHeight, allowRotation, Some(rotationAngles), margin, strategy,
                             expand, rotate, search);
      if result.placed == [] {
        bins := AttachLeftovers(bins, remaining);
        return;
      }
      assert result == round(remaining);
      RegroupTotal(result.unplaced);
      bins := bins + [Bin(binNumber, binWidth, binHeight, result.placed, [], result.efficiency, |result.placed|)];
      remaining := PrepareRemainingPieces(result.unplaced);
      binNumber := binNumber + 1;
    }
  }

  /** Containers are numbered 1, 2, 3, ... in the order they were filled. */
  ghost predicate Numbered(bins: seq<Bin>)
  {
    forall k :: 0 <= k < |bins| ==> bins[k].binId == k + 1
  }

  /** Every container has the requested size and took at least one piece,
      and `total_pieces` counts the pieces it took. */
  ghost predicate Filled(bins: seq<Bin>, width: real, height: real)
  {
    forall k :: 0 <= k < |bins| ==>
      bins[k].placed != [] && bins[k].totalPieces == |bins[k].placed|
      && bins[k].width == width && bins[k].height == height
  }

  /** Only the last container lists pieces that were left over. */
  ghost predicate LeftoversLast(bins: seq<Bin>)
  {
    forall k :: 0 <= k < |bins| - 1 ==> bins[k].unplaced == []
  }

  /** The rounds keep the containers numbered and filled, and only the last
      one receives the leftovers. */
  lemma {:induction false} RunShape(remaining: seq<PieceSpec>, bins: seq<Bin>, binNumber: nat,
                                    width: real, height: real, round: Rounds)
    requires Shrinks(round)
    requires Numbered(bins) && binNumber == |bins| + 1 && Filled(bins, width, height)
    requires forall k :: 0 <= k < |bins| ==> bins[k].unplaced == []
    ensures Numbered(Run(remaining, bins, binNumber, width, height, round))
    ensures Filled(Run(remaining, bins, binNumber, width, height, round), width, height)
    ensures LeftoversLast(Run(remaining, bins, binNumber, width, height, round))
    decreases TotalCopies(remaining)
  {
    if remaining != [] {
      var r := round(remaining);
      if r.placed != [] {
        RegroupTotal(r.unplaced);
        var next := bins + [NewBin(binNumber, width, height, r)];
        assert forall k :: 0 <= k < |bins| ==> next[k] == bins[k];
        RunShape(Regroup(r.unplaced), next, binNumber + 1, width, height, round);
      } else {
        var a := AttachLeftovers(bins, remaining);
        assert forall k :: 0 <= k < |bins| - 1 ==> a[k] == bins[k];
      }
    }
  }

  /** The containers of a whole run are numbered 1 to n, each took at least
      one piece, and only the last one lists leftovers. */
  lemma MultiBinShape(pieces: seq<PieceSpec>, s: Settings)
    requires Terminates(s)
    ensures Shrinks(RoundOf(s))
    ensures var r := Run(pieces, [], 1, s.width, s.height, RoundOf(s));
      Numbered(r) && Filled(r, s.width, s.height) && LeftoversLast(r)
  {
    RoundOfShrinks(s);
    RunShape(pieces, [], 1, s.width, s.height, RoundOf(s));
  }

  /** The number of pieces the containers took. */
  function PlacedTotal(bins: seq<Bin>): nat
  {
    if bins == [] then 0 else PlacedTotal(bins[..|bins| - 1]) + bins[|bins| - 1].totalPieces
  }

  /** The leftover requests listed by the containers, in order. */
  function Leftovers(bins: seq<Bin>): seq<PieceSpec>
  {
    if bins == [] then [] else Leftovers(bins[..|bins| - 1]) + bins[|bins| - 1].unplaced
  }

  lemma AppendBinCounts(bins: seq<Bin>, b: Bin)
    ensures PlacedTotal(bins + [b]) == PlacedTotal(bins) + b.totalPieces
    ensures Leftovers(bins + [b]) == Leftovers(bins) + b.unplaced
  {
    assert (bins + [b])[..|bins|] == bins;
  }

  lemma {:induction false} TotalCopiesConcat(a: seq<PieceSpec>, b: seq<PieceSpec>)
    ensures TotalCopies(a + b) == TotalCopies(a) + TotalCopies(b)
    decreases |b|
  {
    if b == [] {
      assert a + b == a;
    } else {
      TotalCopiesConcat(a, b[..|b| - 1]);
      assert (a + b)[..|a + b| - 1] == a + b[..|b| - 1];
      assert a + b != [] && (a + b)[|a + b| - 1] == b[|b| - 1];
    }
  }

  /** Attaching the leftovers adds them to the leftover count and leaves the
      placed count alone. */
  lemma AttachLeftoversCounts(bins: seq<Bin>, remaining: seq<PieceSpec>)
    requires bins != []
    ensures PlacedTotal(AttachLeftovers(bins, remaining)) == PlacedTotal(bins)
    ensures TotalCopies(Leftovers(AttachLeftovers(bins, remaining))) == TotalCopies(Leftovers(bins)) + TotalCopies(remaining)
  {
    var a := AttachLeftovers(bins, remaining);
    var init, last := bins[..|bins| - 1], bins[|bins| - 1];
    assert a[..|a| - 1] == init;
    assert Leftovers(a) == Leftovers(init) + (last.unplaced + remaining);
    TotalCopiesConcat(Leftovers(init), last.unplaced + remaining);
    TotalCopiesConcat(last.unplaced, remaining);
    TotalCopiesConcat(Leftovers(init), last.unplaced);
  }

  /** When every round reports each copy it was asked for, no copy is lost:
      every copy still to place ends up in a container or among the
      leftovers of the last one, unless the very first container took
      nothing (then the run has no container and reports nothing). */
  lemma {:induction false} RunConserves(remaining: seq<PieceSpec>, bins: seq<Bin>, binNumber: nat,
                                        width: real, height: real, round: Rounds)
    requires Shrinks(round) && Keeps(round)
    ensures Run(remaining, bins, binNumber, width, height, round) != [] ==>
              PlacedTotal(Run(remaining, bins, binNumber, width, height, round))
              + TotalCopies(Leftovers(Run(remaining, bins, binNumber, width, height, round)))
              == PlacedTotal(bins) + TotalCopies(Leftovers(bins)) + TotalCopies(remaining)
    decreases TotalCopies(remaining)
  {
    if remaining != [] {
      var r := round(remaining);
      if r.placed != [] {
        var next := bins + [NewBin(binNumber, width, height, r)];
        AppendBinCounts(bins, NewBin(binNumber, width, height, r));
        assert Leftovers(next) == Leftovers(bins);
        assert |r.placed| + |r.unplaced| == TotalCopies(remaining);
        RegroupTotal(r.unplaced);
        RunConserves(Regroup(r.unplaced), next, binNumber + 1, width, height, round);
      } else if bins != [] {
        AttachLeftoversCounts(bins, remaining);
      }
    }
  }

  // ---------------------------------------------------------------------------
  // The summary
  // ---------------------------------------------------------------------------

  /** What `get_summary` reports, without the execution time and before
      rounding. */
  datatype Summary = Summary(
    totalBins: nat, totalPiecesPlaced: nat, totalPiecesUnplaced: nat,
    averageEfficiency: real, binEfficiencies: Option<seq<real>>)

  function Efficiencies(bins: seq<Bin>): (r: seq<real>)
    ensures |r| == |bins| && forall k :: 0 <= k < |bins| ==> r[k] == bins[k].efficiency
  {
    seq(|bins|, k requires 0 <= k < |bins| => bins[k].efficiency)
  }

  /** `get_summary`: zeros for no container; otherwise the container count,
      the pieces placed, the leftover requests listed, the mean efficiency
      and the efficiency of each container. */
  function GetSummary(bins: seq<Bin>): Summary
  {
    if bins == [] then Summary(0, 0, 0, 0.0, None)
    else
      Summary(|bins|, PlacedTotal(bins), |Leftovers(bins)|,
              Sum(Efficiencies(bins)) / |bins| as real, Some(Efficiencies(bins)))
  }

  /** The summary's shape: all zeros and no efficiency list for no
      container; otherwise one count per container, a mean whose product
      with the count is the sum of the efficiencies, and placed and
      leftover totals that grow by each further container's own counts. */
  lemma SummaryTotals(bins: seq<Bin>, b: Bin)
    ensures GetSummary(bins).totalBins == |bins|
    ensures GetSummary(bins).binEfficiencies.None? <==> bins == []
    ensures bins == [] ==> GetSummary(bins) == Summary(0, 0, 0, 0.0, None)
    ensures bins != [] ==> GetSummary(bins).averageEfficiency * |bins| as real == Sum(Efficiencies(bins))
    ensures GetSummary(bins + [b]).totalPiecesPlaced == GetSummary(bins).totalPiecesPlaced + b.totalPieces
    ensures GetSummary(bins + [b]).totalPiecesUnplaced == GetSummary(bins).totalPiecesUnplaced + |b.unplaced|
  {
    AppendBinCounts(bins, b);
  }

  /** The mean efficiency lies between the smallest and the largest bound
      of the containers' efficiencies. */
  lemma SummaryAverageRange(bins: seq<Bin>, lo: real, hi: real)
    requires bins != []
    requires forall k :: 0 <= k < |bins| ==> lo <= bins[k].efficiency <= hi
    ensures lo <= GetSummary(bins).averageEfficiency <= hi
  {
    var e := Efficiencies(bins);
    SumBounded(e, lo, hi);
    var n := |bins| as real;
    assert n * lo <= Sum(e) <= n * hi;
    assert Sum(e) / n >= lo by {
      assert Sum(e) / n * n == Sum(e);
    }
    assert Sum(e) / n <= hi by {
      assert Sum(e) / n * n == Sum(e);
    }
  }

  /** With a greedy strategy the summary of a run accounts for every
      requested copy: the pieces placed plus the copies left over. */
  lemma MultiBinConserves(pieces: seq<PieceSpec>, s: Settings)
    requires s.strategy != "genetic_algorithm"
    ensures Shrinks(RoundOf(s))
    ensures var r := Run(pieces, [], 1, s.width, s.height, RoundOf(s));
      r != [] ==> GetSummary(r).totalPiecesPlaced + TotalCopies(Leftovers(r)) == TotalCopies(pieces)
  {
    RoundOfShrinks(s);
    RunConserves(pieces, [], 1, s.width, s.height, RoundOf(s));
  }
}
