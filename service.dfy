/** The request handler of `nesting_service.py` (class `NestingService`):
    check the strategy and the rotation angles, convert the pieces, run the
    multi-container driver and summarise its containers. */
module Service {
  import opened Common
  import opened Geometry
  import opened Optimizer
  import opened MultiBin

  /** One entry of the request's angle list: an integer, or a value of any
      other type (a float, a string), which the check rejects. */
  datatype AngleInput = IntAngle(value: int) | OtherAngle

  /** A requested piece. */
  datatype RequestPiece = RequestPiece(id: string, points: Polygon, quantity: int)

  /** The fields of the request the handler reads. */
  datatype Request = Request(
    pieces: seq<RequestPiece>, binWidth: real, binHeight: real, allowRotation: bool,
    rotationAngles: Option<seq<AngleInput>>, margin: real, strategy: string)

  /** Why a request is refused. */
  datatype Invalid = InvalidStrategy | InvalidAngles

  /** A successful answer (its message text is left out). */
  datatype Response = Response(success: bool, bins: seq<Bin>, summary: Summary)

  const Strategies: seq<string> := ["bottom_left", "best_fit", "genetic_algorithm"]

  /** `_validate_strategy`: only the three known strategies pass. */
  predicate ValidStrategy(strategy: string)
  {
    strategy in Strategies
  }

  /** One angle passes `_validate_rotation_angles` when it is an integer in
      [0, 359]. */
  predicate ValidAngle(a: AngleInput)
  {
    a.IntAngle? && 0 <= a.value < 360
  }

  /** `_validate_rotation_angles`: the loop that raises at the first bad angle. */
  function AnglesValid(angles: seq<AngleInput>): bool
    decreases |angles|
  {
    if angles == [] then true else AnglesValid(angles[..|angles| - 1]) && ValidAngle(angles[|angles| - 1])
  }

  /** The angle list passes exactly when every angle is an integer in
      [0, 359]. */
  lemma {:induction false} AnglesValidIff(angles: seq<AngleInput>)
    ensures AnglesValid(angles) <==> forall i :: 0 <= i < |angles| ==> ValidAngle(angles[i])
    decreases |angles|
  {
    if angles != [] {
      var init := angles[..|angles| - 1];
      AnglesValidIff(init);
      assert forall i :: 0 <= i < |init| ==> init[i] == angles[i];
    }
  }

  /** The integer values of a list of checked angles. */
  function AngleValues(angles: seq<AngleInput>): (r: seq<int>)
    requires forall i :: 0 <= i < |angles| ==> ValidAngle(angles[i])
    ensures |r| == |angles|
    ensures forall i :: 0 <= i < |r| ==> angles[i] == IntAngle(r[i]) && 0 <= r[i] < 360
  {
    seq(|angles|, i requires 0 <= i < |angles| && ValidAngle(angles[i]) => angles[i].value)
  }

  /** The angle check runs only for a present, non-empty list. */
  predicate AnglesAccepted(angles: Option<seq<AngleInput>>)
  {
    angles.None? || angles.value == [] || AnglesValid(angles.value)
  }

  /** The angles handed to the driver: none stays none, a checked list its
      integer values. */
  function PassedAngles(angles: Option<seq<AngleInput>>): Option<seq<int>>
    requires AnglesAccepted(angles)
  {
    match angles
    case None => None
    case Some(a) => AnglesValidIff(a); Some(AngleValues(a))
  }

  /** `_convert_pieces`: one request per piece, in order. */
  function ConvertPieces(pieces: seq<RequestPiece>): (r: seq<PieceSpec>)
    ensures |r| == |pieces|
    ensures forall i :: 0 <= i < |r| ==>
      r[i] == PieceSpec(Some(pieces[i].id), pieces[i].points, Some(pieces[i].quantity))
  {
    seq(|pieces|, i requires 0 <= i < |pieces| =>
      PieceSpec(Some(pieces[i].id), pieces[i].points, Some(pieces[i].quantity)))
  }

  /** The converted pieces ask for the copies the request asks for. */
  lemma {:induction false} ConvertPiecesCopies(pieces: seq<RequestPiece>)
    ensures TotalCopies(ConvertPieces(pieces)) == RequestedCopies(pieces)
    decreases |pieces|
  {
    if pieces != [] {
      var init := pieces[..|pieces| - 1];
      ConvertPiecesCopies(init);
      assert ConvertPieces(pieces)[..|pieces| - 1] == ConvertPieces(init);
    }
  }

  /** The copies a request asks for: non-positive quantities ask for none. */
  function RequestedCopies(pieces: seq<RequestPiece>): nat
    decreases |pieces|
  {
    if pieces == [] then 0
    else
      var q := pieces[|pieces| - 1].quantity;
      RequestedCopies(pieces[..|pieces| - 1]) + (if q > 0 then q else 0)
  }

  /** The driver's settings for an accepted request. */
  function SettingsOf(request: Request, expand: Expander, rotate: Rotator, search: Search): Settings
    requires AnglesAccepted(request.rotationAngles)
  {
    Settings(request.binWidth, request.binHeight, request.allowRotation,
             AnglesOrDefault(PassedAngles(request.rotationAngles)), request.margin, request.strategy,
             expand, rotate, search)
  }

  /** `process_nesting_request`: refuse a bad strategy, then a bad angle
      list; otherwise fill the containers and summarise them. */
  function Process(request: Request, expand: Expander, rotate: Rotator, search: Search): Result<Response, Invalid>
    requires request.strategy == "genetic_algorithm" ==> SearchShrinks(search)
  {
    if !ValidStrategy(request.strategy) then Err(InvalidStrategy)
    else if !AnglesAccepted(request.rotationAngles) then Err(InvalidAngles)
    else
      var s := SettingsOf(request, expand, rotate, search);
      RoundOfShrinks(s);
      var bins := Run(ConvertPieces(request.pieces), [], 1, s.width, s.height, RoundOf(s));
      Ok(Response(true, bins, GetSummary(bins)))
  }

  /** A request is refused exactly when its strategy is unknown or its angle
      list is present, non-empty and holds an angle that is not an integer
      in [0, 359]; the strategy is checked first. */
  lemma ProcessRefusedIff(request: Request, expand: Expander, rotate: Rotator, search: Search)
    requires request.strategy == "genetic_algorithm" ==> SearchShrinks(search)
    ensures Process(request, expand, rotate, search).Err? <==>
      (!ValidStrategy(request.strategy)
       || (request.rotationAngles.Some? && request.rotationAngles.value != []
           && exists i :: 0 <= i < |request.rotationAngles.value| && !ValidAngle(request.rotationAngles.value[i])))
    ensures !ValidStrategy(request.strategy) ==> Process(request, expand, rotate, search) == Err(InvalidStrategy)
  {
    if request.rotationAngles.Some? {
      AnglesValidIff(request.rotationAngles.value);
    }
  }

  /** An accepted request reaches the driver with a known strategy and
      angles that are integers in [0, 359] (the default ones when none are
      given), and the answer summarises the driver's containers. */
  lemma ProcessAccepted(request: Request, expand: Expander, rotate: Rotator, search: Search)
    requires request.strategy == "genetic_algorithm" ==> SearchShrinks(search)
    requires Process(request, expand, rotate, search).Ok?
    ensures ValidStrategy(request.strategy) && AnglesAccepted(request.rotationAngles)
    ensures forall i :: 0 <= i < |SettingsOf(request, expand, rotate, search).angles| ==>
      0 <= SettingsOf(request, expand, rotate, search).angles[i] < 360
    ensures var r := Process(request, expand, rotate, search).value;
      r.success && r.summary == GetSummary(r.bins) && r.summary.totalBins == |r.bins|
  {
    PassedAnglesInRange(request.rotationAngles);
    var bins := Process(request, expand, rotate, search).value.bins;
    assert Process(request, expand, rotate, search).value == Response(true, bins, GetSummary(bins));
  }

  /** The angles handed to the driver are integers in [0, 359]: the
      default four when none were sent, and an empty list stays empty. */
  lemma PassedAnglesInRange(angles: Option<seq<AngleInput>>)
    requires AnglesAccepted(angles)
    ensures forall i :: 0 <= i < |AnglesOrDefault(PassedAngles(angles))| ==> 0 <= AnglesOrDefault(PassedAngles(angles))[i] < 360
    ensures angles == None ==> AnglesOrDefault(PassedAngles(angles)) == [0, 90, 180, 270]
    ensures angles == Some([]) ==> AnglesOrDefault(PassedAngles(angles)) == []
  {
  }
}
