# Irregular-piece nesting: a verified model of the placement core

This project models the deterministic core of an application that nests
irregular polygonal pieces into rectangular sheets ("bins"). A Python
backend places the pieces; a React frontend lets the user draw shapes,
edit the list of pieces and pick shapes from a preset library. The model
is written in Dafny and proves properties of each part.

Coordinates are real numbers, not IEEE floats. Polygons are sequences of
points. Geometry that the backend delegates to shapely or to trigonometry
is a function parameter of the model:

- margin expansion and rotation of a piece;
- the genetic search, whose outcome is a parameter `search`.

Modules, one per file:

- `Common`: `Option`/`Result`, order-preserving subsequences, sums, minima
  and maxima of real sequences.
- `Units`: the millimetre / centimetre / metre / inch factors (1, 10, 1000,
  25.4) and `convertDimension`.
- `Text`: JavaScript whitespace, `trim`, ASCII lower-casing, the
  `replace(/\s+/g, "_")` rewrite and the decimal rendering of a copy number.
- `Sorting`: a stable insertion sort on a real key, the model of Python's
  `list.sort(key=..., reverse=...)`.
- `Geometry`: `backend/geometry_utils.py`. Its twin
  `backend/prueba/geometry_utils.py` is the same file and is modelled once.
  The shoelace area and the orientation sum are loops proved against
  specification functions.
- `PolygonUtils`: `backend/utils.py`. `polygon_area`, `get_bounding_box` and
  `normalize_polygon_to_origin` compute the same as the `Geometry`
  functions `PolygonArea`, `Bounds` and `Normalize`, which stand for them.
- `Separation`: the separating-axis test. It comes in two variants: the
  nfp one collects the axes first, the `utils.py` one skips zero normals
  inside the loop. Both are proved against one specification.
- `Nfp`: candidate generation, de-duplication, validity and selection of
  `backend/nfp_algorithm.py`.
- `Optimizer`: piece preparation, the greedy pass, the crossover's
  de-duplication, material efficiency and strategy dispatch of
  `backend/prueba/nesting_optimizer.py`.
- `MultiBin`: the bin-filling loop, regrouping of leftovers and the
  summary of `backend/multi_bin_nesting.py`.
- `Service`: request validation and conversion of `backend/nesting_service.py`.
- `ShapeDesigner`: the drawing editor, as a class `Designer`.
- `PiecesList`: the piece-list operations on sequences and the edit form,
  as a class `Editor`.
- `PresetShapes`: unit scaling, filtering and the selection record, as a
  class `Picker`.

## Model

| member | source | states |
|---|---|---|
| Units.Factor | frontend/src/components/pieces-list.tsx:8-13 | every unit factor is positive and the millimetre is the base unit (factor 1) |
| Units.Convert | frontend/src/components/pieces-list.tsx:36-39 | the converted value times the target factor equals the input times the source factor |
| Units.ConvertSameUnit | frontend/src/components/pieces-list.tsx:36-39 | converting to the same unit returns the value |
| Units.ConvertRoundTrip | frontend/src/components/preset-shapes-modal.tsx:385-388 | converting a to b and back to a returns the value |
| Units.ConvertCompose | frontend/src/components/pieces-list.tsx:36-39 | a to b then b to c equals a to c |
| Units.ConvertNonNegative | frontend/src/components/pieces-list.tsx:92-93 | a non-negative length stays non-negative in any unit |
| Text.TrimIsSlice | frontend/src/components/shape-designer-modal.tsx:88 | `trim` is a slice of the input; what it drops is whitespace, and a non-empty result starts and ends with non-whitespace |
| Text.TrimEmptyIffBlank | frontend/src/components/shape-designer-modal.tsx:147 | the trimmed name is empty exactly when the name is all whitespace |
| Text.TrimIdempotent | frontend/src/components/pieces-list.tsx:53-55 | trimming a trimmed string changes nothing |
| Text.ToLower | frontend/src/components/preset-shapes-modal.tsx:399-400 | same length, each character lower-cased |
| Text.ReplaceRemovesWhitespace | frontend/src/components/preset-shapes-modal.tsx:459 | with a non-whitespace separator the rewrite leaves no whitespace and is no longer than the input |
| Text.ReplaceDrawsFrom | frontend/src/components/preset-shapes-modal.tsx:459 | every character of the rewrite is the separator or a character of the input |
| Text.ReplaceKeepsPlainText | frontend/src/components/preset-shapes-modal.tsx:459 | text without whitespace is left unchanged |
| Text.NatToString | backend/prueba/nesting_optimizer.py:88 | a copy number renders as a non-empty string of decimal digits |
| Sorting.SortBySorted | backend/prueba/nesting_optimizer.py:99 | the sorted list is ordered by the key, non-increasing when `reverse` is set |
| Sorting.SortByPermutation | backend/prueba/nesting_optimizer.py:99 | sorting is a permutation of its input |
| Sorting.SortByStable | backend/prueba/nesting_optimizer.py:99 | elements with equal keys keep their relative order |
| Geometry.Bounds | backend/geometry_utils.py:38-46 | no points give the all-zero box; otherwise min <= max on both axes |
| Geometry.BoundsContain | backend/geometry_utils.py:38-46 | every point lies in the box |
| Geometry.BoundsAttained | backend/geometry_utils.py:38-46 | each of the four bounds is a coordinate of some point, so they are the minima and maxima |
| Geometry.BoundsWithin | backend/geometry_utils.py:38-46 | any box holding all the points holds the bounding box |
| Geometry.BoundsUnique | backend/geometry_utils.py:38-46 | a box that holds all the points and is touched on every side is the bounding box |
| Geometry.TranslateRoundTrip | backend/geometry_utils.py:65-68 | translating by (dx, dy) then (-dx, -dy) restores the polygon |
| Geometry.TranslateCompose | backend/geometry_utils.py:65-68 | two translations make one by the summed vector |
| Geometry.TranslateBounds | backend/geometry_utils.py:65-68 | translating moves the bounding box by the same vector |
| Geometry.Normalize | backend/geometry_utils.py:70-76 | normalising keeps the number of points, so an empty list stays empty |
| Geometry.NormalizeBounds | backend/geometry_utils.py:70-76 | the normalised box starts at (0, 0) and keeps the width and height |
| Geometry.NormalizeIdempotent | backend/geometry_utils.py:70-76 | normalising twice is normalising once |
| Geometry.NormalizeTranslate | backend/geometry_utils.py:70-76 | a translated polygon normalises to the same points |
| Geometry.FitsInRectangleTranslate | backend/geometry_utils.py:94-101 | fitting a rectangle does not change under translation |
| Geometry.LowestLeftmost | backend/geometry_utils.py:194-199 | (0, 0) for no points; otherwise a member point minimal in (y, x) |
| Geometry.CreateRectangle | backend/geometry_utils.py:201-209 | four corners, the first at (x, y) |
| Geometry.RectangleBounds | backend/geometry_utils.py:201-209 | a rectangle of non-negative size has the box (x, y, x + w, y + h) |
| Geometry.CalculatePolygonArea | backend/geometry_utils.py:14-27 | the accumulator loop computes the shoelace area, 0 below three points |
| Geometry.GetPolygonOrientation | backend/geometry_utils.py:164-182 | the accumulator loop classifies by the sign of the edge sum, "undefined" below three points |
| Geometry.AreaNonNegative | backend/geometry_utils.py:14-27 | the area is never negative and is 0 below three points |
| Geometry.OrientationSumIsNegatedShoelace | backend/geometry_utils.py:164-182 | the orientation sum is the negated shoelace sum, and the area is half its absolute value |
| Geometry.RectangleAreaAndOrientation | backend/geometry_utils.py:201-209 | a w x h rectangle has area w * h and, when non-degenerate, runs counterclockwise |
| Geometry.ReverseNegatesEdgeSum | backend/geometry_utils.py:184-188 | reversing the points negates the orientation sum |
| Geometry.ReverseOrientationAndArea | backend/geometry_utils.py:184-188 | reversal turns clockwise into counterclockwise and back, and keeps the area |
| Geometry.EnsureCounterclockwise | backend/geometry_utils.py:184-188 | the result is never clockwise, non-clockwise input is returned unchanged, and length and area are kept |
| PolygonUtils.Centroid | backend/utils.py:26-34 | the centroid of no points is (0, 0) |
| PolygonUtils.CentroidInBounds | backend/utils.py:26-34 | the vertex average lies in the bounding box |
| PolygonUtils.CentroidTranslate | backend/utils.py:26-34 | translating the polygon translates its centroid |
| PolygonUtils.PointInPolygon | backend/utils.py:37-55 | the ray-casting loop answers the parity of the crossed edges; an empty polygon raises |
| PolygonUtils.EdgeCrossed | backend/utils.py:46-52 | the nested tests decide whether the ray crosses one edge |
| PolygonUtils.PointOutside | backend/utils.py:37-55 | a point right of every vertex, or not above any, is outside |
| PolygonUtils.CalculateUtilization | backend/utils.py:158-162 | 0 when the bin area is not positive; otherwise utilisation times bin area is 100 times the used area |
| PolygonUtils.UtilizationBounds | backend/utils.py:158-162 | non-negative areas that fit the bin give a utilisation between 0 and 100 |
| PolygonUtils.PlacementHeight | backend/utils.py:165-169 | 0 for no pieces; otherwise the largest top edge of the pieces |
| PolygonUtils.SortPiecesByWidth | backend/utils.py:148-150 | ordered by box width, a permutation, stable |
| PolygonUtils.SortPiecesByHeight | backend/utils.py:153-155 | ordered by box height, a permutation, stable |
| PolygonUtils.ValidatePolygon | backend/utils.py:197-210 | a polygon is accepted exactly when it has at least three points, three of them pairwise distinct, and passes the shapely check |
| PolygonUtils.RepeatedPointRejected | backend/utils.py:203-204 | a polygon of one repeated point is rejected |
| PolygonUtils.ValidBinRectangle | backend/utils.py:213-215 | valid bin dimensions give a counterclockwise rectangle of positive area below 10^12 |
| PolygonUtils.PiecesFitInBin | backend/utils.py:218-230 | true exactly when some piece fits upright or turned 90 degrees, so false for no pieces |
| Separation.NonZero | backend/nfp_algorithm.py:192-197 | the axes are exactly the non-zero normals |
| Separation.CollectAxes | backend/nfp_algorithm.py:192-197 | the axis-collecting loop keeps the non-zero normals in order |
| Separation.AnyAxisSeparates | backend/nfp_algorithm.py:199-206 | the early-return loop finds a separating axis exactly when one exists |
| Separation.NfpPolygonsIntersect | backend/nfp_algorithm.py:164-209 | the nfp test computes the separating-axis verdict, raising on an empty polygon with a non-zero axis |
| Separation.UtilsPolygonsIntersect | backend/utils.py:58-92 | the `utils.py` test, which skips zero normals inside its loop, computes the same verdict |
| Separation.SeparatesSymmetric | backend/nfp_algorithm.py:199-206 | an axis separates p1 from p2 exactly when it separates p2 from p1 |
| Separation.IntersectsSymmetric | backend/nfp_algorithm.py:164-209 | the test is symmetric in its two polygons |
| Separation.IntersectsFalseIff | backend/nfp_algorithm.py:164-209 | the answer is "no intersection" exactly when some non-zero edge normal separates the projections |
| Separation.SharedVertexIntersects | backend/nfp_algorithm.py:199-206 | polygons sharing a vertex are reported as intersecting |
| Separation.SeparatesAllBelow | backend/nfp_algorithm.py:199-206 | an axis separates exactly when every projection of one polygon lies below every projection of the other |
| Separation.AllBelowScaled | backend/nfp_algorithm.py:182-186 | scaling an axis by a positive factor keeps the projections' order |
| Separation.SeparatesScaled | backend/nfp_algorithm.py:182-186 | normalising an axis does not change whether it separates |
| Separation.ScaleKeepsNonZero | backend/nfp_algorithm.py:182-186 | normalising keeps a zero axis zero and a non-zero axis non-zero |
| Nfp.PiecesOverlap | backend/nfp_algorithm.py:143-162 | no overlap when the boxes are apart or touch; otherwise the separating-axis verdict, and "overlap" when it raises |
| Nfp.OverlapsSymmetric | backend/nfp_algorithm.py:143-162 | overlap is symmetric |
| Nfp.LeftOfNoOverlap | backend/nfp_algorithm.py:151-154 | a piece wholly left of another, touching allowed, overlaps it in neither order |
| Nfp.BelowNoOverlap | backend/nfp_algorithm.py:151-154 | a piece wholly below another, touching allowed, overlaps it in neither order |
| Nfp.OverlapsAnyIff | backend/nfp_algorithm.py:124-128 | the piece overlaps the placed list exactly when it overlaps one of its pieces |
| Nfp.IsPositionValid | backend/nfp_algorithm.py:113-130 | a position is valid exactly when the moved piece's box is inside the container's and it overlaps no placed piece |
| Nfp.ValidPositionInside | backend/nfp_algorithm.py:132-141 | at a valid position every moved vertex lies in the container's box |
| Nfp.GridStep | backend/nfp_algorithm.py:88-89 | the grid step is `max(20, size // 4)`: at least 20 and at least the floor of a quarter of the size, and equal to one of the two |
| Nfp.StepsDecrease | backend/nfp_algorithm.py:91-97 | each grid step brings the loop closer to its end, so the grid loops terminate |
| Nfp.ColumnInRange | backend/nfp_algorithm.py:93-96 | a column's points share its x and stay within [y0, yMax] |
| Nfp.GridInRange | backend/nfp_algorithm.py:91-97 | every grid point lies within the scanned ranges |
| Nfp.GridCandidatesLeaveRoom | backend/nfp_algorithm.py:91-97 | a piece with its corner on a grid point stays inside the container's box |
| Nfp.Anchors | backend/nfp_algorithm.py:74-85 | four anchors per placed piece |
| Nfp.Dedup | backend/nfp_algorithm.py:99-111 | de-duplication is no longer than its input and keeps the first position |
| Nfp.DedupApart | backend/nfp_algorithm.py:99-111 | no two kept positions agree within the tolerance on both coordinates |
| Nfp.DedupCovers | backend/nfp_algorithm.py:99-111 | kept positions come from the input, and every input position has a kept one within the tolerance |
| Nfp.DedupSubseq | backend/nfp_algorithm.py:99-111 | the kept positions are an order-preserving subsequence of the input |
| Nfp.CandidatePositionsProperties | backend/nfp_algorithm.py:61-111 | the candidates start with the container's corner, are only that corner when nothing is placed, are pairwise apart and cover every raw anchor and grid point |
| Nfp.RemoveNearDuplicates | backend/nfp_algorithm.py:99-111 | the nested loop with the duplicate flag computes the de-duplication |
| Nfp.AppendAnchors | backend/nfp_algorithm.py:74-85 | the loop appends the four anchors of each placed piece |
| Nfp.AppendColumn | backend/nfp_algorithm.py:93-96 | the inner while loop appends one column of the grid |
| Nfp.AppendGrid | backend/nfp_algorithm.py:91-97 | the outer while loop appends the grid column by column |
| Nfp.GenerateCandidatePositions | backend/nfp_algorithm.py:61-111 | the generator computes the candidate specification |
| Nfp.SelectBestPosition | backend/nfp_algorithm.py:211-223 | the choice is a member; for `bottom_left` and `best_fit` it is minimal in (y, x) |
| Nfp.KeepIfMembers | backend/nfp_algorithm.py:31-38 | the valid list holds exactly the adjusted candidates that are valid |
| Nfp.KeepIfFirst | backend/nfp_algorithm.py:31-38 | the first valid position is the first candidate that passes |
| Nfp.KeepValidPositions | backend/nfp_algorithm.py:31-38 | the filtering loop keeps the shifted candidates that are valid, in order |
| Nfp.FindBestPosition | backend/nfp_algorithm.py:11-44 | `find_best_position` generates, shifts by the piece's corner, filters and selects |
| Nfp.OptimizePosition | backend/nfp_algorithm.py:225-230 | `optimize_position` delegates to `find_best_position`: it answers the same position |
| Nfp.BestAmongNoneIff | backend/nfp_algorithm.py:40-41 | no position exactly when no adjusted candidate is valid |
| Nfp.BestAmongValid | backend/nfp_algorithm.py:31-44 | a returned position is an adjusted candidate and valid |
| Nfp.BestAmongLowestLeftmost | backend/nfp_algorithm.py:211-223 | for `bottom_left` and `best_fit`, when any candidate is valid the result is (y, x)-minimal among the valid ones |
| Nfp.BestAmongFirstValid | backend/nfp_algorithm.py:211-223 | for any other strategy the result is the first valid candidate |
| Nfp.BestAmongSingle | backend/nfp_algorithm.py:40-44 | with a single candidate the result is that candidate if valid, otherwise none |
| Nfp.EmptyContainerCandidates | backend/nfp_algorithm.py:66-71 | with nothing placed the only adjusted candidate puts the piece's box on the container's corner |
| Nfp.RectangleFitsEmpty | backend/nfp_algorithm.py:11-44 | a rectangle no larger than an empty rectangular container at the origin is put at the origin |
| Optimizer.ExpandedLength | backend/prueba/nesting_optimizer.py:57-96 | preparation emits as many copies as the quantities add up to, a missing quantity counting 1 and a negative one 0 |
| Optimizer.CopiesAt | backend/prueba/nesting_optimizer.py:85-96 | index i of the copies holds copy number i + 1 |
| Optimizer.CopiesNumbered | backend/prueba/nesting_optimizer.py:85-96 | copy i is numbered i + 1, has id `<id>_<i+1>`, the original id and points, rotation 0 and no position |
| Optimizer.RotationOptionsShape | backend/prueba/nesting_optimizer.py:68-83 | without rotation one option at angle 0; otherwise one option per listed angle, in order, with its rotated points and area |
| Optimizer.RotatedOptionsAt | backend/prueba/nesting_optimizer.py:70-77 | option i holds the outline rotated by angle i and its area |
| Optimizer.PreparedSortedPermutation | backend/prueba/nesting_optimizer.py:99 | the prepared list is a stable, non-increasing-area permutation of the expanded copies |
| Optimizer.BuildRotations | backend/prueba/nesting_optimizer.py:68-83 | the rotation loop builds the rotation options |
| Optimizer.AppendCopies | backend/prueba/nesting_optimizer.py:85-96 | the copy loop appends the numbered copies |
| Optimizer.PreparePieces | backend/prueba/nesting_optimizer.py:52-101 | `_prepare_pieces` computes the sorted expansion |
| Optimizer.PieceFitsIff | backend/prueba/nesting_optimizer.py:355-372 | a piece fits exactly when both lists are non-empty and every vertex lies in the container's box |
| Optimizer.VerticesInsideFit | backend/prueba/nesting_optimizer.py:355-372 | vertices inside the container's box make the piece fit |
| Optimizer.FitVerticesInside | backend/prueba/nesting_optimizer.py:355-372 | a fitting piece has every vertex in the container's box |
| Optimizer.Evaluate | backend/prueba/nesting_optimizer.py:116-135 | a rotation is scored only at a position where the moved piece fits |
| Optimizer.Choose | backend/prueba/nesting_optimizer.py:116-142 | the chosen rotation's moved piece fits the container |
| Optimizer.ChooseNoneIff | backend/prueba/nesting_optimizer.py:116-145 | no rotation is chosen exactly when none yields a fitting position |
| Optimizer.ChooseBest | backend/prueba/nesting_optimizer.py:138-142 | the choice has the least score, the earliest one on ties |
| Optimizer.Greedy | backend/prueba/nesting_optimizer.py:103-158 | every piece ends up placed or unplaced |
| Optimizer.GreedySplits | backend/prueba/nesting_optimizer.py:109-153 | the greedy pass splits its input into placed and unplaced pieces, each in input order, a placed piece differing only in points, position, rotation and area |
| Optimizer.GreedyPlacedFit | backend/prueba/nesting_optimizer.py:130 | every placed piece lies in the container's box |
| Optimizer.NfpFinderAvoidsOverlap | backend/prueba/nesting_optimizer.py:120 | positions from the placement search never overlap an already placed piece |
| Optimizer.NfpPositionAvoidsOverlap | backend/nfp_algorithm.py:31-44 | the moved piece at the returned position overlaps no placed piece |
| Optimizer.GreedyNoOverlap | backend/prueba/nesting_optimizer.py:109-153 | no placed piece overlaps one placed before it |
| Optimizer.EvaluateOption | backend/prueba/nesting_optimizer.py:118-135 | the body of the rotation loop computes the evaluation of one option: none without a position or a fit, otherwise its score, position and moved outline |
| Optimizer.ChooseRotation | backend/prueba/nesting_optimizer.py:113-142 | the rotation loop with its running best computes the choice |
| Optimizer.GreedyOptimization | backend/prueba/nesting_optimizer.py:103-158 | `_greedy_optimization` computes the greedy pass |
| Optimizer.EfficiencyRange | backend/prueba/nesting_optimizer.py:374-386 | efficiency is non-negative, and at most 100 when the used area fits the frame |
| Optimizer.EfficiencyUsedArea | backend/prueba/nesting_optimizer.py:374-386 | with pieces placed and a positive frame area, efficiency times frame area is 100 times the used area |
| Optimizer.FirstPerPieceProperties | backend/prueba/nesting_optimizer.py:300-310 | de-duplication keeps distinct piece indices, in order, and loses no index |
| Optimizer.UniqueGenes | backend/prueba/nesting_optimizer.py:300-310 | the loop with the `seen_pieces` set computes the de-duplication |
| Optimizer.CrossoverChild | backend/prueba/nesting_optimizer.py:296-310 | the child has distinct piece indices and is an order-preserving subsequence of `parent1[:k] + parent2[k:]` with the same indices |
| Optimizer.CrossoverWithRotation | backend/prueba/nesting_optimizer.py:286-310 | the crossover computes the specified child for the given point |
| Optimizer.PyIndex | backend/prueba/nesting_optimizer.py:248-254 | a Python list lookup succeeds exactly for indices in [-n, n), and a negative index counts from the end |
| Optimizer.EvaluateCounts | backend/prueba/nesting_optimizer.py:234-284 | an evaluation that does not raise reports one record, placed or unplaced, per gene whose piece index is below the number of pieces; with every gene in range it does not raise and reports one record per gene |
| Optimizer.EvaluateIndividualWithRotation | backend/prueba/nesting_optimizer.py:234-284 | the gene loop skips indices past the end, falls back to rotation 0, raises on a failed lookup, and places or unplaces each piece as the evaluation specifies |
| Optimizer.CrossoverDropsPiece | backend/prueba/nesting_optimizer.py:296-310 | the parents [0, 1, 2] and [1, 0, 2], both orderings of three pieces, crossed at 1 give the child [0, 2], which lacks piece 1 |
| Optimizer.DroppedPieceVanishes | backend/prueba/nesting_optimizer.py:234-284 | evaluating that child for three pieces reports two records, so one piece is neither placed nor unplaced |
| Optimizer.CrossoverCompleteOrders | backend/prueba/nesting_optimizer.py:296-310 | the corrected crossover of two orderings of the same pieces is again an ordering of those pieces |
| Optimizer.CompleteChildAccountsForAll | backend/prueba/nesting_optimizer.py:234-284 | evaluating a corrected child of two orderings of all the pieces reports every piece, placed or unplaced |
| Optimizer.Optimize | backend/prueba/nesting_optimizer.py:15-50 | `optimize` defaults the angles, prepares the pieces, dispatches on the strategy and measures efficiency |
| Optimizer.GreedyOptimizationSound | backend/prueba/nesting_optimizer.py:33-36 | a greedy run splits the prepared pieces, every placed piece fits the frame, and no two placed pieces overlap |
| MultiBin.GroupIndex | backend/multi_bin_nesting.py:82 | the lookup finds the group with that id, or reports that none has it |
| MultiBin.RegroupIds | backend/multi_bin_nesting.py:75-90 | one group per distinct original id, in first-occurrence order |
| MultiBin.FirstIdsDistinct | backend/multi_bin_nesting.py:82-87 | the group ids are pairwise distinct |
| MultiBin.RegroupCounts | backend/multi_bin_nesting.py:80-88 | each group's quantity is the number of leftovers with its id |
| MultiBin.RegroupQuantities | backend/multi_bin_nesting.py:86-88 | every group has a quantity of at least 1 |
| MultiBin.RegroupTotal | backend/multi_bin_nesting.py:75-90 | the quantities add up to the number of leftovers |
| MultiBin.PrepareRemainingPieces | backend/multi_bin_nesting.py:75-90 | the dictionary loop computes the regrouping |
| MultiBin.RoundOfShrinks | backend/multi_bin_nesting.py:36-71 | each recorded round leaves fewer copies to place; a greedy round accounts for every copy |
| MultiBin.AttachLeftoversCounts | backend/multi_bin_nesting.py:49-53 | attaching the leftovers to the last bin adds them to its leftovers and leaves the placed count alone |
| MultiBin.OptimizeMultipleBins | backend/multi_bin_nesting.py:11-73 | the while loop terminates and computes the bin run |
| MultiBin.RunShape | backend/multi_bin_nesting.py:36-71 | bins are numbered 1, 2, 3, ...; each placed at least one piece with `total_pieces` its placed count; only the last has leftovers |
| MultiBin.MultiBinShape | backend/multi_bin_nesting.py:11-73 | a run from bin 1 has that shape |
| MultiBin.RunConserves | backend/multi_bin_nesting.py:36-71 | when rounds account for every copy, a non-empty run holds each requested copy as placed or leftover |
| MultiBin.MultiBinConserves | backend/multi_bin_nesting.py:11-73 | with a greedy strategy the summary's placed count plus the leftover copies is the requested total |
| MultiBin.SummaryTotals | backend/multi_bin_nesting.py:92-115 | zeros and no efficiency list for no bins; otherwise one count per bin, the mean times the count is the efficiency sum, and the totals add bin by bin |
| MultiBin.SummaryAverageRange | backend/multi_bin_nesting.py:105 | the mean efficiency lies within any bounds on the bins' efficiencies |
| Service.AnglesValidIff | backend/nesting_service.py:59-63 | the angles are accepted exactly when each is an integer in [0, 359] |
| Service.AngleValues | backend/nesting_service.py:59-63 | accepted angles are integers in [0, 360) |
| Service.ConvertPieces | backend/nesting_service.py:65-74 | conversion keeps length, order, id, points and quantity |
| Service.ConvertPiecesCopies | backend/nesting_service.py:65-74 | conversion keeps the total number of requested copies |
| Service.ProcessRefusedIff | backend/nesting_service.py:21-26 | a request is refused exactly when the strategy is unknown or a non-empty angle list holds a bad angle, and an unknown strategy is reported first |
| Service.ProcessAccepted | backend/nesting_service.py:21-51 | an accepted request passed both checks, reaches the optimiser with angles in [0, 360) and answers success with the run's summary |
| Service.PassedAnglesInRange | backend/nesting_service.py:25-37 | the angles handed on lie in [0, 360); absent angles become 0, 90, 180, 270, and an empty list is passed on unchanged |
| ShapeDesigner.SnapCoordProperties | frontend/src/components/shape-designer-modal.tsx:30-36 | a snapped coordinate is a multiple of the grid size, within half a cell of the input, and snapping it again changes nothing |
| ShapeDesigner.SnapProperties | frontend/src/components/shape-designer-modal.tsx:30-36 | snapping off is the identity; snapping on puts both coordinates on the grid within half a cell; snapping is idempotent |
| ShapeDesigner.RotateShape | frontend/src/components/shape-designer-modal.tsx:109-127 | rotation keeps the number of points, so an empty shape stays empty |
| ShapeDesigner.RotatedCoordinates | frontend/src/components/shape-designer-modal.tsx:113-124 | each point turns a quarter about the vertex centroid: x' = cx + cy - y, y' = x + cy - cx |
| ShapeDesigner.RotateKeepsCentroid | frontend/src/components/shape-designer-modal.tsx:109-127 | without snapping the vertex centroid stays fixed |
| ShapeDesigner.HalfTurn | frontend/src/components/shape-designer-modal.tsx:109-127 | two quarter turns reflect every point through the centroid |
| ShapeDesigner.FourTurnsRestore | frontend/src/components/shape-designer-modal.tsx:109-127 | four quarter turns without snapping restore the points |
| ShapeDesigner.QuantityInput | frontend/src/components/shape-designer-modal.tsx:295 | the quantity is at least 1: the parsed value when that is at least 1, otherwise 1 |
| ShapeDesigner.SaveResultProperties | frontend/src/components/shape-designer-modal.tsx:87-107 | a shape is emitted exactly with three points and a non-blank name; its points are the drawn ones shifted to min x = min y = 0, its id the trimmed name |
| ShapeDesigner.NormalizedAtOrigin | frontend/src/components/shape-designer-modal.tsx:90-93 | subtracting the minima puts the shape's box at the origin |
| ShapeDesigner.Designer.constructor | frontend/src/components/shape-designer-modal.tsx:19-27 | no points, no drag, empty name, quantity 1, snapping on |
| ShapeDesigner.Designer.CanSave | frontend/src/components/shape-designer-modal.tsx:147 | the save button is enabled exactly when saving emits a shape |
| ShapeDesigner.Designer.Click | frontend/src/components/shape-designer-modal.tsx:50-55 | during a drag nothing changes; otherwise exactly the snapped point is appended |
| ShapeDesigner.Designer.PointMouseDown | frontend/src/components/shape-designer-modal.tsx:57-60 | the pressed index becomes the dragged one; nothing else changes |
| ShapeDesigner.Designer.MouseMove | frontend/src/components/shape-designer-modal.tsx:62-67 | only the dragged point is replaced, by the snapped cursor; without a drag nothing changes |
| ShapeDesigner.Designer.MouseUp | frontend/src/components/shape-designer-modal.tsx:69-71 | the drag ends; nothing else changes |
| ShapeDesigner.Designer.Clear | frontend/src/components/shape-designer-modal.tsx:73-75 | the points are emptied; nothing else changes |
| ShapeDesigner.Designer.Undo | frontend/src/components/shape-designer-modal.tsx:77-79 | the last point is removed, and an empty list stays empty |
| ShapeDesigner.Designer.Rotate | frontend/src/components/shape-designer-modal.tsx:109-127 | the points become their quarter turn; nothing else changes |
| ShapeDesigner.Designer.SetShapeId | frontend/src/components/shape-designer-modal.tsx:280 | the name becomes the typed text |
| ShapeDesigner.Designer.SetQuantity | frontend/src/components/shape-designer-modal.tsx:295 | the quantity becomes the clamped input, at least 1 |
| ShapeDesigner.Designer.SetSnapToGrid | frontend/src/components/shape-designer-modal.tsx:353 | snapping follows the checkbox |
| ShapeDesigner.Designer.Save | frontend/src/components/shape-designer-modal.tsx:87-107 | emits the save result; after a save the editor has no points, an empty name and quantity 1, otherwise it is unchanged |
| PiecesList.SaveEditChangesOneRow | frontend/src/components/pieces-list.tsx:52-60 | saving needs an edited row and a non-blank id; only that row changes, taking the trimmed id and quantity max(1, q) |
| PiecesList.WithoutRemovesOne | frontend/src/components/pieces-list.tsx:62-67 | deleting removes exactly the given index and keeps the others in order; an index out of range removes nothing |
| PiecesList.DuplicateAppendsCopy | frontend/src/components/pieces-list.tsx:69-76 | duplicating appends one piece equal to the source except that its id is `<id>_copia` |
| PiecesList.PieceDimensions | frontend/src/components/pieces-list.tsx:84-97 | no points give zero width, height and area |
| PiecesList.DimensionsNonNegative | frontend/src/components/pieces-list.tsx:84-97 | width, height and area are never negative |
| PiecesList.DimensionsInMillimetres | frontend/src/components/pieces-list.tsx:84-97 | in millimetres the dimensions are the bounding box's width and height, and the area is their product |
| PiecesList.TotalPiecesConcat | frontend/src/components/pieces-list.tsx:140 | the total quantity of two lists is the sum of their totals |
| PiecesList.TotalAfterDuplicate | frontend/src/components/pieces-list.tsx:140 | duplicating adds the source's quantity to the total |
| PiecesList.TotalAfterDelete | frontend/src/components/pieces-list.tsx:140 | deleting subtracts the removed row's quantity from the total |
| PiecesList.RowAreaNonNegative | frontend/src/components/pieces-list.tsx:141-144 | a row with a non-negative quantity adds a non-negative area |
| PiecesList.TotalAreaNonNegative | frontend/src/components/pieces-list.tsx:141-144 | the total area is non-negative when no quantity is negative |
| PiecesList.FormQuantity | frontend/src/components/pieces-list.tsx:188 | the parsed quantity, or 1 when the input does not parse or parses to 0 |
| PiecesList.Editor.constructor | frontend/src/components/pieces-list.tsx:32-33 | no row is being edited and the form is ("", 1) |
| PiecesList.Editor.StartEditing | frontend/src/components/pieces-list.tsx:41-45 | the row becomes the edited one and the form takes its id and quantity |
| PiecesList.Editor.CancelEditing | frontend/src/components/pieces-list.tsx:47-50 | no row is being edited and the form is ("", 1) |
| PiecesList.Editor.SetFormId | frontend/src/components/pieces-list.tsx:177 | only the form's id changes |
| PiecesList.Editor.SetFormQuantity | frontend/src/components/pieces-list.tsx:188 | only the form's quantity changes |
| PiecesList.Editor.Save | frontend/src/components/pieces-list.tsx:52-60 | emits the saved list and then resets like cancelling; otherwise nothing changes |
| PresetShapes.ScaleFactor | frontend/src/components/preset-shapes-modal.tsx:392 | the scale factor is positive |
| PresetShapes.ScalePoints | frontend/src/components/preset-shapes-modal.tsx:391-394 | scaling keeps the number of points |
| PresetShapes.ScaleIsConvert | frontend/src/components/preset-shapes-modal.tsx:391-394 | multiplying by the scale factor is `convertDimension` between the two units |
| PresetShapes.ScalePointsConvert | frontend/src/components/preset-shapes-modal.tsx:391-394 | each scaled point is the point with both coordinates converted |
| PresetShapes.ScaleSameUnit | frontend/src/components/preset-shapes-modal.tsx:391-394 | scaling between equal units changes nothing |
| PresetShapes.ScaleRoundTrip | frontend/src/components/preset-shapes-modal.tsx:391-394 | scaling a to b and back restores the points |
| PresetShapes.FilteredShapesExact | frontend/src/components/preset-shapes-modal.tsx:397-403 | the filter output is an order-preserving subsequence of the library holding exactly the matching shapes |
| PresetShapes.FilterShowsAll | frontend/src/components/preset-shapes-modal.tsx:397-403 | an empty search in category "all" shows the whole library |
| PresetShapes.RemoveKey | frontend/src/components/preset-shapes-modal.tsx:438 | deleting a key keeps every other key, in order |
| PresetShapes.ToggleEffect | frontend/src/components/preset-shapes-modal.tsx:434-444 | toggling removes a selected shape or adds an unselected one with its default quantity, and leaves other entries alone |
| PresetShapes.ToggleTwiceRestores | frontend/src/components/preset-shapes-modal.tsx:434-444 | toggling an unselected shape twice restores the selection |
| PresetShapes.ChangeQuantityEffect | frontend/src/components/preset-shapes-modal.tsx:446-453 | a positive quantity is stored, anything else is ignored, so positive quantities stay positive |
| PresetShapes.ToggleTotal | frontend/src/components/preset-shapes-modal.tsx:471 | toggling changes the total by the removed quantity or the added default |
| PresetShapes.FindShape | frontend/src/components/preset-shapes-modal.tsx:457 | the lookup returns a library shape with that id, or reports that none has it |
| PresetShapes.ShapeIdPlain | frontend/src/components/preset-shapes-modal.tsx:459 | a derived id has no whitespace and no upper-case letter and is no longer than the name |
| PresetShapes.AddedShapes | frontend/src/components/preset-shapes-modal.tsx:456-463 | one new shape per selected key, in order |
| PresetShapes.AddedCopiesSum | frontend/src/components/preset-shapes-modal.tsx:471 | the added quantities add up to the selected total |
| PresetShapes.ShapesToAddProperties | frontend/src/components/preset-shapes-modal.tsx:455-468 | each added shape is the selected library shape with id from its name, as many points, the selected quantity; the copies add up to `totalPieces` |
| PresetShapes.Picker.constructor | frontend/src/components/preset-shapes-modal.tsx:380-382 | nothing is selected |
| PresetShapes.Picker.ToggleShape | frontend/src/components/preset-shapes-modal.tsx:434-444 | the selection becomes its toggle and stays well formed |
| PresetShapes.Picker.SetQuantity | frontend/src/components/preset-shapes-modal.tsx:446-453 | the selection becomes its quantity change and stays well formed |
| PresetShapes.Picker.AddSelected | frontend/src/components/preset-shapes-modal.tsx:455-468 | emits the shapes to add and empties the selection |

## Left out

- shapely, pyclipper and trigonometry: `rotate_polygon` and `expand_polygon` are function parameters of piece preparation. `calculate_polygon_centroid`, `is_point_inside_polygon`, `polygons_intersect`, `simplify_polygon`, `contract_polygon`, `calculate_convex_hull` and `calculate_distance` in both `geometry_utils.py` files are not modelled.
- In `backend/utils.py`, `rotate_point`, `distance_between_points`, `find_best_rotation` and `sort_pieces_by_area` / `sort_pieces_by_perimeter` are not modelled: they rest on trigonometry or shapely areas. The shapely validity check in `validate_polygon` is a boolean parameter.
- The `sqrt` normalisation of separating axes is left out. `Separation.SeparatesScaled` and `Separation.ScaleKeepsNonZero` show that positive scaling changes neither the separation verdict nor which axes are skipped.
- The genetic search is randomised, so its outcome is a parameter `search`. Termination of the multi-bin loop with that strategy assumes the search never reports more pieces than it was given. The crossover and `_evaluate_individual_with_rotation` are modelled; the population loop, `_create_random_individual`, `_mutate_with_rotation` and `_tournament_selection` are not. The crossover point is a parameter.
- MultiBin.MultiBinConserves: stated only for the greedy strategies, whose rounds are proved to account for every copy. A genetic round need not: its crossover can drop pieces (see Findings). It holds only when at least one bin was filled, because the source drops the leftovers when the first bin takes nothing.
- Execution time, `time.time()`, `print` and the `round(...)` calls in `get_summary` are left out. The summary carries unrounded values and no time.
- The HTTP layer (`backend/main.py`, `frontend/src/services/nest-api.js`), the response message text and the pydantic schema `backend/models.py` are not part of this model. The request is a record holding the fields `process_nesting_request` reads.
- `backend/nesting_engine.py`, the test scripts under `backend/prueba/` and the rendering components (grid, previews, PDF, results panels) are not part of this model.
- Browser dialogs: the `confirm()` answer in `deletePiece` is a boolean parameter. `Number.parseInt` is an `Option<int>` parameter, with `None` for NaN.
- Lower-casing covers ASCII letters only; Unicode case mapping is left out.
- The preset library `PRESET_SHAPES` is a constructor parameter of `Picker`, not the built-in table. The search term and category are parameters of the filter; their setters are not modelled. Each shape's `typicalSize` is used only for its unit.
- The shape designer's `isDrawing` flag and `closeShape` are not modelled: nothing in the component reads the flag.
- The pieces list is owned by the page, so the list operations are functions returning the new list rather than methods on the editor.
- Text.NatToString: states only that the copy number renders as a non-empty string of decimal digits, not which digits.
- Units.Factor: states that the factors are positive with millimetres as the base. The values 1, 10, 1000 and 25.4 appear only in its body.
- Integer-valued Python floats and JavaScript numbers are real numbers; overflow and rounding error are not modelled.

## Findings

| source | as written | input that shows it | evidently intended | confidence | as-written member | corrected member |
|---|---|---|---|---|---|---|
| backend/prueba/nesting_optimizer.py:296-310 | The crossover splices `parent1[:k] + parent2[k:]` and keeps the first gene of each piece. A piece that occurs only in `parent1[k:]` and `parent2[:k]` is lost. `_evaluate_individual_with_rotation` then reports it neither placed nor unplaced, so a genetic run can lose requested copies. | Parents [0, 1, 2] and [1, 0, 2], crossover point 1: the child is [0, 2]; evaluated for three pieces it reports two. | The child orders every piece, as `_create_random_individual` does: after the splice, the missing pieces are appended in `parent2` order. | not executed | Optimizer.Crossover, Optimizer.CrossoverDropsPiece, Optimizer.DroppedPieceVanishes | Optimizer.CrossoverComplete, Optimizer.CrossoverCompleteOrders, Optimizer.CompleteChildAccountsForAll |
