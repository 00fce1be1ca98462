/** The preset library of `preset-shapes-modal.tsx`: scaling a library
    shape to the page's unit, the search filter, the selection record
    (shape id to quantity, in insertion order, as a JavaScript object keeps
    its string keys) and the shapes handed to the page when the selection
    is added. */
module PresetShapes {
  import opened Common
  import opened Geometry
  import opened Text
  import opened Units

  /** A library entry; of its typical size only the unit is used. */
  datatype PresetShape = PresetShape(
    id: string, name: string, category: string, description: string,
    points: Polygon, defaultQuantity: int, sizeUnit: Unit)

  /** A shape handed to the page. */
  datatype NewShape = NewShape(id: string, points: Polygon, quantity: int)

  // ---------------------------------------------------------------------------
  // Scaling
  // ---------------------------------------------------------------------------

  /** `factor(shape unit) / factor(global unit)`. */
  function ScaleFactor(from: Unit, to: Unit): (k: real)
    ensures k > 0.0
  {
    Factor(from) / Factor(to)
  }

  /** `scaleShapePoints`: both coordinates of every point times the scale. */
  function ScalePoints(points: Polygon, from: Unit, to: Unit): (r: Polygon)
    ensures |r| == |points|
  {
    var k := ScaleFactor(from, to);
    seq(|points|, i requires 0 <= i < |points| => ScalePoint(points[i], k))
  }

  /** One point with both coordinates times `k`. */
  function ScalePoint(p: Point, k: real): Point
  {
    Point(p.x * k, p.y * k)
  }

  /** Scaling one coordinate is converting it from the shape's unit to the
      page's unit. */
  lemma ScaleIsConvert(v: real, from: Unit, to: Unit)
    ensures v * ScaleFactor(from, to) == Convert(v, from, to)
  {
    var f, t := Factor(from), Factor(to);
    var c := Convert(v, from, to);
    assert c * t == v * f;
    assert (v * (f / t)) * t == v * f;
  }

  /** Every scaled point is the original one with both coordinates
      converted from the shape's unit to the page's unit. */
  lemma ScalePointsConvert(points: Polygon, from: Unit, to: Unit)
    ensures forall i :: 0 <= i < |points| ==>
      ScalePoints(points, from, to)[i] == Point(Convert(points[i].x, from, to), Convert(points[i].y, from, to))
  {
    forall i | 0 <= i < |points|
      ensures ScalePoints(points, from, to)[i] == Point(Convert(points[i].x, from, to), Convert(points[i].y, from, to))
    {
      ScalePointConvert(points[i], from, to);
    }
  }

  lemma ScalePointConvert(p: Point, from: Unit, to: Unit)
    ensures ScalePoint(p, ScaleFactor(from, to)) == Point(Convert(p.x, from, to), Convert(p.y, from, to))
  {
    ScaleIsConvert(p.x, from, to);
    ScaleIsConvert(p.y, from, to);
  }

  /** A shape already in the page's unit is not changed. */
  lemma ScaleSameUnit(points: Polygon, u: Unit)
    ensures ScalePoints(points, u, u) == points
  {
    ScalePointsConvert(points, u, u);
    forall i | 0 <= i < |points|
      ensures ScalePoints(points, u, u)[i] == points[i]
    {
      ConvertSameUnit(points[i].x, u);
      ConvertSameUnit(points[i].y, u);
    }
  }

  /** Scaling to another unit and back restores the points. */
  lemma ScaleRoundTrip(points: Polygon, a: Unit, b: Unit)
    ensures ScalePoints(ScalePoints(points, a, b), b, a) == points
  {
    var mid := ScalePoints(points, a, b);
    ScalePointsConvert(points, a, b);
    ScalePointsConvert(mid, b, a);
    forall i | 0 <= i < |points|
      ensures ScalePoints(mid, b, a)[i] == points[i]
    {
      ConvertRoundTrip(points[i].x, a, b);
      ConvertRoundTrip(points[i].y, a, b);
    }
  }

  // ---------------------------------------------------------------------------
  // Filtering
  // ---------------------------------------------------------------------------

  /** The lower-cased search term occurs in the lower-cased name or
      description. */
  predicate MatchesSearch(shape: PresetShape, term: string)
  {
    Contains(ToLower(shape.name), ToLower(term)) || Contains(ToLower(shape.description), ToLower(term))
  }

  /** The category filter: "all" or the shape's own category. */
  predicate MatchesCategory(shape: PresetShape, category: string)
  {
    category == "all" || shape.category == category
  }

  predicate Shown(shape: PresetShape, term: string, category: string)
  {
    MatchesSearch(shape, term) && MatchesCategory(shape, category)
  }

  /** `filteredShapes`: the library entries that pass both filters. */
  function FilteredShapes(library: seq<PresetShape>, term: string, category: string): seq<PresetShape>
    decreases |library|
  {
    if library == [] then []
    else
      var rest := FilteredShapes(library[..|library| - 1], term, category);
      var last := library[|library| - 1];
      if Shown(last, term, category) then rest + [last] else rest
  }

  /** The filtered list keeps the library's order, holds only entries that
      pass both filters, and misses none of them. */
  lemma {:induction false} FilteredShapesExact(library: seq<PresetShape>, term: string, category: string)
    ensures IsSubseq(FilteredShapes(library, term, category), library)
    ensures forall i :: 0 <= i < |FilteredShapes(library, term, category)| ==>
      Shown(FilteredShapes(library, term, category)[i], term, category)
    ensures forall i :: 0 <= i < |library| && Shown(library[i], term, category) ==>
      library[i] in FilteredShapes(library, term, category)
    decreases |library|
  {
    if library != [] {
      var init := library[..|library| - 1];
      var last := library[|library| - 1];
      var rest := FilteredShapes(init, term, category);
      FilteredShapesExact(init, term, category);
      assert forall i :: 0 <= i < |init| ==> init[i] == library[i];
      if Shown(last, term, category) {
        var r := rest + [last];
        assert r[..|r| - 1] == rest;
        assert IsSubseq(r, library);
      } else {
        assert IsSubseq(rest, library);
      }
    }
  }

  /** Every string contains the empty string. */
  lemma ContainsEmpty(hay: string)
    ensures Contains(hay, "")
  {
  }

  /** With an empty search and the category "all" the whole library is
      listed. */
  lemma {:induction false} FilterShowsAll(library: seq<PresetShape>)
    ensures FilteredShapes(library, "", "all") == library
    decreases |library|
  {
    if library != [] {
      var last := library[|library| - 1];
      FilterShowsAll(library[..|library| - 1]);
      ContainsEmpty(ToLower(last.name));
      assert ToLower("") == "";
      assert Shown(last, "", "all");
    }
  }

  // ---------------------------------------------------------------------------
  // The selection record
  // ---------------------------------------------------------------------------

  /** `selectedShapes`: the quantity of each selected shape id, and the ids
      in the order they were inserted (the order `Object.entries` lists
      them). */
  datatype Selection = Selection(keys: seq<string>, quantities: map<string, int>)

  const NoSelection: Selection := Selection([], map[])

  /** No id occurs twice. */
  predicate Distinct(keys: seq<string>)
  {
    forall i, j :: 0 <= i < j < |keys| ==> keys[i] != keys[j]
  }

  /** The order lists every id of the record once. */
  predicate WellFormed(sel: Selection)
  {
    && Distinct(sel.keys)
    && (forall k :: k in sel.keys ==> k in sel.quantities)
    && (forall k :: k in sel.quantities ==> k in sel.keys)
  }

  /** `if (newSelected[shapeId])`: present with a non-zero quantity. */
  predicate Selected(sel: Selection, id: string)
  {
    id in sel.quantities && sel.quantities[id] != 0
  }

  /** The order with one id taken out (`delete`). */
  function RemoveKey(keys: seq<string>, id: string): (r: seq<string>)
    ensures forall k :: k in r <==> k in keys && k != id
    ensures IsSubseq(r, keys)
    decreases |keys|
  {
    if keys == [] then []
    else
      var rest := RemoveKey(keys[..|keys| - 1], id);
      var last := keys[|keys| - 1];
      assert keys == keys[..|keys| - 1] + [last];
      if last == id then rest
      else
        assert (rest + [last])[..|rest|] == rest;
        rest + [last]
  }

  /** Taking out an id that is not there changes nothing. */
  lemma {:induction false} RemoveAbsentKey(keys: seq<string>, id: string)
    requires id !in keys
    ensures RemoveKey(keys, id) == keys
    decreases |keys|
  {
    if keys != [] {
      RemoveAbsentKey(keys[..|keys| - 1], id);
      assert keys == keys[..|keys| - 1] + [keys[|keys| - 1]];
    }
  }

  /** `obj[id] = q`: an existing key keeps its place, a new one goes last. */
  function Assign(sel: Selection, id: string, q: int): Selection
  {
    Selection(if id in sel.quantities then sel.keys else sel.keys + [id], sel.quantities[id := q])
  }

  /** `handleShapeToggle`: a selected shape is removed; any other is set to
      the default quantity. */
  function Toggle(sel: Selection, id: string, defaultQuantity: int): Selection
  {
    if Selected(sel, id) then Selection(RemoveKey(sel.keys, id), sel.quantities - {id})
    else Assign(sel, id, defaultQuantity)
  }

  /** `handleQuantityChange`: only a positive quantity is stored. */
  function ChangeQuantity(sel: Selection, id: string, q: int): Selection
  {
    if q > 0 then Assign(sel, id, q) else sel
  }

  lemma {:induction false} RemoveKeyDistinct(keys: seq<string>, id: string)
    requires Distinct(keys)
    ensures Distinct(RemoveKey(keys, id))
    decreases |keys|
  {
    if keys != [] {
      var init := keys[..|keys| - 1];
      var last := keys[|keys| - 1];
      assert forall i :: 0 <= i < |init| ==> init[i] == keys[i];
      assert last !in init;
      RemoveKeyDistinct(init, id);
      var rest := RemoveKey(init, id);
      assert last !in rest;
    }
  }

  /** Toggling a shape removes it exactly when it was selected, otherwise
      sets it to its default quantity, keeps every other entry, and keeps
      the record well formed. */
  lemma ToggleEffect(sel: Selection, id: string, defaultQuantity: int)
    requires WellFormed(sel)
    ensures WellFormed(Toggle(sel, id, defaultQuantity))
    ensures Selected(sel, id) ==> id !in Toggle(sel, id, defaultQuantity).quantities
    ensures !Selected(sel, id) ==> Toggle(sel, id, defaultQuantity).quantities == sel.quantities[id := defaultQuantity]
    ensures forall k :: k != id ==>
      (k in Toggle(sel, id, defaultQuantity).quantities <==> k in sel.quantities)
      && (k in sel.quantities ==> Toggle(sel, id, defaultQuantity).quantities[k] == sel.quantities[k])
  {
    if Selected(sel, id) {
      RemoveKeyDistinct(sel.keys, id);
    }
  }

  /** Toggling a shape that is not in the record twice, with a non-zero
      default quantity, gives back the record as it was. */
  lemma ToggleTwiceRestores(sel: Selection, id: string, defaultQuantity: int)
    requires WellFormed(sel) && id !in sel.quantities && defaultQuantity != 0
    ensures Toggle(Toggle(sel, id, defaultQuantity), id, defaultQuantity) == sel
  {
    var once := Toggle(sel, id, defaultQuantity);
    assert once.keys == sel.keys + [id];
    assert RemoveKey(once.keys, id) == RemoveKey(sel.keys, id) by {
      assert once.keys[..|once.keys| - 1] == sel.keys;
    }
    RemoveAbsentKey(sel.keys, id);
    assert once.quantities - {id} == sel.quantities;
  }

  /** A quantity change stores a positive quantity for that shape and
      ignores any other; the record stays well formed and, when every
      stored quantity was positive, still is. */
  lemma ChangeQuantityEffect(sel: Selection, id: string, q: int)
    requires WellFormed(sel)
    ensures WellFormed(ChangeQuantity(sel, id, q))
    ensures q > 0 ==> ChangeQuantity(sel, id, q).quantities == sel.quantities[id := q]
    ensures q <= 0 ==> ChangeQuantity(sel, id, q) == sel
    ensures (forall k :: k in sel.quantities ==> sel.quantities[k] > 0) ==>
      forall k :: k in ChangeQuantity(sel, id, q).quantities ==> ChangeQuantity(sel, id, q).quantities[k] > 0
  {
  }

  // ---------------------------------------------------------------------------
  // Totals and adding
  // ---------------------------------------------------------------------------

  /** The quantities of `keys`, summed. */
  function QuantitySum(keys: seq<string>, quantities: map<string, int>): int
    requires forall k :: k in keys ==> k in quantities
    decreases |keys|
  {
    if keys == [] then 0
    else QuantitySum(keys[..|keys| - 1], quantities) + quantities[keys[|keys| - 1]]
  }

  /** `totalPieces`: the sum of the selected quantities. */
  function TotalPieces(sel: Selection): int
    requires WellFormed(sel)
  {
    QuantitySum(sel.keys, sel.quantities)
  }

  /** Summing over the order after a deletion leaves out the deleted
      quantity and nothing else. */
  lemma {:induction false} QuantitySumRemove(keys: seq<string>, quantities: map<string, int>, id: string)
    requires forall k :: k in keys ==> k in quantities
    requires Distinct(keys)
    ensures QuantitySum(RemoveKey(keys, id), quantities)
            == QuantitySum(keys, quantities) - (if id in keys then quantities[id] else 0)
    decreases |keys|
  {
    if keys != [] {
      var init, last := keys[..|keys| - 1], keys[|keys| - 1];
      assert keys == init + [last];
      assert forall i :: 0 <= i < |init| ==> init[i] == keys[i];
      assert last !in init;
      QuantitySumRemove(init, quantities, id);
      var rest := RemoveKey(init, id);
      if last == id {
        assert RemoveKey(keys, id) == rest;
        assert id !in init;
      } else {
        assert RemoveKey(keys, id) == rest + [last];
        assert (rest + [last])[..|rest|] == rest;
        assert (id in keys) == (id in init);
      }
    }
  }

  /** Summing with one value changed, over keys that may not hold it. */
  lemma {:induction false} QuantitySumUpdate(keys: seq<string>, quantities: map<string, int>, id: string, q: int)
    requires forall k :: k in keys ==> k in quantities
    requires Distinct(keys)
    ensures QuantitySum(keys, quantities[id := q])
            == QuantitySum(keys, quantities) + (if id in keys then q - quantities[id] else 0)
    decreases |keys|
  {
    if keys != [] {
      var init := keys[..|keys| - 1];
      assert forall i :: 0 <= i < |init| ==> init[i] == keys[i];
      QuantitySumUpdate(init, quantities, id, q);
    }
  }

  /** Toggling a shape changes the total by its quantity: it drops by the
      stored quantity when the shape was selected, and otherwise it gains
      the default quantity in place of whatever was stored. */
  lemma ToggleTotal(sel: Selection, id: string, defaultQuantity: int)
    requires WellFormed(sel)
    ensures WellFormed(Toggle(sel, id, defaultQuantity))
    ensures Selected(sel, id) ==> TotalPieces(Toggle(sel, id, defaultQuantity)) == TotalPieces(sel) - sel.quantities[id]
    ensures id !in sel.quantities ==> TotalPieces(Toggle(sel, id, defaultQuantity)) == TotalPieces(sel) + defaultQuantity
  {
    ToggleEffect(sel, id, defaultQuantity);
    if Selected(sel, id) {
      QuantitySumRemove(sel.keys, sel.quantities, id);
      QuantitySumRemoveMap(RemoveKey(sel.keys, id), sel.quantities, id);
      assert TotalPieces(Toggle(sel, id, defaultQuantity)) == QuantitySum(RemoveKey(sel.keys, id), sel.quantities - {id});
    } else if id !in sel.quantities {
      var t := Toggle(sel, id, defaultQuantity);
      QuantitySumUpdate(sel.keys, sel.quantities, id, defaultQuantity);
      assert t.keys[..|t.keys| - 1] == sel.keys;
    }
  }

  /** Dropping from the map a key the order does not hold changes no sum. */
  lemma {:induction false} QuantitySumRemoveMap(keys: seq<string>, quantities: map<string, int>, id: string)
    requires forall k :: k in keys ==> k in quantities && k != id
    ensures QuantitySum(keys, quantities - {id}) == QuantitySum(keys, quantities)
    decreases |keys|
  {
    if keys != [] {
      var init := keys[..|keys| - 1];
      assert forall k :: k in init ==> k in keys;
      QuantitySumRemoveMap(init, quantities, id);
    }
  }

  /** The library entry a selected id comes from: the first with that id
      (`PRESET_SHAPES.find`). */
  function FindShape(library: seq<PresetShape>, id: string): (r: Option<PresetShape>)
    ensures r.Some? ==> r.value in library && r.value.id == id
    ensures r.None? ==> forall i :: 0 <= i < |library| ==> library[i].id != id
  {
    if library == [] then None
    else if library[0].id == id then Some(library[0])
    else FindShape(library[1..], id)
  }

  /** The page id of a library shape: its name lower-cased with every run
      of white space replaced by `_`. */
  function ShapeId(name: string): string
  {
    ReplaceWhitespaceRuns(ToLower(name), '_')
  }

  /** The derived id holds no white space and no upper-case ASCII letter,
      and is no longer than the name. */
  lemma ShapeIdPlain(name: string)
    ensures |ShapeId(name)| <= |name|
    ensures forall i :: 0 <= i < |ShapeId(name)| ==> !IsWhitespace(ShapeId(name)[i]) && !('A' <= ShapeId(name)[i] <= 'Z')
  {
    var low := ToLower(name);
    ReplaceRemovesWhitespace(low, '_');
    ReplaceDrawsFrom(low, '_');
    assert forall c :: c in low ==> !('A' <= c <= 'Z');
  }

  /** Every id of the selection names a library shape. */
  predicate FromLibrary(sel: Selection, library: seq<PresetShape>)
  {
    forall i :: 0 <= i < |sel.keys| ==> FindShape(library, sel.keys[i]).Some?
  }

  /** A record whose ids are old ones or one more library id still names
      only library shapes. */
  lemma FromLibraryGrow(sel: Selection, next: Selection, library: seq<PresetShape>, shape: PresetShape)
    requires FromLibrary(sel, library) && shape in library
    requires forall k :: k in next.keys ==> k in sel.keys || k == shape.id
    ensures FromLibrary(next, library)
  {
    forall i | 0 <= i < |next.keys|
      ensures FindShape(library, next.keys[i]).Some?
    {
      var k := next.keys[i];
      assert k in next.keys;
      if k != shape.id {
        assert k in sel.keys;
        var j :| 0 <= j < |sel.keys| && sel.keys[j] == k;
      }
    }
  }

  /** The shape handed to the page for one selected id. */
  function AddedShape(library: seq<PresetShape>, id: string, quantity: int, unit: Unit): NewShape
    requires FindShape(library, id).Some?
  {
    var shape := FindShape(library, id).value;
    NewShape(ShapeId(shape.name), ScalePoints(shape.points, shape.sizeUnit, unit), quantity)
  }

  /** The shapes for a list of selected ids, in order. */
  function AddedShapes(library: seq<PresetShape>, keys: seq<string>, quantities: map<string, int>, unit: Unit): (r: seq<NewShape>)
    requires forall k :: k in keys ==> k in quantities && FindShape(library, k).Some?
    ensures |r| == |keys|
    ensures forall i :: 0 <= i < |keys| ==> r[i] == AddedShape(library, keys[i], quantities[keys[i]], unit)
  {
    seq(|keys|, i requires 0 <= i < |keys| => AddedShape(library, keys[i], quantities[keys[i]], unit))
  }

  /** `handleAddSelected`: one shape per selected entry, in the record's
      order, named after the library shape, scaled to the page's unit and
      carrying the selected quantity. */
  function ShapesToAdd(library: seq<PresetShape>, sel: Selection, unit: Unit): seq<NewShape>
    requires WellFormed(sel) && FromLibrary(sel, library)
  {
    AddedShapes(library, sel.keys, sel.quantities, unit)
  }

  /** The quantities of a list of shapes, summed. */
  function AddedCopies(shapes: seq<NewShape>): int
    decreases |shapes|
  {
    if shapes == [] then 0 else AddedCopies(shapes[..|shapes| - 1]) + shapes[|shapes| - 1].quantity
  }

  lemma {:induction false} AddedCopiesSum(library: seq<PresetShape>, keys: seq<string>, quantities: map<string, int>, unit: Unit)
    requires forall k :: k in keys ==> k in quantities && FindShape(library, k).Some?
    ensures AddedCopies(AddedShapes(library, keys, quantities, unit)) == QuantitySum(keys, quantities)
    decreases |keys|
  {
    if keys != [] {
      var init, last := keys[..|keys| - 1], keys[|keys| - 1];
      assert forall i :: 0 <= i < |init| ==> init[i] == keys[i];
      AddedCopiesSum(library, init, quantities, unit);
      var all := AddedShapes(library, keys, quantities, unit);
      assert all[..|all| - 1] == AddedShapes(library, init, quantities, unit);
      assert all[|all| - 1].quantity == quantities[last];
    }
  }

  /** The shapes added are one per selected entry, with the derived id, the
      points scaled to the page's unit and the selected quantity, and
      together they carry exactly the selection's total. */
  lemma ShapesToAddProperties(library: seq<PresetShape>, sel: Selection, unit: Unit)
    requires WellFormed(sel) && FromLibrary(sel, library)
    ensures var r := ShapesToAdd(library, sel, unit);
      |r| == |sel.keys| &&
      forall i :: 0 <= i < |r| ==>
        var shape := FindShape(library, sel.keys[i]).value;
        && shape.id == sel.keys[i]
        && r[i].id == ShapeId(shape.name)
        && |r[i].points| == |shape.points|
        && r[i].quantity == sel.quantities[sel.keys[i]]
    ensures AddedCopies(ShapesToAdd(library, sel, unit)) == TotalPieces(sel)
  {
    assert forall k :: k in sel.keys ==> k in sel.quantities && FindShape(library, k).Some?;
    AddedCopiesSum(library, sel.keys, sel.quantities, unit);
  }

  // ---------------------------------------------------------------------------
  // The component's selection state
  // ---------------------------------------------------------------------------

  /** The selection record of the modal over a fixed library. */
  class Picker {
    const library: seq<PresetShape>
    var selected: Selection

    /** The record is well formed and names only library shapes. */
    predicate Valid()
      reads this
    {
      WellFormed(selected) && FromLibrary(selected, library)
    }

    /** Nothing is selected. */
    constructor(library: seq<PresetShape>)
      ensures this.library == library && selected == NoSelection && Valid()
    {
      this.library := library;
      selected := NoSelection;
    }

    /** `handleShapeToggle` for a library shape. */
    method ToggleShape(shape: PresetShape)
      requires Valid() && shape in library
      modifies this
      ensures Valid()
      ensures selected == Toggle(old(selected), shape.id, shape.defaultQuantity)
    {
      ToggleEffect(selected, shape.id, shape.defaultQuantity);
      FromLibraryGrow(selected, Toggle(selected, shape.id, shape.defaultQuantity), library, shape);
      selected := Toggle(selected, shape.id, shape.defaultQuantity);
    }

    /** `handleQuantityChange` for a library shape. */
    method SetQuantity(shape: PresetShape, q: int)
      requires Valid() && shape in library
      modifies this
      ensures Valid()
      ensures selected == ChangeQuantity(old(selected), shape.id, q)
    {
      ChangeQuantityEffect(selected, shape.id, q);
      FromLibraryGrow(selected, ChangeQuantity(selected, shape.id, q), library, shape);
      selected := ChangeQuantity(selected, shape.id, q);
    }

    /** `handleAddSelected`: hand the selected shapes to the page, scaled to
        its unit, and clear the record. */
    method AddSelected(unit: Unit) returns (shapes: seq<NewShape>)
      requires Valid()
      modifies this
      ensures shapes == ShapesToAdd(library, old(selected), unit)
      ensures selected == NoSelection && Valid()
    {
      shapes := ShapesToAdd(library, selected, unit);
      selected := NoSelection;
    }
  }
}
