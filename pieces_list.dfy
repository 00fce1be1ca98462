/** The piece table of `pieces-list.tsx`: the list itself belongs to the
    page and every change is handed back as a new list; the component keeps
    only the row being edited and its form. */
module PiecesList {
  import opened Common
  import opened Geometry
  import opened Text
  import opened Units

  /** A row of the table. */
  datatype ListPiece = ListPiece(id: string, points: Polygon, quantity: int)

  /** The edit form. */
  datatype EditForm = EditForm(id: string, quantity: int)

  /** The width, height and area shown for a piece, in the current unit. */
  datatype Dimensions = Dimensions(width: real, height: real, area: real)

  // ---------------------------------------------------------------------------
  // List operations
  // ---------------------------------------------------------------------------

  /** `saveEdit`: with a row being edited and a name that is not blank,
      the list with that row renamed to the trimmed name and its quantity
      raised to at least 1; otherwise no new list. */
  function SaveEdit(pieces: seq<ListPiece>, editingIndex: Option<int>, form: EditForm): Option<seq<ListPiece>>
  {
    if editingIndex.Some? && Trim(form.id) != [] then
      Some(seq(|pieces|, i requires 0 <= i < |pieces| =>
        if i == editingIndex.value
        then pieces[i].(id := Trim(form.id), quantity := if form.quantity > 1 then form.quantity else 1)
        else pieces[i]))
    else None
  }

  /** Saving produces a list exactly when a row is edited and the name is
      not blank; the new list has the same length, the edited row keeps its
      points and gets the trimmed name and a quantity of at least 1, and
      every other row is unchanged. */
  lemma SaveEditChangesOneRow(pieces: seq<ListPiece>, editingIndex: Option<int>, form: EditForm)
    ensures SaveEdit(pieces, editingIndex, form).Some? <==> editingIndex.Some? && Trim(form.id) != []
    ensures SaveEdit(pieces, editingIndex, form).Some? ==>
      var r := SaveEdit(pieces, editingIndex, form).value;
      && |r| == |pieces|
      && (forall i :: 0 <= i < |r| && i != editingIndex.value ==> r[i] == pieces[i])
      && (0 <= editingIndex.value < |r| ==>
            var e := r[editingIndex.value];
            && e.points == pieces[editingIndex.value].points
            && e.id == Trim(form.id) && e.id != [] && e.quantity >= 1
            && (form.quantity >= 1 ==> e.quantity == form.quantity))
  {
  }

  /** `pieces.filter((_, i) => i !== index)`. */
  function Without(pieces: seq<ListPiece>, index: int): (r: seq<ListPiece>)
    decreases |pieces|
  {
    if pieces == [] then []
    else
      var rest := Without(pieces[..|pieces| - 1], index);
      if |pieces| - 1 == index then rest else rest + [pieces[|pieces| - 1]]
  }

  /** The filter drops exactly the row at `index` and keeps the others in
      order; an index outside the list drops nothing. */
  lemma {:induction false} WithoutRemovesOne(pieces: seq<ListPiece>, index: int)
    ensures 0 <= index < |pieces| ==> Without(pieces, index) == pieces[..index] + pieces[index + 1..]
    ensures !(0 <= index < |pieces|) ==> Without(pieces, index) == pieces
    decreases |pieces|
  {
    if pieces != [] {
      var init := pieces[..|pieces| - 1];
      WithoutRemovesOne(init, index);
      if index == |pieces| - 1 {
        assert pieces[..index] + pieces[index + 1..] == init;
      } else if 0 <= index < |init| {
        assert pieces[..index] + pieces[index + 1..] == init[..index] + init[index + 1..] + [pieces[|pieces| - 1]];
      } else {
        assert init + [pieces[|pieces| - 1]] == pieces;
      }
    }
  }

  /** `deletePiece`: once confirmed, the list without the row. */
  function DeletePiece(pieces: seq<ListPiece>, index: int, confirmed: bool): Option<seq<ListPiece>>
  {
    if confirmed then Some(Without(pieces, index)) else None
  }

  /** `duplicatePiece`: the list with a copy of the row appended, named
      `<id>_copia`. */
  function DuplicatePiece(pieces: seq<ListPiece>, index: nat): (r: seq<ListPiece>)
    requires index < |pieces|
  {
    pieces + [pieces[index].(id := pieces[index].id + "_copia")]
  }

  /** The duplicate keeps every row and adds one at the end with the same
      points and quantity, whose name is the original one followed by
      `_copia`. */
  lemma DuplicateAppendsCopy(pieces: seq<ListPiece>, index: nat)
    requires index < |pieces|
    ensures var r := DuplicatePiece(pieces, index);
      && |r| == |pieces| + 1 && r[..|pieces|] == pieces
      && r[|pieces|].points == pieces[index].points && r[|pieces|].quantity == pieces[index].quantity
      && r[|pieces|].id[..|pieces[index].id|] == pieces[index].id
      && r[|pieces|].id[|pieces[index].id|..] == "_copia"
  {
  }

  // ---------------------------------------------------------------------------
  // Dimensions and totals
  // ---------------------------------------------------------------------------

  /** `getPieceDimensions`: zeros for no points, otherwise the bounding
      box's width and height converted from millimetres to the current unit,
      and their product. */
  function PieceDimensions(points: Polygon, unit: Unit): (d: Dimensions)
    ensures points == [] ==> d == Dimensions(0.0, 0.0, 0.0)
  {
    if points == [] then Dimensions(0.0, 0.0, 0.0)
    else
      var b := Bounds(points);
      Rectangle(Convert(b.maxX - b.minX, Mm, unit), Convert(b.maxY - b.minY, Mm, unit))
  }

  /** A width and a height together with their product. */
  function Rectangle(width: real, height: real): Dimensions
  {
    Dimensions(width, height, width * height)
  }

  /** The dimensions of a drawn piece are never negative. */
  lemma DimensionsNonNegative(points: Polygon, unit: Unit)
    requires points != []
    ensures PieceDimensions(points, unit).width >= 0.0 && PieceDimensions(points, unit).height >= 0.0
    ensures PieceDimensions(points, unit).area >= 0.0
  {
    var b := Bounds(points);
    var dx, dy := b.maxX - b.minX, b.maxY - b.minY;
    ConvertNonNegative(dx, Mm, unit);
    ConvertNonNegative(dy, Mm, unit);
  }

  /** In millimetres the dimensions are the bounding box's own width and
      height, and the area is their product. */
  lemma DimensionsInMillimetres(points: Polygon)
    requires points != []
    ensures PieceDimensions(points, Mm) == Rectangle(Width(Bounds(points)), Height(Bounds(points)))
  {
    var b := Bounds(points);
    ConvertSameUnit(b.maxX - b.minX, Mm);
    ConvertSameUnit(b.maxY - b.minY, Mm);
  }

  /** `totalPieces`: the sum of the quantities. */
  function TotalPieces(pieces: seq<ListPiece>): int
    decreases |pieces|
  {
    if pieces == [] then 0 else TotalPieces(pieces[..|pieces| - 1]) + pieces[|pieces| - 1].quantity
  }

  lemma {:induction false} TotalPiecesConcat(a: seq<ListPiece>, b: seq<ListPiece>)
    ensures TotalPieces(a + b) == TotalPieces(a) + TotalPieces(b)
    decreases |b|
  {
    if b == [] {
      assert a + b == a;
    } else {
      TotalPiecesConcat(a, b[..|b| - 1]);
      assert (a + b)[..|a + b| - 1] == a + b[..|b| - 1];
    }
  }

  /** Duplicating a row adds its quantity to the total. */
  lemma TotalAfterDuplicate(pieces: seq<ListPiece>, index: nat)
    requires index < |pieces|
    ensures TotalPieces(DuplicatePiece(pieces, index)) == TotalPieces(pieces) + pieces[index].quantity
  {
    var r := DuplicatePiece(pieces, index);
    assert r[..|pieces|] == pieces;
  }

  /** Deleting a row takes its quantity off the total; an index outside
      the list changes nothing. */
  lemma {:induction false} TotalAfterDelete(pieces: seq<ListPiece>, index: int)
    ensures 0 <= index < |pieces| ==>
      TotalPieces(Without(pieces, index)) == TotalPieces(pieces) - pieces[index].quantity
    ensures !(0 <= index < |pieces|) ==> TotalPieces(Without(pieces, index)) == TotalPieces(pieces)
    decreases |pieces|
  {
    if pieces != [] {
      var init := pieces[..|pieces| - 1];
      var last := pieces[|pieces| - 1];
      TotalAfterDelete(init, index);
      var rest := Without(init, index);
      if |pieces| - 1 != index {
        assert (rest + [last])[..|rest|] == rest;
      }
      if 0 <= index < |init| {
        assert init[index] == pieces[index];
      }
    }
  }

  /** `totalArea`: the sum of each row's area times its quantity. */
  function TotalArea(pieces: seq<ListPiece>, unit: Unit): real
    decreases |pieces|
  {
    if pieces == [] then 0.0
    else
      TotalArea(pieces[..|pieces| - 1], unit) + RowArea(pieces[|pieces| - 1], unit)
  }

  /** One row's share of the total area. */
  function RowArea(piece: ListPiece, unit: Unit): real
  {
    PieceDimensions(piece.points, unit).area * (piece.quantity as real)
  }

  /** A row with a non-negative quantity adds a non-negative area. */
  lemma RowAreaNonNegative(piece: ListPiece, unit: Unit)
    requires piece.quantity >= 0
    ensures RowArea(piece, unit) >= 0.0
  {
    var d := PieceDimensions(piece.points, unit);
    if piece.points != [] {
      DimensionsNonNegative(piece.points, unit);
    }
    ProductNonNegative(d.area, piece.quantity as real);
  }

  /** With no negative quantity the total area is never negative. */
  lemma {:induction false} TotalAreaNonNegative(pieces: seq<ListPiece>, unit: Unit)
    requires forall i :: 0 <= i < |pieces| ==> pieces[i].quantity >= 0
    ensures TotalArea(pieces, unit) >= 0.0
    decreases |pieces|
  {
    if pieces != [] {
      var init := pieces[..|pieces| - 1];
      assert forall i :: 0 <= i < |init| ==> init[i] == pieces[i];
      TotalAreaNonNegative(init, unit);
      RowAreaNonNegative(pieces[|pieces| - 1], unit);
    }
  }

  lemma ProductNonNegative(x: real, y: real)
    requires x >= 0.0 && y >= 0.0
    ensures x * y >= 0.0
  {
  }

  // ---------------------------------------------------------------------------
  // The component's own state
  // ---------------------------------------------------------------------------

  /** `parseInt(...) || 1`: an unreadable entry or a zero gives 1; the
      clamp to at least 1 happens only on save. */
  function FormQuantity(parsed: Option<int>): (q: int)
    ensures parsed.Some? && parsed.value != 0 ==> q == parsed.value
    ensures parsed.None? || parsed.value == 0 ==> q == 1
  {
    match parsed
    case None => 1
    case Some(n) => if n == 0 then 1 else n
  }

  /** The row being edited and its form. */
  class Editor {
    var editingIndex: Option<int>
    var form: EditForm

    /** No row is edited; the form is blank with quantity 1. */
    constructor()
      ensures editingIndex == None && form == EditForm("", 1)
    {
      editingIndex := None;
      form := EditForm("", 1);
    }

    /** `startEditing`: load the row into the form. */
    method StartEditing(pieces: seq<ListPiece>, index: nat)
      requires index < |pieces|
      modifies this
      ensures editingIndex == Some(index as int)
      ensures form == EditForm(pieces[index].id, pieces[index].quantity)
    {
      form := EditForm(pieces[index].id, pieces[index].quantity);
      editingIndex := Some(index as int);
    }

    /** `cancelEditing`: back to no row and a blank form. */
    method CancelEditing()
      modifies this
      ensures editingIndex == None && form == EditForm("", 1)
    {
      editingIndex := None;
      form := EditForm("", 1);
    }

    /** The name field. */
    method SetFormId(text: string)
      modifies this
      ensures form == old(form).(id := text) && editingIndex == old(editingIndex)
    {
      form := form.(id := text);
    }

    /** The quantity field, given what `parseInt` read from it. */
    method SetFormQuantity(parsed: Option<int>)
      modifies this
      ensures form == old(form).(quantity := FormQuantity(parsed)) && editingIndex == old(editingIndex)
    {
      form := form.(quantity := FormQuantity(parsed));
    }

    /** `saveEdit`: hand back the updated list and reset the form, or do
        nothing. */
    method Save(pieces: seq<ListPiece>) returns (updated: Option<seq<ListPiece>>)
      modifies this
      ensures updated == SaveEdit(pieces, old(editingIndex), old(form))
      ensures updated.Some? ==> editingIndex == None && form == EditForm("", 1)
      ensures updated.None? ==> editingIndex == old(editingIndex) && form == old(form)
    {
      if editingIndex.None? || Trim(form.id) == [] {
        return None;
      }
      var k := editingIndex.value;
      var name := Trim(form.id);
      var q := if form.quantity > 1 then form.quantity else 1;
      updated := Some(seq(|pieces|, i requires 0 <= i < |pieces| =>
        if i == k then pieces[i].(id := name, quantity := q) else pieces[i]));
      CancelEditing();
    }
  }
}
