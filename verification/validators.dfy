/** The checks the editing forms run before accepting a new wall
    dimension or a new opening field, and the wall invariant they protect. */
module Validators {
  import opened Geometry
  import opened Project

  const MaxWallWidth := 1000
  const MaxWallHeight := 500

  datatype WallField = WidthField | HeightField

  datatype WallError = NotPositive | WidthTooLarge | HeightTooLarge | OpeningsWouldOverflow

  /** An edit of one opening field. The numeric fields come from parseInt;
      the kind comes from a select whose values are never negative numbers. */
  datatype OpeningEdit = SetX(value: int) | SetY(value: int) | SetWidth(value: int) | SetHeight(value: int) | SetKind(kind: string)

  datatype OpeningError = Negative | ExceedsWallWidth | ExceedsWallHeight | OverlapsAnother

  function WithDimension(w: Wall, field: WallField, value: int): Wall {
    match field
    case WidthField => w.(width := value)
    case HeightField => w.(height := value)
  }

  /** Some opening of the list would stick out of a wall of this size. */
  function AnyOverflows(os: seq<Opening>, wallWidth: int, wallHeight: int): (b: bool)
    ensures b <==> exists k :: 0 <= k < |os| && OverflowsWall(os[k], wallWidth, wallHeight)
  {
    |os| > 0 && (OverflowsWall(os[0], wallWidth, wallHeight) || AnyOverflows(os[1..], wallWidth, wallHeight))
  }

  /** Validation of a new wall width or height: the first applicable
      error, or None when the value is accepted. */
  function ValidateWallDimension(w: Wall, field: WallField, value: int): (r: Option<WallError>)
    ensures r == Some(NotPositive) <==> value <= 0
    ensures r == Some(WidthTooLarge) <==> value > 0 && field == WidthField && value > MaxWallWidth
    ensures r == Some(HeightTooLarge) <==> value > 0 && field == HeightField && value > MaxWallHeight
    ensures r == Some(OpeningsWouldOverflow) <==>
      && value > 0
      && !(field == WidthField && value > MaxWallWidth)
      && !(field == HeightField && value > MaxWallHeight)
      && exists k :: 0 <= k < |w.openings| && OverflowsWall(w.openings[k], WithDimension(w, field, value).width, WithDimension(w, field, value).height)
    ensures r == None <==>
      && value > 0
      && !(field == WidthField && value > MaxWallWidth)
      && !(field == HeightField && value > MaxWallHeight)
      && forall k :: 0 <= k < |w.openings| ==> !OverflowsWall(w.openings[k], WithDimension(w, field, value).width, WithDimension(w, field, value).height)
  {
    if value <= 0 then Some(NotPositive)
    else if field == WidthField && value > MaxWallWidth then Some(WidthTooLarge)
    else if field == HeightField && value > MaxWallHeight then Some(HeightTooLarge)
    else
      var updated := WithDimension(w, field, value);
      if AnyOverflows(w.openings, updated.width, updated.height) then Some(OpeningsWouldOverflow) else None
  }

  function WithEdit(o: Opening, e: OpeningEdit): Opening {
    match e
    case SetX(v) => o.(x := v)
    case SetY(v) => o.(y := v)
    case SetWidth(v) => o.(width := v)
    case SetHeight(v) => o.(height := v)
    case SetKind(k) => o.(kind := k)
  }

  /** Some opening of the list, other than the one with identifier id,
      overlaps o. */
  function OverlapsOther(os: seq<Opening>, id: int, o: Opening): (b: bool)
    ensures b <==> exists k :: 0 <= k < |os| && os[k].id != id && OpeningsOverlap(o, os[k])
  {
    |os| > 0 && ((os[0].id != id && OpeningsOverlap(o, os[0])) || OverlapsOther(os[1..], id, o))
  }

  /** Validation of one opening edit: negative values first, then the
      horizontal bound (only for x and width), the vertical bound (only for
      y and height), and only then overlap with the other openings. */
  function ValidateOpening(w: Wall, o: Opening, e: OpeningEdit): (r: Option<OpeningError>)
    ensures r == Some(Negative) <==> !e.SetKind? && e.value < 0
    ensures r == Some(ExceedsWallWidth) <==>
      (e.SetX? || e.SetWidth?) && e.value >= 0 && WithEdit(o, e).x + WithEdit(o, e).width > w.width
    ensures r == Some(ExceedsWallHeight) <==>
      (e.SetY? || e.SetHeight?) && e.value >= 0 && WithEdit(o, e).y + WithEdit(o, e).height > w.height
    ensures r == None <==>
      && (e.SetKind? || e.value >= 0)
      && ((e.SetX? || e.SetWidth?) ==> WithEdit(o, e).x + WithEdit(o, e).width <= w.width)
      && ((e.SetY? || e.SetHeight?) ==> WithEdit(o, e).y + WithEdit(o, e).height <= w.height)
      && forall k :: 0 <= k < |w.openings| && w.openings[k].id != o.id ==> !OpeningsOverlap(WithEdit(o, e), w.openings[k])
    ensures r == Some(OverlapsAnother) <==>
      && (e.SetKind? || e.value >= 0)
      && ((e.SetX? || e.SetWidth?) ==> WithEdit(o, e).x + WithEdit(o, e).width <= w.width)
      && ((e.SetY? || e.SetHeight?) ==> WithEdit(o, e).y + WithEdit(o, e).height <= w.height)
      && exists k :: 0 <= k < |w.openings| && w.openings[k].id != o.id && OpeningsOverlap(WithEdit(o, e), w.openings[k])
  {
    var updated := WithEdit(o, e);
    if !e.SetKind? && e.value < 0 then Some(Negative)
    else if (e.SetX? || e.SetWidth?) && updated.x + updated.width > w.width then Some(ExceedsWallWidth)
    else if (e.SetY? || e.SetHeight?) && updated.y + updated.height > w.height then Some(ExceedsWallHeight)
    else if OverlapsOther(w.openings, o.id, updated) then Some(OverlapsAnother)
    else None
  }

  /** The invariant that accepted edits preserve: positive dimensions
      within the limits, openings of non-negative size inside the wall,
      distinct opening identifiers, and no two openings overlapping. Adding
      an opening is not validated, so a wall need not satisfy it. */
  ghost predicate ValidWall(w: Wall) {
    && 0 < w.width <= MaxWallWidth
    && 0 < w.height <= MaxWallHeight
    && (forall k :: 0 <= k < |w.openings| ==>
          w.openings[k].width >= 0 && w.openings[k].height >= 0 &&
          Contains(WallBounds(w.width, w.height), w.openings[k].Bounds()))
    && (forall i, j :: 0 <= i < j < |w.openings| ==> w.openings[i].id != w.openings[j].id)
    && (forall i, j :: 0 <= i < |w.openings| && 0 <= j < |w.openings| && i != j ==>
          !OpeningsOverlap(w.openings[i], w.openings[j]))
  }

  /** An accepted dimension edit keeps the wall valid. */
  lemma AcceptedWallEditKeepsValid(w: Wall, field: WallField, value: int)
    requires ValidWall(w)
    requires ValidateWallDimension(w, field, value) == None
    ensures ValidWall(WithDimension(w, field, value))
  {
    var u := WithDimension(w, field, value);
    forall k | 0 <= k < |u.openings|
      ensures Contains(WallBounds(u.width, u.height), u.openings[k].Bounds())
    {
      OverflowsIffNotContained(u.openings[k], u.width, u.height);
    }
  }

  /** The opening list after the editor applies an edit to the opening
      with identifier id. */
  function EditOpenings(os: seq<Opening>, id: int, e: OpeningEdit): (r: seq<Opening>)
    ensures |r| == |os|
    ensures forall k :: 0 <= k < |os| ==> r[k] == if os[k].id == id then WithEdit(os[k], e) else os[k]
  {
    if os == [] then [] else
    [if os[0].id == id then WithEdit(os[0], e) else os[0]] + EditOpenings(os[1..], id, e)
  }

  /** An accepted opening edit keeps the wall valid. */
  lemma AcceptedOpeningEditKeepsValid(w: Wall, k: nat, e: OpeningEdit)
    requires ValidWall(w)
    requires k < |w.openings|
    requires ValidateOpening(w, w.openings[k], e) == None
    ensures ValidWall(w.(openings := EditOpenings(w.openings, w.openings[k].id, e)))
  {
    var os := w.openings;
    var o := os[k];
    var ns := EditOpenings(os, o.id, e);
    var u := w.(openings := ns);
    forall j | 0 <= j < |ns| && j != k
      ensures ns[j] == os[j]
    {
      assert os[j].id != o.id;
    }
    assert ns[k] == WithEdit(o, e);
    forall i, j | 0 <= i < |ns| && 0 <= j < |ns| && i != j
      ensures !OpeningsOverlap(ns[i], ns[j])
    {
      if i == k {
        assert os[j].id != o.id;
      } else if j == k {
        assert os[i].id != o.id;
        OpeningsOverlapSymmetric(ns[i], ns[j]);
      }
    }
  }
}
