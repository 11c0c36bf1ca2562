// The arithmetic a display item offers its material: its relative axes, the
// space reserved by margins and padding, the justification and cell
// alignment offsets, its translation and size, its fill-precedence override,
// and the revision of a size proposal by its size attributes. The item's
// runtime attribute set appears as the answers it gives this frame.
module ItemGeometry {
  import opened Wrappers
  import opened Geometry
  import opened Proposal
  import CInt
  import AttributeKey
  import Property

  /** What the item's runtime attribute set answers, by attribute key:
      `getInt`, `getProperty`, `checkActive` and `isConst`. `getInt` yields a
      double, and every use of it here converts it to an `int`; `ints` holds
      that converted value, the double truncated toward zero
      (`CInt.TruncateToInt`). */
  datatype ItemAttributes = ItemAttributes(
    ints: map<int, int>,
    properties: map<int, int>,
    active: set<int>,
    consts: set<int>)

  function GetInt(at: ItemAttributes, key: int): Option<int>
  {
    if key in at.ints then Some(at.ints[key]) else None
  }

  function GetProperty(at: ItemAttributes, key: int): Option<int>
  {
    if key in at.properties then Some(at.properties[key]) else None
  }

  /** `key ? *key : 0` returned as an `int`. */
  function IntOrZero(at: ItemAttributes, key: int): int
  {
    match GetInt(at, key)
    case None => 0
    case Some(v) => v
  }

  // ---- relative axes ----

  /** `getRelativeAdjacent`: the Orientation property picks the item's
      adjacent axis; without one it is the default, Horizontal. */
  function RelativeAdjacent(at: ItemAttributes): (r: Angle)
    ensures r == Vertical <==>
              (AttributeKey.Orientation in at.properties &&
               at.properties[AttributeKey.Orientation] != Property.AdjacentIsHorizontal)
  {
    match GetProperty(at, AttributeKey.Orientation)
    case None => Adjacent
    case Some(p) => if p == Property.AdjacentIsHorizontal then Horizontal else Vertical
  }

  /** `getRelativeOpposite`: always the other axis. */
  function RelativeOpposite(at: ItemAttributes): (r: Angle)
    ensures r != RelativeAdjacent(at) && r == OtherAngle(RelativeAdjacent(at))
  {
    if RelativeAdjacent(at) == Horizontal then Vertical else Horizontal
  }

  /** `correctAngle`: the semantic Adjacent (the alias of Horizontal) becomes
      the item's relative adjacent, anything else its relative opposite. */
  function CorrectAngle(at: ItemAttributes, a: Angle): (r: Angle)
    ensures (r == RelativeAdjacent(at)) <==> (a == Adjacent)
  {
    if a == Adjacent then RelativeAdjacent(at) else RelativeOpposite(at)
  }

  /** `correctAngle` is a permutation of the two axes. */
  lemma CorrectAngleIsBijective(at: ItemAttributes)
    ensures CorrectAngle(at, Horizontal) != CorrectAngle(at, Vertical)
    ensures CorrectAngle(at, CorrectAngle(at, Horizontal)) == Horizontal ||
            CorrectAngle(at, CorrectAngle(at, Horizontal)) == RelativeAdjacent(at)
  {
  }

  // ---- reserved space, per absolute axis ----

  /** `getReservedForKey`: the adjacent key along the relative adjacent axis,
      the opposite key otherwise; an absent attribute reserves 0. */
  function ReservedForKey(at: ItemAttributes, a: Angle, adjacentKey: int, oppositeKey: int): int
  {
    IntOrZero(at, if a == RelativeAdjacent(at) then adjacentKey else oppositeKey)
  }

  function InnerMargin(at: ItemAttributes, a: Angle): int
  { ReservedForKey(at, a, AttributeKey.MarginAdjIn, AttributeKey.MarginOppIn) }

  function OuterMargin(at: ItemAttributes, a: Angle): int
  { ReservedForKey(at, a, AttributeKey.MarginAdjOut, AttributeKey.MarginOppOut) }

  function InnerPadding(at: ItemAttributes, a: Angle): int
  { ReservedForKey(at, a, AttributeKey.PaddingAdjIn, AttributeKey.PaddingOppIn) }

  function OuterPadding(at: ItemAttributes, a: Angle): int
  { ReservedForKey(at, a, AttributeKey.PaddingAdjOut, AttributeKey.PaddingOppOut) }

  function ReservedMargin(at: ItemAttributes, a: Angle): int
  { InnerMargin(at, a) + OuterMargin(at, a) }

  function ReservedPadding(at: ItemAttributes, a: Angle): int
  { InnerPadding(at, a) + OuterPadding(at, a) }

  function ReservedInner(at: ItemAttributes, a: Angle): int
  { InnerMargin(at, a) + InnerPadding(at, a) }

  function ReservedOuter(at: ItemAttributes, a: Angle): int
  { OuterMargin(at, a) + OuterPadding(at, a) }

  function Reserved(at: ItemAttributes, a: Angle): int
  { ReservedInner(at, a) + ReservedOuter(at, a) }

  /** The four attribute values read along an axis: the adjacent ones along
      the relative adjacent axis, the opposite ones along the other. */
  function FourParts(at: ItemAttributes, a: Angle): int
  {
    if a == RelativeAdjacent(at) then
      IntOrZero(at, AttributeKey.MarginAdjIn) + IntOrZero(at, AttributeKey.MarginAdjOut) +
      IntOrZero(at, AttributeKey.PaddingAdjIn) + IntOrZero(at, AttributeKey.PaddingAdjOut)
    else
      IntOrZero(at, AttributeKey.MarginOppIn) + IntOrZero(at, AttributeKey.MarginOppOut) +
      IntOrZero(at, AttributeKey.PaddingOppIn) + IntOrZero(at, AttributeKey.PaddingOppOut)
  }

  /** `getReserved(a)` is inner margin + inner padding + outer margin + outer
      padding, which is also margins + paddings, and reads the four keys of
      the axis's relative role. */
  lemma ReservedIsFourParts(at: ItemAttributes, a: Angle)
    ensures Reserved(at, a) ==
              InnerMargin(at, a) + InnerPadding(at, a) + OuterMargin(at, a) + OuterPadding(at, a)
    ensures Reserved(at, a) == ReservedMargin(at, a) + ReservedPadding(at, a)
    ensures Reserved(at, a) == ReservedInner(at, a) + ReservedOuter(at, a)
    ensures Reserved(at, a) == FourParts(at, a)
  {
  }

  // ---- reserved space, as dimensions ----

  /** The `get...Dimens` accessors as written: the relative adjacent axis's
      value goes into `w` and the relative opposite's into `h`, whatever the
      item's orientation. */
  function RelativeDimens(at: ItemAttributes, part: (ItemAttributes, Angle) -> int): Dimens
  {
    Dimens(part(at, RelativeAdjacent(at)), part(at, RelativeOpposite(at)))
  }

  /** `getReservedDimens`, as written. */
  function ReservedDimensAsWritten(at: ItemAttributes): Dimens
  {
    DimensAdd(RelativeDimens(at, ReservedInner), RelativeDimens(at, ReservedOuter))
  }

  /** The corrected accessors: each axis of the result holds that axis's value. */
  function AbsoluteDimens(at: ItemAttributes, part: (ItemAttributes, Angle) -> int): (r: Dimens)
    ensures forall a: Angle :: DimensGet(r, a) == part(at, a)
  {
    Dimens(part(at, Horizontal), part(at, Vertical))
  }

  function ReservedInnerDimens(at: ItemAttributes): Dimens { AbsoluteDimens(at, ReservedInner) }
  function ReservedOuterDimens(at: ItemAttributes): Dimens { AbsoluteDimens(at, ReservedOuter) }
  function ReservedInnerPaddingDimens(at: ItemAttributes): Dimens { AbsoluteDimens(at, InnerPadding) }
  function ReservedPaddingDimens(at: ItemAttributes): Dimens { AbsoluteDimens(at, ReservedPadding) }

  /** `getReservedDimens`, corrected: along every axis it is that axis's
      reserved space, the sum of the inner and outer dimensions. */
  function ReservedDimens(at: ItemAttributes): (r: Dimens)
    ensures forall a: Angle :: DimensGet(r, a) == Reserved(at, a)
    ensures r == DimensAdd(ReservedInnerDimens(at), ReservedOuterDimens(at))
  {
    AbsoluteDimens(at, Reserved)
  }

  /** Border space is not implemented: the inner, outer and total border
      dimensions are all (0,0). */
  const ReservedBorderDimens: Dimens := DimensAdd(ZeroDimens, ZeroDimens)

  /** For a horizontally oriented item (the default) the as-written
      dimensions are the corrected ones. */
  lemma ReservedDimensAsWrittenWhenHorizontal(at: ItemAttributes)
    requires RelativeAdjacent(at) == Horizontal
    ensures RelativeDimens(at, ReservedInner) == ReservedInnerDimens(at)
    ensures ReservedDimensAsWritten(at) == ReservedDimens(at)
  {
  }

  /** A vertically oriented item with an inner adjacent margin of 5 (and
      nothing else) reserves 5 vertically and nothing horizontally, yet the
      as-written dimensions put the 5 into the width. */
  lemma ReservedDimensAsWrittenSwapsAxes()
    ensures var at := ItemAttributes(map[AttributeKey.MarginAdjIn := 5],
                                     map[AttributeKey.Orientation := Property.AdjacentIsVertical],
                                     {}, {});
            Reserved(at, Vertical) == 5 && Reserved(at, Horizontal) == 0 &&
            ReservedDimensAsWritten(at) == Dimens(5, 0) &&
            ReservedDimens(at) == Dimens(0, 5)
  {
    var at := ItemAttributes(map[AttributeKey.MarginAdjIn := 5],
                             map[AttributeKey.Orientation := Property.AdjacentIsVertical],
                             {}, {});
    assert RelativeAdjacent(at) == Vertical;
    assert IntOrZero(at, AttributeKey.MarginAdjIn) == 5;
    assert Reserved(at, Vertical) == 5 by {
      assert FourParts(at, Vertical) == 5;
    }
    assert Reserved(at, Horizontal) == 0 by {
      assert FourParts(at, Horizontal) == 0;
    }
  }

  // ---- justification and cell alignment ----

  /** The alignment properties an item can carry. */
  function AlignmentOf(p: int): Option<Alignment>
  {
    if p == Property.Inner then Some(Inner)
    else if p == Property.Center then Some(Center)
    else if p == Property.Outer then Some(Outer)
    else None
  }

  /** `(size ? size / 2 : 0)`: half a size, truncated toward zero. */
  function Half(size: int): (r: int)
    ensures r == CInt.Div(size, 2)
  {
    if size != 0 then CInt.Div(size, 2) else 0
  }

  /** An item of `item` units at offset `o` in a cell of `cell` units is
      centred: the space before it and the space after it differ by at most 1. */
  predicate Centred(o: int, item: int, cell: int)
  {
    -1 <= (cell - (o + item)) - o <= 1
  }

  lemma {:induction false} HalfCentres(item: int, cell: int)
    requires 0 <= item && 0 <= cell
    ensures Centred(Half(cell) - Half(item), item, cell)
  {
    assert cell == 2 * (cell / 2) + cell % 2;
    assert item == 2 * (item / 2) + item % 2;
  }

  /** `getJustificationOffset`: the offset of a row of `item` units inside
      `cell` units. None stands for the source's assertion failure on a
      Justify property that is not Inner, Center or Outer. */
  function JustificationOffset(at: ItemAttributes, item: int, cell: int): (r: Option<int>)
  {
    match GetProperty(at, AttributeKey.Justify)
    case None => Some(0)
    case Some(p) =>
      match AlignmentOf(p)
      case None => None
      case Some(Inner) => Some(0)
      case Some(Center) => Some(Half(cell) - Half(item))
      case Some(Outer) => Some(cell - item)
  }

  /** The justification of each of a sequence of rows `items[r]` units
      long, if every one is accepted. */
  function Justifications(at: ItemAttributes, items: seq<int>, cell: int): (js: Option<seq<int>>)
    ensures js.Some? ==> (|js.value| == |items| &&
              forall r :: 0 <= r < |items| ==> JustificationOffset(at, items[r], cell) == Some(js.value[r]))
    ensures js.None? ==> exists r :: 0 <= r < |items| && JustificationOffset(at, items[r], cell).None?
  {
    if items == [] then Some([])
    else
      var rest := Justifications(at, items[..|items| - 1], cell);
      var last := JustificationOffset(at, items[|items| - 1], cell);
      assert forall r :: 0 <= r < |items| - 1 ==> items[..|items| - 1][r] == items[r];
      if rest.None? || last.None? then None else Some(rest.value + [last.value])
  }

  /** Without a Justify property, or with Inner, the row starts the cell;
      Outer makes it end flush with the cell; Center centres it; any other
      property is refused. */
  lemma {:induction false} JustificationMeaning(at: ItemAttributes, item: int, cell: int)
    requires 0 <= item && 0 <= cell
    ensures var j := GetProperty(at, AttributeKey.Justify);
            var r := JustificationOffset(at, item, cell);
            (r.Some? <==> (j.None? || AlignmentOf(j.value).Some?)) &&
            ((j.None? || AlignmentOf(j.value) == Some(Inner)) ==> r == Some(0)) &&
            (j.Some? && AlignmentOf(j.value) == Some(Outer) ==> r.Some? && r.value + item == cell) &&
            (j.Some? && AlignmentOf(j.value) == Some(Center) ==> r.Some? && Centred(r.value, item, cell))
  {
    HalfCentres(item, cell);
  }

  /** `getAlignmentProperty`: AlignAdjacent along the relative adjacent
      axis, AlignOpposite along the other. */
  function AlignmentProperty(at: ItemAttributes, a: Angle): Option<int>
  {
    GetProperty(at, if RelativeAdjacent(at) == a then AttributeKey.AlignAdjacent else AttributeKey.AlignOpposite)
  }

  /** `getCellAlignmentOffset`: the offset of the drawing area (`item` units)
      inside its cell (`cell` units) along `a`. The alignment property is
      used only while the item is smaller than the cell; otherwise the
      default, Inner, applies. None stands for the source's assertion
      failure on a property that is not Inner, Center or Outer. */
  function CellAlignmentOffset(at: ItemAttributes, a: Angle, item: int, cell: int,
                               reservedInner: int, reservedOuter: int): (r: Option<int>)
  {
    var opt := AlignmentProperty(at, a);
    var p := if opt.Some? && item < cell then opt.value else Property.Inner;
    match AlignmentOf(p)
    case None => None
    case Some(Inner) => Some(reservedInner)
    case Some(Center) => Some(Half(cell) - Half(item))
    case Some(Outer) => Some(cell - item - reservedOuter)
  }

  /** Inner alignment, and every item that fills its cell or more, sits just
      after the inner reserve; Outer leaves exactly the outer reserve after
      the item; Center centres it in the whole cell and ignores the reserves. */
  lemma {:induction false} CellAlignmentMeaning(at: ItemAttributes, a: Angle, item: int, cell: int,
                                                reservedInner: int, reservedOuter: int)
    requires 0 <= item && 0 <= cell
    ensures var r := CellAlignmentOffset(at, a, item, cell, reservedInner, reservedOuter);
            var opt := AlignmentProperty(at, a);
            (item >= cell || opt.None? ==> r == Some(reservedInner)) &&
            (item < cell && opt.Some? ==> (r.Some? <==> AlignmentOf(opt.value).Some?)) &&
            (item < cell && opt.Some? && AlignmentOf(opt.value) == Some(Inner) ==> r == Some(reservedInner)) &&
            (item < cell && opt.Some? && AlignmentOf(opt.value) == Some(Outer) ==>
               r.Some? && r.value + item + reservedOuter == cell) &&
            (item < cell && opt.Some? && AlignmentOf(opt.value) == Some(Center) ==>
               r.Some? && Centred(r.value, item, cell))
  {
    HalfCentres(item, cell);
  }

  /** One axis of the Coords overload: the components of the dimensions along `a`. */
  function AxisAlignment(at: ItemAttributes, a: Angle, item: Dimens, cell: Dimens,
                         reservedInner: Dimens, reservedOuter: Dimens): Option<int>
  {
    CellAlignmentOffset(at, a, DimensGet(item, a), DimensGet(cell, a),
                        DimensGet(reservedInner, a), DimensGet(reservedOuter, a))
  }

  /** The Coords overload: one cell alignment offset per axis. */
  function CellAlignmentCoords(at: ItemAttributes, item: Dimens, cell: Dimens,
                               reservedInner: Dimens, reservedOuter: Dimens): (r: Option<Coords>)
    ensures r.Some? <==> (AxisAlignment(at, Horizontal, item, cell, reservedInner, reservedOuter).Some? &&
                          AxisAlignment(at, Vertical, item, cell, reservedInner, reservedOuter).Some?)
    ensures r.Some? ==> (forall a: Angle :: CoordsGet(r.value, a) ==
                           AxisAlignment(at, a, item, cell, reservedInner, reservedOuter).value)
  {
    var x := AxisAlignment(at, Horizontal, item, cell, reservedInner, reservedOuter);
    var y := AxisAlignment(at, Vertical, item, cell, reservedInner, reservedOuter);
    if x.Some? && y.Some? then Some(Coords(x.value, y.value)) else None
  }

  /** `getCellAlignmentOffsetMindingReserved`, over the corrected reserved dimensions. */
  function CellAlignmentMindingReserved(at: ItemAttributes, item: Dimens, cell: Dimens): Option<Coords>
  {
    CellAlignmentCoords(at, item, cell, ReservedInnerDimens(at), ReservedOuterDimens(at))
  }

  // ---- translation, size, fill override ----

  /** `getTranslationOffset`: TranslationA along the relative adjacent axis
      and TranslationO along the relative opposite, each 0 when absent. */
  function TranslationOffset(at: ItemAttributes): (r: Coords)
    ensures CoordsGet(r, RelativeAdjacent(at)) == IntOrZero(at, AttributeKey.TranslationA)
    ensures CoordsGet(r, RelativeOpposite(at)) == IntOrZero(at, AttributeKey.TranslationO)
  {
    var adjacent := if GetInt(at, AttributeKey.TranslationA).Some?
                    then CoordsSet(ZeroCoords, RelativeAdjacent(at), GetInt(at, AttributeKey.TranslationA).value)
                    else ZeroCoords;
    if GetInt(at, AttributeKey.TranslationO).Some?
    then CoordsSet(adjacent, RelativeOpposite(at), GetInt(at, AttributeKey.TranslationO).value)
    else adjacent
  }

  /** `getSizeForAngle`: through `correctAngle`, SizeA is read exactly along
      the relative adjacent axis and SizeO along the other; absent gives 0. */
  function SizeForAngle(at: ItemAttributes, a: Angle): (r: int)
    ensures r == IntOrZero(at, if a == RelativeAdjacent(at) then AttributeKey.SizeA else AttributeKey.SizeO)
  {
    IntOrZero(at, if CorrectAngle(at, a) == Adjacent then AttributeKey.SizeA else AttributeKey.SizeO)
  }

  /** `filterFillPrecedenceForAngle`: the override property of the axis's
      relative role, if any. A property other than Greedy or Shrinky makes
      the source terminate, an Err here. */
  function FillOverride(at: ItemAttributes, a: Angle): (r: Result<Option<FillPrecedence>>)
    ensures var key := if a == RelativeAdjacent(at) then AttributeKey.OverrideFillPrecedenceAdjacent
                       else AttributeKey.OverrideFillPrecedenceOpposite;
            (key !in at.properties ==> r == Ok(None)) &&
            (key in at.properties && at.properties[key] == Property.Greedy ==> r == Ok(Some(Greedy))) &&
            (key in at.properties && at.properties[key] == Property.Shrinky ==> r == Ok(Some(Shrinky))) &&
            (r.Err? <==> key in at.properties && at.properties[key] != Property.Greedy &&
                         at.properties[key] != Property.Shrinky)
  {
    var key := if CorrectAngle(at, a) == Adjacent then AttributeKey.OverrideFillPrecedenceAdjacent
               else AttributeKey.OverrideFillPrecedenceOpposite;
    match GetProperty(at, key)
    case None => Ok(None)
    case Some(p) =>
      if p == Property.Shrinky then Ok(Some(Shrinky))
      else if p == Property.Greedy then Ok(Some(Greedy))
      else Err("unknown fill precedence")
  }

  // ---- revising a proposal ----

  /** The size attribute that governs axis `a`. */
  function SizeKey(at: ItemAttributes, a: Angle): int
  {
    if a == RelativeAdjacent(at) then AttributeKey.SizeA else AttributeKey.SizeO
  }

  /** One axis of `reviseProposalForDrawingArea`. An active size attribute
      with a value sets the proposed size; a constant one also forbids
      growing and shrinking; a non-constant one rounds the proposal's
      dimensions against the proposal itself. */
  function ReviseAxis(at: ItemAttributes, prop: GeometryProposal, a: Angle): GeometryProposal
  {
    var key := SizeKey(at, a);
    if key !in at.active || GetInt(at, key).None? then prop
    else
      var sized := SetProposed(prop, a, GetInt(at, key).value);
      if key in at.consts then SetShrink(SetExpand(sized, a, false), a, false)
      else sized.(proposedDimensions := RoundConflicts(sized, sized.proposedDimensions))
  }

  /** `reviseProposalForDrawingArea`: the horizontal axis, then the vertical. */
  function ReviseProposal(at: ItemAttributes, prop: GeometryProposal): GeometryProposal
  {
    ReviseAxis(at, ReviseAxis(at, prop, Horizontal), Vertical)
  }

  /** What revision promises for axis `a`. */
  predicate RevisedAxis(at: ItemAttributes, prop: GeometryProposal, r: GeometryProposal, a: Angle)
  {
    var key := SizeKey(at, a);
    if key in at.active && GetInt(at, key).Some? then
      DimensGet(r.proposedDimensions, a) == GetInt(at, key).value &&
      (key in at.consts ==> !Expand(r, a) && !Shrink(r, a)) &&
      (key !in at.consts ==> Expand(r, a) == Expand(prop, a) && Shrink(r, a) == Shrink(prop, a))
    else
      DimensGet(r.proposedDimensions, a) == DimensGet(prop.proposedDimensions, a) &&
      Expand(r, a) == Expand(prop, a) && Shrink(r, a) == Shrink(prop, a)
  }

  /** A proposal rounded against itself is unchanged: the source's
      non-constant branch has no effect beyond setting the size. */
  lemma RoundAgainstItself(p: GeometryProposal)
    ensures RoundConflicts(p, p.proposedDimensions) == p.proposedDimensions
  {
    assert !AxisViolates(p, p.proposedDimensions, Horizontal);
    assert !AxisViolates(p, p.proposedDimensions, Vertical);
  }

  /** Revising one axis does what `RevisedAxis` says and leaves the other
      axis, `allowPartial` and `freshPass` alone. */
  lemma {:induction false} ReviseAxisMeaning(at: ItemAttributes, prop: GeometryProposal, a: Angle)
    ensures RevisedAxis(at, prop, ReviseAxis(at, prop, a), a)
    ensures var r := ReviseAxis(at, prop, a);
            var b := OtherAngle(a);
            DimensGet(r.proposedDimensions, b) == DimensGet(prop.proposedDimensions, b) &&
            Expand(r, b) == Expand(prop, b) && Shrink(r, b) == Shrink(prop, b) &&
            r.allowPartial == prop.allowPartial && r.freshPass == prop.freshPass
  {
    var key := SizeKey(at, a);
    if key in at.active && GetInt(at, key).Some? {
      var sized := SetProposed(prop, a, GetInt(at, key).value);
      RoundAgainstItself(sized);
    }
  }

  /** Each axis of the revised proposal is revised by its own size attribute
      alone; the remaining fields are kept. */
  lemma {:induction false} ReviseProposalMeaning(at: ItemAttributes, prop: GeometryProposal)
    ensures forall a: Angle :: RevisedAxis(at, prop, ReviseProposal(at, prop), a)
    ensures ReviseProposal(at, prop).allowPartial == prop.allowPartial
    ensures ReviseProposal(at, prop).freshPass == prop.freshPass
  {
    var h := ReviseAxis(at, prop, Horizontal);
    ReviseAxisMeaning(at, prop, Horizontal);
    ReviseAxisMeaning(at, h, Vertical);
  }
}
