// The state every material keeps (its viewport and its drawing area) and
// the operations the base class performs on it: shaping through the
// concrete material's drawing-area rule, positioning, and the fill
// precedence a material reports to its parent.
module Materials {
  import opened Wrappers
  import opened Geometry
  import opened Proposal
  import opened ItemGeometry
  import CInt
  import AttributeKey

  /** The proposal `shape` hands to `shapeDrawingArea`: the item's revision
      of the official proposal (`revised`), less the reserved space, each
      axis clamped at 0. */
  function ReducedProposal(at: ItemAttributes, revised: GeometryProposal): (r: GeometryProposal)
    ensures forall a: Angle :: DimensGet(r.proposedDimensions, a) ==
              ZeroGuard(DimensGet(revised.proposedDimensions, a) - Reserved(at, a))
    ensures r == revised.(proposedDimensions := r.proposedDimensions)
  {
    var less := DimensSub(revised.proposedDimensions, ReservedDimens(at));
    revised.(proposedDimensions := Dimens(if less.w < 0 then 0 else less.w, if less.h < 0 then 0 else less.h))
  }

  function DrawingProposal(at: ItemAttributes, official: GeometryProposal): GeometryProposal
  {
    ReducedProposal(at, ReviseProposal(at, official))
  }

  /** A concrete material's drawing-area rule: the drawing area it settles
      on for the proposal it is given. */
  type DrawingRule = GeometryProposal -> Dimens

  class Material {
    /** The item this material shows, as its attributes answer this frame. */
    const item: ItemAttributes
    /** The item's identity, as the hit-test visitor sees it. */
    const id: nat
    var viewport: Rect
    /** `drawingArea.c` is relative to the viewport's origin. */
    var drawingArea: Rect

    constructor(id: nat, item: ItemAttributes)
      ensures this.id == id && this.item == item
      ensures viewport == RectOf(ZeroDimens) && drawingArea == RectOf(ZeroDimens)
    {
      this.id := id;
      this.item := item;
      viewport := RectOf(ZeroDimens);
      drawingArea := RectOf(ZeroDimens);
    }

    /** `getDrawingAreaOffset`: the relative offset placed at the viewport. */
    function DrawingAreaOffset(): Coords
      reads this
    {
      CoordsAdd(drawingArea.c, viewport.c)
    }

    /** `getDrawingArea`, in absolute coordinates. */
    function DrawingArea(): Rect
      reads this
    {
      Rect(DrawingAreaOffset(), drawingArea.d)
    }

    /** `shape`: the drawing area comes from the concrete rule applied to the
        reduced proposal (`setDrawingArea` also resets its offset); the
        viewport is the drawing area plus the reserved space, rounded against
        the official proposal, so it always complies with that proposal. */
    method Shape(official: GeometryProposal, shapeDrawingArea: DrawingRule)
      modifies this
      ensures drawingArea == RectOf(shapeDrawingArea(DrawingProposal(item, official)))
      ensures viewport == Rect(old(viewport.c), RoundConflicts(official, DimensAdd(drawingArea.d, ReservedDimens(item))))
      ensures VerifyCompliance(official, viewport.d)
    {
      var revisedProposal := ReducedProposal(item, ReviseProposal(item, official));
      drawingArea := RectOf(shapeDrawingArea(revisedProposal));
      viewport := Rect(viewport.c, RoundConflicts(official, DimensAdd(drawingArea.d, ReservedDimens(item))));
      RoundConflictsComplies(official, DimensAdd(drawingArea.d, ReservedDimens(item)));
    }

    /** `simpleShape`: the drawing area is the proposal less the reserved
        space, not clamped; the viewport is left alone. */
    method SimpleShape(official: GeometryProposal)
      modifies this
      ensures drawingArea == RectOf(SimpleDrawing(item, official))
      ensures viewport == old(viewport)
    {
      drawingArea := RectOf(DimensSub(official.proposedDimensions, ReservedDimens(item)));
    }

    /** `setViewportOffset`: the offset moved by the item's translation. */
    method SetViewportOffset(offset: Coords)
      modifies this
      ensures viewport == Rect(CoordsAdd(offset, TranslationOffset(item)), old(viewport.d))
      ensures drawingArea == old(drawingArea)
    {
      viewport := Rect(CoordsAdd(offset, TranslationOffset(item)), viewport.d);
    }

    /** `setRelativeDrawingAreaOffset`. */
    method SetRelativeDrawingAreaOffset(c: Coords)
      modifies this
      ensures drawingArea == Rect(c, old(drawingArea.d)) && viewport == old(viewport)
    {
      drawingArea := Rect(c, drawingArea.d);
    }

    /** `updateDrawingAreaOffset`: the drawing area is aligned inside the
        viewport minding the reserved space. `ok` is false, and nothing
        changes, where the source fails an assertion on an unknown alignment
        property. */
    method UpdateDrawingAreaOffset() returns (ok: bool)
      modifies this
      ensures var c := CellAlignmentMindingReserved(item, old(drawingArea.d), old(viewport.d));
              ok == c.Some? && viewport == old(viewport) &&
              drawingArea == (if c.Some? then Rect(c.value, old(drawingArea.d)) else old(drawingArea))
    {
      var c := CellAlignmentMindingReserved(item, drawingArea.d, viewport.d);
      ok := c.Some?;
      if ok {
        drawingArea := Rect(c.value, drawingArea.d);
      }
    }

    /** The `setAbsoluteOffset` of simple and text-run materials: place the
        viewport, then align the drawing area in it. */
    method PlaceSingle(offset: Coords) returns (ok: bool)
      modifies this
      ensures viewport == Rect(CoordsAdd(offset, TranslationOffset(item)), old(viewport.d))
      ensures var c := CellAlignmentMindingReserved(item, old(drawingArea.d), old(viewport.d));
              ok == c.Some? &&
              drawingArea == (if c.Some? then Rect(c.value, old(drawingArea.d)) else old(drawingArea))
    {
      SetViewportOffset(offset);
      ok := UpdateDrawingAreaOffset();
    }
  }

  /** What `simpleShape` computes. */
  function SimpleDrawing(at: ItemAttributes, official: GeometryProposal): (d: Dimens)
    ensures forall a: Angle :: DimensGet(d, a) == DimensGet(official.proposedDimensions, a) - Reserved(at, a)
  {
    DimensSub(official.proposedDimensions, ReservedDimens(at))
  }

  // ---- the simple material's shape ----

  /** `SimpleMaterial::shapeDrawingArea`, as written: `simpleShape` of the
      proposal it is given, which `shape` has already reduced by the
      reserved space. */
  function SimpleRuleAsWritten(at: ItemAttributes): DrawingRule
  {
    (p: GeometryProposal) => SimpleDrawing(at, p)
  }

  /** The corrected rule: the reduced proposal is the drawing area. */
  function SimpleRule(at: ItemAttributes): DrawingRule
  {
    (p: GeometryProposal) => p.proposedDimensions
  }

  /** An item that revises nothing: no size attribute is active. */
  predicate NoSizeAttributes(at: ItemAttributes)
  {
    AttributeKey.SizeA !in at.active && AttributeKey.SizeO !in at.active
  }

  lemma NoSizeAttributesRevisesNothing(at: ItemAttributes, official: GeometryProposal)
    requires NoSizeAttributes(at)
    ensures ReviseProposal(at, official) == official
  {
  }

  /** As written, a simple material whose proposal leaves room for its
      reserved space loses that space twice: its drawing area plus its
      reserve falls short of the proposal by the reserve again. */
  lemma SimpleShapeAsWrittenReservesTwice(at: ItemAttributes, official: GeometryProposal)
    requires NoSizeAttributes(at)
    requires forall a: Angle :: DimensGet(official.proposedDimensions, a) >= Reserved(at, a)
    ensures var d := SimpleRuleAsWritten(at)(DrawingProposal(at, official));
            forall a: Angle :: DimensGet(d, a) + Reserved(at, a) ==
                               DimensGet(official.proposedDimensions, a) - Reserved(at, a)
  {
    NoSizeAttributesRevisesNothing(at, official);
    var p := ReducedProposal(at, official);
    assert DrawingProposal(at, official) == p;
    forall a: Angle
      ensures DimensGet(SimpleDrawing(at, p), a) + Reserved(at, a) ==
              DimensGet(official.proposedDimensions, a) - Reserved(at, a)
    {
      assert DimensGet(p.proposedDimensions, a) == DimensGet(official.proposedDimensions, a) - Reserved(at, a);
    }
  }

  /** Under a rigid 100 x 100 proposal, a default item with an inner
      adjacent margin of 10 gets an 80-unit wide drawing area in a 100-unit
      viewport; the corrected rule gives 90. */
  lemma SimpleShapeAsWrittenExample()
    ensures var at := ItemAttributes(map[AttributeKey.MarginAdjIn := 10], map[], {}, {});
            var official := DefaultProposal.(proposedDimensions := Dimens(100, 100));
            SimpleRuleAsWritten(at)(DrawingProposal(at, official)) == Dimens(80, 100) &&
            SimpleRule(at)(DrawingProposal(at, official)) == Dimens(90, 100)
  {
    var at := ItemAttributes(map[AttributeKey.MarginAdjIn := 10], map[], {}, {});
    ReservedIsFourParts(at, Horizontal);
    ReservedIsFourParts(at, Vertical);
    SimpleExampleAt(at, DefaultProposal.(proposedDimensions := Dimens(100, 100)));
  }

  /** The example above for any item without size attributes that reserves
      10 units across and none down. */
  lemma SimpleExampleAt(at: ItemAttributes, official: GeometryProposal)
    requires NoSizeAttributes(at) && Reserved(at, Horizontal) == 10 && Reserved(at, Vertical) == 0
    requires official.proposedDimensions == Dimens(100, 100)
    ensures SimpleRuleAsWritten(at)(DrawingProposal(at, official)) == Dimens(80, 100)
    ensures SimpleRule(at)(DrawingProposal(at, official)) == Dimens(90, 100)
  {
    assert forall a: Angle :: DimensGet(official.proposedDimensions, a) >= Reserved(at, a) by {
      forall a: Angle
        ensures DimensGet(official.proposedDimensions, a) >= Reserved(at, a)
      {
        if a == Horizontal { } else { }
      }
    }
    assert SimpleRuleAsWritten(at)(DrawingProposal(at, official)) == Dimens(80, 100) by {
      SimpleShapeAsWrittenReservesTwice(at, official);
      var d := SimpleRuleAsWritten(at)(DrawingProposal(at, official));
      assert DimensGet(d, Horizontal) + 10 == 90 && DimensGet(d, Vertical) + 0 == 100;
    }
    assert SimpleRule(at)(DrawingProposal(at, official)) == Dimens(90, 100) by {
      SimpleShapeFillsProposal(at, official);
      var e := SimpleRule(at)(DrawingProposal(at, official));
      assert DimensAdd(e, ReservedDimens(at)) == Dimens(100, 100);
      assert DimensGet(ReservedDimens(at), Horizontal) == 10 && DimensGet(ReservedDimens(at), Vertical) == 0;
    }
  }

  /** With the corrected rule, whenever the proposal leaves room for the
      reserved space, the drawing area plus the reserve is exactly the
      proposal, which therefore complies and becomes the viewport unchanged. */
  lemma SimpleShapeFillsProposal(at: ItemAttributes, official: GeometryProposal)
    requires NoSizeAttributes(at)
    requires forall a: Angle :: DimensGet(official.proposedDimensions, a) >= Reserved(at, a)
    ensures var d := SimpleRule(at)(DrawingProposal(at, official));
            DimensAdd(d, ReservedDimens(at)) == official.proposedDimensions &&
            RoundConflicts(official, DimensAdd(d, ReservedDimens(at))) == official.proposedDimensions
  {
    NoSizeAttributesRevisesNothing(at, official);
    var d := SimpleRule(at)(DrawingProposal(at, official));
    var v := DimensAdd(d, ReservedDimens(at));
    assert DimensGet(v, Horizontal) == DimensGet(official.proposedDimensions, Horizontal);
    assert DimensGet(v, Vertical) == DimensGet(official.proposedDimensions, Vertical);
    RoundConflictsKeepsCompliant(official, v);
  }

  // ---- fill precedence ----

  /** `getFillPrecedenceForAngle`: the item's override, when it has one,
      wins over the precedence the concrete material computes. */
  function FillPrecedenceForAngle(at: ItemAttributes, a: Angle, computed: FillPrecedence): (r: Result<FillPrecedence>)
    ensures FillOverride(at, a) == Ok(None) ==> r == Ok(computed)
    ensures FillOverride(at, a).Ok? && FillOverride(at, a).value.Some? ==> r == Ok(FillOverride(at, a).value.value)
    ensures FillOverride(at, a).Err? <==> r.Err?
  {
    match FillOverride(at, a)
    case Err(e) => Err(e)
    case Ok(None) => Ok(computed)
    case Ok(Some(f)) => Ok(f)
  }

  /** `returnGreedyIfEVENONECHILDBLINKS`, used by row and stack layouts:
      Greedy iff at least one child is Greedy. */
  function AnyGreedy(children: seq<FillPrecedence>): (r: FillPrecedence)
    ensures r == Greedy <==> exists i :: 0 <= i < |children| && children[i] == Greedy
  {
    if |children| == 0 then Shrinky
    else if children[0] == Greedy then Greedy
    else
      var rest := AnyGreedy(children[1..]);
      assert forall i :: 1 <= i < |children| ==> children[i] == children[1..][i - 1];
      rest
  }

  /** `SimpleMaterial::computerFillPrecedenceForAngle`: Shrinky when the
      reserved space plus the explicit size along the axis is nonzero. */
  function SimpleFillPrecedence(at: ItemAttributes, a: Angle): FillPrecedence
  {
    if DimensGet(ReservedDimens(at), a) + SizeForAngle(at, a) != 0 then Shrinky else Greedy
  }

  /** Text runs and inline layouts are always Shrinky. */
  const TextRunFillPrecedence: FillPrecedence := Shrinky
  const InlineFillPrecedence: FillPrecedence := Shrinky

  /** Only the sum is tested: Greedy exactly when the reserve and the
      explicit size cancel out. */
  lemma SimpleFillPrecedenceIsSumTest(at: ItemAttributes, a: Angle)
    ensures SimpleFillPrecedence(at, a) == Greedy <==> Reserved(at, a) == -SizeForAngle(at, a)
  {
  }

  /** No reserve and no size gives Greedy; a size or a reserve alone gives
      Shrinky. */
  lemma SimpleFillPrecedenceCases(at: ItemAttributes, a: Angle)
    ensures Reserved(at, a) == 0 && SizeForAngle(at, a) == 0 ==> SimpleFillPrecedence(at, a) == Greedy
    ensures Reserved(at, a) == 0 && SizeForAngle(at, a) != 0 ==> SimpleFillPrecedence(at, a) == Shrinky
    ensures Reserved(at, a) != 0 && SizeForAngle(at, a) == 0 ==> SimpleFillPrecedence(at, a) == Shrinky
  {
    SimpleFillPrecedenceIsSumTest(at, a);
  }

  /** A horizontal item with a 5-unit inner margin and a size of -5 is Greedy. */
  lemma CancellingValuesGiveGreedy()
    ensures var at := ItemAttributes(map[AttributeKey.MarginAdjIn := 5, AttributeKey.SizeA := -5], map[], {}, {});
            Reserved(at, Horizontal) == 5 && SizeForAngle(at, Horizontal) == -5 &&
            SimpleFillPrecedence(at, Horizontal) == Greedy
  {
    var at := ItemAttributes(map[AttributeKey.MarginAdjIn := 5, AttributeKey.SizeA := -5], map[], {}, {});
    ReservedIsFourParts(at, Horizontal);
  }
}
