// Row and stack layouts: how each sizes its drawing area from its children
// and where it places them. Children are known through the abstract
// shaping function of `LineShaping` and through the viewport sizes they
// settled on.
module Layouts {
  import opened Geometry
  import opened Proposal
  import opened ItemGeometry
  import opened Materials
  import opened LineShaping

  // ---- row ----

  /** `RowLayoutMaterialBase::shapeDrawingArea` for a row along `a`: with no
      children, the corrected simple rule; otherwise the space `line` uses
      for the children. */
  function RowDrawing(at: ItemAttributes, shape: Shaper, fill: seq<FillPrecedence>, views: seq<Dimens>,
                      a: Angle, p: GeometryProposal): Dimens
    requires |fill| == |views|
  {
    if |fill| == 0 then SimpleRule(at)(p) else UsedSpace(LineSpec(shape, fill, views, p, a), a)
  }

  function RowRule(at: ItemAttributes, shape: Shaper, fill: seq<FillPrecedence>, views: seq<Dimens>, a: Angle): DrawingRule
    requires |fill| == |views|
  {
    (p: GeometryProposal) => RowDrawing(at, shape, fill, views, a, p)
  }

  /** A row of compliant children under a proposal that may neither grow nor
      shrink along the row fills that space to within one unit per child
      (when the children are wide enough to absorb the overflow cut). */
  lemma RigidRowFillsItsSpace(at: ItemAttributes, shape: Shaper, fill: seq<FillPrecedence>, views: seq<Dimens>,
                              a: Angle, p: GeometryProposal)
    requires Complies(shape) && !Expand(p, a) && !Shrink(p, a)
    requires |fill| == |views| && |fill| > 0
    requires var w := InitialPass(shape, fill, views, p, a);
             var available := DimensGet(p.proposedDimensions, a);
             w.usedAdjacent > available ==>
               forall i :: 0 <= i < |fill| && i < |w.views| ==>
                 DimensGet(w.views[i], a) >= CutSize(w.usedAdjacent, available, |fill|)
    ensures var available := DimensGet(p.proposedDimensions, a);
            available - |fill| < DimensGet(RowDrawing(at, shape, fill, views, a, p), a) <= available
  {
    RigidLineFillsSpace(shape, fill, views, p, a);
  }

  /** Where the `k`-th child in model order goes: the start's position across
      the row, and along it the start plus the sizes of the children before it. */
  function RowOffset(start: Coords, a: Angle, views: seq<Dimens>, order: seq<nat>, k: nat): Coords
    requires Within(order, |views|) && k <= |order|
  {
    CoordsSet(start, a, CoordsGet(start, a) + SumAlong(views, order[..k], a))
  }

  /** The placing loop of `RowLayoutMaterialBase::setAbsoluteOffset`: children
      in model order, each starting where the previous one ends along the row,
      all at the start's position across it. */
  method RowChildOffsets(start: Coords, a: Angle, views: seq<Dimens>, order: seq<nat>) returns (offsets: seq<Coords>)
    requires Within(order, |views|)
    ensures |offsets| == |order|
    ensures forall k :: 0 <= k < |order| ==> offsets[k] == RowOffset(start, a, views, order, k)
  {
    var adjacentOffset := CoordsGet(start, a);
    offsets := [];
    var k := 0;
    while k < |order|
      invariant k <= |order|
      invariant |offsets| == k
      invariant adjacentOffset == CoordsGet(start, a) + SumAlong(views, order[..k], a)
      invariant forall j :: 0 <= j < k ==> offsets[j] == RowOffset(start, a, views, order, j)
    {
      offsets := offsets + [CoordsSet(start, a, adjacentOffset)];
      assert order[..k + 1][..k] == order[..k];
      adjacentOffset := adjacentOffset + DimensGet(views[order[k]], a);
      k := k + 1;
    }
  }

  /** Consecutive children abut along the row and share the start's position
      across it; the last one ends at the start plus the total. */
  lemma {:induction false} RowChildrenAbut(start: Coords, a: Angle, views: seq<Dimens>, order: seq<nat>, k: nat)
    requires Within(order, |views|) && k < |order|
    ensures CoordsGet(RowOffset(start, a, views, order, k + 1), a) ==
            CoordsGet(RowOffset(start, a, views, order, k), a) + DimensGet(views[order[k]], a)
    ensures CoordsGet(RowOffset(start, a, views, order, k), OtherAngle(a)) == CoordsGet(start, OtherAngle(a))
    ensures CoordsGet(RowOffset(start, a, views, order, |order|), a) == CoordsGet(start, a) + SumAlong(views, order, a)
  {
    assert order[..k + 1][..k] == order[..k];
    assert order[..|order|] == order;
  }

  /** `RowLayoutMaterialBase::setAbsoluteOffset`: the row places itself
      first, then hands out its children's offsets from its drawing area's
      offset. When the alignment property is refused, nothing is placed. */
  method PlaceRow(m: Material, offset: Coords, a: Angle, views: seq<Dimens>, order: seq<nat>)
    returns (ok: bool, offsets: seq<Coords>)
    requires Within(order, |views|)
    modifies m
    ensures m.viewport == Rect(CoordsAdd(offset, TranslationOffset(m.item)), old(m.viewport.d))
    ensures var c := CellAlignmentMindingReserved(m.item, old(m.drawingArea.d), old(m.viewport.d));
            ok == c.Some? &&
            m.drawingArea == (if c.Some? then Rect(c.value, old(m.drawingArea.d)) else old(m.drawingArea))
    ensures ok ==> |offsets| == |order| &&
                   forall k :: 0 <= k < |order| ==> offsets[k] == RowOffset(m.DrawingAreaOffset(), a, views, order, k)
    ensures !ok ==> offsets == []
  {
    ok := m.PlaceSingle(offset);
    if !ok {
      offsets := [];
      return;
    }
    offsets := RowChildOffsets(m.DrawingAreaOffset(), a, views, order);
  }

  // ---- stack ----

  /** The largest size along `a` among `sizes` (what `std::max_element`
      finds), or `fallback` when there is none. */
  function MaxOr(sizes: seq<Dimens>, a: Angle, fallback: int): (m: int)
    ensures |sizes| == 0 ==> m == fallback
    ensures |sizes| > 0 ==> (forall i :: 0 <= i < |sizes| ==> DimensGet(sizes[i], a) <= m) &&
                            (exists i :: 0 <= i < |sizes| && DimensGet(sizes[i], a) == m)
  {
    if |sizes| <= 1 then (if |sizes| == 0 then fallback else DimensGet(sizes[0], a))
    else
      var rest := MaxOr(sizes[..|sizes| - 1], a, fallback);
      assert forall i :: 0 <= i < |sizes| - 1 ==> sizes[..|sizes| - 1][i] == sizes[i];
      Max(rest, DimensGet(sizes[|sizes| - 1], a))
  }

  /** The first pass of the stack: every child shaped with the proposal itself. */
  function StackFirstPass(shape: Shaper, n: nat, p: GeometryProposal): (sizes: seq<Dimens>)
    ensures |sizes| == n && forall i :: 0 <= i < n ==> sizes[i] == shape(i, p)
  {
    seq(n, i requires 0 <= i => shape(i, p))
  }

  /** `StackLayoutMaterial::shapeDrawingArea`'s drawing area: per axis, the
      largest first-pass child, or the proposal when there are no children. */
  function StackDrawing(shape: Shaper, n: nat, p: GeometryProposal): (d: Dimens)
    ensures n == 0 ==> d == p.proposedDimensions
    ensures n > 0 ==> forall a: Angle ::
              (forall i :: 0 <= i < n ==> DimensGet(shape(i, p), a) <= DimensGet(d, a)) &&
              (exists i :: 0 <= i < n && DimensGet(shape(i, p), a) == DimensGet(d, a))
  {
    var sizes := StackFirstPass(shape, n, p);
    var d := Dimens(MaxOr(sizes, Horizontal, p.proposedDimensions.w), MaxOr(sizes, Vertical, p.proposedDimensions.h));
    assert DimensGet(d, Horizontal) == MaxOr(sizes, Horizontal, DimensGet(p.proposedDimensions, Horizontal));
    assert DimensGet(d, Vertical) == MaxOr(sizes, Vertical, DimensGet(p.proposedDimensions, Vertical));
    d
  }

  function StackRule(shape: Shaper, n: nat): DrawingRule
  {
    (p: GeometryProposal) => StackDrawing(shape, n, p)
  }

  /** The second-pass proposal: the maxed dimensions, every flag at its default. */
  function StackFinalProposal(maxed: Dimens): GeometryProposal
  {
    DefaultProposal.(proposedDimensions := maxed)
  }

  /** `maximizeForAngle`: a linear scan keeping the first largest size. */
  method MaximizeForAngle(sizes: seq<Dimens>, a: Angle, fallback: int) returns (m: int)
    ensures m == MaxOr(sizes, a, fallback)
  {
    if |sizes| == 0 {
      return fallback;
    }
    m := DimensGet(sizes[0], a);
    var i := 1;
    while i < |sizes|
      invariant 1 <= i <= |sizes|
      invariant m == MaxOr(sizes[..i], a, fallback)
    {
      assert sizes[..i + 1][..i] == sizes[..i];
      if m < DimensGet(sizes[i], a) {
        m := DimensGet(sizes[i], a);
      }
      i := i + 1;
    }
    assert sizes[..i] == sizes;
  }

  /** The stack's two passes over its `n` children: the first shapes each
      child with the proposal, the drawing area takes the largest sizes, and
      the second reshapes every child at exactly those dimensions. */
  method StackShapeDrawingArea(shape: Shaper, n: nat, p: GeometryProposal)
    returns (maxed: Dimens, initial: seq<Dimens>, final: seq<Dimens>)
    ensures initial == StackFirstPass(shape, n, p)
    ensures maxed == StackDrawing(shape, n, p)
    ensures |final| == n && forall i :: 0 <= i < n ==> final[i] == shape(i, StackFinalProposal(maxed))
  {
    initial := [];
    var i := 0;
    while i < n
      invariant i <= n && |initial| == i
      invariant forall j :: 0 <= j < i ==> initial[j] == shape(j, p)
    {
      initial := initial + [shape(i, p)];
      i := i + 1;
    }
    var w := MaximizeForAngle(initial, Horizontal, p.proposedDimensions.w);
    var h := MaximizeForAngle(initial, Vertical, p.proposedDimensions.h);
    maxed := Dimens(w, h);
    var fin := StackFinalProposal(maxed);
    final := [];
    i := 0;
    while i < n
      invariant i <= n && |final| == i
      invariant forall j :: 0 <= j < i ==> final[j] == shape(j, fin)
    {
      final := final + [shape(i, fin)];
      i := i + 1;
    }
  }

  /** Compliant children come out of the second pass exactly the size of
      the stack's drawing area, on both axes. */
  lemma StackChildrenMatchStack(shape: Shaper, n: nat, p: GeometryProposal, i: nat)
    requires Complies(shape) && i < n
    ensures shape(i, StackFinalProposal(StackDrawing(shape, n, p))) == StackDrawing(shape, n, p)
  {
    var fin := StackFinalProposal(StackDrawing(shape, n, p));
    DefaultProposalFlags(Horizontal);
    DefaultProposalFlags(Vertical);
    assert VerifyCompliance(fin, shape(i, fin));
    RigidProposalAdmitsOnlyItself(fin, shape(i, fin));
  }

  /** `StackLayoutMaterial::setAbsoluteOffset`: the stack places itself, and
      every child gets the very offset the stack was given, not the stack's
      drawing-area offset. */
  method PlaceStack(m: Material, offset: Coords, n: nat) returns (ok: bool, offsets: seq<Coords>)
    modifies m
    ensures m.viewport == Rect(CoordsAdd(offset, TranslationOffset(m.item)), old(m.viewport.d))
    ensures var c := CellAlignmentMindingReserved(m.item, old(m.drawingArea.d), old(m.viewport.d));
            ok == c.Some? &&
            m.drawingArea == (if c.Some? then Rect(c.value, old(m.drawingArea.d)) else old(m.drawingArea))
    ensures ok ==> |offsets| == n && forall k :: 0 <= k < n ==> offsets[k] == offset
    ensures !ok ==> offsets == []
  {
    ok := m.PlaceSingle(offset);
    if !ok {
      offsets := [];
      return;
    }
    offsets := seq(n, _ => offset);
  }
}
