// `InlineLayoutMaterial`: children flow along the item-flow angle
// (Horizontal) and wrap into rows stacked along the row-flow angle
// (Vertical). Text children are cut into text-run proxies that fit the
// space left on the current row.
module InlineLayout {
  import opened Wrappers
  import opened Geometry
  import opened Proposal
  import opened ItemGeometry
  import opened LineShaping
  import opened TextFitting
  import opened TextRuns
  import opened Materials
  import AttributeKey

  /** One material in a row: child `child` (its index in model order)
      itself when `run` is None, or a text-run proxy showing `run` of that
      child's text; `view` is its viewport size. */
  datatype RowItem = RowItem(child: nat, run: Option<string>, view: Dimens)

  /** `SingleRow`: the row's extent along item flow and along row flow. */
  datatype SingleRow = SingleRow(rowAdjacentArea: int, rowOppositeArea: int, items: seq<RowItem>)

  /** A child of the layout as the text path sees it. */
  datatype TextChild = TextChild(at: ItemAttributes, text: string)

  /** The sum of the items' widths. */
  function Width(items: seq<RowItem>): int
  {
    if items == [] then 0 else Width(items[..|items| - 1]) + items[|items| - 1].view.w
  }

  /** The largest item height, and 0 for no item. */
  function Height(items: seq<RowItem>): (h: int)
    ensures h >= 0
  {
    if items == [] then 0 else Max(Height(items[..|items| - 1]), items[|items| - 1].view.h)
  }

  /** The rows' heights added up. */
  function RowsHeight(rows: seq<SingleRow>): int
  {
    if rows == [] then 0 else RowsHeight(rows[..|rows| - 1]) + rows[|rows| - 1].rowOppositeArea
  }

  /** The widest row, and 0 for no row. */
  function RowsWidth(rows: seq<SingleRow>): (w: int)
    ensures w >= 0
  {
    if rows == [] then 0 else Max(RowsWidth(rows[..|rows| - 1]), rows[|rows| - 1].rowAdjacentArea)
  }

  /** Every row's items, row after row. */
  function Flatten(rows: seq<SingleRow>): seq<RowItem>
  {
    if rows == [] then [] else Flatten(rows[..|rows| - 1]) + rows[|rows| - 1].items
  }

  /** What the placed runs show of child `c`'s text, in order. */
  function TextOf(items: seq<RowItem>, c: nat): string
  {
    if items == [] then []
    else
      var last := items[|items| - 1];
      TextOf(items[..|items| - 1], c) + (if last.child == c && last.run.Some? then last.run.value else [])
  }

  predicate IsPrefix(s: string, t: string)
  {
    |s| <= |t| && t[..|s|] == s
  }

  /** A row is never empty, and its recorded extents are its items' width
      and height. */
  predicate RowAgrees(r: SingleRow)
  {
    r.items != [] && r.rowAdjacentArea == Width(r.items) && r.rowOppositeArea == Height(r.items)
  }

  lemma WidthAppend(items: seq<RowItem>, it: RowItem)
    ensures Width(items + [it]) == Width(items) + it.view.w
    ensures Height(items + [it]) == Max(Height(items), it.view.h)
  {
    assert (items + [it])[..|items|] == items;
  }

  lemma RowsAppend(rows: seq<SingleRow>, r: SingleRow)
    ensures RowsHeight(rows + [r]) == RowsHeight(rows) + r.rowOppositeArea
    ensures RowsWidth(rows + [r]) == Max(RowsWidth(rows), r.rowAdjacentArea)
    ensures Flatten(rows + [r]) == Flatten(rows) + r.items
  {
    assert (rows + [r])[..|rows|] == rows;
  }

  lemma TextOfAppend(items: seq<RowItem>, it: RowItem, c: nat)
    ensures TextOf(items + [it], c) == TextOf(items, c) + (if it.child == c && it.run.Some? then it.run.value else [])
  {
    assert (items + [it])[..|items|] == items;
  }

  /** Placing child `c`'s text whole, and leaving the earlier texts as they
      were, extends "every text so far is placed whole" to child `c`. */
  lemma TextsKept(before: seq<RowItem>, after: seq<RowItem>, children: seq<TextChild>, fits: bool, c: nat)
    requires c < |children|
    requires forall d :: 0 <= d < c ==> TextOf(after, d) == TextOf(before, d)
    requires fits ==> forall d :: 0 <= d < c ==> TextOf(before, d) == children[d].text
    requires fits ==> TextOf(after, c) == children[c].text
    ensures fits ==> forall d :: 0 <= d < c + 1 ==> TextOf(after, d) == children[d].text
  {
  }

  /** A child none of whose runs is placed shows nothing. */
  lemma {:induction false} TextOfAbsent(items: seq<RowItem>, c: nat)
    requires forall k :: 0 <= k < |items| ==> items[k].child != c
    ensures TextOf(items, c) == []
  {
    if items != [] {
      TextOfAbsent(items[..|items| - 1], c);
    }
  }

  /** The proposal every text run is shaped with: free to grow, sized (0,0). */
  const BlankProposal: GeometryProposal := DefaultProposal.(expandHorizontal := true, expandVertical := true)

  /** The viewport a text run settles on: its measured size plus its item's
      reserved space, rounded against the blank proposal. */
  function RunViewport(at: ItemAttributes, measured: Dimens): Dimens
  {
    RoundConflicts(BlankProposal, DimensAdd(measured, ReservedDimens(at)))
  }

  /** The leveling proposal for an item of a row `height` high: its own
      viewport with the row's height, every flag at its default. */
  function LevelProposal(view: Dimens, height: int): GeometryProposal
  {
    DefaultProposal.(proposedDimensions := Dimens(view.w, height))
  }

  /** The leveled row: every item as tall as the row. */
  function LeveledRow(r: SingleRow): SingleRow
  {
    r.(items := seq(|r.items|, k requires 0 <= k < |r.items| =>
                      r.items[k].(view := Dimens(r.items[k].view.w, r.rowOppositeArea))))
  }

  /** Reshaping an item of a row with a proposal, read back as its viewport size. */
  type Reshaper = (RowItem, GeometryProposal) -> Dimens

  ghost predicate ReshapeComplies(reshape: Reshaper)
  {
    forall it: RowItem, p: GeometryProposal :: VerifyCompliance(p, reshape(it, p))
  }

  /** Items of the text path: text runs with some text, in model order,
      each of a child below `n`. */
  ghost predicate RunsInOrder(items: seq<RowItem>, n: nat)
  {
    (forall k :: 0 <= k < |items| ==> items[k].child < n && items[k].run.Some? && items[k].run.value != []) &&
    (forall j, k :: 0 <= j < k < |items| ==> items[j].child <= items[k].child)
  }

  /** Placing a run of child `c`'s remaining text keeps the runs in order
      and accounts for every character of the text. */
  lemma RunPlaced(before: seq<RowItem>, it: RowItem, c: nat, children: seq<TextChild>,
                  remaining: string, rest: string)
    requires c < |children|
    requires RunsInOrder(before, c + 1)
    requires forall d :: 0 <= d < c ==> IsPrefix(TextOf(before, d), children[d].text)
    requires TextOf(before, c) + remaining == children[c].text
    requires it.child == c && it.run.Some? && it.run.value != [] && it.run.value + rest == remaining
    ensures RunsInOrder(before + [it], c + 1)
    ensures forall d :: 0 <= d < c ==> IsPrefix(TextOf(before + [it], d), children[d].text)
    ensures forall d :: 0 <= d < c ==> TextOf(before + [it], d) == TextOf(before, d)
    ensures TextOf(before + [it], c) + rest == children[c].text
  {
    TextOfAppend(before, it, c);
    assert TextOf(before, c) + it.run.value + rest == TextOf(before, c) + remaining;
    forall d | 0 <= d < c
      ensures TextOf(before + [it], d) == TextOf(before, d)
    {
      TextOfAppend(before, it, d);
    }
    var after := before + [it];
    forall j, k | 0 <= j < k < |after|
      ensures after[j].child <= after[k].child
    {
      if k < |before| {
        assert after[j] == before[j] && after[k] == before[k];
      }
    }
  }

  /** The fitting measure and the run measure agree on widths, nonempty runs
      are at least one unit wide, and no child reserves negative space
      along item flow. */
  ghost predicate MeasuresAgree(children: seq<TextChild>, width: (nat, string) -> int, measure: (nat, string) -> Dimens)
  {
    forall c: nat, s: string :: c < |children| ==>
      (s != [] ==> width(c, s) >= 1) && measure(c, s).w == width(c, s) &&
      DimensGet(ReservedDimens(children[c].at), Horizontal) >= 0
  }

  /** Every string of at most one character, with its child's reserved
      space, fits an empty row `maxRowSpace` wide. */
  ghost predicate CharsFit(children: seq<TextChild>, width: (nat, string) -> int, maxRowSpace: int)
  {
    forall c: nat, s: string :: c < |children| && |s| <= 1 ==>
      width(c, s) <= maxRowSpace - DimensGet(ReservedDimens(children[c].at), Horizontal)
  }

  /** On an empty row, a text whose characters each fit gives up at least
      one of them. */
  lemma FreshRowTakesOne(children: seq<TextChild>, width: (nat, string) -> int, maxRowSpace: int,
                         c: nat, w: string -> int, text: string, n: nat)
    requires c < |children| && text != []
    requires forall s :: w(s) == width(c, s)
    requires LongestFitting(w, text, ZeroGuard(maxRowSpace - DimensGet(ReservedDimens(children[c].at), Horizontal)), n)
    ensures CharsFit(children, width, maxRowSpace) ==> n >= 1
  {
    if CharsFit(children, width, maxRowSpace) {
      var space := ZeroGuard(maxRowSpace - DimensGet(ReservedDimens(children[c].at), Horizontal));
      assert |text[..0]| <= 1 && |text[..1]| <= 1;
      assert w(text[..0]) <= space && w(text[..1]) <= space;
    }
  }

  /** A run cut to fit the space left on a row is no wider than that space. */
  lemma RunFitsSpace(w: string -> int, remaining: string, fit: string, avail: int, at: ItemAttributes, measured: Dimens)
    requires LongestFitting(w, remaining, ZeroGuard(avail - DimensGet(ReservedDimens(at), Horizontal)), |fit|)
    requires |fit| <= |remaining| && remaining[..|fit|] == fit && fit != []
    requires w(fit) >= 1 && measured.w == w(fit) && DimensGet(ReservedDimens(at), Horizontal) >= 0
    ensures RunViewport(at, measured).w <= avail
  {
    var r := DimensGet(ReservedDimens(at), Horizontal);
    var space := ZeroGuard(avail - r);
    assert FitsBelow(w, remaining, space, |fit| + 1);
    assert w(remaining[..|fit|]) <= space;
    var v := DimensAdd(measured, ReservedDimens(at));
    assert DimensGet(v, Horizontal) == w(fit) + r;
    assert !AxisViolates(BlankProposal, v, Horizontal);
    assert DimensGet(RunViewport(at, measured), Horizontal) == DimensGet(v, Horizontal);
  }

  /** The one row of the expanding path: item `i` is child `i`, with no run. */
  function LineItems(views: seq<Dimens>): (items: seq<RowItem>)
    ensures |items| == |views| && forall i :: 0 <= i < |views| ==> items[i] == RowItem(i, None, views[i])
  {
    seq(|views|, i requires 0 <= i < |views| => RowItem(i, None, views[i]))
  }

  /** The viewports the leveling pass gives row `r`'s items: each reshaped
      with its own viewport at the row's height. */
  function Releveled(r: SingleRow, reshape: Reshaper): (views: seq<Dimens>)
    ensures |views| == |r.items|
  {
    seq(|r.items|, k requires 0 <= k < |r.items| =>
          reshape(r.items[k], LevelProposal(r.items[k].view, r.rowOppositeArea)))
  }

  /** The sum of the widths. */
  function SumW(views: seq<Dimens>): int
  {
    if views == [] then 0 else SumW(views[..|views| - 1]) + views[|views| - 1].w
  }

  /** Compliant items come out of the leveling pass exactly as wide as they
      were and exactly as tall as their row, so the row keeps its width. */
  lemma {:induction false} LevelingEvensRow(r: SingleRow, reshape: Reshaper)
    requires ReshapeComplies(reshape)
    ensures forall k :: 0 <= k < |r.items| ==>
              Releveled(r, reshape)[k] == Dimens(r.items[k].view.w, r.rowOppositeArea)
    ensures SumW(Releveled(r, reshape)) == Width(r.items)
  {
    forall k | 0 <= k < |r.items|
      ensures Releveled(r, reshape)[k] == Dimens(r.items[k].view.w, r.rowOppositeArea)
    {
      var p := LevelProposal(r.items[k].view, r.rowOppositeArea);
      DefaultProposalFlags(Horizontal);
      DefaultProposalFlags(Vertical);
      assert VerifyCompliance(p, reshape(r.items[k], p));
      RigidProposalAdmitsOnlyItself(p, reshape(r.items[k], p));
    }
    SameWidths(r.items, Releveled(r, reshape));
  }

  lemma {:induction false} SameWidths(items: seq<RowItem>, views: seq<Dimens>)
    requires |views| == |items| && forall k :: 0 <= k < |items| ==> views[k].w == items[k].view.w
    ensures SumW(views) == Width(items)
  {
    if items != [] {
      SameWidths(items[..|items| - 1], views[..|views| - 1]);
    }
  }

  /** Where item `k` of row `r` goes, from the drawing-area offset `start`:
      along item flow the row's justification then the widths before it;
      along row flow the heights of the rows before. */
  function InlineOffset(start: Coords, justification: int, rows: seq<SingleRow>, views: seq<Dimens>, r: nat, k: nat): Coords
    requires r <= |rows| && k <= |views|
  {
    Coords(start.x + justification + SumW(views[..k]), start.y + RowsHeight(rows[..r]))
  }

  /** The rows' widths, in order. */
  function RowWidths(rows: seq<SingleRow>): (ws: seq<int>)
    ensures |ws| == |rows| && forall r :: 0 <= r < |rows| ==> ws[r] == rows[r].rowAdjacentArea
  {
    seq(|rows|, r requires 0 <= r < |rows| => rows[r].rowAdjacentArea)
  }

  /** Rows no wider than `space` give a result no wider than `space` (or 0). */
  lemma {:induction false} RowsWidthBound(rows: seq<SingleRow>, space: int)
    requires forall r :: 0 <= r < |rows| ==> rows[r].rowAdjacentArea <= space
    ensures RowsWidth(rows) <= Max(0, space)
  {
    if rows != [] {
      RowsWidthBound(rows[..|rows| - 1], space);
    }
  }

  /** Successive rows stack: row `r + 1` starts below row `r` by its height. */
  lemma RowsStack(start: Coords, j: int, j2: int, rows: seq<SingleRow>, v: seq<Dimens>, v2: seq<Dimens>, r: nat, k: nat)
    requires r + 1 < |rows| && k <= |v|
    ensures InlineOffset(start, j2, rows, v2, r + 1, 0).y == InlineOffset(start, j, rows, v, r, k).y + rows[r].rowOppositeArea
    ensures InlineOffset(start, j2, rows, v2, r + 1, 0).x == start.x + j2
  {
    assert rows[..r + 1][..r] == rows[..r];
    assert v2[..0] == [];
  }

  /** Within a leveled row of compliant items, items abut and the row's
      last item ends the row's width after its justification; an Outer
      justification therefore ends every row flush with the drawing area. */
  lemma {:induction false} RowEnds(start: Coords, at: ItemAttributes, rows: seq<SingleRow>, r: nat,
                                   reshape: Reshaper, adjacentArea: int, k: nat)
    requires ReshapeComplies(reshape) && r < |rows| && RowAgrees(rows[r]) && k < |rows[r].items|
    requires JustificationOffset(at, rows[r].rowAdjacentArea, adjacentArea).Some?
    ensures var j := JustificationOffset(at, rows[r].rowAdjacentArea, adjacentArea).value;
            var v := Releveled(rows[r], reshape);
            InlineOffset(start, j, rows, v, r, k + 1).x == InlineOffset(start, j, rows, v, r, k).x + rows[r].items[k].view.w &&
            InlineOffset(start, j, rows, v, r, |v|).x == start.x + j + rows[r].rowAdjacentArea
    ensures var p := GetProperty(at, AttributeKey.Justify);
            p.Some? && AlignmentOf(p.value) == Some(Alignment.Outer) && 0 <= rows[r].rowAdjacentArea && 0 <= adjacentArea ==>
              InlineOffset(start, JustificationOffset(at, rows[r].rowAdjacentArea, adjacentArea).value,
                           rows, Releveled(rows[r], reshape), r, |rows[r].items|).x == start.x + adjacentArea
  {
    var v := Releveled(rows[r], reshape);
    LevelingEvensRow(rows[r], reshape);
    assert v[..k + 1][..k] == v[..k];
    assert v[..|v|] == v;
    if 0 <= rows[r].rowAdjacentArea && 0 <= adjacentArea {
      JustificationMeaning(at, rows[r].rowAdjacentArea, adjacentArea);
    }
  }

  /** The loops of `setAbsoluteOffset` that hand out the offsets: each row
      starts at its justification across and below the rows above it; its
      items follow one another along the row. */
  method StackRows(at: ItemAttributes, rows: seq<SingleRow>, leveled: seq<seq<Dimens>>, cell: int, js: seq<int>,
                   start: Coords) returns (offsets: seq<seq<Coords>>)
    requires |leveled| == |rows|
    requires Justifications(at, RowWidths(rows), cell).Some?
    requires Justifications(at, RowWidths(rows), cell).value == js
    ensures |offsets| == |rows|
    ensures forall r :: 0 <= r < |rows| ==> (|offsets[r]| == |leveled[r]| &&
              forall k :: 0 <= k < |leveled[r]| ==> offsets[r][k] == InlineOffset(start, js[r], rows, leveled[r], r, k))
  {
    var lastOffset := start;
    offsets := [];
    var r := 0;
    while r < |rows|
      invariant r <= |rows| && |offsets| == r
      invariant lastOffset == Coords(start.x, start.y + RowsHeight(rows[..r]))
      invariant forall q :: 0 <= q < r ==> (|offsets[q]| == |leveled[q]| &&
                  forall k :: 0 <= k < |leveled[q]| ==> offsets[q][k] == InlineOffset(start, js[q], rows, leveled[q], q, k))
    {
      var j := JustificationOffset(at, rows[r].rowAdjacentArea, cell);
      assert RowWidths(rows)[r] == rows[r].rowAdjacentArea;
      lastOffset := lastOffset.(x := lastOffset.x + j.value);
      var placed;
      placed, lastOffset := StackRow(rows, leveled[r], r, js[r], start, lastOffset);
      AppendRow(offsets, placed, start, js, rows, leveled, r);
      offsets := offsets + [placed];
      assert rows[..r + 1][..r] == rows[..r];
      lastOffset := Coords(start.x, lastOffset.y + rows[r].rowOppositeArea);
      r := r + 1;
    }
  }

  /** Appending row `r`'s offsets keeps every row's offsets in place. */
  lemma AppendRow(offsets: seq<seq<Coords>>, placed: seq<Coords>, start: Coords, js: seq<int>,
                  rows: seq<SingleRow>, leveled: seq<seq<Dimens>>, r: nat)
    requires |offsets| == r && r < |rows| && r < |js| && |leveled| == |rows|
    requires forall q :: 0 <= q < r ==> (|offsets[q]| == |leveled[q]| &&
               forall k :: 0 <= k < |leveled[q]| ==> offsets[q][k] == InlineOffset(start, js[q], rows, leveled[q], q, k))
    requires |placed| == |leveled[r]|
    requires forall k :: 0 <= k < |leveled[r]| ==> placed[k] == InlineOffset(start, js[r], rows, leveled[r], r, k)
    ensures forall q :: 0 <= q < r + 1 ==> (|(offsets + [placed])[q]| == |leveled[q]| &&
              forall k :: 0 <= k < |leveled[q]| ==> (offsets + [placed])[q][k] == InlineOffset(start, js[q], rows, leveled[q], q, k))
  {
    forall q | 0 <= q < r + 1
      ensures |(offsets + [placed])[q]| == |leveled[q]|
      ensures forall k :: 0 <= k < |leveled[q]| ==> (offsets + [placed])[q][k] == InlineOffset(start, js[q], rows, leveled[q], q, k)
    {
      if q < r {
        assert (offsets + [placed])[q] == offsets[q];
      } else {
        assert (offsets + [placed])[q] == placed;
      }
    }
  }

  /** The inner loop of `setAbsoluteOffset`: row `r`'s items, one after
      another from the row's justified start. */
  method StackRow(rows: seq<SingleRow>, views: seq<Dimens>, r: nat, justification: int, start: Coords, first: Coords)
    returns (placed: seq<Coords>, lastOffset: Coords)
    requires r < |rows|
    requires first == Coords(start.x + justification, start.y + RowsHeight(rows[..r]))
    ensures |placed| == |views| && lastOffset.y == first.y
    ensures forall i :: 0 <= i < |views| ==> placed[i] == InlineOffset(start, justification, rows, views, r, i)
  {
    lastOffset := first;
    placed := [];
    var k := 0;
    while k < |views|
      invariant k <= |views| && |placed| == k
      invariant lastOffset == Coords(start.x + justification + SumW(views[..k]), first.y)
      invariant forall i :: 0 <= i < k ==> placed[i] == InlineOffset(start, justification, rows, views, r, i)
    {
      placed := placed + [lastOffset];
      assert views[..k + 1][..k] == views[..k];
      lastOffset := lastOffset.(x := lastOffset.x + views[k].w);
      k := k + 1;
    }
  }

  class InlineLayoutMaterial {
    /** The rows the last shaping produced. */
    var rows: seq<SingleRow>
    // The locals `shapeDrawingArea` shares with its lambdas.
    var currentRow: seq<RowItem>
    var rowAdjacentArea: int
    var rowOppositeArea: int
    var result: Dimens
    /** The viewports of the rows' materials once shaping is over, row by row. */
    var leveled: seq<seq<Dimens>>

    /** The accumulators agree with what they accumulate. */
    predicate Valid()
      reads this
    {
      (forall r :: 0 <= r < |rows| ==> RowAgrees(rows[r])) &&
      rowAdjacentArea == Width(currentRow) && rowOppositeArea == Height(currentRow) &&
      result == Dimens(RowsWidth(rows), RowsHeight(rows))
    }

    /** No row, closed or current, is wider than `maxRowSpace`. */
    predicate RowsFit(maxRowSpace: int)
      reads this
    {
      (forall r :: 0 <= r < |rows| ==> rows[r].rowAdjacentArea <= maxRowSpace) &&
      (currentRow != [] ==> rowAdjacentArea <= maxRowSpace)
    }

    /** Every item placed so far, row after row, the current row last. */
    function Placed(): seq<RowItem>
      reads this
    {
      Flatten(rows) + currentRow
    }

    constructor()
      ensures Valid() && rows == [] && currentRow == [] && leveled == []
    {
      leveled := [];
      rows := [];
      currentRow := [];
      rowAdjacentArea := 0;
      rowOppositeArea := 0;
      result := ZeroDimens;
    }

    /** Start a fresh shaping: `rows.clear()` and the accumulators at zero. */
    method Clear()
      modifies this
      ensures Valid() && rows == [] && currentRow == [] && leveled == []
    {
      leveled := [];
      rows := [];
      currentRow := [];
      rowAdjacentArea := 0;
      rowOppositeArea := 0;
      result := ZeroDimens;
    }

    /** `getAvailableSpaceForRow`. */
    function AvailableSpaceForRow(maxRowSpace: int): int
      reads this
    {
      maxRowSpace - rowAdjacentArea
    }

    /** `incrementRow`: the item joins the current row. */
    method IncrementRow(it: RowItem)
      requires Valid()
      modifies this
      ensures Valid()
      ensures currentRow == old(currentRow) + [it] && rows == old(rows)
      ensures Placed() == old(Placed()) + [it]
      ensures rowAdjacentArea == old(rowAdjacentArea) + it.view.w
      ensures rowOppositeArea == Max(old(rowOppositeArea), it.view.h)
    {
      WidthAppend(currentRow, it);
      rowAdjacentArea := rowAdjacentArea + it.view.w;
      var lastHeight := it.view.h;
      if lastHeight > rowOppositeArea {
        rowOppositeArea := lastHeight;
      }
      currentRow := currentRow + [it];
    }

    /** `nextRow`: an empty row is ignored; otherwise the current row is
        closed, its height added to the row-flow result and its width maxed
        into the item-flow result. */
    method NextRow()
      requires Valid()
      modifies this
      ensures Valid() && currentRow == [] && rowAdjacentArea == 0
      ensures Placed() == old(Placed())
      ensures old(currentRow) == [] ==> rows == old(rows)
      ensures old(currentRow) != [] ==>
                rows == old(rows) + [SingleRow(old(rowAdjacentArea), old(rowOppositeArea), old(currentRow))]
    {
      if currentRow == [] {
        return;
      }
      RowsAppend(rows, SingleRow(rowAdjacentArea, rowOppositeArea, currentRow));
      rows := rows + [SingleRow(rowAdjacentArea, rowOppositeArea, currentRow)];
      currentRow := [];
      result := DimensSet(result, Vertical, DimensGet(result, Vertical) + rowOppositeArea);
      rowOppositeArea := 0;
      if rowAdjacentArea > DimensGet(result, Horizontal) {
        result := DimensSet(result, Horizontal, rowAdjacentArea);
      }
      rowAdjacentArea := 0;
    }

    /** The text path's loop over the children, in model order: each text is
        cut into runs that fit the space left on the row, a new row is
        started when a run does not fit, and a text that fits on no fresh
        row is abandoned. */
    method FlowText(children: seq<TextChild>, width: (nat, string) -> int, measure: (nat, string) -> Dimens,
                    maxRowSpace: int)
      requires Valid() && rows == [] && currentRow == []
      requires forall c :: 0 <= c < |children| ==> children[c].text != []
      modifies this
      ensures Valid()
      ensures RunsInOrder(Placed(), |children|)
      ensures forall c :: 0 <= c < |children| ==> IsPrefix(TextOf(Placed(), c), children[c].text)
      ensures CharsFit(children, width, maxRowSpace) ==> forall c :: 0 <= c < |children| ==> TextOf(Placed(), c) == children[c].text
      ensures MeasuresAgree(children, width, measure) ==> RowsFit(maxRowSpace)
    {
      ghost var fits := CharsFit(children, width, maxRowSpace);
      var c := 0;
      while c < |children|
        invariant c <= |children|
        invariant Valid()
        invariant RunsInOrder(Placed(), c)
        invariant forall d :: 0 <= d < c ==> IsPrefix(TextOf(Placed(), d), children[d].text)
        invariant fits ==> forall d :: 0 <= d < c ==> TextOf(Placed(), d) == children[d].text
        invariant MeasuresAgree(children, width, measure) ==> RowsFit(maxRowSpace)
      {
        TextOfAbsent(Placed(), c);
        ghost var before := Placed();
        FlowOneText(children, c, width, measure, maxRowSpace);
        TextsKept(before, Placed(), children, fits, c);
        c := c + 1;
      }
    }

    /** The runs of child `c`: the body of the text path's loop. Where
        every single character fits an empty row, the whole text is placed. */
    method FlowOneText(children: seq<TextChild>, c: nat, width: (nat, string) -> int, measure: (nat, string) -> Dimens,
                       maxRowSpace: int)
      requires c < |children|
      requires Valid()
      requires RunsInOrder(Placed(), c)
      requires forall d :: 0 <= d < c ==> IsPrefix(TextOf(Placed(), d), children[d].text)
      requires TextOf(Placed(), c) == []
      requires MeasuresAgree(children, width, measure) ==> RowsFit(maxRowSpace)
      modifies this
      ensures Valid()
      ensures RunsInOrder(Placed(), c + 1)
      ensures forall d :: 0 <= d <= c ==> IsPrefix(TextOf(Placed(), d), children[d].text)
      ensures forall d :: 0 <= d < c ==> TextOf(Placed(), d) == TextOf(old(Placed()), d)
      ensures CharsFit(children, width, maxRowSpace) ==> TextOf(Placed(), c) == children[c].text
      ensures MeasuresAgree(children, width, measure) ==> RowsFit(maxRowSpace)
    {
      var remainingText := children[c].text;
      while remainingText != []
        invariant Valid()
        invariant RunsInOrder(Placed(), c + 1)
        invariant forall d :: 0 <= d < c ==> IsPrefix(TextOf(Placed(), d), children[d].text)
        invariant forall d :: 0 <= d < c ==> TextOf(Placed(), d) == TextOf(old(Placed()), d)
        invariant TextOf(Placed(), c) + remainingText == children[c].text
        invariant MeasuresAgree(children, width, measure) ==> RowsFit(maxRowSpace)
        decreases |remainingText|
      {
        var rest := FlowRun(children, c, width, measure, maxRowSpace, remainingText);
        if rest == remainingText {
          break;
        }
        remainingText := rest;
      }
      assert TextOf(Placed(), c) == children[c].text[..|TextOf(Placed(), c)|];
    }

    /** One pass of the loop over child `c`'s text: the run that fits the
        space left on the row joins it; when none does, a fresh row is
        started and tried once more. The text left over comes back; all of
        it, when not even a fresh row takes a character, and then some
        single character is wider than an empty row. */
    method FlowRun(children: seq<TextChild>, c: nat, width: (nat, string) -> int, measure: (nat, string) -> Dimens,
                   maxRowSpace: int, remainingText: string) returns (rest: string)
      requires c < |children| && remainingText != []
      requires Valid()
      requires RunsInOrder(Placed(), c + 1)
      requires forall d :: 0 <= d < c ==> IsPrefix(TextOf(Placed(), d), children[d].text)
      requires TextOf(Placed(), c) + remainingText == children[c].text
      requires MeasuresAgree(children, width, measure) ==> RowsFit(maxRowSpace)
      modifies this
      ensures Valid()
      ensures RunsInOrder(Placed(), c + 1)
      ensures forall d :: 0 <= d < c ==> IsPrefix(TextOf(Placed(), d), children[d].text)
      ensures forall d :: 0 <= d < c ==> TextOf(Placed(), d) == TextOf(old(Placed()), d)
      ensures TextOf(Placed(), c) + rest == children[c].text
      ensures MeasuresAgree(children, width, measure) ==> RowsFit(maxRowSpace)
      ensures |rest| < |remainingText| || (rest == remainingText && !CharsFit(children, width, maxRowSpace))
    {
      var w := s => width(c, s);
      var fit, left := CutRun(children, c, width, maxRowSpace, w, remainingText);
      if fit == [] {
        return remainingText;
      }
      JoinRun(children, c, width, measure, maxRowSpace, w, remainingText, fit, left);
      rest := left;
    }

    /** `setTextForSpace` on the row as it stands and, when nothing fits
        there but the row already holds something, once more on a fresh
        row: the run that fits and the text left over. Nothing fits only
        when some single character is wider than an empty row. */
    method CutRun(children: seq<TextChild>, c: nat, width: (nat, string) -> int, maxRowSpace: int,
                  w: string -> int, remainingText: string) returns (fit: string, rest: string)
      requires c < |children| && remainingText != []
      requires Valid()
      requires forall s :: w(s) == width(c, s)
      modifies this
      ensures Valid() && Placed() == old(Placed())
      ensures old(RowsFit(maxRowSpace)) ==> RowsFit(maxRowSpace)
      ensures fit + rest == remainingText
      ensures fit != [] ==>
                LongestFitting(w, remainingText,
                               ZeroGuard(AvailableSpaceForRow(maxRowSpace) - DimensGet(ReservedDimens(children[c].at), Horizontal)),
                               |fit|)
      ensures fit == [] ==> !CharsFit(children, width, maxRowSpace)
    {
      var at := children[c].at;
      var run := new TextRunMaterial(DimensGet(ReservedDimens(at), Horizontal));
      var remainingForThisRow := run.SetTextForSpace(w, remainingText, AvailableSpaceForRow(maxRowSpace));
      if remainingForThisRow == remainingText && rowAdjacentArea != 0 {
        StartFreshRow(maxRowSpace);
        remainingForThisRow := run.SetTextForSpace(w, remainingText, AvailableSpaceForRow(maxRowSpace));
      }
      if remainingForThisRow == remainingText {
        FreshRowTakesOne(children, width, maxRowSpace, c, w, remainingText, |run.myText|);
      }
      fit, rest := run.myText, remainingForThisRow;
    }

    /** `nextRow`, seen from the rows' widths: no row, closed or current,
        grows wider. */
    method StartFreshRow(maxRowSpace: int)
      requires Valid()
      modifies this
      ensures Valid() && Placed() == old(Placed()) && currentRow == [] && rowAdjacentArea == 0
      ensures old(RowsFit(maxRowSpace)) ==> RowsFit(maxRowSpace)
    {
      ghost var fitBefore := RowsFit(maxRowSpace);
      ghost var rowsBefore := rows;
      NextRow();
      assert fitBefore ==> RowsFit(maxRowSpace) by {
        if fitBefore {
          assert forall r :: 0 <= r < |rowsBefore| ==> rows[r] == rowsBefore[r];
        }
      }
    }

    /** The run `fit` cut from the front of child `c`'s remaining text, as
        long as the space left on the row allows, joins the row. */
    method JoinRun(children: seq<TextChild>, c: nat, width: (nat, string) -> int, measure: (nat, string) -> Dimens,
                   maxRowSpace: int, w: string -> int, remainingText: string, fit: string, rest: string)
      requires c < |children|
      requires Valid()
      requires RunsInOrder(Placed(), c + 1)
      requires forall d :: 0 <= d < c ==> IsPrefix(TextOf(Placed(), d), children[d].text)
      requires TextOf(Placed(), c) + remainingText == children[c].text
      requires MeasuresAgree(children, width, measure) ==> RowsFit(maxRowSpace)
      requires forall s :: w(s) == width(c, s)
      requires fit != [] && fit + rest == remainingText
      requires LongestFitting(w, remainingText,
                              ZeroGuard(AvailableSpaceForRow(maxRowSpace) - DimensGet(ReservedDimens(children[c].at), Horizontal)),
                              |fit|)
      modifies this
      ensures Valid()
      ensures RunsInOrder(Placed(), c + 1)
      ensures forall d :: 0 <= d < c ==> IsPrefix(TextOf(Placed(), d), children[d].text)
      ensures forall d :: 0 <= d < c ==> TextOf(Placed(), d) == TextOf(old(Placed()), d)
      ensures TextOf(Placed(), c) + rest == children[c].text
      ensures MeasuresAgree(children, width, measure) ==> RowsFit(maxRowSpace)
    {
      var at := children[c].at;
      var it := RowItem(c, Some(fit), RunViewport(at, measure(c, fit)));
      if MeasuresAgree(children, width, measure) {
        assert remainingText[..|fit|] == fit;
        RunFitsSpace(w, remainingText, fit, AvailableSpaceForRow(maxRowSpace), at, measure(c, fit));
      }
      ghost var before := Placed();
      IncrementRow(it);
      RunPlaced(before, it, c, children, remainingText, rest);
    }

    /** The leveling pass over every row. */
    method Level(reshape: Reshaper)
      modifies this
      ensures rows == old(rows) && currentRow == old(currentRow) && result == old(result)
      ensures rowAdjacentArea == old(rowAdjacentArea) && rowOppositeArea == old(rowOppositeArea)
      ensures |leveled| == |rows| && forall r :: 0 <= r < |rows| ==> leveled[r] == Releveled(rows[r], reshape)
    {
      var shaped := [];
      var r := 0;
      while r < |rows|
        invariant r <= |rows| && |shaped| == r
        invariant forall q :: 0 <= q < r ==> shaped[q] == Releveled(rows[q], reshape)
      {
        var row := rows[r];
        var views := [];
        var k := 0;
        while k < |row.items|
          invariant k <= |row.items| && |views| == k
          invariant forall j :: 0 <= j < k ==> views[j] == Releveled(row, reshape)[j]
        {
          var adjustedProp := LevelProposal(row.items[k].view, row.rowOppositeArea);
          views := views + [reshape(row.items[k], adjustedProp)];
          k := k + 1;
        }
        shaped := shaped + [views];
        r := r + 1;
      }
      leveled := shaped;
    }

    /** The text path of `shapeDrawingArea`: the texts flow into rows, the
        last row is closed, and the rows are leveled. */
    method FlowRows(children: seq<TextChild>, width: (nat, string) -> int, measure: (nat, string) -> Dimens,
                    reshape: Reshaper, maxRowSpace: int) returns (drawing: Dimens)
      requires Valid() && rows == [] && currentRow == []
      requires forall c :: 0 <= c < |children| ==> children[c].text != []
      modifies this
      ensures Valid() && currentRow == []
      ensures drawing == Dimens(RowsWidth(rows), RowsHeight(rows))
      ensures RunsInOrder(Flatten(rows), |children|)
      ensures forall c :: 0 <= c < |children| ==> IsPrefix(TextOf(Flatten(rows), c), children[c].text)
      ensures CharsFit(children, width, maxRowSpace) ==>
                forall c :: 0 <= c < |children| ==> TextOf(Flatten(rows), c) == children[c].text
      ensures MeasuresAgree(children, width, measure) ==> RowsFit(maxRowSpace) && drawing.w <= Max(0, maxRowSpace)
      ensures |leveled| == |rows| && forall r :: 0 <= r < |rows| ==> leveled[r] == Releveled(rows[r], reshape)
    {
      FlowText(children, width, measure, maxRowSpace);
      ghost var fits := RowsFit(maxRowSpace);
      StartFreshRow(maxRowSpace);
      assert Placed() == Flatten(rows);
      if fits {
        RowsWidthBound(rows, maxRowSpace);
      }
      Level(reshape);
      drawing := result;
    }

    /** `InlineLayoutMaterial::shapeDrawingArea`. Without expansion along item
        flow, the text path builds rows no wider than the proposal (when the
        measures agree), then levels them; with it, every child goes on one
        row shaped by `line`. Only text children are modelled on the text path. */
    method ShapeDrawingArea(p: GeometryProposal, children: seq<TextChild>, width: (nat, string) -> int,
                            measure: (nat, string) -> Dimens, reshape: Reshaper,
                            shape: Shaper, fill: seq<FillPrecedence>, views: seq<Dimens>)
      returns (drawing: Dimens)
      requires !Expand(p, Horizontal) ==> forall c :: 0 <= c < |children| ==> children[c].text != []
      requires |fill| == |views|
      modifies this
      ensures !Expand(p, Horizontal) ==>
                Valid() && currentRow == [] &&
                drawing == Dimens(RowsWidth(rows), RowsHeight(rows)) &&
                RunsInOrder(Flatten(rows), |children|) &&
                (forall c :: 0 <= c < |children| ==> IsPrefix(TextOf(Flatten(rows), c), children[c].text)) &&
                (CharsFit(children, width, p.proposedDimensions.w) ==>
                   forall c :: 0 <= c < |children| ==> TextOf(Flatten(rows), c) == children[c].text) &&
                (MeasuresAgree(children, width, measure) ==>
                   RowsFit(p.proposedDimensions.w) && drawing.w <= Max(0, p.proposedDimensions.w)) &&
                |leveled| == |rows| && (forall r :: 0 <= r < |rows| ==> leveled[r] == Releveled(rows[r], reshape))
      ensures Expand(p, Horizontal) ==>
                drawing == UsedSpace(LineSpec(shape, fill, views, p, Horizontal), Horizontal) &&
                rows == [SingleRow(drawing.w, drawing.h, LineItems(LineSpec(shape, fill, views, p, Horizontal).views))] &&
                leveled == [LineSpec(shape, fill, views, p, Horizontal).views]
    {
      Clear();
      if !Expand(p, Horizontal) {
        drawing := FlowRows(children, width, measure, reshape, p.proposedDimensions.w);
      } else {
        var used, shaped := Line(shape, fill, views, p, Horizontal);
        rows := [SingleRow(used.w, used.h, LineItems(shaped))];
        leveled := [shaped];
        drawing := used;
      }
    }

    /** `InlineLayoutMaterial::setAbsoluteOffset`: the layout places itself,
        then its rows, each row justified within the drawing area's width,
        its items one after another, the next row below it. Nothing is
        placed when a justification is refused. */
    method PlaceRows(m: Material, offset: Coords) returns (ok: bool, offsets: seq<seq<Coords>>)
      requires |leveled| == |rows|
      modifies m
      ensures m.viewport == Rect(CoordsAdd(offset, TranslationOffset(m.item)), old(m.viewport.d))
      ensures var js := Justifications(m.item, RowWidths(rows), m.drawingArea.d.w);
              var start := m.DrawingAreaOffset();
              var c := CellAlignmentMindingReserved(m.item, old(m.drawingArea.d), old(m.viewport.d));
              m.drawingArea == (if c.Some? then Rect(c.value, old(m.drawingArea.d)) else old(m.drawingArea)) &&
              (ok <==> c.Some? && js.Some?) &&
              (ok ==> |offsets| == |rows| &&
                      forall r :: 0 <= r < |rows| ==> (|offsets[r]| == |leveled[r]| &&
                        forall k :: 0 <= k < |leveled[r]| ==>
                          offsets[r][k] == InlineOffset(start, js.value[r], rows, leveled[r], r, k)))
    {
      ok := m.PlaceSingle(offset);
      if !ok {
        offsets := [];
        return;
      }
      var js := Justifications(m.item, RowWidths(rows), m.drawingArea.d.w);
      if js.None? {
        ok := false;
        offsets := [];
        return;
      }
      var start := m.DrawingAreaOffset();
      offsets := StackRows(m.item, rows, leveled, m.drawingArea.d.w, js.value, start);
    }
  }
}
