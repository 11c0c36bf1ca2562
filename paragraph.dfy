// `FallbackParagraphMaterial`: an item's whole text cut into text runs,
// one run per line, each as wide as the proposal allows along the
// item-flow angle (Horizontal), the lines stacked along the row-flow angle
// (Vertical). The runs are shown with the paragraph's own item, so they
// carry its reserved space; the paragraph's drawing area is their common
// viewport.
module FallbackParagraph {
  import opened Geometry
  import opened Proposal
  import opened ItemGeometry
  import opened TextFitting
  import opened TextRuns
  import opened Materials
  import InlineLayout

  /** One line of the paragraph: the text it shows, its measured size (the
      run's drawing area) and the viewport it settled on. */
  datatype ParagraphRun = ParagraphRun(text: string, drawing: Dimens, view: Dimens)

  /** The runs' texts, in order. */
  function Concat(runs: seq<ParagraphRun>): string
  {
    if runs == [] then [] else Concat(runs[..|runs| - 1]) + runs[|runs| - 1].text
  }

  /** The lines' total height. */
  function Heights(runs: seq<ParagraphRun>): int
  {
    if runs == [] then 0 else Heights(runs[..|runs| - 1]) + runs[|runs| - 1].view.h
  }

  /** The widest line, 0 for none: the corrected item-flow extent. */
  function Widest(runs: seq<ParagraphRun>): (m: int)
    ensures m >= 0
    ensures forall k :: 0 <= k < |runs| ==> runs[k].view.w <= m
    ensures m == 0 || exists k :: 0 <= k < |runs| && runs[k].view.w == m
  {
    if runs == [] then 0
    else
      var rest := runs[..|runs| - 1];
      assert forall k :: 0 <= k < |rest| ==> rest[k] == runs[k];
      Max(Widest(rest), runs[|runs| - 1].view.w)
  }

  /** The item-flow extent as the loop accumulates it: a wider run adds its
      width to the running total instead of replacing it. */
  function WidestAsWritten(runs: seq<ParagraphRun>): int
  {
    if runs == [] then 0
    else
      var acc := WidestAsWritten(runs[..|runs| - 1]);
      var w := runs[|runs| - 1].view.w;
      if acc < w then acc + w else acc
  }

  /** Lines 10 and then 15 wide give a paragraph 25 wide, wider than either. */
  lemma WidestAsWrittenAddsWidths()
    ensures var runs := [ParagraphRun("a", Dimens(10, 5), Dimens(10, 5)), ParagraphRun("b", Dimens(15, 5), Dimens(15, 5))];
            WidestAsWritten(runs) == 25 && Widest(runs) == 15
  {
    var runs := [ParagraphRun("a", Dimens(10, 5), Dimens(10, 5)), ParagraphRun("b", Dimens(15, 5), Dimens(15, 5))];
    assert runs[..1][..0] == [];
    assert WidestAsWritten(runs[..1]) == 10;
  }

  lemma {:induction false} ConcatAppend(runs: seq<ParagraphRun>, r: ParagraphRun)
    ensures Concat(runs + [r]) == Concat(runs) + r.text
    ensures Heights(runs + [r]) == Heights(runs) + r.view.h
  {
    assert (runs + [r])[..|runs|] == runs;
  }

  /** The item's own measurements, as the text path needs them: a nonempty
      run is at least one unit wide, its measured width is the width the
      fitting search sees, and the item reserves no negative space along
      the item-flow angle. */
  ghost predicate MeasuresAgree(at: ItemAttributes, width: string -> int, measure: string -> Dimens)
  {
    (forall s: string :: (s != [] ==> width(s) >= 1) && measure(s).w == width(s)) &&
    DimensGet(ReservedDimens(at), Horizontal) >= 0
  }

  /** Where line `k` is asked to start: its justification from the drawing
      area's left edge, below every line before it. */
  function ParagraphOffset(start: Coords, justification: int, runs: seq<ParagraphRun>, k: nat): Coords
    requires k <= |runs|
  {
    Coords(start.x + justification, start.y + Heights(runs[..k]))
  }

  /** The justification computed for the `k`-th line is the one recorded for it. */
  lemma JustifiedAt(at: ItemAttributes, runs: seq<ParagraphRun>, cell: int, js: seq<int>, k: nat)
    requires Justifications(at, RunWidths(runs), cell).Some? && k < |runs|
    requires Justifications(at, RunWidths(runs), cell).value == js
    ensures JustificationOffset(at, runs[k].view.w, cell).Some?
    ensures JustificationOffset(at, runs[k].view.w, cell).value == js[k]
  {
    assert RunWidths(runs)[k] == runs[k].view.w;
  }

  /** The loop of `setAbsoluteOffset` that hands each line its offset:
      its justification across, and the heights of the lines above it down. */
  method StackRuns(at: ItemAttributes, runs: seq<ParagraphRun>, adjacentArea: int, js: seq<int>, start: Coords)
    returns (offsets: seq<Coords>)
    requires Justifications(at, RunWidths(runs), adjacentArea).Some?
    requires Justifications(at, RunWidths(runs), adjacentArea).value == js
    ensures |offsets| == |runs|
    ensures forall k :: 0 <= k < |runs| ==> offsets[k] == ParagraphOffset(start, js[k], runs, k)
  {
    offsets := [];
    var lastOffset := start;
    var k := 0;
    while k < |runs|
      invariant k <= |runs| && |offsets| == k
      invariant lastOffset == Coords(start.x, start.y + Heights(runs[..k]))
      invariant forall i :: 0 <= i < k ==> offsets[i] == ParagraphOffset(start, js[i], runs, i)
    {
      var j := JustificationOffset(at, runs[k].view.w, adjacentArea);
      JustifiedAt(at, runs, adjacentArea, js, k);
      lastOffset := lastOffset.(x := lastOffset.x + j.value);
      assert lastOffset == ParagraphOffset(start, js[k], runs, k);
      AppendOffset(offsets, lastOffset, start, js, runs, k);
      offsets := offsets + [lastOffset];
      LinesStack(start, 0, 0, runs, k);
      lastOffset := Coords(start.x, lastOffset.y + runs[k].view.h);
      k := k + 1;
    }
  }

  /** Appending the `k`-th line's offset keeps every offset in place. */
  lemma AppendOffset(offsets: seq<Coords>, o: Coords, start: Coords, js: seq<int>, runs: seq<ParagraphRun>, k: nat)
    requires |offsets| == k && k < |js| && k < |runs|
    requires forall i :: 0 <= i < k ==> offsets[i] == ParagraphOffset(start, js[i], runs, i)
    requires o == ParagraphOffset(start, js[k], runs, k)
    ensures forall i :: 0 <= i < k + 1 ==> (offsets + [o])[i] == ParagraphOffset(start, js[i], runs, i)
  {
  }

  /** Each line starts where the one above it ends. */
  lemma {:induction false} LinesStack(start: Coords, j: int, j': int, runs: seq<ParagraphRun>, k: nat)
    requires k + 1 <= |runs|
    ensures ParagraphOffset(start, j', runs, k + 1).y == ParagraphOffset(start, j, runs, k).y + runs[k].view.h
  {
    assert runs[..k + 1] == runs[..k] + [runs[k]];
    ConcatAppend(runs[..k], runs[k]);
  }

  /** Below the last line lies the end of the drawing area's height. */
  lemma LinesFillDrawing(start: Coords, j: int, runs: seq<ParagraphRun>)
    ensures ParagraphOffset(start, j, runs, |runs|).y == start.y + Heights(runs)
  {
    assert runs[..|runs|] == runs;
  }

  /** The line offsets as written: the run's absolute viewport origin (the
      offset it was given, moved by the translation `ty`) is added to the
      running offset along with the run's height. */
  function LineYAsWritten(y0: int, ty: int, runs: seq<ParagraphRun>, k: nat): int
    requires k <= |runs|
  {
    if k == 0 then y0
    else
      var prev := LineYAsWritten(y0, ty, runs, k - 1);
      prev + (prev + ty) + runs[k - 1].view.h
  }

  /** With the drawing area 10 down and lines 5 high, the second line is
      asked to start at 25 rather than at 15, right below the first. */
  lemma LineYAsWrittenSkipsDown()
    ensures var runs := [ParagraphRun("a", Dimens(5, 5), Dimens(5, 5)), ParagraphRun("b", Dimens(5, 5), Dimens(5, 5))];
            LineYAsWritten(10, 0, runs, 1) == 25 && ParagraphOffset(Coords(0, 10), 0, runs, 1).y == 15
  {
    var runs := [ParagraphRun("a", Dimens(5, 5), Dimens(5, 5)), ParagraphRun("b", Dimens(5, 5), Dimens(5, 5))];
    assert runs[..1][..0] == [];
  }

  /** The lines' widths, in order. */
  function RunWidths(runs: seq<ParagraphRun>): (ws: seq<int>)
    ensures |ws| == |runs| && forall k :: 0 <= k < |runs| ==> ws[k] == runs[k].view.w
  {
    seq(|runs|, k requires 0 <= k < |runs| => runs[k].view.w)
  }

  /** Every line's drawing area can be aligned inside its viewport. */
  predicate RunsAlign(at: ItemAttributes, runs: seq<ParagraphRun>)
  {
    forall k :: 0 <= k < |runs| ==> CellAlignmentMindingReserved(at, runs[k].drawing, runs[k].view).Some?
  }

  /** Every line is a nonempty measured run with the viewport a run
      settles on. */
  ghost predicate LinesMeasured(at: ItemAttributes, measure: string -> Dimens, lines: seq<ParagraphRun>)
  {
    forall k :: 0 <= k < |lines| ==>
      lines[k].text != [] && lines[k].drawing == measure(lines[k].text) &&
      lines[k].view == InlineLayout.RunViewport(at, lines[k].drawing)
  }

  /** Under agreeing measurements, no line is wider than `space`. */
  ghost predicate LinesWithin(at: ItemAttributes, space: int, width: string -> int, measure: string -> Dimens, lines: seq<ParagraphRun>)
  {
    MeasuresAgree(at, width, measure) ==> forall k :: 0 <= k < |lines| ==> lines[k].view.w <= space
  }

  /** What the text path's loop keeps: the lines so far and the text still
      to place make up the whole text, every line is measured, and none is
      wider than the proposal. */
  ghost predicate LinesSoFar(at: ItemAttributes, space: int, text: string, width: string -> int, measure: string -> Dimens,
                             lines: seq<ParagraphRun>, remaining: string)
  {
    Concat(lines) + remaining == text && LinesMeasured(at, measure, lines) && LinesWithin(at, space, width, measure, lines)
  }

  lemma TextAfterLine(before: string, fit: string, over: string, remaining: string, text: string)
    requires before + remaining == text && fit + over == remaining
    ensures (before + fit) + over == text
  {
  }

  lemma LineWithin(at: ItemAttributes, space: int, width: string -> int, measure: string -> Dimens,
                   lines: seq<ParagraphRun>, remaining: string, fit: string)
    requires LinesWithin(at, space, width, measure, lines)
    requires |fit| <= |remaining| && remaining[..|fit|] == fit && fit != []
    requires LongestFitting(width, remaining, ZeroGuard(space - DimensGet(ReservedDimens(at), Horizontal)), |fit|)
    ensures LinesWithin(at, space, width, measure, lines + [ParagraphRun(fit, measure(fit), InlineLayout.RunViewport(at, measure(fit)))])
  {
    var next := lines + [ParagraphRun(fit, measure(fit), InlineLayout.RunViewport(at, measure(fit)))];
    if MeasuresAgree(at, width, measure) {
      assert width(fit) >= 1 && measure(fit).w == width(fit);
      InlineLayout.RunFitsSpace(width, remaining, fit, space, at, measure(fit));
      assert forall k :: 0 <= k < |lines| ==> next[k] == lines[k];
    }
  }

  /** A run cut from the remaining text keeps the loop's facts. */
  lemma LinePlaced(at: ItemAttributes, space: int, text: string, width: string -> int, measure: string -> Dimens,
                   lines: seq<ParagraphRun>, remaining: string, fit: string, over: string)
    requires LinesSoFar(at, space, text, width, measure, lines, remaining)
    requires fit + over == remaining && fit != []
    requires LongestFitting(width, remaining, ZeroGuard(space - DimensGet(ReservedDimens(at), Horizontal)), |fit|)
    ensures LinesSoFar(at, space, text, width, measure,
                       lines + [ParagraphRun(fit, measure(fit), InlineLayout.RunViewport(at, measure(fit)))], over)
  {
    var line := ParagraphRun(fit, measure(fit), InlineLayout.RunViewport(at, measure(fit)));
    var next := lines + [line];
    assert Concat(next) + over == text by {
      ConcatAppend(lines, line);
      TextAfterLine(Concat(lines), fit, over, remaining, text);
    }
    forall k | 0 <= k < |next|
      ensures next[k].text != [] && next[k].drawing == measure(next[k].text) &&
              next[k].view == InlineLayout.RunViewport(at, next[k].drawing)
    {
      if k < |lines| {
        assert next[k] == lines[k];
      }
    }
    assert LinesWithin(at, space, width, measure, next) by {
      assert remaining[..|fit|] == fit;
      LineWithin(at, space, width, measure, lines, remaining, fit);
    }
  }

  class FallbackParagraphMaterial {
    /** The item the paragraph shows (and its runs with it). */
    const item: ItemAttributes
    /** `myRunMaterials`. */
    var runs: seq<ParagraphRun>

    constructor(item: ItemAttributes)
      ensures this.item == item && runs == []
    {
      this.item := item;
      runs := [];
    }

    /** What `shapeDrawingArea` settles on for `p`: for no text, the simple
        shape; without expansion along the item-flow angle, lines cut to
        `p`'s width one after another until the text runs out or a line
        takes nothing; with it, a single line shaped by `p` itself. */
    ghost predicate Shaped(p: GeometryProposal, text: string, width: string -> int, measure: string -> Dimens, drawing: Dimens)
      reads this
    {
      if text == [] then runs == [] && drawing == SimpleDrawing(item, p)
      else if !Expand(p, Horizontal) then
        InlineLayout.IsPrefix(Concat(runs), text) &&
        (Concat(runs) == text ||
         LongestFitting(width, text[|Concat(runs)|..], ZeroGuard(p.proposedDimensions.w - DimensGet(ReservedDimens(item), Horizontal)), 0)) &&
        LinesSoFar(item, p.proposedDimensions.w, text, width, measure, runs, text[|Concat(runs)|..]) &&
        drawing == Dimens(Widest(runs), Heights(runs))
      else
        runs == [ParagraphRun(text, measure(text), RoundConflicts(p, DimensAdd(measure(text), ReservedDimens(item))))] &&
        drawing == runs[0].view
    }

    /** `shapeDrawingArea` for the paragraph's text `text`: the drawing area
        it settles on is returned, `simpleShape` left to the caller. */
    method ShapeDrawingArea(p: GeometryProposal, text: string, width: string -> int, measure: string -> Dimens) returns (drawing: Dimens)
      modifies this
      ensures Shaped(p, text, width, measure, drawing)
    {
      runs := [];
      if text == [] {
        drawing := SimpleDrawing(item, p);
        return;
      }
      if !Expand(p, Horizontal) {
        var lines, result := FlowLines(p.proposedDimensions.w, text, width, measure);
        runs := lines;
        drawing := result;
      } else {
        var m := measure(text);
        runs := [ParagraphRun(text, m, RoundConflicts(p, DimensAdd(m, ReservedDimens(item))))];
        drawing := runs[0].view;
      }
    }

    /** The text path's loop: runs cut to fit `space` one after another,
        each shaped against a blank proposal, until the text runs out or a
        run takes nothing of what is left. */
    method FlowLines(space: int, text: string, width: string -> int, measure: string -> Dimens)
      returns (lines: seq<ParagraphRun>, result: Dimens)
      ensures InlineLayout.IsPrefix(Concat(lines), text)
      ensures LinesSoFar(item, space, text, width, measure, lines, text[|Concat(lines)|..])
      ensures Concat(lines) == text ||
              LongestFitting(width, text[|Concat(lines)|..], ZeroGuard(space - DimensGet(ReservedDimens(item), Horizontal)), 0)
      ensures result == Dimens(Widest(lines), Heights(lines))
    {
      var reserved := DimensGet(ReservedDimens(item), Horizontal);
      var remaining := text;
      lines := [];
      result := Dimens(0, 0);
      while remaining != []
        invariant LinesSoFar(item, space, text, width, measure, lines, remaining)
        invariant result == Dimens(Widest(lines), Heights(lines))
        decreases |remaining|
      {
        var run := new TextRunMaterial(reserved);
        var over := run.SetTextForSpace(width, remaining, space);
        if |over| == |remaining| {
          assert run.myText == [];
          break;
        }
        run.ShapeDrawingArea(measure, InlineLayout.BlankProposal.proposedDimensions);
        LinePlaced(item, space, text, width, measure, lines, remaining, run.myText, over);
        var line := ParagraphRun(run.myText, run.drawingArea, InlineLayout.RunViewport(item, run.drawingArea));
        ConcatAppend(lines, line);
        assert (lines + [line])[..|lines|] == lines;
        assert Widest(lines + [line]) == Max(Widest(lines), line.view.w);
        lines := lines + [line];
        remaining := over;
        result := Dimens(Max(result.w, line.view.w), result.h + line.view.h);
      }
      assert text == Concat(lines) + remaining;
      assert text[|Concat(lines)|..] == remaining;
    }

    /** `shape`: the item revises the official proposal but reserves nothing
        of it (each run carries the reserved space itself); the viewport is
        the drawing area rounded against the official proposal. */
    method Shape(m: Material, official: GeometryProposal, text: string, width: string -> int, measure: string -> Dimens)
      requires m.item == item
      modifies this, m
      ensures Shaped(ReviseProposal(item, official), text, width, measure, m.drawingArea.d)
      ensures m.drawingArea.c == ZeroCoords
      ensures m.viewport == Rect(old(m.viewport.c), RoundConflicts(official, m.drawingArea.d))
      ensures VerifyCompliance(official, m.viewport.d)
    {
      var prop := ReviseProposal(item, official);
      var drawing := ShapeDrawingArea(prop, text, width, measure);
      if text == [] {
        m.SimpleShape(prop);
      } else {
        m.drawingArea := RectOf(drawing);
      }
      m.viewport := Rect(m.viewport.c, RoundConflicts(official, m.drawingArea.d));
      RoundConflictsComplies(official, m.drawingArea.d);
    }

    /** `setAbsoluteOffset`: the paragraph places its viewport, aligns its
        drawing area in it with no reserved space, then asks each line to
        start at its justification within the viewport's width, below the
        lines before it (the corrected offsets), and places each run there.
        `ok` is false where an alignment or justification is refused, and
        no line offsets are handed out then. */
    method PlaceRuns(m: Material, offset: Coords) returns (ok: bool, offsets: seq<Coords>)
      requires m.item == item
      modifies m
      ensures m.viewport == Rect(CoordsAdd(offset, TranslationOffset(item)), old(m.viewport.d))
      ensures var c := CellAlignmentCoords(item, old(m.drawingArea.d), old(m.viewport.d), ZeroDimens, ZeroDimens);
              var js := Justifications(item, RunWidths(runs), old(m.viewport.d.w));
              m.drawingArea == (if c.Some? then Rect(c.value, old(m.drawingArea.d)) else old(m.drawingArea)) &&
              (ok <==> c.Some? && js.Some? && RunsAlign(item, runs)) &&
              (ok ==> |offsets| == |runs| &&
                      forall k :: 0 <= k < |runs| ==> offsets[k] == ParagraphOffset(m.DrawingAreaOffset(), js.value[k], runs, k))
    {
      var adjacentArea := m.viewport.d.w;
      m.SetViewportOffset(offset);
      var c := CellAlignmentCoords(item, m.drawingArea.d, m.viewport.d, ZeroDimens, ZeroDimens);
      offsets := [];
      if c.None? {
        ok := false;
        return;
      }
      m.SetRelativeDrawingAreaOffset(c.value);
      var js := Justifications(item, RunWidths(runs), adjacentArea);
      if js.None? || !RunsAlign(item, runs) {
        ok := false;
        return;
      }
      var start := m.DrawingAreaOffset();
      offsets := StackRuns(item, runs, adjacentArea, js.value, start);
      ok := true;
    }
  }
}
