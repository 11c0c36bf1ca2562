// Text fitting: how many characters of a run fit in a space, splitting a
// run into the part that fits and the overflow, and the pen positions of
// shaped glyphs. The width of a run is an abstract measure: the font
// shaper that computes it is not part of this model.
module TextFitting {
  import opened Geometry
  import CInt

  /** Every prefix of `text` shorter than `m` characters measures at most `space`. */
  ghost predicate FitsBelow(width: string -> int, text: string, space: int, m: nat)
  {
    forall j :: 0 <= j < m && j <= |text| ==> width(text[..j]) <= space
  }

  /** What `getMaxStringLengthForSpace` returns, as written: the prefixes of
      length `0 .. |text|-1` are measured in turn; at the first one that is
      too wide, one less than its length (0 for the empty prefix) is
      returned; if none is too wide, the full length is returned without the
      full text ever being measured. */
  ghost predicate MeasuredLength(width: string -> int, text: string, space: int, n: nat)
  {
    n <= |text| &&
    ((n == |text| && FitsBelow(width, text, space, |text|)) ||
     (n + 1 < |text| && FitsBelow(width, text, space, n + 1) && width(text[..n + 1]) > space) ||
     (n == 0 && |text| > 0 && width(text[..0]) > space))
  }

  /** The intended answer: the longest prefix all of whose prefixes fit,
      with the full text measured too; 0 when not even the empty prefix fits. */
  ghost predicate LongestFitting(width: string -> int, text: string, space: int, n: nat)
  {
    n <= |text| &&
    ((FitsBelow(width, text, space, n + 1) && (n == |text| || width(text[..n + 1]) > space)) ||
     (n == 0 && width(text[..0]) > space))
  }

  /** A measure that never shrinks as the prefix grows. */
  ghost predicate Monotone(width: string -> int, text: string)
  {
    forall a, b :: 0 <= a <= b <= |text| ==> width(text[..a]) <= width(text[..b])
  }

  /** `getMaxStringLengthForSpace`, as written. */
  method MaxStringLengthForSpace(width: string -> int, text: string, space: int) returns (n: nat)
    ensures MeasuredLength(width, text, space, n)
  {
    n := 0;
    while n != |text|
      invariant n <= |text|
      invariant FitsBelow(width, text, space, n)
    {
      if width(text[..n]) > space {
        if n > 0 {
          n := n - 1;
        }
        return;
      }
      n := n + 1;
    }
  }

  /** The corrected length: the loop also measures the full text. */
  method FittingLength(width: string -> int, text: string, space: int) returns (n: nat)
    ensures LongestFitting(width, text, space, n)
  {
    n := 0;
    while n <= |text|
      invariant n <= |text| + 1
      invariant FitsBelow(width, text, space, n)
    {
      if width(text[..n]) > space {
        if n > 0 {
          n := n - 1;
        }
        return;
      }
      n := n + 1;
    }
    n := |text|;
  }

  /** Under a monotone measure whose empty run fits, the as-written length is
      the longest measured prefix that fits: every measured longer prefix is
      too wide. */
  lemma {:induction false} MeasuredLengthIsLongestMeasured(width: string -> int, text: string, space: int, n: nat)
    requires Monotone(width, text) && width(text[..0]) <= space
    requires MeasuredLength(width, text, space, n)
    ensures n < |text| ==> width(text[..n]) <= space
    ensures forall m :: n < m < |text| ==> width(text[..m]) > space
  {
    if n < |text| {
      assert width(text[..n + 1]) > space;
      forall m | n < m < |text|
        ensures width(text[..m]) > space
      {
        assert width(text[..n + 1]) <= width(text[..m]);
      }
    }
  }

  /** Under a monotone measure whose empty run fits, the corrected length is
      the longest prefix that fits: it fits and every longer prefix does not. */
  lemma {:induction false} LongestFittingMeaning(width: string -> int, text: string, space: int, n: nat)
    requires Monotone(width, text) && width(text[..0]) <= space
    requires LongestFitting(width, text, space, n)
    ensures width(text[..n]) <= space
    ensures forall m :: n < m <= |text| ==> width(text[..m]) > space
  {
    if n < |text| {
      forall m | n < m <= |text|
        ensures width(text[..m]) > space
      {
        assert width(text[..n + 1]) <= width(text[..m]);
      }
    }
  }

  /** A run width of ten units per character. */
  function TenPerChar(s: string): int { 10 * |s| }

  /** The as-written loop never measures the full text: with ten units per
      character and a space of 15, both measured prefixes ("" and "a") fit, so
      the length returned for "ab" is 2, although "ab" measures 20. The
      corrected length is 1. */
  lemma AsWrittenReportsOverwideText(n: nat, c: nat)
    requires MeasuredLength(TenPerChar, "ab", 15, n)
    requires LongestFitting(TenPerChar, "ab", 15, c)
    ensures n == 2 && TenPerChar("ab"[..n]) > 15
    ensures c == 1 && TenPerChar("ab"[..c]) <= 15
  {
    assert "ab"[..0] == "";
    assert "ab"[..1] == "a";
    assert "ab"[..2] == "ab";
    assert FitsBelow(TenPerChar, "ab", 15, 2);
    assert !FitsBelow(TenPerChar, "ab", 15, 3);
  }

  /** `Text::SplitStringPair`. */
  datatype SplitStringPair = SplitStringPair(remaining: string, overflowing: string)

  /** `Text::extractExcess` over the corrected length: the text splits, in
      order and without loss, into the longest fitting prefix and the rest. */
  method ExtractExcess(width: string -> int, text: string, space: int) returns (pair: SplitStringPair)
    ensures pair.remaining + pair.overflowing == text
    ensures LongestFitting(width, text, space, |pair.remaining|)
  {
    var stringLength := FittingLength(width, text, space);
    pair := SplitStringPair(text[..stringLength], text[stringLength..]);
  }

  /** A length of 0 leaves nothing and puts the whole text in the overflow. */
  lemma ExtractNothing(width: string -> int, text: string, space: int, pair: SplitStringPair)
    requires pair.remaining + pair.overflowing == text
    requires LongestFitting(width, text, space, |pair.remaining|)
    requires width(text[..0]) > space && |text| > 0 && width(text[..1]) > space
    ensures pair.remaining == [] && pair.overflowing == text
  {
    assert text[..|pair.remaining|] == pair.remaining;
  }

  // ---- glyph placement ----

  /** One shaped glyph's advance, in 26.6 fixed point (64ths of a pixel). */
  datatype Advance = Advance(x: int, y: int)

  /** The pen position before glyph `i`: the sum of the preceding glyphs'
      advances, each truncated to whole pixels before it is added. */
  function PenBefore(advances: seq<Advance>, i: nat): Coords
    requires i <= |advances|
  {
    if i == 0 then Coords(0, 0)
    else CoordsAdd(PenBefore(advances, i - 1),
                   Coords(CInt.Div(advances[i - 1].x, 64), CInt.Div(advances[i - 1].y, 64)))
  }

  /** The placement loop of `getCairoGlyphs`: glyph `i` is put at the pen,
      then the pen moves by its advance divided by 64 (toward zero). */
  method GlyphPositions(advances: seq<Advance>) returns (placed: seq<Coords>)
    ensures |placed| == |advances|
    ensures forall i :: 0 <= i < |placed| ==> placed[i] == PenBefore(advances, i)
  {
    var xAdvance := 0;
    var yAdvance := 0;
    placed := [];
    var i := 0;
    while i != |advances|
      invariant 0 <= i <= |advances|
      invariant |placed| == i
      invariant forall k {:trigger placed[k]} :: 0 <= k < i ==> placed[k] == PenBefore(advances, k)
      invariant Coords(xAdvance, yAdvance) == PenBefore(advances, i)
    {
      placed := placed + [Coords(xAdvance, yAdvance)];
      var dx := CInt.Div(advances[i].x, 64);
      var dy := CInt.Div(advances[i].y, 64);
      PenStep(advances, i, xAdvance, yAdvance);
      xAdvance := xAdvance + dx;
      yAdvance := yAdvance + dy;
      i := i + 1;
    }
  }

  lemma PenStep(advances: seq<Advance>, i: nat, x: int, y: int)
    requires i < |advances| && Coords(x, y) == PenBefore(advances, i)
    ensures Coords(x + CInt.Div(advances[i].x, 64), y + CInt.Div(advances[i].y, 64)) == PenBefore(advances, i + 1)
  {
  }

  /** With non-negative advances the pen never moves back, and it never runs
      ahead of the untruncated total. */
  lemma {:induction false} PenMonotone(advances: seq<Advance>, i: nat, j: nat)
    requires i <= j <= |advances|
    requires forall k :: 0 <= k < |advances| ==> advances[k].x >= 0
    ensures PenBefore(advances, i).x <= PenBefore(advances, j).x
    decreases j - i
  {
    if i < j {
      PenMonotone(advances, i, j - 1);
      CInt.DivNonNegative(advances[j - 1].x, 64);
    }
  }

  /** Advances of less than a whole pixel leave the pen where it started. */
  lemma {:induction false} HalfPixelsTruncated(advances: seq<Advance>, i: nat)
    requires i <= |advances|
    requires forall k :: 0 <= k < |advances| ==> 0 <= advances[k].x < 64 && 0 <= advances[k].y < 64
    ensures PenBefore(advances, i) == Coords(0, 0)
  {
    if i > 0 {
      HalfPixelsTruncated(advances, i - 1);
      var d := advances[i - 1];
      assert CInt.Div(d.x, 64) == 0 && CInt.Div(d.y, 64) == 0;
    }
  }

  /** Truncating each advance separately loses the sub-pixel remainders:
      three half-pixel advances still leave the last glyph at x = 0. */
  lemma TruncationDropsFractions()
    ensures PenBefore([Advance(32, 0), Advance(32, 0), Advance(32, 0)], 3) == Coords(0, 0)
  {
    var half := [Advance(32, 0), Advance(32, 0), Advance(32, 0)];
    HalfPixelsTruncated(half, 3);
  }
}

// `TextRunMaterial`: a material showing one run of text.
module TextRuns {
  import opened Geometry
  import opened TextFitting

  class TextRunMaterial {
    /** The run this material shows. */
    var myText: string
    /** The item's reserved space along its item-flow angle. */
    const reservedAlongFlow: int
    var drawingArea: Dimens

    constructor(reserved: int)
      ensures myText == [] && reservedAlongFlow == reserved && drawingArea == Dimens(0, 0)
    {
      myText := [];
      reservedAlongFlow := reserved;
      drawingArea := Dimens(0, 0);
    }

    /** `setTextForSpace`: keeps the prefix of `run` that fits in `space` less
        the reserved space (clamped at 0) and hands back the overflow. */
    method SetTextForSpace(width: string -> int, run: string, space: int) returns (overflow: string)
      modifies this
      ensures myText + overflow == run
      ensures LongestFitting(width, run, ZeroGuard(space - reservedAlongFlow), |myText|)
      ensures drawingArea == old(drawingArea)
    {
      var revisedSpace := space - reservedAlongFlow;
      var pair := ExtractExcess(width, run, if revisedSpace > 0 then revisedSpace else 0);
      myText := pair.remaining;
      overflow := pair.overflowing;
    }

    /** `shapeDrawingArea`: the proposal plays no part; the drawing area is
        the measured size of the run. */
    method ShapeDrawingArea(runDimensions: string -> Dimens, proposal: Dimens)
      modifies this
      ensures drawingArea == runDimensions(myText) && myText == old(myText)
    {
      drawingArea := runDimensions(myText);
    }
  }
}
