// Animation graphs: a list of (x, y) samples describing how far an
// animated value has travelled (y) at a given fraction of its time (x).
module AnimationGraph {
  import CInt

  datatype Sample = Sample(x: real, y: real)

  datatype TwoSamplePoints = TwoSamplePoints(left: Sample, right: Sample)

  datatype InterpolationMode = Linear | Smooth

  /** `Graph`: the samples in the order they were added, and the mode. */
  datatype Graph = Graph(samples: seq<Sample>, mode: InterpolationMode)

  /** The implicit end points every graph starts from. */
  const Origin: Sample := Sample(0.0, 0.0)
  const Finish: Sample := Sample(1.0, 1.0)

  /** The index of the first sample whose x is not below `p`, or the number
      of samples when every one lies below it. */
  function FirstNotBelow(samples: seq<Sample>, p: real): (i: nat)
    ensures i <= |samples|
    ensures forall k :: 0 <= k < i ==> samples[k].x < p
    ensures i < |samples| ==> samples[i].x >= p
  {
    if samples == [] then 0
    else if samples[0].x >= p then 0
    else 1 + FirstNotBelow(samples[1..], p)
  }

  /** What `getSamplePoints` returns, as written: an exact match is both
      ends; the first sample beyond `p` is the right end and its predecessor
      (or the origin) the left; and when every sample lies below `p` the
      self-assignment leaves the defaults, so the samples are ignored. */
  function BracketAsWritten(samples: seq<Sample>, p: real): TwoSamplePoints
  {
    var i := FirstNotBelow(samples, p);
    if i == |samples| then TwoSamplePoints(Origin, Finish)
    else if samples[i].x == p then TwoSamplePoints(samples[i], samples[i])
    else TwoSamplePoints(if i == 0 then Origin else samples[i - 1], samples[i])
  }

  /** The bracket the comment in `getSamplePoints` describes: when every
      sample lies below `p`, the last one is the left end. */
  function Bracket(samples: seq<Sample>, p: real): TwoSamplePoints
  {
    var i := FirstNotBelow(samples, p);
    if i == |samples| then TwoSamplePoints(if samples == [] then Origin else samples[|samples| - 1], Finish)
    else if samples[i].x == p then TwoSamplePoints(samples[i], samples[i])
    else TwoSamplePoints(if i == 0 then Origin else samples[i - 1], samples[i])
  }

  /** The loop of `getSamplePoints`, as written, including the
      self-assignment `leftSample = leftSample`. */
  method GetSamplePoints(samples: seq<Sample>, percent: real) returns (points: TwoSamplePoints)
    ensures points == BracketAsWritten(samples, percent)
  {
    var leftSample := Origin;
    var rightSample := Finish;
    var i := 0;
    while i != |samples|
      invariant 0 <= i <= |samples|
      invariant forall k :: 0 <= k < i ==> samples[k].x < percent
      invariant leftSample == Origin && rightSample == Finish
    {
      var sample := samples[i];
      if sample.x == percent {
        FirstNotBelowAt(samples, percent, i);
        return TwoSamplePoints(sample, sample);
      }
      if sample.x < percent {
        if i + 1 != |samples| {
          i := i + 1;
          continue;
        }
        leftSample := leftSample;
        FirstNotBelowAt(samples, percent, i + 1);
        break;
      }
      FirstNotBelowAt(samples, percent, i);
      rightSample := sample;
      if i == 0 {
        break;
      }
      leftSample := samples[i - 1];
      break;
    }
    if samples == [] {
      FirstNotBelowAt(samples, percent, 0);
    }
    points := TwoSamplePoints(leftSample, rightSample);
  }

  /** `FirstNotBelow` is pinned down by its two defining properties. */
  lemma {:induction false} FirstNotBelowAt(samples: seq<Sample>, p: real, i: nat)
    requires i <= |samples|
    requires forall k :: 0 <= k < i ==> samples[k].x < p
    requires i < |samples| ==> samples[i].x >= p
    ensures FirstNotBelow(samples, p) == i
  {
  }

  /** Samples with strictly increasing x. */
  ghost predicate Increasing(samples: seq<Sample>)
  {
    forall a, b :: 0 <= a < b < |samples| ==> samples[a].x < samples[b].x
  }

  /** No sample lies strictly between the two ends. */
  ghost predicate Tight(samples: seq<Sample>, points: TwoSamplePoints)
  {
    forall k :: 0 <= k < |samples| ==> !(points.left.x < samples[k].x < points.right.x)
  }

  /** For increasing samples inside [0, 1] and any `p` in [0, 1], the
      corrected bracket encloses `p` and no sample lies strictly inside it,
      so the neighbouring samples are the ones used. */
  lemma {:induction false} BracketEnclosesTightly(samples: seq<Sample>, p: real)
    requires Increasing(samples)
    requires forall k :: 0 <= k < |samples| ==> 0.0 <= samples[k].x <= 1.0
    requires 0.0 <= p <= 1.0
    ensures Bracket(samples, p).left.x <= p <= Bracket(samples, p).right.x
    ensures Tight(samples, Bracket(samples, p))
  {
    var i := FirstNotBelow(samples, p);
    var b := Bracket(samples, p);
    forall k | 0 <= k < |samples|
      ensures !(b.left.x < samples[k].x < b.right.x)
    {
      if k < i {
        if i < |samples| && 0 < i {
          assert k <= i - 1;
          if k < i - 1 {
            assert samples[k].x < samples[i - 1].x;
          }
        } else if i == |samples| {
          assert k <= |samples| - 1;
          if k < |samples| - 1 {
            assert samples[k].x < samples[|samples| - 1].x;
          }
        }
      } else if k > i {
        assert samples[i].x < samples[k].x;
      }
    }
  }

  /** The as-written bracket ignores a sample lying below `p` when it is the
      last one: with the single sample (0.5, 0.9) and p = 0.75 the bracket is
      the bare defaults, which straddle the sample, while the corrected
      bracket starts at it. */
  lemma AsWrittenIgnoresLastSample()
    ensures BracketAsWritten([Sample(0.5, 0.9)], 0.75) == TwoSamplePoints(Origin, Finish)
    ensures !Tight([Sample(0.5, 0.9)], BracketAsWritten([Sample(0.5, 0.9)], 0.75))
    ensures Bracket([Sample(0.5, 0.9)], 0.75) == TwoSamplePoints(Sample(0.5, 0.9), Finish)
  {
    assert FirstNotBelow([Sample(0.5, 0.9)], 0.75) == 1 by {
      FirstNotBelowAt([Sample(0.5, 0.9)], 0.75, 1);
    }
  }

  /** Both brackets agree except when every sample lies below `p`. */
  lemma {:induction false} BracketsAgreeWithinSamples(samples: seq<Sample>, p: real)
    requires exists k :: 0 <= k < |samples| && samples[k].x >= p
    ensures Bracket(samples, p) == BracketAsWritten(samples, p)
  {
    var k :| 0 <= k < |samples| && samples[k].x >= p;
    assert FirstNotBelow(samples, p) <= k;
  }

  // ---- weights ----

  /** `getLinearWeightForPercentage`, as written: the global fraction `xpos`
      blends the two ends' y, whatever their x. */
  function LinearWeightAsWritten(points: TwoSamplePoints, xpos: real): real
  {
    if points.left.y == points.right.y then points.left.y
    else points.left.y * (1.0 - xpos) + points.right.y * xpos
  }

  /** Linear interpolation between the two ends: the fraction is measured
      from the left end's x to the right end's x. */
  function LinearWeight(points: TwoSamplePoints, xpos: real): real
  {
    if points.left.y == points.right.y || points.left.x == points.right.x then points.left.y
    else points.left.y + (points.right.y - points.left.y) * ((xpos - points.left.x) / (points.right.x - points.left.x))
  }

  /** The interpolated weight passes through both ends. */
  lemma LinearWeightThroughEnds(points: TwoSamplePoints)
    requires points.left.x < points.right.x
    ensures LinearWeight(points, points.left.x) == points.left.y
    ensures LinearWeight(points, points.right.x) == points.right.y
  {
    var d := points.right.x - points.left.x;
    assert (points.right.x - points.left.x) / d == 1.0;
  }

  lemma ScaleWithinUnit(a: real, t: real)
    requires 0.0 <= a && 0.0 <= t <= 1.0
    ensures 0.0 <= a * t <= a
  {
  }

  lemma FractionWithinUnit(n: real, d: real)
    requires 0.0 <= n <= d && 0.0 < d
    ensures 0.0 <= n / d <= 1.0
  {
    var t := n / d;
    assert t * d == n;
  }

  /** Between the ends' x values the weight lies between their y values. */
  lemma LinearWeightBetweenEnds(points: TwoSamplePoints, xpos: real)
    requires points.left.x <= xpos <= points.right.x && points.left.x < points.right.x
    requires points.left.y <= points.right.y
    ensures points.left.y <= LinearWeight(points, xpos) <= points.right.y
  {
    var l, r := points.left, points.right;
    if l.y != r.y {
      FractionWithinUnit(xpos - l.x, r.x - l.x);
      ScaleWithinUnit(r.y - l.y, (xpos - l.x) / (r.x - l.x));
    }
  }

  /** On the default bracket (0,0)-(1,1) both weights are the fraction itself. */
  lemma WeightsAgreeOnDefaults(xpos: real)
    ensures LinearWeightAsWritten(TwoSamplePoints(Origin, Finish), xpos) == xpos
    ensures LinearWeight(TwoSamplePoints(Origin, Finish), xpos) == xpos
  {
  }

  /** The as-written weight leaves the straight line between the bracket's
      ends: with the single sample (0.5, 0.5), the as-written bracket of 0.25
      runs from (0, 0) to the sample, and the as-written weight there is
      0.125, where the line through both ends gives 0.25. */
  lemma AsWrittenWeightLeavesTheLine()
    ensures BracketAsWritten([Sample(0.5, 0.5)], 0.25) == TwoSamplePoints(Origin, Sample(0.5, 0.5))
    ensures LinearWeightAsWritten(BracketAsWritten([Sample(0.5, 0.5)], 0.25), 0.25) == 0.125
    ensures LinearWeight(BracketAsWritten([Sample(0.5, 0.5)], 0.25), 0.25) == 0.25
  {
    FirstNotBelowAt([Sample(0.5, 0.5)], 0.25, 0);
  }

  /** `origin` weighted by `1 - e` and `dest` by `e` lies between them
      when `e` lies within the unit interval. */
  lemma EaseBetween(origin: real, dest: real, e: real)
    requires origin <= dest && 0.0 <= e <= 1.0
    ensures origin <= origin * (1.0 - e) + dest * e <= dest
  {
    var gap := (dest - origin) * e;
    ScaleWithinUnit(dest - origin, e);
    assert 0.0 <= gap <= dest - origin;
    assert origin * (1.0 - e) + dest * e == origin + gap by {
      assert origin * (1.0 - e) == origin - origin * e;
      assert gap == dest * e - origin * e;
    }
    assert origin <= origin + gap <= dest;
  }

  /** `getSmoothWeightForPercentage`, as written: the global fraction `xpos`
      is reshaped by `(1 - cos(xpos * pi)) / 2` before blending the two
      ends' y, whatever their x. The cosine is not part of this model and
      is passed in as `cosPi`. */
  function SmoothWeightAsWritten(points: TwoSamplePoints, xpos: real, cosPi: real -> real): real
  {
    if points.left.y == points.right.y then points.left.y
    else
      var eased := (1.0 - cosPi(xpos)) / 2.0;
      points.left.y * (1.0 - eased) + points.right.y * eased
  }

  /** Smooth interpolation between the two ends: the fraction measured from
      the left end's x to the right end's x is eased by `(1 - cosPi(t)) / 2`. */
  function SmoothWeight(points: TwoSamplePoints, xpos: real, cosPi: real -> real): real
  {
    if points.left.y == points.right.y || points.left.x == points.right.x then points.left.y
    else
      var t := (xpos - points.left.x) / (points.right.x - points.left.x);
      var eased := (1.0 - cosPi(t)) / 2.0;
      points.left.y * (1.0 - eased) + points.right.y * eased
  }

  /** As written, a cosine within [-1, 1] keeps the weight between the
      ends' y values. */
  lemma SmoothWeightAsWrittenBetweenEnds(points: TwoSamplePoints, xpos: real, cosPi: real -> real)
    requires -1.0 <= cosPi(xpos) <= 1.0
    requires points.left.y <= points.right.y
    ensures points.left.y <= SmoothWeightAsWritten(points, xpos, cosPi) <= points.right.y
  {
    var c := cosPi(xpos);
    if points.left.y != points.right.y {
      assert 0.0 <= (1.0 - c) / 2.0 <= 1.0;
      EaseBetween(points.left.y, points.right.y, (1.0 - c) / 2.0);
    }
  }

  /** With cos(0) = 1 and cos(pi) = -1, the smooth weight passes through
      both bracket ends. */
  lemma SmoothWeightThroughEnds(points: TwoSamplePoints, cosPi: real -> real)
    requires points.left.x < points.right.x
    requires cosPi(0.0) == 1.0 && cosPi(1.0) == -1.0
    ensures SmoothWeight(points, points.left.x, cosPi) == points.left.y
    ensures SmoothWeight(points, points.right.x, cosPi) == points.right.y
  {
    var d := points.right.x - points.left.x;
    assert (points.left.x - points.left.x) / d == 0.0;
    assert (points.right.x - points.left.x) / d == 1.0;
  }

  /** Between the ends' x values, a cosine within [-1, 1] keeps the smooth
      weight between the ends' y values. */
  lemma SmoothWeightBetweenEnds(points: TwoSamplePoints, xpos: real, cosPi: real -> real)
    requires points.left.x < points.right.x && points.left.y <= points.right.y
    requires -1.0 <= cosPi((xpos - points.left.x) / (points.right.x - points.left.x)) <= 1.0
    ensures points.left.y <= SmoothWeight(points, xpos, cosPi) <= points.right.y
  {
    var l, r := points.left, points.right;
    var c := cosPi((xpos - l.x) / (r.x - l.x));
    if l.y != r.y {
      assert 0.0 <= (1.0 - c) / 2.0 <= 1.0;
      EaseBetween(l.y, r.y, (1.0 - c) / 2.0);
    }
  }

  /** As written, the smooth weight eases the global percentage: with the
      single sample 0.5 @ 0.5 read at 0.25, the as-written bracket runs
      from 0 @ 0 to the sample, the source eases cos(0.25 pi) where the
      fraction within the bracket is 0.5, and the two differ whenever the
      cosine does. */
  lemma AsWrittenSmoothWeightLeavesTheCurve(cosPi: real -> real)
    requires cosPi(0.25) != cosPi(0.5)
    ensures SmoothWeightAsWritten(BracketAsWritten([Sample(0.5, 0.5)], 0.25), 0.25, cosPi)
            != SmoothWeight(BracketAsWritten([Sample(0.5, 0.5)], 0.25), 0.25, cosPi)
  {
    AsWrittenWeightLeavesTheLine();
    assert (0.25 - 0.0) / (0.5 - 0.0) == 0.5;
  }

  /** `origin` and `dest` weighted by `1 - destWeight` and `destWeight`,
      truncated to an integer. */
  function Blend(origin: int, dest: int, destWeight: real): int
  {
    CInt.TruncateToInt(origin as real * (1.0 - destWeight) + dest as real * destWeight)
  }

  /** `getInterpolatedScalarForPercentage` as written: `origin` and `dest`
      weighted by the graph's weight at `percentage`, truncated to an
      integer, where both weights read the as-written bracket and blend by
      the global percentage. */
  function InterpolatedScalarAsWritten(g: Graph, origin: int, dest: int, percentage: real, cosPi: real -> real): int
  {
    var points := BracketAsWritten(g.samples, percentage);
    var destWeight := match g.mode
      case Linear => LinearWeightAsWritten(points, percentage)
      case Smooth => SmoothWeightAsWritten(points, percentage, cosPi);
    Blend(origin, dest, destWeight)
  }

  /** `getInterpolatedScalarForPercentage`, corrected: the same blend over
      the corrected bracket, with both weights measuring the fraction within
      the bracket. */
  function InterpolatedScalar(g: Graph, origin: int, dest: int, percentage: real, cosPi: real -> real): int
  {
    var points := Bracket(g.samples, percentage);
    var destWeight := match g.mode
      case Linear => LinearWeight(points, percentage)
      case Smooth => SmoothWeight(points, percentage, cosPi);
    Blend(origin, dest, destWeight)
  }

  /** A weight of 0 gives the origin and a weight of 1 the destination:
      with no samples, a linear graph starts at `origin` and ends at `dest`. */
  lemma InterpolationEnds(origin: int, dest: int, cosPi: real -> real)
    ensures InterpolatedScalar(Graph([], Linear), origin, dest, 0.0, cosPi) == origin
    ensures InterpolatedScalar(Graph([], Linear), origin, dest, 1.0, cosPi) == dest
  {
    assert Bracket([], 0.0) == TwoSamplePoints(Origin, Finish);
    assert Bracket([], 1.0) == TwoSamplePoints(Origin, Finish);
    WeightsAgreeOnDefaults(0.0);
    WeightsAgreeOnDefaults(1.0);
  }

  /** Without samples the as-written and the corrected interpolation agree
      at every percentage and in both modes. */
  lemma InterpolationsAgreeWithoutSamples(mode: InterpolationMode, origin: int, dest: int, p: real, cosPi: real -> real)
    ensures InterpolatedScalarAsWritten(Graph([], mode), origin, dest, p, cosPi)
            == InterpolatedScalar(Graph([], mode), origin, dest, p, cosPi)
  {
    assert Bracket([], p) == TwoSamplePoints(Origin, Finish);
    assert BracketAsWritten([], p) == TwoSamplePoints(Origin, Finish);
    WeightsAgreeOnDefaults(p);
    assert (p - Origin.x) / (Finish.x - Origin.x) == p;
  }

  /** As written, the graph 0.5 @ 0.5 read at 0.25 between 0 and 8 gives 1,
      where the line through its samples gives 2. */
  lemma AsWrittenInterpolationLeavesTheLine(cosPi: real -> real)
    ensures InterpolatedScalarAsWritten(Graph([Sample(0.5, 0.5)], Linear), 0, 8, 0.25, cosPi) == 1
    ensures InterpolatedScalar(Graph([Sample(0.5, 0.5)], Linear), 0, 8, 0.25, cosPi) == 2
  {
    AsWrittenWeightLeavesTheLine();
    BracketsAgreeWithinSamples([Sample(0.5, 0.5)], 0.25);
    assert Blend(0, 8, 0.125) == 1 by { assert 0.0 * (1.0 - 0.125) + 8.0 * 0.125 == 1.0; }
    assert Blend(0, 8, 0.25) == 2 by { assert 0.0 * (1.0 - 0.25) + 8.0 * 0.25 == 2.0; }
  }

  /** An exact match on a sample gives that sample's y as the weight. */
  lemma {:induction false} ExactSampleWeight(samples: seq<Sample>, k: nat, cosPi: real -> real)
    requires k < |samples| && Increasing(samples)
    ensures Bracket(samples, samples[k].x) == TwoSamplePoints(samples[k], samples[k])
    ensures LinearWeight(Bracket(samples, samples[k].x), samples[k].x) == samples[k].y
    ensures SmoothWeight(Bracket(samples, samples[k].x), samples[k].x, cosPi) == samples[k].y
  {
    forall j | 0 <= j < k
      ensures samples[j].x < samples[k].x
    {
    }
    FirstNotBelowAt(samples, samples[k].x, k);
  }
}
