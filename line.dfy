// `Shaping::line`: how a row of child materials shares the space a
// proposal offers along one angle (the adjacent angle), and how their sizes
// along the other angle (the opposite angle) are made to agree.
//
// A child is known only through its index and the dimensions it settles on
// when shaped with a proposal (`shape` followed by reading its viewport);
// that is an abstract function here. The children's current viewports are
// the state the algorithm reads and updates.
module LineShaping {
  import opened Geometry
  import opened Proposal
  import CInt

  /** Shaping child `i` with a proposal and reading back its viewport size. */
  type Shaper = (nat, GeometryProposal) -> Dimens

  /** Every child honours the proposal it is given; the source asserts this
      after each shaping call. */
  ghost predicate Complies(shape: Shaper)
  {
    forall i: nat, p: GeometryProposal :: VerifyCompliance(p, shape(i, p))
  }

  /** A list of child indices, all below `n`. */
  ghost predicate Within(items: seq<nat>, n: nat)
  {
    forall k :: 0 <= k < |items| ==> items[k] < n
  }

  /** The indices `0 .. n-1`, in order. */
  function AllIndices(n: nat): (s: seq<nat>)
    ensures |s| == n && forall k :: 0 <= k < n ==> s[k] == k
  {
    seq(n, k requires 0 <= k => k)
  }

  // ---- splitting the children by fill precedence ----

  /** The positions holding `f`, in order. */
  function Indices(fill: seq<FillPrecedence>, f: FillPrecedence): (s: seq<nat>)
    ensures Within(s, |fill|)
  {
    if fill == [] then []
    else Indices(fill[..|fill| - 1], f) + (if fill[|fill| - 1] == f then [|fill| - 1] else [])
  }

  /** A position is listed exactly when it holds `f`, and the list ascends. */
  lemma {:induction false} IndicesMeaning(fill: seq<FillPrecedence>, f: FillPrecedence)
    ensures forall i: nat :: i in Indices(fill, f) <==> i < |fill| && fill[i] == f
    ensures forall a, b :: 0 <= a < b < |Indices(fill, f)| ==> Indices(fill, f)[a] < Indices(fill, f)[b]
    decreases |fill|
  {
    if fill != [] {
      var pre := fill[..|fill| - 1];
      IndicesMeaning(pre, f);
      forall i: nat | i < |pre| ensures pre[i] == fill[i] { }
    }
  }

  /** Every child lands in exactly one of the greedy and shrinky sets, and
      the two sets together are as many as the children. */
  lemma {:induction false} IndicesPartition(fill: seq<FillPrecedence>)
    ensures forall i: nat :: i < |fill| ==> (i in Indices(fill, Greedy) <==> i !in Indices(fill, Shrinky))
    ensures |Indices(fill, Greedy)| + |Indices(fill, Shrinky)| == |fill|
    decreases |fill|
  {
    IndicesMeaning(fill, Greedy);
    IndicesMeaning(fill, Shrinky);
    if fill != [] {
      IndicesPartition(fill[..|fill| - 1]);
    }
  }

  /** The first loop of `line`: each child is pushed onto the greedy or the
      shrinky list by its fill precedence on the adjacent angle. */
  method SplitByFill(fill: seq<FillPrecedence>) returns (greedy: seq<nat>, shrinky: seq<nat>)
    ensures greedy == Indices(fill, Greedy) && shrinky == Indices(fill, Shrinky)
  {
    greedy, shrinky := [], [];
    var k := 0;
    while k != |fill|
      invariant 0 <= k <= |fill|
      invariant greedy == Indices(fill[..k], Greedy) && shrinky == Indices(fill[..k], Shrinky)
    {
      assert fill[..k + 1][..k] == fill[..k];
      if fill[k] == Greedy {
        greedy := greedy + [k];
      }
      if fill[k] == Shrinky {
        shrinky := shrinky + [k];
      }
      k := k + 1;
    }
    assert fill[..k] == fill;
  }

  // ---- running totals ----

  /** The sum of the listed children's sizes along `a`. */
  function SumAlong(views: seq<Dimens>, items: seq<nat>, a: Angle): int
    requires Within(items, |views|)
  {
    if items == [] then 0
    else SumAlong(views, items[..|items| - 1], a) + DimensGet(views[items[|items| - 1]], a)
  }

  /** The largest of `init` and the listed children's sizes along `a`. */
  function MaxAlong(views: seq<Dimens>, items: seq<nat>, a: Angle, init: int): (m: int)
    requires Within(items, |views|)
    ensures m >= init
    ensures forall k :: 0 <= k < |items| ==> m >= DimensGet(views[items[k]], a)
    ensures m == init || exists k :: 0 <= k < |items| && m == DimensGet(views[items[k]], a)
  {
    if items == [] then init
    else
      var rest := MaxAlong(views, items[..|items| - 1], a, init);
      assert forall k :: 0 <= k < |items| - 1 ==> items[..|items| - 1][k] == items[k];
      Max(rest, DimensGet(views[items[|items| - 1]], a))
  }

  /** Whether some listed child's size along `a` differs from `v`. */
  function AnyDiffers(views: seq<Dimens>, items: seq<nat>, a: Angle, v: int): bool
    requires Within(items, |views|)
  {
    if items == [] then false
    else AnyDiffers(views, items[..|items| - 1], a, v) || DimensGet(views[items[|items| - 1]], a) != v
  }

  /** Sums agree when the views agree, along `a`, on every listed child. */
  lemma {:induction false} SumAlongAgree(v1: seq<Dimens>, v2: seq<Dimens>, items: seq<nat>, a: Angle)
    requires Within(items, |v1|) && Within(items, |v2|)
    requires forall k :: 0 <= k < |items| ==> DimensGet(v1[items[k]], a) == DimensGet(v2[items[k]], a)
    ensures SumAlong(v1, items, a) == SumAlong(v2, items, a)
    decreases |items|
  {
    if items != [] {
      var pre := items[..|items| - 1];
      assert forall k :: 0 <= k < |pre| ==> pre[k] == items[k];
      SumAlongAgree(v1, v2, pre, a);
    }
  }

  /** Shifting every listed child by `d` shifts the sum by `d` per child. */
  lemma {:induction false} SumAlongShift(v1: seq<Dimens>, v2: seq<Dimens>, items: seq<nat>, a: Angle, d: int)
    requires Within(items, |v1|) && Within(items, |v2|)
    requires forall k :: 0 <= k < |items| ==> DimensGet(v2[items[k]], a) == DimensGet(v1[items[k]], a) + d
    ensures SumAlong(v2, items, a) == SumAlong(v1, items, a) + |items| * d
    decreases |items|
  {
    if items != [] {
      var pre := items[..|items| - 1];
      assert forall k :: 0 <= k < |pre| ==> pre[k] == items[k];
      SumAlongShift(v1, v2, pre, a, d);
    }
  }

  /** The greedy and shrinky sums together are the sum over all children. */
  lemma {:induction false} SumAlongSplit(views: seq<Dimens>, fill: seq<FillPrecedence>, a: Angle)
    requires |fill| <= |views|
    ensures SumAlong(views, Indices(fill, Greedy), a) + SumAlong(views, Indices(fill, Shrinky), a)
            == SumAlong(views, AllIndices(|fill|), a)
    decreases |fill|
  {
    if fill != [] {
      var n := |fill| - 1;
      var pre := fill[..n];
      SumAlongSplit(views, pre, a);
      var g, s := Indices(pre, Greedy), Indices(pre, Shrinky);
      assert AllIndices(n + 1) == AllIndices(n) + [n];
      SumAlongSnoc(views, AllIndices(n), n, a);
      if fill[n] == Greedy {
        assert Indices(fill, Greedy) == g + [n] && Indices(fill, Shrinky) == s;
        SumAlongSnoc(views, g, n, a);
      } else {
        assert Indices(fill, Shrinky) == s + [n] && Indices(fill, Greedy) == g;
        SumAlongSnoc(views, s, n, a);
      }
    }
  }

  /** Listing one more child adds its size. */
  lemma SumAlongSnoc(views: seq<Dimens>, items: seq<nat>, k: nat, a: Angle)
    requires Within(items, |views|) && k < |views|
    ensures Within(items + [k], |views|)
    ensures SumAlong(views, items + [k], a) == SumAlong(views, items, a) + DimensGet(views[k], a)
  {
    assert (items + [k])[..|items|] == items;
  }

  // ---- reshaping a set of children ----

  /** The children's viewports after each listed child has been shaped with
      its proposal; the others keep theirs. */
  function Reshaped(shape: Shaper, items: seq<nat>, proposalFor: nat -> GeometryProposal, views: seq<Dimens>): (r: seq<Dimens>)
    ensures |r| == |views|
  {
    seq(|views|, i requires 0 <= i < |views| => if i as nat in items then shape(i, proposalFor(i)) else views[i])
  }

  /** The working state of `line`: the children's viewports, the running
      adjacent total, the running opposite maximum and the opposite flag. */
  datatype Work = Work(views: seq<Dimens>, usedAdjacent: int, usedOpposite: int, invalidOpposite: bool)

  /** `applyToSet`: every listed child is shaped, its adjacent size added to
      the total, its opposite size maxed into the opposite, and the flag
      raised if that opposite is not the available one. */
  function Applied(shape: Shaper, items: seq<nat>, proposalFor: nat -> GeometryProposal, a: Angle,
                   availableOpposite: int, w: Work): (r: Work)
    requires Within(items, |w.views|)
    ensures |r.views| == |w.views|
  {
    var views := Reshaped(shape, items, proposalFor, w.views);
    Work(views,
         w.usedAdjacent + SumAlong(views, items, a),
         MaxAlong(views, items, OtherAngle(a), w.usedOpposite),
         w.invalidOpposite || AnyDiffers(views, items, OtherAngle(a), availableOpposite))
  }

  lemma ReshapedStep(shape: Shaper, items: seq<nat>, k: nat, proposalFor: nat -> GeometryProposal, views: seq<Dimens>)
    requires k < |items| && Within(items, |views|)
    ensures Reshaped(shape, items[..k + 1], proposalFor, views)
            == Reshaped(shape, items[..k], proposalFor, views)[items[k] := shape(items[k], proposalFor(items[k]))]
  {
  }

  /** Listing one more child extends the sum, the maximum and the test. */
  lemma AlongStep(views: seq<Dimens>, items: seq<nat>, k: nat, a: Angle, init: int, v: int)
    requires k < |items| && Within(items, |views|)
    ensures SumAlong(views, items[..k + 1], a) == SumAlong(views, items[..k], a) + DimensGet(views[items[k]], a)
    ensures MaxAlong(views, items[..k + 1], OtherAngle(a), init)
            == Max(MaxAlong(views, items[..k], OtherAngle(a), init), DimensGet(views[items[k]], OtherAngle(a)))
    ensures AnyDiffers(views, items[..k + 1], OtherAngle(a), v)
            == (AnyDiffers(views, items[..k], OtherAngle(a), v) || DimensGet(views[items[k]], OtherAngle(a)) != v)
  {
    assert items[..k + 1][..k] == items[..k];
  }

  /** `applyToSet` with `applyAdjacentFormulaToChild` inlined. */
  method ApplyToSet(shape: Shaper, items: seq<nat>, proposalFor: nat -> GeometryProposal, a: Angle,
                    availableOpposite: int, w: Work) returns (r: Work)
    requires Within(items, |w.views|)
    ensures r == Applied(shape, items, proposalFor, a, availableOpposite, w)
  {
    ghost var final := Reshaped(shape, items, proposalFor, w.views);
    var views, used, opposite, invalid := w.views, w.usedAdjacent, w.usedOpposite, w.invalidOpposite;
    var k := 0;
    while k != |items|
      invariant 0 <= k <= |items|
      invariant views == Reshaped(shape, items[..k], proposalFor, w.views)
      invariant used == w.usedAdjacent + SumAlong(final, items[..k], a)
      invariant opposite == MaxAlong(final, items[..k], OtherAngle(a), w.usedOpposite)
      invariant invalid == (w.invalidOpposite || AnyDiffers(final, items[..k], OtherAngle(a), availableOpposite))
    {
      var material := items[k];
      var childDimens := shape(material, proposalFor(material));
      ReshapedStep(shape, items, k, proposalFor, w.views);
      assert final[material] == childDimens;
      AlongStep(final, items, k, a, w.usedOpposite, availableOpposite);
      views := views[material := childDimens];
      used := used + DimensGet(childDimens, a);
      var usedOppositeThisRound := DimensGet(childDimens, OtherAngle(a));
      if usedOppositeThisRound > opposite {
        opposite := usedOppositeThisRound;
      }
      if availableOpposite != usedOppositeThisRound {
        invalid := true;
      }
      k := k + 1;
    }
    assert items[..k] == items;
    r := Work(views, used, opposite, invalid);
  }

  // ---- the opposite correction ----

  /** The proposal of the correction pass: the child's own viewport with the
      opposite set to the agreed maximum, and all four flags off. */
  function Locked(proposal: GeometryProposal, view: Dimens, opposite: int, a: Angle): GeometryProposal
  {
    proposal.(expandHorizontal := false, expandVertical := false,
              shrinkHorizontal := false, shrinkVertical := false,
              proposedDimensions := DimensSet(view, OtherAngle(a), opposite))
  }

  /** `adjustOpposite`: only when the flag is raised, every child is reshaped
      at the agreed opposite, the adjacent total is recomputed from scratch,
      and the flag is lowered; the opposite maximum is kept. */
  function Adjusted(shape: Shaper, proposal: GeometryProposal, a: Angle, w: Work): (r: Work)
    ensures |r.views| == |w.views|
  {
    if !w.invalidOpposite then w
    else
      var views := seq(|w.views|, i requires 0 <= i < |w.views| => shape(i, Locked(proposal, w.views[i], w.usedOpposite, a)));
      Work(views, SumAlong(views, AllIndices(|w.views|), a), w.usedOpposite, false)
  }

  method AdjustOpposite(shape: Shaper, proposal: GeometryProposal, a: Angle, w: Work) returns (r: Work)
    ensures r == Adjusted(shape, proposal, a, w)
  {
    if !w.invalidOpposite {
      return w;
    }
    var n := |w.views|;
    ghost var final := Adjusted(shape, proposal, a, w).views;
    var views := w.views;
    var used := 0;
    var i := 0;
    while i != n
      invariant 0 <= i <= n && |views| == n
      invariant forall j :: 0 <= j < n ==> views[j] == if j < i then final[j] else w.views[j]
      invariant used == SumAlong(final, AllIndices(i), a)
    {
      var childDimens := shape(i, Locked(proposal, views[i], w.usedOpposite, a));
      assert AllIndices(i + 1)[..i] == AllIndices(i);
      views := views[i := childDimens];
      used := used + DimensGet(childDimens, a);
      i := i + 1;
    }
    assert views == final;
    r := Work(views, used, w.usedOpposite, false);
  }

  /** Under compliant children the correction changes nothing but the
      opposites, which all become the agreed maximum; so the adjacent total
      is the sum over the unchanged adjacent sizes. */
  lemma AdjustedLocksOpposite(shape: Shaper, proposal: GeometryProposal, a: Angle, w: Work)
    requires Complies(shape) && w.invalidOpposite
    ensures forall i :: 0 <= i < |w.views| ==>
              Adjusted(shape, proposal, a, w).views[i] == DimensSet(w.views[i], OtherAngle(a), w.usedOpposite)
    ensures Adjusted(shape, proposal, a, w).usedAdjacent == SumAlong(w.views, AllIndices(|w.views|), a)
  {
    var r := Adjusted(shape, proposal, a, w);
    forall i | 0 <= i < |w.views|
      ensures r.views[i] == DimensSet(w.views[i], OtherAngle(a), w.usedOpposite)
    {
      var p := Locked(proposal, w.views[i], w.usedOpposite, a);
      assert VerifyCompliance(p, shape(i, p));
      RigidProposalAdmitsOnlyItself(p, shape(i, p));
    }
    forall k | 0 <= k < |w.views|
      ensures DimensGet(r.views[AllIndices(|w.views|)[k]], a) == DimensGet(w.views[AllIndices(|w.views|)[k]], a)
    {
      assert OtherAngle(a) != a;
    }
    SumAlongAgree(r.views, w.views, AllIndices(|w.views|), a);
  }

  // ---- the initial pass ----

  /** A proposal for every child alike. */
  function Always(p: GeometryProposal): nat -> GeometryProposal
  {
    _ => p
  }

  /** The initial proposal: adjacent expand and shrink on, and the adjacent
      size `zeroGuard(available / N)`. The formula captures the running
      total by value when it is still 0, so the share never shrinks as
      children are placed. With no children it is never used. */
  function InitialProposal(proposal: GeometryProposal, a: Angle, n: nat): GeometryProposal
  {
    var childProposal := SetShrink(SetExpand(proposal, a, true), a, true);
    var available := DimensGet(proposal.proposedDimensions, a);
    SetProposed(childProposal, a, if n == 0 then 0 else ZeroGuard(CInt.Div(available, n)))
  }

  /** The initial pass before its correction: shrinky children first, then
      greedy ones, all with the initial proposal. */
  function PrePass(shape: Shaper, fill: seq<FillPrecedence>, views: seq<Dimens>,
                   proposal: GeometryProposal, a: Angle): Work
    requires |fill| == |views|
  {
    var availableOpposite := DimensGet(proposal.proposedDimensions, OtherAngle(a));
    var initial := Always(InitialProposal(proposal, a, |fill|));
    var w1 := Applied(shape, Indices(fill, Shrinky), initial, a, availableOpposite, Work(views, 0, 0, false));
    Applied(shape, Indices(fill, Greedy), initial, a, availableOpposite, w1)
  }

  /** The initial pass, then the correction. */
  function InitialPass(shape: Shaper, fill: seq<FillPrecedence>, views: seq<Dimens>,
                       proposal: GeometryProposal, a: Angle): Work
    requires |fill| == |views|
  {
    Adjusted(shape, proposal, a, PrePass(shape, fill, views, proposal, a))
  }

  /** The two passes of a phase, shrinky children with `pf1` and then greedy
      ones with `pf2`, shape every child exactly once with its set's proposal. */
  lemma TwoPassViews(shape: Shaper, fill: seq<FillPrecedence>, pf1: nat -> GeometryProposal, pf2: nat -> GeometryProposal,
                     a: Angle, availableOpposite: int, w0: Work)
    requires |fill| == |w0.views|
    ensures var w1 := Applied(shape, Indices(fill, Shrinky), pf1, a, availableOpposite, w0);
            var w2 := Applied(shape, Indices(fill, Greedy), pf2, a, availableOpposite, w1);
            forall i :: 0 <= i < |fill| ==>
              w2.views[i] == shape(i, if fill[i] == Shrinky then pf1(i) else pf2(i)) &&
              (fill[i] == Shrinky ==> w1.views[i] == w2.views[i]) &&
              (fill[i] == Greedy ==> w1.views[i] == w0.views[i])
  {
    IndicesMeaning(fill, Greedy);
    IndicesMeaning(fill, Shrinky);
  }

  /** After the two passes the adjacent total has grown by the sum of every
      child's new adjacent size. */
  lemma TwoPassTotal(shape: Shaper, fill: seq<FillPrecedence>, pf1: nat -> GeometryProposal, pf2: nat -> GeometryProposal,
                     a: Angle, availableOpposite: int, w0: Work)
    requires |fill| == |w0.views|
    ensures var w1 := Applied(shape, Indices(fill, Shrinky), pf1, a, availableOpposite, w0);
            var w2 := Applied(shape, Indices(fill, Greedy), pf2, a, availableOpposite, w1);
            w2.usedAdjacent == w0.usedAdjacent + SumAlong(w2.views, AllIndices(|fill|), a)
  {
    var s := Indices(fill, Shrinky);
    var w1 := Applied(shape, s, pf1, a, availableOpposite, w0);
    var w2 := Applied(shape, Indices(fill, Greedy), pf2, a, availableOpposite, w1);
    TwoPassViews(shape, fill, pf1, pf2, a, availableOpposite, w0);
    IndicesMeaning(fill, Shrinky);
    forall k | 0 <= k < |s|
      ensures DimensGet(w1.views[s[k]], a) == DimensGet(w2.views[s[k]], a)
    {
      assert s[k] in s;
    }
    SumAlongAgree(w1.views, w2.views, s, a);
    SumAlongSplit(w2.views, fill, a);
  }

  /** After the two passes the opposite is at least its old value and every
      child's new opposite size. */
  lemma TwoPassOpposite(shape: Shaper, fill: seq<FillPrecedence>, pf1: nat -> GeometryProposal, pf2: nat -> GeometryProposal,
                        a: Angle, availableOpposite: int, w0: Work)
    requires |fill| == |w0.views|
    ensures var w1 := Applied(shape, Indices(fill, Shrinky), pf1, a, availableOpposite, w0);
            var w2 := Applied(shape, Indices(fill, Greedy), pf2, a, availableOpposite, w1);
            w2.usedOpposite >= w0.usedOpposite &&
            forall i :: 0 <= i < |fill| ==> w2.usedOpposite >= DimensGet(w2.views[i], OtherAngle(a))
  {
    var w1 := Applied(shape, Indices(fill, Shrinky), pf1, a, availableOpposite, w0);
    var w2 := Applied(shape, Indices(fill, Greedy), pf2, a, availableOpposite, w1);
    forall i | 0 <= i < |fill|
      ensures w2.usedOpposite >= DimensGet(w2.views[i], OtherAngle(a))
    {
      TwoPassOppositeChild(shape, fill, pf1, pf2, a, availableOpposite, w0, i);
    }
  }

  lemma TwoPassOppositeChild(shape: Shaper, fill: seq<FillPrecedence>, pf1: nat -> GeometryProposal, pf2: nat -> GeometryProposal,
                             a: Angle, availableOpposite: int, w0: Work, i: nat)
    requires |fill| == |w0.views| && i < |fill|
    ensures var w1 := Applied(shape, Indices(fill, Shrinky), pf1, a, availableOpposite, w0);
            var w2 := Applied(shape, Indices(fill, Greedy), pf2, a, availableOpposite, w1);
            w2.usedOpposite >= DimensGet(w2.views[i], OtherAngle(a))
  {
    var g, s := Indices(fill, Greedy), Indices(fill, Shrinky);
    var w1 := Applied(shape, s, pf1, a, availableOpposite, w0);
    var w2 := Applied(shape, g, pf2, a, availableOpposite, w1);
    TwoPassViews(shape, fill, pf1, pf2, a, availableOpposite, w0);
    IndicesMeaning(fill, Greedy);
    IndicesMeaning(fill, Shrinky);
    assert w2.usedOpposite == MaxAlong(w2.views, g, OtherAngle(a), w1.usedOpposite);
    if fill[i] == Greedy {
      var k :| 0 <= k < |g| && g[k] == i;
      assert w2.usedOpposite >= DimensGet(w2.views[g[k]], OtherAngle(a));
    } else {
      var k :| 0 <= k < |s| && s[k] == i;
      assert w1.usedOpposite == MaxAlong(w1.views, s, OtherAngle(a), w0.usedOpposite);
      assert w1.usedOpposite >= DimensGet(w1.views[s[k]], OtherAngle(a));
      assert w1.views[i] == w2.views[i];
    }
  }

  /** Before the correction, every child has been shaped once with the
      initial proposal; the adjacent total is the sum of all their adjacent
      sizes, and the opposite is the largest of 0 and their opposites. */
  lemma InitialPassShapesEveryChild(shape: Shaper, fill: seq<FillPrecedence>, views: seq<Dimens>,
                                    proposal: GeometryProposal, a: Angle)
    requires |fill| == |views|
    ensures var w2 := PrePass(shape, fill, views, proposal, a);
            (forall i :: 0 <= i < |fill| ==> w2.views[i] == shape(i, InitialProposal(proposal, a, |fill|))) &&
            w2.usedAdjacent == SumAlong(w2.views, AllIndices(|fill|), a) &&
            w2.usedOpposite >= 0 &&
            (forall i :: 0 <= i < |fill| ==> w2.usedOpposite >= DimensGet(w2.views[i], OtherAngle(a)))
  {
    var availableOpposite := DimensGet(proposal.proposedDimensions, OtherAngle(a));
    var initial := Always(InitialProposal(proposal, a, |fill|));
    TwoPassViews(shape, fill, initial, initial, a, availableOpposite, Work(views, 0, 0, false));
    TwoPassTotal(shape, fill, initial, initial, a, availableOpposite, Work(views, 0, 0, false));
    TwoPassOpposite(shape, fill, initial, initial, a, availableOpposite, Work(views, 0, 0, false));
  }

  /** The initial proposal: both adjacent flags on, the adjacent size the
      equal non-negative share, and the rest as proposed. */
  lemma InitialProposalShare(proposal: GeometryProposal, a: Angle, n: nat)
    requires n > 0
    ensures Expand(InitialProposal(proposal, a, n), a) && Shrink(InitialProposal(proposal, a, n), a)
    ensures DimensGet(InitialProposal(proposal, a, n).proposedDimensions, a)
            == ZeroGuard(CInt.Div(DimensGet(proposal.proposedDimensions, a), n))
    ensures DimensGet(InitialProposal(proposal, a, n).proposedDimensions, OtherAngle(a))
            == DimensGet(proposal.proposedDimensions, OtherAngle(a))
    ensures Expand(InitialProposal(proposal, a, n), OtherAngle(a)) == Expand(proposal, OtherAngle(a))
    ensures Shrink(InitialProposal(proposal, a, n), OtherAngle(a)) == Shrink(proposal, OtherAngle(a))
  {
  }

  // ---- overflow: cutting every child ----

  /** The cut as written: `(used - available) / N`, truncated. */
  function CutSizeAsWritten(used: int, available: int, n: nat): int
    requires n > 0
  {
    CInt.Div(used - available, n)
  }

  /** The cut rounded up, so that the cut children fit. */
  function CutSize(used: int, available: int, n: nat): int
    requires n > 0
  {
    CInt.Div(used - available + n - 1, n)
  }

  /** The adjusting formula: the child's current adjacent size less the cut,
      floored at 0. */
  function CutProposal(childProposal: GeometryProposal, views: seq<Dimens>, a: Angle, cut: int): nat -> GeometryProposal
  {
    (i: nat) => SetProposed(childProposal, a, if i < |views| then ZeroGuard(DimensGet(views[i], a) - cut) else 0)
  }

  /** The overflow passes before their correction: totals reset, adjacent
      expand off, shrinky then greedy children re-proposed their size less
      the cut. */
  function CutPass(shape: Shaper, proposal: GeometryProposal, a: Angle, fill: seq<FillPrecedence>, w: Work, cut: int): Work
    requires |fill| == |w.views|
  {
    var availableOpposite := DimensGet(proposal.proposedDimensions, OtherAngle(a));
    var childProposal := SetExpand(proposal, a, false);
    var w0 := Work(w.views, 0, 0, w.invalidOpposite);
    var w1 := Applied(shape, Indices(fill, Shrinky), CutProposal(childProposal, w0.views, a, cut), a, availableOpposite, w0);
    Applied(shape, Indices(fill, Greedy), CutProposal(childProposal, w1.views, a, cut), a, availableOpposite, w1)
  }

  /** The overflow phase: the cut passes, then the correction. */
  function Overflowed(shape: Shaper, proposal: GeometryProposal, a: Angle, fill: seq<FillPrecedence>, w: Work, cut: int): Work
    requires |fill| == |w.views|
  {
    Adjusted(shape, proposal, a, CutPass(shape, proposal, a, fill, w, cut))
  }

  /** Under compliant children, the correction keeps the adjacent total the
      sum of the children's adjacent sizes when the passes left it so. */
  lemma AdjustedKeepsSum(shape: Shaper, proposal: GeometryProposal, a: Angle, w: Work)
    requires Complies(shape)
    requires w.usedAdjacent == SumAlong(w.views, AllIndices(|w.views|), a)
    ensures Adjusted(shape, proposal, a, w).usedAdjacent == w.usedAdjacent
    ensures Adjusted(shape, proposal, a, w).usedAdjacent
            == SumAlong(Adjusted(shape, proposal, a, w).views, AllIndices(|w.views|), a)
  {
    if w.invalidOpposite {
      AdjustedLocksOpposite(shape, proposal, a, w);
    }
  }

  /** Under compliant children and a proposal that forbids both growing and
      shrinking along the adjacent angle, the cut passes leave each child
      exactly `cut` smaller (when it was at least `cut`), and the new total
      is the sum of the new sizes. */
  lemma CutPassShrinksEveryChild(shape: Shaper, proposal: GeometryProposal, a: Angle, fill: seq<FillPrecedence>, w: Work, cut: int)
    requires Complies(shape) && !Expand(proposal, a) && !Shrink(proposal, a)
    requires |fill| == |w.views|
    requires forall i :: 0 <= i < |w.views| ==> DimensGet(w.views[i], a) >= cut
    ensures |CutPass(shape, proposal, a, fill, w, cut).views| == |fill|
    ensures forall i :: 0 <= i < |fill| ==>
              DimensGet(CutPass(shape, proposal, a, fill, w, cut).views[i], a) == DimensGet(w.views[i], a) - cut
    ensures CutPass(shape, proposal, a, fill, w, cut).usedAdjacent
            == SumAlong(CutPass(shape, proposal, a, fill, w, cut).views, AllIndices(|fill|), a)
  {
    var availableOpposite := DimensGet(proposal.proposedDimensions, OtherAngle(a));
    var childProposal := SetExpand(proposal, a, false);
    var w0 := Work(w.views, 0, 0, w.invalidOpposite);
    var pf1 := CutProposal(childProposal, w0.views, a, cut);
    var w1 := Applied(shape, Indices(fill, Shrinky), pf1, a, availableOpposite, w0);
    var pf2 := CutProposal(childProposal, w1.views, a, cut);
    TwoPassTotal(shape, fill, pf1, pf2, a, availableOpposite, w0);
    forall i | 0 <= i < |fill|
      ensures DimensGet(CutPass(shape, proposal, a, fill, w, cut).views[i], a) == DimensGet(w.views[i], a) - cut
    {
      CutPassShrinksChild(shape, proposal, a, fill, w, cut, i);
    }
  }

  lemma CutPassShrinksChild(shape: Shaper, proposal: GeometryProposal, a: Angle, fill: seq<FillPrecedence>, w: Work, cut: int, i: nat)
    requires Complies(shape) && !Expand(proposal, a) && !Shrink(proposal, a)
    requires |fill| == |w.views| && i < |fill|
    requires DimensGet(w.views[i], a) >= cut
    ensures |CutPass(shape, proposal, a, fill, w, cut).views| == |fill|
    ensures DimensGet(CutPass(shape, proposal, a, fill, w, cut).views[i], a) == DimensGet(w.views[i], a) - cut
  {
    var availableOpposite := DimensGet(proposal.proposedDimensions, OtherAngle(a));
    var childProposal := SetExpand(proposal, a, false);
    var w0 := Work(w.views, 0, 0, w.invalidOpposite);
    var pf1 := CutProposal(childProposal, w0.views, a, cut);
    var w1 := Applied(shape, Indices(fill, Shrinky), pf1, a, availableOpposite, w0);
    var pf2 := CutProposal(childProposal, w1.views, a, cut);
    TwoPassViews(shape, fill, pf1, pf2, a, availableOpposite, w0);
    if fill[i] == Shrinky {
      CutChildExact(shape, childProposal, w0.views, a, cut, i);
    } else {
      CutChildExact(shape, childProposal, w1.views, a, cut, i);
    }
  }

  /** Under compliant children and a proposal that forbids both growing
      and shrinking along the adjacent angle, each child ends the overflow
      phase exactly `cut` smaller when it was at least `cut`, and the new
      total is the old one less `N * cut`. */
  lemma OverflowedTotal(shape: Shaper, proposal: GeometryProposal, a: Angle, fill: seq<FillPrecedence>, w: Work, cut: int)
    requires Complies(shape) && !Expand(proposal, a) && !Shrink(proposal, a)
    requires |fill| == |w.views|
    requires forall i :: 0 <= i < |w.views| ==> DimensGet(w.views[i], a) >= cut
    ensures Overflowed(shape, proposal, a, fill, w, cut).usedAdjacent
            == SumAlong(w.views, AllIndices(|fill|), a) - |fill| * cut
  {
    var w2 := CutPass(shape, proposal, a, fill, w, cut);
    CutPassShrinksEveryChild(shape, proposal, a, fill, w, cut);
    var all := AllIndices(|fill|);
    assert forall k :: 0 <= k < |all| ==> DimensGet(w2.views[all[k]], a) == DimensGet(w.views[all[k]], a) + -cut;
    var d := -cut;
    SumAlongShift(w.views, w2.views, all, a, d);
    var total, shifted := SumAlong(w.views, all, a), SumAlong(w2.views, all, a);
    NegatedShift(total, shifted, |all|, d, cut);
    AdjustedKeepsSum(shape, proposal, a, w2);
    assert Overflowed(shape, proposal, a, fill, w, cut).usedAdjacent == shifted;
  }

  lemma NegatedShift(total: int, shifted: int, n: int, d: int, cut: int)
    requires shifted == total + n * d && d == -cut
    ensures shifted == total - n * cut
  {
  }

  /** A child re-proposed its size less the cut settles exactly there. */
  lemma CutChildExact(shape: Shaper, childProposal: GeometryProposal, views: seq<Dimens>, a: Angle, cut: int, i: nat)
    requires Complies(shape) && !Expand(childProposal, a) && !Shrink(childProposal, a)
    requires i < |views| && DimensGet(views[i], a) >= cut
    ensures DimensGet(shape(i, CutProposal(childProposal, views, a, cut)(i)), a) == DimensGet(views[i], a) - cut
  {
    var p := CutProposal(childProposal, views, a, cut)(i);
    assert VerifyCompliance(p, shape(i, p));
    assert !AxisViolates(p, shape(i, p), a);
  }

  /** As written, the cut children overshoot the available space by the
      remainder of the excess modulo N: whenever the excess is not a
      multiple of N, the total still exceeds a space the proposal forbids
      exceeding. */
  lemma AsWrittenCutOvershoots(used: int, available: int, n: nat)
    requires n > 0 && used > available
    ensures used - n * CutSizeAsWritten(used, available, n) == available + (used - available) % n
    ensures used - n * CutSizeAsWritten(used, available, n) > available <==> (used - available) % n != 0
  {
    assert CutSizeAsWritten(used, available, n) == (used - available) / n;
  }

  /** Two children of natural sizes 3 and 4 in a space of 6: the excess 1
      divided by 2 truncates to a cut of 0, and the row stays 7 wide. */
  lemma AsWrittenCutExample()
    ensures CutSizeAsWritten(7, 6, 2) == 0 && 7 - 2 * CutSizeAsWritten(7, 6, 2) > 6
    ensures CutSize(7, 6, 2) == 1 && 7 - 2 * CutSize(7, 6, 2) <= 6
  {
  }

  /** With the cut rounded up, the cut children never exceed the space and
      fall short of it by less than N. */
  lemma CutSizeFits(used: int, available: int, n: nat)
    requires n > 0 && used > available
    ensures available - n < used - n * CutSize(used, available, n) <= available
  {
    var e := used - available + n - 1;
    assert CutSize(used, available, n) == e / n;
    assert e == n * (e / n) + e % n;
  }

  // ---- underflow: padding one set ----

  /** The padding formula: the child's current adjacent size plus the pad. */
  function PadProposal(childProposal: GeometryProposal, views: seq<Dimens>, a: Angle, pad: int): nat -> GeometryProposal
  {
    (i: nat) => SetProposed(childProposal, a, (if i < |views| then DimensGet(views[i], a) else 0) + pad)
  }

  /** The loop over the set that is not padded: its sizes are counted as
      they are; the flag is raised only if one of them exceeds the
      opposite so far. */
  function Counted(w: Work, items: seq<nat>, a: Angle): (r: Work)
    requires Within(items, |w.views|)
    ensures r.views == w.views
  {
    var opposite := MaxAlong(w.views, items, OtherAngle(a), w.usedOpposite);
    Work(w.views, w.usedAdjacent + SumAlong(w.views, items, a), opposite, w.invalidOpposite || opposite > w.usedOpposite)
  }

  method CountOpposet(w: Work, items: seq<nat>, a: Angle) returns (r: Work)
    requires Within(items, |w.views|)
    ensures r == Counted(w, items, a)
  {
    var used, opposite, invalid := w.usedAdjacent, w.usedOpposite, w.invalidOpposite;
    var k := 0;
    while k != |items|
      invariant 0 <= k <= |items|
      invariant used == w.usedAdjacent + SumAlong(w.views, items[..k], a)
      invariant opposite == MaxAlong(w.views, items[..k], OtherAngle(a), w.usedOpposite)
      invariant invalid == (w.invalidOpposite || opposite > w.usedOpposite)
    {
      assert items[..k + 1][..k] == items[..k];
      var d := w.views[items[k]];
      if DimensGet(d, OtherAngle(a)) > opposite {
        opposite := DimensGet(d, OtherAngle(a));
        invalid := true;
      }
      used := used + DimensGet(d, a);
      k := k + 1;
    }
    assert items[..k] == items;
    r := Work(w.views, used, opposite, invalid);
  }

  /** The set that is padded: greedy children, or shrinky ones when there is
      no greedy child; with children, it is never empty. */
  function PaddedSet(fill: seq<FillPrecedence>): (s: seq<nat>)
    ensures Within(s, |fill|) && (|fill| > 0 ==> |s| > 0)
  {
    IndicesPartition(fill);
    if |Indices(fill, Greedy)| > 0 then Indices(fill, Greedy) else Indices(fill, Shrinky)
  }

  function OtherSet(fill: seq<FillPrecedence>): (s: seq<nat>)
    ensures Within(s, |fill|)
  {
    if |Indices(fill, Greedy)| > 0 then Indices(fill, Shrinky) else Indices(fill, Greedy)
  }

  /** The padded set's and the other set's sums together are the sum over
      all children. */
  lemma PaddedAndOtherSplit(views: seq<Dimens>, fill: seq<FillPrecedence>, a: Angle)
    requires |fill| <= |views|
    ensures Within(PaddedSet(fill), |views|) && Within(OtherSet(fill), |views|)
    ensures SumAlong(views, PaddedSet(fill), a) + SumAlong(views, OtherSet(fill), a)
            == SumAlong(views, AllIndices(|fill|), a)
  {
    IndicesMeaning(fill, Greedy);
    IndicesMeaning(fill, Shrinky);
    SumAlongSplit(views, fill, a);
  }

  /** The pad: the shortfall divided, toward zero, among the padded set. */
  function PadSize(proposal: GeometryProposal, a: Angle, fill: seq<FillPrecedence>, w: Work): int
    requires |fill| > 0
  {
    CInt.Div(DimensGet(proposal.proposedDimensions, a) - w.usedAdjacent, |PaddedSet(fill)|)
  }

  /** The padding loop: totals reset, adjacent shrink off, and the padded
      set re-proposed its size plus `pad`. */
  function PadApplied(shape: Shaper, proposal: GeometryProposal, a: Angle, fill: seq<FillPrecedence>, w: Work, pad: int): (r: Work)
    requires |fill| == |w.views|
    ensures |r.views| == |fill|
  {
    Applied(shape, PaddedSet(fill), PadProposal(SetShrink(proposal, a, false), w.views, a, pad),
            a, DimensGet(proposal.proposedDimensions, OtherAngle(a)), Work(w.views, 0, 0, w.invalidOpposite))
  }

  /** The underflow phase: the padding loop, the other set counted as is,
      then the correction. */
  function Underflowed(shape: Shaper, proposal: GeometryProposal, a: Angle, fill: seq<FillPrecedence>, w: Work): (r: Work)
    requires |fill| == |w.views| && |fill| > 0
    ensures |r.views| == |fill|
  {
    Adjusted(shape, proposal, a, Counted(PadApplied(shape, proposal, a, fill, w, PadSize(proposal, a, fill, w)), OtherSet(fill), a))
  }

  /** A padded child settles at its size plus the pad when the proposal
      forbids adjacent growth. */
  lemma PadChildExact(shape: Shaper, childProposal: GeometryProposal, views: seq<Dimens>, a: Angle, pad: int, i: nat)
    requires Complies(shape) && !Expand(childProposal, a) && !Shrink(childProposal, a)
    requires i < |views|
    ensures DimensGet(shape(i, PadProposal(childProposal, views, a, pad)(i)), a) == DimensGet(views[i], a) + pad
  {
    var p := PadProposal(childProposal, views, a, pad)(i);
    assert VerifyCompliance(p, shape(i, p));
    assert !AxisViolates(p, shape(i, p), a);
  }

  /** Under compliant children and a proposal forbidding adjacent growth,
      the pad passes grow every padded child by exactly the pad, leave the
      others alone, and total the children's new sizes. */
  lemma PadPassGrowsPaddedSet(shape: Shaper, proposal: GeometryProposal, a: Angle, fill: seq<FillPrecedence>, w: Work, pad: int)
    requires Complies(shape) && !Expand(proposal, a)
    requires |fill| == |w.views|
    ensures var v := Counted(PadApplied(shape, proposal, a, fill, w, pad), OtherSet(fill), a);
            v.usedAdjacent == SumAlong(v.views, AllIndices(|fill|), a) &&
            v.usedAdjacent == SumAlong(w.views, AllIndices(|fill|), a) + |PaddedSet(fill)| * pad
  {
    PadPassTotal(shape, proposal, a, fill, w, pad);
    PadPassGrowth(shape, proposal, a, fill, w, pad);
  }

  /** The padding loop and the count of the other set total every child. */
  lemma PadPassTotal(shape: Shaper, proposal: GeometryProposal, a: Angle, fill: seq<FillPrecedence>, w: Work, pad: int)
    requires |fill| == |w.views|
    ensures var w1 := PadApplied(shape, proposal, a, fill, w, pad);
            Counted(w1, OtherSet(fill), a).usedAdjacent == SumAlong(w1.views, AllIndices(|fill|), a)
  {
    PaddedAndOtherSplit(PadApplied(shape, proposal, a, fill, w, pad).views, fill, a);
  }

  /** The padded children grow by the pad and the others keep their size. */
  lemma PadPassGrowth(shape: Shaper, proposal: GeometryProposal, a: Angle, fill: seq<FillPrecedence>, w: Work, pad: int)
    requires Complies(shape) && !Expand(proposal, a)
    requires |fill| == |w.views|
    ensures SumAlong(PadApplied(shape, proposal, a, fill, w, pad).views, AllIndices(|fill|), a)
            == SumAlong(w.views, AllIndices(|fill|), a) + |PaddedSet(fill)| * pad
  {
    IndicesPartition(fill);
    IndicesMeaning(fill, Greedy);
    IndicesMeaning(fill, Shrinky);
    var theSet, opposet := PaddedSet(fill), OtherSet(fill);
    var childProposal := SetShrink(proposal, a, false);
    var w1 := PadApplied(shape, proposal, a, fill, w, pad);
    forall k | 0 <= k < |theSet|
      ensures DimensGet(w1.views[theSet[k]], a) == DimensGet(w.views[theSet[k]], a) + pad
    {
      assert theSet[k] in theSet;
      PadChildExact(shape, childProposal, w.views, a, pad, theSet[k]);
    }
    forall k | 0 <= k < |opposet|
      ensures DimensGet(w1.views[opposet[k]], a) == DimensGet(w.views[opposet[k]], a)
    {
      assert opposet[k] in opposet;
    }
    SumAlongShift(w.views, w1.views, theSet, a, pad);
    SumAlongAgree(w1.views, w.views, opposet, a);
    PaddedAndOtherSplit(w.views, fill, a);
    PaddedAndOtherSplit(w1.views, fill, a);
  }

  /** Under compliant children and a proposal forbidding adjacent growth,
      each padded child grows by exactly the pad, so the new total is the
      old sum plus the pad per padded child: at most the available space
      and less than one pad-set size below it. */
  lemma UnderflowedTotal(shape: Shaper, proposal: GeometryProposal, a: Angle, fill: seq<FillPrecedence>, w: Work)
    requires Complies(shape) && !Expand(proposal, a)
    requires |fill| == |w.views| && |fill| > 0
    requires w.usedAdjacent == SumAlong(w.views, AllIndices(|fill|), a)
    requires w.usedAdjacent < DimensGet(proposal.proposedDimensions, a)
    ensures var available := DimensGet(proposal.proposedDimensions, a);
            available - |PaddedSet(fill)| < Underflowed(shape, proposal, a, fill, w).usedAdjacent <= available
  {
    var n, pad := |PaddedSet(fill)|, PadSize(proposal, a, fill, w);
    var w1 := PadApplied(shape, proposal, a, fill, w, pad);
    var w2 := Counted(w1, OtherSet(fill), a);
    PadPassGrowsPaddedSet(shape, proposal, a, fill, w, pad);
    AdjustedKeepsSum(shape, proposal, a, w2);
    assert Underflowed(shape, proposal, a, fill, w) == Adjusted(shape, proposal, a, w2);
    assert Underflowed(shape, proposal, a, fill, w).usedAdjacent == w.usedAdjacent + n * pad;
    PadSizeFits(proposal, a, fill, w);
  }

  /** The pad spreads the shortfall so that the padded total fits, within
      one unit per padded child. */
  lemma PadSizeFits(proposal: GeometryProposal, a: Angle, fill: seq<FillPrecedence>, w: Work)
    requires |fill| > 0 && w.usedAdjacent < DimensGet(proposal.proposedDimensions, a)
    ensures var available := DimensGet(proposal.proposedDimensions, a);
            available - |PaddedSet(fill)| < w.usedAdjacent + |PaddedSet(fill)| * PadSize(proposal, a, fill, w) <= available
  {
    PadFits(DimensGet(proposal.proposedDimensions, a), w.usedAdjacent, |PaddedSet(fill)|, PadSize(proposal, a, fill, w));
  }

  lemma PadFits(available: int, used: int, n: nat, pad: int)
    requires n > 0 && used < available && pad == CInt.Div(available - used, n)
    ensures available - n < used + n * pad <= available
  {
    var e := available - used;
    assert CInt.Div(e, n) == e / n;
    assert e == n * (e / n) + e % n;
  }

  // ---- the whole algorithm ----

  /** The overflow phase of `line`: taken only when the initial total
      exceeds the available space and the proposal forbids growing. */
  function OverflowPhase(shape: Shaper, proposal: GeometryProposal, a: Angle, fill: seq<FillPrecedence>, w: Work): (r: Work)
    requires |fill| == |w.views|
    requires |fill| > 0 || w.usedAdjacent <= DimensGet(proposal.proposedDimensions, a) || Expand(proposal, a)
    ensures |r.views| == |fill|
  {
    var available := DimensGet(proposal.proposedDimensions, a);
    if w.usedAdjacent > available && !Expand(proposal, a) then
      Overflowed(shape, proposal, a, fill, w, CutSize(w.usedAdjacent, available, |fill|))
    else w
  }

  /** The underflow phase of `line`: taken only when the total falls short
      of the available space, the proposal forbids shrinking, and there are
      children. */
  function UnderflowPhase(shape: Shaper, proposal: GeometryProposal, a: Angle, fill: seq<FillPrecedence>, w: Work): Work
    requires |fill| == |w.views|
  {
    if w.usedAdjacent < DimensGet(proposal.proposedDimensions, a) && !Shrink(proposal, a) && |fill| > 0 then
      Underflowed(shape, proposal, a, fill, w)
    else w
  }

  /** What `line` leaves behind: the children's viewports and the totals. */
  function LineSpec(shape: Shaper, fill: seq<FillPrecedence>, views: seq<Dimens>,
                    proposal: GeometryProposal, a: Angle): Work
    requires |fill| == |views|
    requires |fill| > 0 || DimensGet(proposal.proposedDimensions, a) >= 0 || Expand(proposal, a)
  {
    InitialPassOfNothing(shape, fill, views, proposal, a);
    var w3 := InitialPass(shape, fill, views, proposal, a);
    UnderflowPhase(shape, proposal, a, fill, OverflowPhase(shape, proposal, a, fill, w3))
  }

  /** `line` leaves one viewport per child. */
  lemma LineSpecKeepsCount(shape: Shaper, fill: seq<FillPrecedence>, views: seq<Dimens>,
                           proposal: GeometryProposal, a: Angle)
    requires |fill| == |views|
    requires |fill| > 0 || DimensGet(proposal.proposedDimensions, a) >= 0 || Expand(proposal, a)
    ensures |LineSpec(shape, fill, views, proposal, a).views| == |views|
  {
    InitialPassOfNothing(shape, fill, views, proposal, a);
    var w3 := InitialPass(shape, fill, views, proposal, a);
    assert |OverflowPhase(shape, proposal, a, fill, w3).views| == |fill|;
  }

  /** Under compliant children the initial pass totals its children's
      adjacent sizes. */
  lemma InitialPassSums(shape: Shaper, fill: seq<FillPrecedence>, views: seq<Dimens>,
                        proposal: GeometryProposal, a: Angle)
    requires Complies(shape) && |fill| == |views|
    ensures var w := InitialPass(shape, fill, views, proposal, a);
            |w.views| == |fill| && w.usedAdjacent == SumAlong(w.views, AllIndices(|fill|), a)
  {
    InitialPassShapesEveryChild(shape, fill, views, proposal, a);
    AdjustedKeepsSum(shape, proposal, a, PrePass(shape, fill, views, proposal, a));
  }

  /** The overflow phase of a rigid line brings a total above the space to
      within `N` below it, and keeps it the sum of the children's sizes. */
  lemma OverflowPhaseFits(shape: Shaper, proposal: GeometryProposal, a: Angle, fill: seq<FillPrecedence>, w: Work)
    requires Complies(shape) && !Expand(proposal, a) && !Shrink(proposal, a)
    requires |fill| == |w.views| && |fill| > 0
    requires w.usedAdjacent == SumAlong(w.views, AllIndices(|fill|), a)
    requires var available := DimensGet(proposal.proposedDimensions, a);
             w.usedAdjacent > available ==>
               forall i :: 0 <= i < |fill| ==> DimensGet(w.views[i], a) >= CutSize(w.usedAdjacent, available, |fill|)
    ensures var available := DimensGet(proposal.proposedDimensions, a);
            var r := OverflowPhase(shape, proposal, a, fill, w);
            r.usedAdjacent == SumAlong(r.views, AllIndices(|fill|), a) &&
            (w.usedAdjacent > available ==> available - |fill| < r.usedAdjacent <= available) &&
            (w.usedAdjacent <= available ==> r == w)
  {
    var available := DimensGet(proposal.proposedDimensions, a);
    if w.usedAdjacent > available {
      var cut := CutSize(w.usedAdjacent, available, |fill|);
      OverflowedTotal(shape, proposal, a, fill, w, cut);
      CutSizeFits(w.usedAdjacent, available, |fill|);
      CutPassShrinksEveryChild(shape, proposal, a, fill, w, cut);
      AdjustedKeepsSum(shape, proposal, a, CutPass(shape, proposal, a, fill, w, cut));
    }
  }

  /** The underflow phase of a line that cannot grow brings a total at or
      below the space to within `N` below it, and leaves one at the space
      alone. */
  lemma UnderflowPhaseFits(shape: Shaper, proposal: GeometryProposal, a: Angle, fill: seq<FillPrecedence>, w: Work)
    requires Complies(shape) && !Expand(proposal, a) && !Shrink(proposal, a)
    requires |fill| == |w.views| && |fill| > 0
    requires w.usedAdjacent == SumAlong(w.views, AllIndices(|fill|), a)
    requires w.usedAdjacent <= DimensGet(proposal.proposedDimensions, a)
    ensures var available := DimensGet(proposal.proposedDimensions, a);
            available - |fill| < UnderflowPhase(shape, proposal, a, fill, w).usedAdjacent <= available
  {
    if w.usedAdjacent < DimensGet(proposal.proposedDimensions, a) {
      UnderflowedFits(shape, proposal, a, fill, w);
      UnderflowPhaseAbove(shape, proposal, a, fill, w);
      UnderflowPhaseWithin(shape, proposal, a, fill, w);
    } else {
      UnderflowPhaseCases(shape, proposal, a, fill, w);
    }
  }

  // The two bounds are carried over from the padding pass one at a time.
  lemma UnderflowPhaseAbove(shape: Shaper, proposal: GeometryProposal, a: Angle, fill: seq<FillPrecedence>, w: Work)
    requires !Shrink(proposal, a) && |fill| == |w.views| && |fill| > 0
    requires w.usedAdjacent < DimensGet(proposal.proposedDimensions, a)
    requires DimensGet(proposal.proposedDimensions, a) - |fill| < Underflowed(shape, proposal, a, fill, w).usedAdjacent
    ensures DimensGet(proposal.proposedDimensions, a) - |fill| < UnderflowPhase(shape, proposal, a, fill, w).usedAdjacent
  {
    UnderflowPhaseCases(shape, proposal, a, fill, w);
  }

  lemma UnderflowPhaseWithin(shape: Shaper, proposal: GeometryProposal, a: Angle, fill: seq<FillPrecedence>, w: Work)
    requires !Shrink(proposal, a) && |fill| == |w.views| && |fill| > 0
    requires w.usedAdjacent < DimensGet(proposal.proposedDimensions, a)
    requires Underflowed(shape, proposal, a, fill, w).usedAdjacent <= DimensGet(proposal.proposedDimensions, a)
    ensures UnderflowPhase(shape, proposal, a, fill, w).usedAdjacent <= DimensGet(proposal.proposedDimensions, a)
  {
    UnderflowPhaseCases(shape, proposal, a, fill, w);
  }

  lemma UnderflowedFits(shape: Shaper, proposal: GeometryProposal, a: Angle, fill: seq<FillPrecedence>, w: Work)
    requires Complies(shape) && !Expand(proposal, a)
    requires |fill| == |w.views| && |fill| > 0
    requires w.usedAdjacent == SumAlong(w.views, AllIndices(|fill|), a)
    requires w.usedAdjacent < DimensGet(proposal.proposedDimensions, a)
    ensures var available := DimensGet(proposal.proposedDimensions, a);
            available - |fill| < Underflowed(shape, proposal, a, fill, w).usedAdjacent <= available
  {
    UnderflowedTotal(shape, proposal, a, fill, w);
    PaddedSetBound(fill);
  }

  /** Which of its two outcomes the underflow phase takes. */
  lemma UnderflowPhaseCases(shape: Shaper, proposal: GeometryProposal, a: Angle, fill: seq<FillPrecedence>, w: Work)
    requires !Shrink(proposal, a) && |fill| == |w.views| && |fill| > 0
    ensures w.usedAdjacent < DimensGet(proposal.proposedDimensions, a) ==>
              UnderflowPhase(shape, proposal, a, fill, w) == Underflowed(shape, proposal, a, fill, w)
    ensures w.usedAdjacent >= DimensGet(proposal.proposedDimensions, a) ==> UnderflowPhase(shape, proposal, a, fill, w) == w
  {
  }

  lemma PaddedSetBound(fill: seq<FillPrecedence>)
    ensures |PaddedSet(fill)| <= |fill|
  {
    IndicesPartition(fill);
  }

  /** A line that may neither grow nor shrink along its angle fills the
      space it is given, to within one unit per child, provided the
      children are compliant and, when the natural total is too wide, each
      child is at least as large as the cut. */
  lemma RigidLineFillsSpace(shape: Shaper, fill: seq<FillPrecedence>, views: seq<Dimens>,
                            proposal: GeometryProposal, a: Angle)
    requires Complies(shape) && !Expand(proposal, a) && !Shrink(proposal, a)
    requires |fill| == |views| && |fill| > 0
    requires var w := InitialPass(shape, fill, views, proposal, a);
             var available := DimensGet(proposal.proposedDimensions, a);
             w.usedAdjacent > available ==>
               forall i :: 0 <= i < |fill| && i < |w.views| ==>
                 DimensGet(w.views[i], a) >= CutSize(w.usedAdjacent, available, |fill|)
    ensures var available := DimensGet(proposal.proposedDimensions, a);
            available - |fill| < LineSpec(shape, fill, views, proposal, a).usedAdjacent <= available
  {
    var w3 := InitialPass(shape, fill, views, proposal, a);
    InitialPassSums(shape, fill, views, proposal, a);
    OverflowPhaseFits(shape, proposal, a, fill, w3);
    var w4 := OverflowPhase(shape, proposal, a, fill, w3);
    if w4.usedAdjacent <= DimensGet(proposal.proposedDimensions, a) {
      UnderflowPhaseFits(shape, proposal, a, fill, w4);
    }
  }

  /** The size `line` returns: the totals laid out along the given angle. */
  function UsedSpace(w: Work, a: Angle): (d: Dimens)
    ensures DimensGet(d, a) == w.usedAdjacent && DimensGet(d, OtherAngle(a)) == w.usedOpposite
  {
    DimensSet(DimensSet(ZeroDimens, a, w.usedAdjacent), OtherAngle(a), w.usedOpposite)
  }

  /** With no children the initial pass uses no adjacent space. */
  lemma InitialPassOfNothing(shape: Shaper, fill: seq<FillPrecedence>, views: seq<Dimens>,
                             proposal: GeometryProposal, a: Angle)
    requires |fill| == |views|
    ensures |fill| == 0 ==> InitialPass(shape, fill, views, proposal, a).usedAdjacent == 0
  {
    if |fill| == 0 {
      assert Indices(fill, Greedy) == [] && Indices(fill, Shrinky) == [];
    }
  }

  /** The initial pass of `line`, run over the split lists. */
  method RunInitialPass(shape: Shaper, fill: seq<FillPrecedence>, greedy: seq<nat>, shrinky: seq<nat>,
                        views: seq<Dimens>, proposal: GeometryProposal, a: Angle) returns (w: Work)
    requires |fill| == |views|
    requires greedy == Indices(fill, Greedy) && shrinky == Indices(fill, Shrinky)
    ensures w == InitialPass(shape, fill, views, proposal, a)
  {
    var availableOpposite := DimensGet(proposal.proposedDimensions, OtherAngle(a));
    var initial := Always(InitialProposal(proposal, a, |fill|));
    w := Work(views, 0, 0, false);
    w := ApplyToSet(shape, shrinky, initial, a, availableOpposite, w);
    w := ApplyToSet(shape, greedy, initial, a, availableOpposite, w);
    w := AdjustOpposite(shape, proposal, a, w);
  }

  /** The overflow passes of `line`, before their correction. */
  method RunCutPass(shape: Shaper, proposal: GeometryProposal, a: Angle, fill: seq<FillPrecedence>,
                    greedy: seq<nat>, shrinky: seq<nat>, w: Work, cut: int) returns (r: Work)
    requires |fill| == |w.views|
    requires greedy == Indices(fill, Greedy) && shrinky == Indices(fill, Shrinky)
    ensures r == CutPass(shape, proposal, a, fill, w, cut)
  {
    var availableOpposite := DimensGet(proposal.proposedDimensions, OtherAngle(a));
    var childProposal := SetExpand(proposal, a, false);
    r := Work(w.views, 0, 0, w.invalidOpposite);
    r := ApplyToSet(shape, shrinky, CutProposal(childProposal, r.views, a, cut), a, availableOpposite, r);
    r := ApplyToSet(shape, greedy, CutProposal(childProposal, r.views, a, cut), a, availableOpposite, r);
  }

  /** The underflow passes of `line`, before their correction. */
  method RunPadPass(shape: Shaper, proposal: GeometryProposal, a: Angle, fill: seq<FillPrecedence>,
                    greedy: seq<nat>, shrinky: seq<nat>, w: Work) returns (r: Work)
    requires |fill| == |w.views| && |fill| > 0
    requires greedy == Indices(fill, Greedy) && shrinky == Indices(fill, Shrinky)
    ensures r == Counted(PadApplied(shape, proposal, a, fill, w, PadSize(proposal, a, fill, w)), OtherSet(fill), a)
  {
    var theSet := if |greedy| > 0 then greedy else shrinky;
    var opposet := if |greedy| > 0 then shrinky else greedy;
    assert theSet == PaddedSet(fill) && opposet == OtherSet(fill);
    var padSize := PadSize(proposal, a, fill, w);
    var childProposal := SetShrink(proposal, a, false);
    r := Work(w.views, 0, 0, w.invalidOpposite);
    r := ApplyToSet(shape, theSet, PadProposal(childProposal, w.views, a, padSize),
                    a, DimensGet(proposal.proposedDimensions, OtherAngle(a)), r);
    r := CountOpposet(r, opposet, a);
  }

  /** The overflow branch of `line`. */
  method RunOverflowPhase(shape: Shaper, proposal: GeometryProposal, a: Angle, fill: seq<FillPrecedence>,
                          greedy: seq<nat>, shrinky: seq<nat>, w: Work) returns (r: Work)
    requires |fill| == |w.views|
    requires |fill| > 0 || w.usedAdjacent <= DimensGet(proposal.proposedDimensions, a) || Expand(proposal, a)
    requires greedy == Indices(fill, Greedy) && shrinky == Indices(fill, Shrinky)
    ensures r == OverflowPhase(shape, proposal, a, fill, w)
  {
    r := w;
    var available := DimensGet(proposal.proposedDimensions, a);
    if r.usedAdjacent > available {
      if !Expand(proposal, a) {
        var cutSize := CutSize(r.usedAdjacent, available, |fill|);
        r := RunCutPass(shape, proposal, a, fill, greedy, shrinky, r, cutSize);
        r := AdjustOpposite(shape, proposal, a, r);
      }
    }
  }

  /** The underflow branch of `line`. */
  method RunUnderflowPhase(shape: Shaper, proposal: GeometryProposal, a: Angle, fill: seq<FillPrecedence>,
                           greedy: seq<nat>, shrinky: seq<nat>, w: Work) returns (r: Work)
    requires |fill| == |w.views|
    requires greedy == Indices(fill, Greedy) && shrinky == Indices(fill, Shrinky)
    ensures r == UnderflowPhase(shape, proposal, a, fill, w)
  {
    r := w;
    if r.usedAdjacent < DimensGet(proposal.proposedDimensions, a) {
      if !Shrink(proposal, a) && |fill| > 0 {
        var padded := RunPadPass(shape, proposal, a, fill, greedy, shrinky, w);
        r := AdjustOpposite(shape, proposal, a, padded);
        assert r == Underflowed(shape, proposal, a, fill, w);
      }
    }
  }

  /** `Shaping::line`, with the overflow cut rounded up. */
  method Line(shape: Shaper, fill: seq<FillPrecedence>, views: seq<Dimens>,
              proposal: GeometryProposal, a: Angle) returns (usedSpace: Dimens, shaped: seq<Dimens>)
    requires |fill| == |views|
    requires |fill| > 0 || DimensGet(proposal.proposedDimensions, a) >= 0 || Expand(proposal, a)
    ensures usedSpace == UsedSpace(LineSpec(shape, fill, views, proposal, a), a)
    ensures shaped == LineSpec(shape, fill, views, proposal, a).views
  {
    var greedy, shrinky := SplitByFill(fill);
    var w := RunInitialPass(shape, fill, greedy, shrinky, views, proposal, a);
    InitialPassOfNothing(shape, fill, views, proposal, a);
    w := RunOverflowPhase(shape, proposal, a, fill, greedy, shrinky, w);
    w := RunUnderflowPhase(shape, proposal, a, fill, greedy, shrinky, w);
    usedSpace := UsedSpace(w, a);
    shaped := w.views;
  }
}
