// The size offer a parent makes to a child: proposed dimensions plus, per
// axis, whether the child may grow past them or fall short of them.
module Proposal {
  import opened Geometry

  datatype GeometryProposal = GeometryProposal(
    expandHorizontal: bool,
    expandVertical: bool,
    shrinkHorizontal: bool,
    shrinkVertical: bool,
    allowPartial: bool,
    freshPass: bool,
    proposedDimensions: Dimens)

  /** Default proposal: every flag false except `freshPass`, dimensions (0,0). */
  const DefaultProposal: GeometryProposal :=
    GeometryProposal(false, false, false, false, false, true, ZeroDimens)

  /** `expandForAngleConst`: the horizontal flag for Horizontal, else the vertical one. */
  function Expand(p: GeometryProposal, a: Angle): bool
  {
    if a == Horizontal then p.expandHorizontal else p.expandVertical
  }

  function Shrink(p: GeometryProposal, a: Angle): bool
  {
    if a == Horizontal then p.shrinkHorizontal else p.shrinkVertical
  }

  /** Writing through `expandForAngle(a) = v`. */
  function SetExpand(p: GeometryProposal, a: Angle, v: bool): (r: GeometryProposal)
    ensures Expand(r, a) == v && Expand(r, OtherAngle(a)) == Expand(p, OtherAngle(a))
    ensures forall b: Angle :: Shrink(r, b) == Shrink(p, b)
    ensures r.proposedDimensions == p.proposedDimensions
  {
    if a == Horizontal then p.(expandHorizontal := v) else p.(expandVertical := v)
  }

  function SetShrink(p: GeometryProposal, a: Angle, v: bool): (r: GeometryProposal)
    ensures Shrink(r, a) == v && Shrink(r, OtherAngle(a)) == Shrink(p, OtherAngle(a))
    ensures forall b: Angle :: Expand(r, b) == Expand(p, b)
    ensures r.proposedDimensions == p.proposedDimensions
  {
    if a == Horizontal then p.(shrinkHorizontal := v) else p.(shrinkVertical := v)
  }

  function SetProposed(p: GeometryProposal, a: Angle, v: int): GeometryProposal
  {
    p.(proposedDimensions := DimensSet(p.proposedDimensions, a, v))
  }

  lemma DefaultProposalFlags(a: Angle)
    ensures !Expand(DefaultProposal, a) && !Shrink(DefaultProposal, a)
    ensures !DefaultProposal.allowPartial && DefaultProposal.freshPass
  {
  }

  /** An axis violates the proposal when it exceeds it without expand or
      falls short of it without shrink. */
  predicate AxisViolates(p: GeometryProposal, d: Dimens, a: Angle)
  {
    (!Expand(p, a) && DimensGet(d, a) > DimensGet(p.proposedDimensions, a)) ||
    (!Shrink(p, a) && DimensGet(d, a) < DimensGet(p.proposedDimensions, a))
  }

  /** `verifyCompliance`, check by check as the source writes it. */
  function VerifyCompliance(p: GeometryProposal, region: Dimens): (ok: bool)
    ensures ok <==> !AxisViolates(p, region, Horizontal) && !AxisViolates(p, region, Vertical)
  {
    if !p.expandHorizontal && region.w > p.proposedDimensions.w then false
    else if !p.expandVertical && region.h > p.proposedDimensions.h then false
    else if !p.shrinkHorizontal && region.w < p.proposedDimensions.w then false
    else if !p.shrinkVertical && region.h < p.proposedDimensions.h then false
    else true
  }

  /** `roundConflicts`: each violating axis is snapped to the proposal. */
  function RoundConflicts(p: GeometryProposal, used: Dimens): (r: Dimens)
    ensures forall a: Angle :: DimensGet(r, a) ==
              if AxisViolates(p, used, a) then DimensGet(p.proposedDimensions, a) else DimensGet(used, a)
  {
    var w := if (!p.expandHorizontal && used.w > p.proposedDimensions.w) ||
                (!p.shrinkHorizontal && used.w < p.proposedDimensions.w)
             then p.proposedDimensions.w else used.w;
    var h := if (!p.expandVertical && used.h > p.proposedDimensions.h) ||
                (!p.shrinkVertical && used.h < p.proposedDimensions.h)
             then p.proposedDimensions.h else used.h;
    Dimens(w, h)
  }

  /** Rounding always produces a compliant region. */
  lemma RoundConflictsComplies(p: GeometryProposal, used: Dimens)
    ensures VerifyCompliance(p, RoundConflicts(p, used))
  {
    var r := RoundConflicts(p, used);
    forall a: Angle ensures !AxisViolates(p, r, a) {
      assert DimensGet(r, a) ==
        if AxisViolates(p, used, a) then DimensGet(p.proposedDimensions, a) else DimensGet(used, a);
    }
  }

  /** A compliant region is left alone, so rounding is idempotent. */
  lemma RoundConflictsKeepsCompliant(p: GeometryProposal, used: Dimens)
    ensures VerifyCompliance(p, used) ==> RoundConflicts(p, used) == used
    ensures RoundConflicts(p, RoundConflicts(p, used)) == RoundConflicts(p, used)
  {
    RoundConflictsComplies(p, used);
    var r := RoundConflicts(p, used);
    if VerifyCompliance(p, used) {
      assert DimensGet(r, Horizontal) == DimensGet(used, Horizontal);
      assert DimensGet(r, Vertical) == DimensGet(used, Vertical);
    }
    var rr := RoundConflicts(p, r);
    assert DimensGet(rr, Horizontal) == DimensGet(r, Horizontal);
    assert DimensGet(rr, Vertical) == DimensGet(r, Vertical);
  }

  /** A proposal that forbids both growing and shrinking admits exactly its dimensions. */
  lemma RigidProposalAdmitsOnlyItself(p: GeometryProposal, d: Dimens)
    requires forall a: Angle :: !Expand(p, a) && !Shrink(p, a)
    ensures VerifyCompliance(p, d) <==> d == p.proposedDimensions
    ensures RoundConflicts(p, d) == p.proposedDimensions
  {
    assert !Expand(p, Horizontal) && !Shrink(p, Horizontal);
    assert !Expand(p, Vertical) && !Shrink(p, Vertical);
  }
}
