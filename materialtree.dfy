// The material tree after layout, as hit testing and drawing walk it: each
// node is a placed material with its absolute viewport and drawing area.
// A node's children are listed in the order its material iterates them:
// the item's child materials for a row, model order for a stack, the rows'
// materials one row after another for an inline layout, and the text runs
// for a paragraph.
module MaterialTree {
  import opened Geometry
  import opened ItemGeometry

  datatype Kind = Simple | TextRun | Row | Stack | Inline | Paragraph

  /** `id` is the item the material shows (text runs show their paragraph's
      or inline child's item); `drawing` is `getDrawingArea()`, absolute. */
  datatype Node = Node(kind: Kind, id: nat, at: ItemAttributes, viewport: Rect, drawing: Rect, children: seq<Node>)

  /** What an `applyToColliding` call reports: whether the visitor accepted
      (as returned to the caller), and the items handed to the visitor, in
      call order. */
  datatype Hit = Hit(accepted: bool, visited: seq<nat>)

  /** The area a hit counts in: the drawing area grown by the padding (and
      the border, which is always empty). */
  function Collidable(n: Node): Rect
  {
    Rect(CoordsSub(n.drawing.c, CoordsOf(DimensSub(ReservedInnerPaddingDimens(n.at), ReservedBorderDimens))),
         DimensAdd(n.drawing.d, DimensAdd(ReservedPaddingDimens(n.at), ReservedBorderDimens)))
  }

  /** `applyToCollidingSingle`: nothing when the viewport misses; the
      visitor's answer when the padded drawing area is hit. */
  function Single(n: Node, box: Rect, accepts: nat -> bool): (h: Hit)
    ensures h.visited == [] || h.visited == [n.id]
    ensures h.accepted <==> h.visited == [n.id] && accepts(n.id)
  {
    if !RectCollides(n.viewport, box) then Hit(false, [])
    else if RectCollides(Collidable(n), box) then Hit(accepts(n.id), [n.id])
    else Hit(false, [])
  }

  /** `h` followed by the result of the walk that goes on after it. */
  function Then(h: Hit, rest: Hit): Hit
  {
    Hit(rest.accepted, h.visited + rest.visited)
  }

  /** `applyToColliding` of each material kind. */
  function Hits(n: Node, box: Rect, accepts: nat -> bool): Hit
    decreases n
  {
    match n.kind
    case Simple => Single(n, box, accepts)
    case TextRun => Single(n, box, accepts)
    case Row | Inline =>
      var c := Forward(n.children, box, accepts);
      if c.accepted then c else Then(c, Single(n, box, accepts))
    case Stack =>
      var c := Backward(n.children, box, accepts);
      if c.accepted then c else Hit(false, c.visited + Single(n, box, accepts).visited)
    case Paragraph => Forward(n.children, box, accepts)
  }

  /** The children in order, stopping at the first that accepts. */
  function Forward(cs: seq<Node>, box: Rect, accepts: nat -> bool): Hit
    decreases cs
  {
    if cs == [] then Hit(false, [])
    else
      var h := Hits(cs[0], box, accepts);
      if h.accepted then h else Then(h, Forward(cs[1..], box, accepts))
  }

  /** The children last to first, stopping at the first that accepts. */
  function Backward(cs: seq<Node>, box: Rect, accepts: nat -> bool): Hit
    decreases cs
  {
    if cs == [] then Hit(false, [])
    else
      var h := Hits(cs[|cs| - 1], box, accepts);
      if h.accepted then h else Then(h, Backward(cs[..|cs| - 1], box, accepts))
  }

  // ---- the walk, as the materials run it ----

  /** `applyToColliding`, with its short-circuit loops. */
  method HitTest(n: Node, box: Rect, accepts: nat -> bool) returns (accepted: bool, visited: seq<nat>)
    ensures Hit(accepted, visited) == Hits(n, box, accepts)
    decreases n, 2
  {
    match n.kind {
      case Simple =>
        accepted, visited := SingleTest(n, box, accepts);
      case TextRun =>
        accepted, visited := SingleTest(n, box, accepts);
      case Row =>
        accepted, visited := MultiFlatTest(n, box, accepts);
      case Inline =>
        accepted, visited := MultiFlatTest(n, box, accepts);
      case Stack =>
        accepted, visited := TryBackward(n, box, accepts);
        if !accepted {
          var self, selfVisited := SingleTest(n, box, accepts);
          visited := visited + selfVisited;
        }
      case Paragraph =>
        accepted, visited := TryForward(n, box, accepts);
    }
  }

  method SingleTest(n: Node, box: Rect, accepts: nat -> bool) returns (accepted: bool, visited: seq<nat>)
    ensures Hit(accepted, visited) == Single(n, box, accepts)
  {
    accepted, visited := false, [];
    if !RectCollides(n.viewport, box) {
      return;
    }
    var collidableArea := Collidable(n);
    if RectCollides(collidableArea, box) {
      accepted, visited := accepts(n.id), [n.id];
    }
  }

  /** `applyToCollidingMultiFlat`: the children first, then the material. */
  method MultiFlatTest(n: Node, box: Rect, accepts: nat -> bool) returns (accepted: bool, visited: seq<nat>)
    requires n.kind == Row || n.kind == Inline
    ensures Hit(accepted, visited) == Hits(n, box, accepts)
    decreases n, 1
  {
    accepted, visited := TryForward(n, box, accepts);
    if !accepted {
      var selfVisited;
      accepted, selfVisited := SingleTest(n, box, accepts);
      visited := visited + selfVisited;
    }
  }

  /** The loop over the children in order. */
  method TryForward(n: Node, box: Rect, accepts: nat -> bool) returns (accepted: bool, visited: seq<nat>)
    ensures Hit(accepted, visited) == Forward(n.children, box, accepts)
    decreases n, 0
  {
    var cs := n.children;
    visited := [];
    var i := 0;
    while i < |cs|
      invariant i <= |cs|
      invariant Forward(cs, box, accepts) == Then(Hit(false, visited), Forward(cs[i..], box, accepts))
    {
      assert cs[i..][0] == cs[i] && cs[i..][1..] == cs[i + 1..];
      var childAccepted, childVisited := HitTest(cs[i], box, accepts);
      if childAccepted {
        return true, visited + childVisited;
      }
      visited := visited + childVisited;
      i := i + 1;
    }
    assert cs[i..] == [];
    accepted := false;
  }

  /** The loop over the children last to first. */
  method TryBackward(n: Node, box: Rect, accepts: nat -> bool) returns (accepted: bool, visited: seq<nat>)
    ensures Hit(accepted, visited) == Backward(n.children, box, accepts)
    decreases n, 0
  {
    var cs := n.children;
    visited := [];
    var i := |cs|;
    assert cs[..i] == cs;
    while i > 0
      invariant 0 <= i <= |cs|
      invariant Backward(cs, box, accepts) == Then(Hit(false, visited), Backward(cs[..i], box, accepts))
    {
      BackwardStep(cs, i, box, accepts);
      var childAccepted, childVisited := HitTest(cs[i - 1], box, accepts);
      if childAccepted {
        return true, visited + childVisited;
      }
      ThenAssoc(visited, Hit(childAccepted, childVisited), Backward(cs[..i - 1], box, accepts));
      visited := visited + childVisited;
      i := i - 1;
    }
    accepted := false;
  }

  lemma BackwardStep(cs: seq<Node>, i: nat, box: Rect, accepts: nat -> bool)
    requires 0 < i <= |cs|
    ensures var h := Hits(cs[i - 1], box, accepts);
            Backward(cs[..i], box, accepts) == if h.accepted then h else Then(h, Backward(cs[..i - 1], box, accepts))
  {
    assert cs[..i][i - 1] == cs[i - 1] && cs[..i][..i - 1] == cs[..i - 1];
  }

  lemma ThenAssoc(v: seq<nat>, h: Hit, rest: Hit)
    ensures Then(Hit(false, v), Then(h, rest)) == Then(Hit(false, v + h.visited), rest)
  {
    assert v + (h.visited + rest.visited) == (v + h.visited) + rest.visited;
  }

  // ---- what the walk promises ----

  /** Item `id` is shown by a node in `n`'s tree that is hit by `box`: its
      viewport and its padded drawing area both overlap the box. A paragraph
      is never tested itself, so it only reaches its runs. */
  ghost predicate Reaches(n: Node, box: Rect, id: nat)
    decreases n
  {
    (n.kind != Paragraph && n.id == id && RectCollides(n.viewport, box) && RectCollides(Collidable(n), box)) ||
    exists i :: 0 <= i < |n.children| && Reaches(n.children[i], box, id)
  }

  ghost predicate AllReach(n: Node, box: Rect, visited: seq<nat>)
  {
    forall k :: 0 <= k < |visited| ==> Reaches(n, box, visited[k])
  }

  ghost predicate SomeReaches(cs: seq<Node>, box: Rect, visited: seq<nat>)
  {
    forall k :: 0 <= k < |visited| ==> exists i :: 0 <= i < |cs| && Reaches(cs[i], box, visited[k])
  }

  /** Only items hit by the box are handed to the visitor. */
  lemma {:induction false} VisitedAreHit(n: Node, box: Rect, accepts: nat -> bool)
    ensures AllReach(n, box, Hits(n, box, accepts).visited)
    decreases n, 1
  {
    var h := Hits(n, box, accepts);
    var s := Single(n, box, accepts);
    match n.kind
    case Simple =>
    case TextRun =>
    case Row | Inline =>
      ForwardVisitedAreHit(n.children, box, accepts);
      ChildrenReach(n, box, Forward(n.children, box, accepts).visited);
    case Stack =>
      BackwardVisitedAreHit(n.children, box, accepts);
      ChildrenReach(n, box, Backward(n.children, box, accepts).visited);
    case Paragraph =>
      ForwardVisitedAreHit(n.children, box, accepts);
      ChildrenReach(n, box, Forward(n.children, box, accepts).visited);
  }

  lemma ChildrenReach(n: Node, box: Rect, visited: seq<nat>)
    requires SomeReaches(n.children, box, visited)
    ensures AllReach(n, box, visited)
  {
  }

  lemma {:induction false} ForwardVisitedAreHit(cs: seq<Node>, box: Rect, accepts: nat -> bool)
    ensures SomeReaches(cs, box, Forward(cs, box, accepts).visited)
    decreases cs
  {
    if cs != [] {
      var h := Hits(cs[0], box, accepts);
      VisitedAreHit(cs[0], box, accepts);
      if !h.accepted {
        ForwardVisitedAreHit(cs[1..], box, accepts);
        var r := Forward(cs[1..], box, accepts);
        forall k | 0 <= k < |h.visited + r.visited|
          ensures exists i :: 0 <= i < |cs| && Reaches(cs[i], box, (h.visited + r.visited)[k])
        {
          if k < |h.visited| {
            assert Reaches(cs[0], box, h.visited[k]);
          } else {
            var i :| 0 <= i < |cs[1..]| && Reaches(cs[1..][i], box, r.visited[k - |h.visited|]);
            assert cs[1..][i] == cs[i + 1];
          }
        }
      }
    }
  }

  lemma {:induction false} BackwardVisitedAreHit(cs: seq<Node>, box: Rect, accepts: nat -> bool)
    ensures SomeReaches(cs, box, Backward(cs, box, accepts).visited)
    decreases cs
  {
    if cs != [] {
      var last := |cs| - 1;
      var h := Hits(cs[last], box, accepts);
      VisitedAreHit(cs[last], box, accepts);
      if !h.accepted {
        BackwardVisitedAreHit(cs[..last], box, accepts);
        var r := Backward(cs[..last], box, accepts);
        forall k | 0 <= k < |h.visited + r.visited|
          ensures exists i :: 0 <= i < |cs| && Reaches(cs[i], box, (h.visited + r.visited)[k])
        {
          if k < |h.visited| {
            assert Reaches(cs[last], box, h.visited[k]);
          } else {
            var i :| 0 <= i < |cs[..last]| && Reaches(cs[..last][i], box, r.visited[k - |h.visited|]);
            assert cs[..last][i] == cs[i];
          }
        }
      }
    }
  }

  /** An accepted walk ends with the visitor accepting. */
  ghost predicate EndsAccepted(h: Hit, accepts: nat -> bool)
  {
    h.accepted ==> |h.visited| > 0 && accepts(h.visited[|h.visited| - 1])
  }

  lemma {:induction false} AcceptedByLastVisit(n: Node, box: Rect, accepts: nat -> bool)
    ensures EndsAccepted(Hits(n, box, accepts), accepts)
    decreases n, 1
  {
    match n.kind
    case Simple =>
    case TextRun =>
    case Row | Inline =>
      ForwardAcceptedByLastVisit(n.children, box, accepts);
    case Stack =>
      BackwardAcceptedByLastVisit(n.children, box, accepts);
    case Paragraph =>
      ForwardAcceptedByLastVisit(n.children, box, accepts);
  }

  lemma {:induction false} ForwardAcceptedByLastVisit(cs: seq<Node>, box: Rect, accepts: nat -> bool)
    ensures EndsAccepted(Forward(cs, box, accepts), accepts)
    decreases cs
  {
    if cs != [] {
      AcceptedByLastVisit(cs[0], box, accepts);
      ForwardAcceptedByLastVisit(cs[1..], box, accepts);
    }
  }

  lemma {:induction false} BackwardAcceptedByLastVisit(cs: seq<Node>, box: Rect, accepts: nat -> bool)
    ensures EndsAccepted(Backward(cs, box, accepts), accepts)
    decreases cs
  {
    if cs != [] {
      AcceptedByLastVisit(cs[|cs| - 1], box, accepts);
      BackwardAcceptedByLastVisit(cs[..|cs| - 1], box, accepts);
    }
  }

  /** No stack anywhere in the tree. */
  ghost predicate StackFree(n: Node)
    decreases n
  {
    n.kind != Stack && forall i :: 0 <= i < |n.children| ==> StackFree(n.children[i])
  }

  /** The walk stops at the first accepting visit: every earlier item was
      refused, and the walk reports acceptance exactly when its last visit
      was accepted. */
  ghost predicate StopsAtFirstAccept(h: Hit, accepts: nat -> bool)
  {
    (forall k :: 0 <= k < |h.visited| - 1 ==> !accepts(h.visited[k])) &&
    (h.accepted <==> |h.visited| > 0 && accepts(h.visited[|h.visited| - 1]))
  }

  lemma ThenStops(h: Hit, rest: Hit, accepts: nat -> bool)
    requires StopsAtFirstAccept(h, accepts) && !h.accepted && StopsAtFirstAccept(rest, accepts)
    ensures StopsAtFirstAccept(Then(h, rest), accepts)
  {
    var v := h.visited + rest.visited;
    assert forall k :: 0 <= k < |h.visited| ==> !accepts(h.visited[k]);
    forall k | 0 <= k < |v| - 1
      ensures !accepts(v[k])
    {
      if k < |h.visited| {
        assert v[k] == h.visited[k];
      } else {
        assert v[k] == rest.visited[k - |h.visited|];
      }
    }
    if rest.visited != [] {
      assert v[|v| - 1] == rest.visited[|rest.visited| - 1];
    }
  }

  /** Without stacks, the walk stops at the first accepting visit. */
  lemma {:induction false} StackFreeStopsAtFirstAccept(n: Node, box: Rect, accepts: nat -> bool)
    requires StackFree(n)
    ensures StopsAtFirstAccept(Hits(n, box, accepts), accepts)
    decreases n, 1
  {
    match n.kind
    case Simple =>
    case TextRun =>
    case Row | Inline =>
      ForwardStops(n.children, box, accepts);
      var c := Forward(n.children, box, accepts);
      if !c.accepted {
        ThenStops(c, Single(n, box, accepts), accepts);
      }
    case Paragraph =>
      ForwardStops(n.children, box, accepts);
  }

  lemma {:induction false} ForwardStops(cs: seq<Node>, box: Rect, accepts: nat -> bool)
    requires forall i :: 0 <= i < |cs| ==> StackFree(cs[i])
    ensures StopsAtFirstAccept(Forward(cs, box, accepts), accepts)
    decreases cs
  {
    if cs != [] {
      StackFreeStopsAtFirstAccept(cs[0], box, accepts);
      assert forall i :: 0 <= i < |cs[1..]| ==> cs[1..][i] == cs[i + 1];
      ForwardStops(cs[1..], box, accepts);
      var h := Hits(cs[0], box, accepts);
      if !h.accepted {
        ThenStops(h, Forward(cs[1..], box, accepts), accepts);
      }
    }
  }

  /** Hover detection's visitor: it marks the item hovered and accepts. */
  function AcceptEvery(id: nat): bool { true }

  /** In a tree without stacks at most one item is hovered. */
  lemma HoverIsExclusive(n: Node, box: Rect)
    requires StackFree(n)
    ensures |Hits(n, box, AcceptEvery).visited| <= 1
  {
    StackFreeStopsAtFirstAccept(n, box, AcceptEvery);
    var v := Hits(n, box, AcceptEvery).visited;
    if |v| > 1 {
      assert AcceptEvery(v[0]);
    }
  }

  /** A stack lets the walk pass through: its own hit is handed to the
      visitor but reported as refused, so the row holding it is visited too. */
  lemma StackPassesThrough(stack: Node, row: Node, box: Rect)
    requires stack.kind == Stack && stack.children == [] && row.kind == Row && row.children == [stack]
    requires RectCollides(stack.viewport, box) && RectCollides(Collidable(stack), box)
    requires RectCollides(row.viewport, box) && RectCollides(Collidable(row), box)
    ensures Hits(stack, box, AcceptEvery) == Hit(false, [stack.id])
    ensures Hits(row, box, AcceptEvery) == Hit(true, [stack.id, row.id])
  {
    var s := Single(stack, box, AcceptEvery);
    assert s == Hit(true, [stack.id]);
    assert Backward(stack.children, box, AcceptEvery) == Hit(false, []);
    assert Hits(stack, box, AcceptEvery) == Hit(false, [stack.id]);
    assert [stack][1..] == [];
    assert Forward(row.children, box, AcceptEvery) == Then(Hit(false, [stack.id]), Forward([], box, AcceptEvery));
    assert Single(row, box, AcceptEvery) == Hit(true, [row.id]);
  }

  /** In a stack the child drawn last, on top, is the first one tried. */
  lemma TopmostChildWins(n: Node, box: Rect, accepts: nat -> bool)
    requires n.kind == Stack && n.children != []
    requires Hits(n.children[|n.children| - 1], box, accepts).accepted
    ensures Hits(n, box, accepts) == Hits(n.children[|n.children| - 1], box, accepts)
  {
  }

  /** A paragraph is never hit itself: when every run misses the box nothing
      is visited, whatever the paragraph's own area covers. */
  lemma {:induction false} ParagraphHitsOnlyRuns(n: Node, box: Rect, accepts: nat -> bool)
    requires n.kind == Paragraph
    requires forall i :: 0 <= i < |n.children| ==> n.children[i].kind == TextRun && !RectCollides(n.children[i].viewport, box)
    ensures Hits(n, box, accepts) == Hit(false, [])
  {
    RunsMiss(n.children, box, accepts);
  }

  lemma {:induction false} RunsMiss(cs: seq<Node>, box: Rect, accepts: nat -> bool)
    requires forall i :: 0 <= i < |cs| ==> cs[i].kind == TextRun && !RectCollides(cs[i].viewport, box)
    ensures Forward(cs, box, accepts) == Hit(false, [])
    decreases cs
  {
    if cs != [] {
      assert forall i :: 0 <= i < |cs[1..]| ==> cs[1..][i] == cs[i + 1];
      RunsMiss(cs[1..], box, accepts);
    }
  }

  // ---- drawing ----

  /** What a canvas is asked to do: clips pushed and popped, and a
      material's own drawing (its background, its text) under the clip on
      top at that moment. */
  datatype CanvasOp = PushClip(clip: Rect) | PopClip | Paint(id: nat, clip: Rect)

  /** The canvas' clip stack, and the calls it has received. */
  class Canvas {
    var clips: seq<Rect>
    var ops: seq<CanvasOp>

    constructor()
      ensures clips == [] && ops == []
    {
      clips := [];
      ops := [];
    }

    method PushClip(clip: Rect)
      modifies this
      ensures clips == old(clips) + [clip] && ops == old(ops) + [CanvasOp.PushClip(clip)]
    {
      clips := clips + [clip];
      ops := ops + [CanvasOp.PushClip(clip)];
    }

    /** `popClip` pops the vector's back, which needs it nonempty. */
    method PopClip()
      requires clips != []
      modifies this
      ensures clips == old(clips[..|clips| - 1]) && ops == old(ops) + [CanvasOp.PopClip]
    {
      clips := clips[..|clips| - 1];
      ops := ops + [CanvasOp.PopClip];
    }

    method Paint(id: nat)
      requires clips != []
      modifies this
      ensures clips == old(clips) && ops == old(ops) + [CanvasOp.Paint(id, clips[|clips| - 1])]
    {
      ops := ops + [CanvasOp.Paint(id, clips[|clips| - 1])];
    }
  }

  /** Whether the material draws its children after itself (the layouts);
      a paragraph's own drawing is not part of this model. */
  predicate DrawsChildren(k: Kind)
  {
    k == Row || k == Stack || k == Inline
  }

  /** The calls `draw` makes: its viewport as clip, its own drawing, its
      children's draws, then the clip popped. */
  function DrawOps(n: Node): seq<CanvasOp>
    decreases n
  {
    [CanvasOp.PushClip(n.viewport), CanvasOp.Paint(n.id, n.viewport)] +
    (if DrawsChildren(n.kind) then DrawAllOps(n.children) else []) +
    [CanvasOp.PopClip]
  }

  function DrawAllOps(cs: seq<Node>): seq<CanvasOp>
    decreases cs
  {
    if cs == [] then [] else DrawAllOps(cs[..|cs| - 1]) + DrawOps(cs[|cs| - 1])
  }

  /** `Material::draw`. */
  method Draw(n: Node, canvas: Canvas)
    modifies canvas
    ensures canvas.clips == old(canvas.clips)
    ensures canvas.ops == old(canvas.ops) + DrawOps(n)
    decreases n
  {
    canvas.PushClip(n.viewport);
    canvas.Paint(n.id);
    ghost var before := canvas.ops;
    if DrawsChildren(n.kind) {
      var i := 0;
      while i < |n.children|
        invariant i <= |n.children|
        invariant canvas.clips == old(canvas.clips) + [n.viewport]
        invariant canvas.ops == before + DrawAllOps(n.children[..i])
      {
        assert n.children[..i + 1][..i] == n.children[..i];
        Draw(n.children[i], canvas);
        i := i + 1;
      }
      assert n.children[..i] == n.children;
    }
    canvas.PopClip();
  }

  /** Clips pushed less clips popped. */
  function ClipDepth(ops: seq<CanvasOp>): int
  {
    if ops == [] then 0
    else ClipDepth(ops[..|ops| - 1]) +
         (match ops[|ops| - 1] case PushClip(_) => 1 case PopClip => -1 case Paint(_, _) => 0)
  }

  /** The items painted, in order. */
  function Painted(ops: seq<CanvasOp>): seq<nat>
  {
    if ops == [] then []
    else Painted(ops[..|ops| - 1]) + (match ops[|ops| - 1] case Paint(id, _) => [id] case _ => [])
  }

  lemma {:induction false} OpsAppend(a: seq<CanvasOp>, b: seq<CanvasOp>)
    ensures ClipDepth(a + b) == ClipDepth(a) + ClipDepth(b)
    ensures Painted(a + b) == Painted(a) + Painted(b)
    decreases |b|
  {
    if b == [] {
      assert a + b == a;
    } else {
      var b' := b[..|b| - 1];
      assert (a + b)[..|a + b| - 1] == a + b';
      OpsAppend(a, b');
    }
  }

  /** The drawing order as a tree walk: each material before its children. */
  function DrawOrder(n: Node): seq<nat>
    decreases n
  {
    [n.id] + (if DrawsChildren(n.kind) then DrawOrderAll(n.children) else [])
  }

  function DrawOrderAll(cs: seq<Node>): seq<nat>
    decreases cs
  {
    if cs == [] then [] else DrawOrderAll(cs[..|cs| - 1]) + DrawOrder(cs[|cs| - 1])
  }

  /** `draw` leaves as many clips as it found, and paints the tree in
      pre-order. */
  lemma {:induction false} DrawIsBalanced(n: Node)
    ensures ClipDepth(DrawOps(n)) == 0
    ensures Painted(DrawOps(n)) == DrawOrder(n)
    decreases n, 1
  {
    var head := [CanvasOp.PushClip(n.viewport), CanvasOp.Paint(n.id, n.viewport)];
    var body := if DrawsChildren(n.kind) then DrawAllOps(n.children) else [];
    assert head[..1] == [CanvasOp.PushClip(n.viewport)] && head[..1][..0] == [];
    assert ClipDepth(head[..1]) == 1 && Painted(head[..1]) == [];
    assert ClipDepth(head) == 1 && Painted(head) == [n.id];
    assert ClipDepth([CanvasOp.PopClip]) == -1 && Painted([CanvasOp.PopClip]) == [] by {
      assert [CanvasOp.PopClip][..0] == [];
    }
    if DrawsChildren(n.kind) {
      DrawAllIsBalanced(n.children);
    }
    OpsAppend(head, body);
    OpsAppend(head + body, [CanvasOp.PopClip]);
  }

  lemma {:induction false} DrawAllIsBalanced(cs: seq<Node>)
    ensures ClipDepth(DrawAllOps(cs)) == 0
    ensures Painted(DrawAllOps(cs)) == DrawOrderAll(cs)
    decreases cs
  {
    if cs != [] {
      DrawAllIsBalanced(cs[..|cs| - 1]);
      DrawIsBalanced(cs[|cs| - 1]);
      OpsAppend(DrawAllOps(cs[..|cs| - 1]), DrawOps(cs[|cs| - 1]));
    }
  }
}
