// Virtual states: a proxy state whose value is a boolean combination
// (and/or/xor, with negated leaves) of other states.
module VirtualStateKey {
  import opened Wrappers
  import opened ValueKey
  import Keyword

  /** `StateKey()`: empty identity, global scope. */
  const DefaultStateKey: StateKey := StateKey("", None)

  datatype StateNode = StateNode(
    operation: int,
    negation: bool,
    left: Option<StateNode>,
    right: Option<StateNode>,
    stateKey: StateKey)

  datatype VirtualStateKey = VirtualStateKey(proxyStateKey: StateKey, root: StateNode)

  /** A default-constructed node (its operation is unset in the source; 0 here). */
  const DefaultNode: StateNode := StateNode(0, false, None, None, DefaultStateKey)

  predicate IsLeaf(n: StateNode)
  {
    n.left.None? && n.right.None?
  }

  predicate IsConnective(op: int)
  {
    op == Keyword.Or || op == Keyword.And || op == Keyword.Xor
  }

  /** What `evaluate` asserts: every node is a leaf or has both children and
      an and/or/xor operation. */
  predicate WellFormed(n: StateNode)
    decreases n
  {
    if IsLeaf(n) then true
    else n.left.Some? && n.right.Some? && IsConnective(n.operation)
         && WellFormed(n.left.value) && WellFormed(n.right.value)
  }

  /** `Node::evaluate` with `checkState` read from the set of active states:
      a leaf is its state, inverted when negated; an internal node combines
      its children and ignores its own negation flag. */
  function Evaluate(n: StateNode, active: set<StateKey>): (b: bool)
    requires WellFormed(n)
    ensures IsLeaf(n) ==> b == (if n.negation then n.stateKey !in active else n.stateKey in active)
    decreases n
  {
    if IsLeaf(n) then
      if n.negation then n.stateKey !in active else n.stateKey in active
    else if n.operation == Keyword.Or then Evaluate(n.left.value, active) || Evaluate(n.right.value, active)
    else if n.operation == Keyword.And then Evaluate(n.left.value, active) && Evaluate(n.right.value, active)
    else Evaluate(n.left.value, active) != Evaluate(n.right.value, active)
  }

  /** The connectives mean or, and and not-equal. */
  lemma EvaluateConnectives(n: StateNode, active: set<StateKey>)
    requires WellFormed(n) && !IsLeaf(n)
    ensures var l := Evaluate(n.left.value, active); var r := Evaluate(n.right.value, active);
      (n.operation == Keyword.Or ==> Evaluate(n, active) == (l || r))
      && (n.operation == Keyword.And ==> Evaluate(n, active) == (l && r))
      && (n.operation == Keyword.Xor ==> Evaluate(n, active) == (l != r))
  {
  }

  /** A negation flag on an internal node has no effect. */
  lemma InternalNegationIgnored(n: StateNode, active: set<StateKey>, neg: bool)
    requires WellFormed(n) && !IsLeaf(n)
    ensures WellFormed(n.(negation := neg))
    ensures Evaluate(n.(negation := neg), active) == Evaluate(n, active)
  {
  }

  /** `not (this.a and this.b)` as the compiler builds it: the negation lands
      on the `and` node. */
  const KeyA: StateKey := StateKey("a", None)
  const KeyB: StateKey := StateKey("b", None)
  const NotAAndB: StateNode :=
    StateNode(Keyword.And, true,
      Some(StateNode(Keyword.ScopedValueKey, false, None, None, KeyA)),
      Some(StateNode(Keyword.ScopedValueKey, false, None, None, KeyB)),
      DefaultStateKey)

  /** With both states active, `not (a and b)` evaluates to true. */
  lemma NegatedGroupEvaluatesUnnegated()
    ensures WellFormed(NotAAndB)
    ensures Evaluate(NotAAndB, {KeyA, KeyB})
  {
  }

  /** Corrected evaluation: the negation flag applies at every node. */
  function EvaluateNegating(n: StateNode, active: set<StateKey>): (b: bool)
    requires WellFormed(n)
    ensures IsLeaf(n) ==> b == Evaluate(n, active)
    decreases n
  {
    var v :=
      if IsLeaf(n) then n.stateKey in active
      else if n.operation == Keyword.Or then EvaluateNegating(n.left.value, active) || EvaluateNegating(n.right.value, active)
      else if n.operation == Keyword.And then EvaluateNegating(n.left.value, active) && EvaluateNegating(n.right.value, active)
      else EvaluateNegating(n.left.value, active) != EvaluateNegating(n.right.value, active);
    if n.negation then !v else v
  }

  /** Under the corrected evaluation, flipping a node's negation flips its value. */
  lemma NegationFlips(n: StateNode, active: set<StateKey>)
    requires WellFormed(n)
    ensures WellFormed(n.(negation := !n.negation))
    ensures EvaluateNegating(n.(negation := !n.negation), active) == !EvaluateNegating(n, active)
  {
  }

  /** The two evaluations agree on trees that negate leaves only. */
  predicate NegatesLeavesOnly(n: StateNode)
    decreases n
  {
    (n.negation ==> IsLeaf(n))
    && (match n.left case None => true case Some(c) => NegatesLeavesOnly(c))
    && (match n.right case None => true case Some(c) => NegatesLeavesOnly(c))
  }

  lemma {:induction false} EvaluationsAgree(n: StateNode, active: set<StateKey>)
    requires WellFormed(n) && NegatesLeavesOnly(n)
    ensures EvaluateNegating(n, active) == Evaluate(n, active)
    decreases n
  {
    if !IsLeaf(n) {
      EvaluationsAgree(n.left.value, active);
      EvaluationsAgree(n.right.value, active);
    }
  }

  lemma NegatedGroupCorrected()
    ensures WellFormed(NotAAndB)
    ensures !EvaluateNegating(NotAAndB, {KeyA, KeyB})
  {
  }

  // ---- the keys a virtual state depends on ----

  function NodeCount(n: StateNode): nat
    decreases n
  {
    1 + (match n.left case None => 0 case Some(c) => NodeCount(c))
      + (match n.right case None => 0 case Some(c) => NodeCount(c))
  }

  /** `addYourStateKeys`: one key per node, this node first, then the left
      subtree, then the right one. */
  function AffectedKeys(n: StateNode): (ks: seq<StateKey>)
    ensures |ks| == NodeCount(n)
    ensures ks[0] == n.stateKey
    decreases n
  {
    [n.stateKey]
    + (match n.left case None => [] case Some(c) => AffectedKeys(c))
    + (match n.right case None => [] case Some(c) => AffectedKeys(c))
  }

  /** The keys that leaves read. */
  function LeafKeys(n: StateNode): set<StateKey>
    decreases n
  {
    if IsLeaf(n) then {n.stateKey}
    else
      (match n.left case None => {} case Some(c) => LeafKeys(c))
      + (match n.right case None => {} case Some(c) => LeafKeys(c))
  }

  /** Every state a virtual key reads is among its affected keys. */
  lemma {:induction false} LeafKeysAffected(n: StateNode)
    ensures forall k :: k in LeafKeys(n) ==> k in AffectedKeys(n)
    decreases n
  {
    match n.left {
      case None =>
      case Some(c) => LeafKeysAffected(c);
    }
    match n.right {
      case None =>
      case Some(c) => LeafKeysAffected(c);
    }
  }

  /** The value depends only on the states of the leaf keys. */
  lemma {:induction false} EvaluateReadsLeafKeys(n: StateNode, a1: set<StateKey>, a2: set<StateKey>)
    requires WellFormed(n)
    requires forall k :: k in LeafKeys(n) ==> (k in a1 <==> k in a2)
    ensures Evaluate(n, a1) == Evaluate(n, a2)
    decreases n
  {
    if !IsLeaf(n) {
      EvaluateReadsLeafKeys(n.left.value, a1, a2);
      EvaluateReadsLeafKeys(n.right.value, a1, a2);
    }
  }

  // ---- copying ----

  /** `Node::operator=` as written: children are replaced only where the
      source has them, so a target's extra subtrees survive. */
  function AssignAsWritten(target: StateNode, source: StateNode): (r: StateNode)
    ensures r.operation == source.operation && r.negation == source.negation && r.stateKey == source.stateKey
    ensures source.left.None? ==> r.left == target.left
    ensures source.right.None? ==> r.right == target.right
  {
    StateNode(source.operation, source.negation,
              if source.left.Some? then source.left else target.left,
              if source.right.Some? then source.right else target.right,
              source.stateKey)
  }

  /** Assigning a leaf over an internal node leaves an internal node. */
  lemma AssignAsWrittenKeepsStaleChildren(target: StateNode, source: StateNode)
    requires IsLeaf(source) && !IsLeaf(target)
    ensures AssignAsWritten(target, source) != source
    ensures !IsLeaf(AssignAsWritten(target, source))
  {
  }

  /** Corrected assignment: all of the source, as the copy constructor does
      (datatype values cannot share subtrees, so the copy is deep). */
  function Assign(target: StateNode, source: StateNode): (r: StateNode)
    ensures AffectedKeys(r) == AffectedKeys(source)
    ensures WellFormed(source) ==> WellFormed(r) && forall a :: Evaluate(r, a) == Evaluate(source, a)
  {
    source
  }

  // ---- building a virtual key from its precursor ----

  datatype PrecursorNode = PrecursorNode(
    operation: int,
    negation: bool,
    left: Option<PrecursorNode>,
    right: Option<PrecursorNode>,
    stateKeyPrecursor: ScopedValueKey)

  datatype VirtualStateKeyPrecursor = VirtualStateKeyPrecursor(
    proxyStateKeyPrecursor: ScopedValueKey, root: PrecursorNode)

  /** `checkIsVirtual`: the root is a single key without negation. */
  predicate CheckIsVirtual(p: VirtualStateKeyPrecursor)
  {
    p.root.left.None? && p.root.right.None? && !p.root.negation
  }

  /** `populateNode`: copy operation and negation, turn the key precursor
      into a state key where there is one (keeping the target's key
      otherwise), and build fresh children where the precursor has them. */
  function Populate(pos: PrecursorNode, target: StateNode, gen: ScopedValueKey -> StateKey): (r: StateNode)
    ensures r.operation == pos.operation && r.negation == pos.negation
    ensures pos.stateKeyPrecursor.key.Some? ==> r.stateKey == gen(pos.stateKeyPrecursor)
    ensures pos.stateKeyPrecursor.key.None? ==> r.stateKey == target.stateKey
    ensures pos.left.None? ==> r.left == target.left
    ensures pos.right.None? ==> r.right == target.right
    decreases pos
  {
    StateNode(pos.operation, pos.negation,
              (match pos.left case None => target.left case Some(c) => Some(Populate(c, DefaultNode, gen))),
              (match pos.right case None => target.right case Some(c) => Some(Populate(c, DefaultNode, gen))),
              if pos.stateKeyPrecursor.key.Some? then gen(pos.stateKeyPrecursor) else target.stateKey)
  }

  /** The same shape, operations and negations. */
  predicate Mirrors(pos: PrecursorNode, n: StateNode)
    decreases pos
  {
    n.operation == pos.operation && n.negation == pos.negation
    && n.left.Some? == pos.left.Some? && n.right.Some? == pos.right.Some?
    && (pos.left.Some? ==> Mirrors(pos.left.value, n.left.value))
    && (pos.right.Some? ==> Mirrors(pos.right.value, n.right.value))
  }

  /** Populating a fresh node mirrors the precursor tree; nodes without a
      key precursor keep the default state key. */
  lemma {:induction false} PopulateMirrors(pos: PrecursorNode, gen: ScopedValueKey -> StateKey)
    ensures Mirrors(pos, Populate(pos, DefaultNode, gen))
    ensures pos.stateKeyPrecursor.key.None? ==> Populate(pos, DefaultNode, gen).stateKey == DefaultStateKey
    decreases pos
  {
    match pos.left {
      case None =>
      case Some(c) => PopulateMirrors(c, gen);
    }
    match pos.right {
      case None =>
      case Some(c) => PopulateMirrors(c, gen);
    }
  }

  /** `generateVirtualStateKey`. */
  function GenerateVirtualStateKey(p: VirtualStateKeyPrecursor, gen: ScopedValueKey -> StateKey): (v: VirtualStateKey)
    ensures v.proxyStateKey == gen(p.proxyStateKeyPrecursor)
    ensures Mirrors(p.root, v.root)
  {
    PopulateMirrors(p.root, gen);
    VirtualStateKey(gen(p.proxyStateKeyPrecursor), Populate(p.root, DefaultNode, gen))
  }
}
