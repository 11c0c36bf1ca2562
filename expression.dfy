// Solving expression trees forward, and back-solving a weak term: given the
// result an expression must have, find and write the value its one weak key
// must take. The environment's `getInteger`/`setInteger` are a map oracle.
module Expression {
  import opened Wrappers
  import opened ValueKey
  import Keyword

  /** What `getInteger` reads and `setInteger` writes, by key identity; a key
      never written reads as 0. */
  type Store = map<KeyId, real>

  function Read(store: Store, k: ScopedValueKey): real
  {
    if Identity(k) in store then store[Identity(k)] else 0.0
  }

  /** Scalars, percentages and `u` units are constants; the unit is ignored. */
  predicate IsConstantOp(op: int)
  {
    op == Keyword.ScalarType || op == Keyword.UnitPercent || op == Keyword.UnitStandard
  }

  predicate IsArithmeticOp(op: int)
  {
    op == Keyword.OperatorPlus || op == Keyword.OperatorMinus
    || op == Keyword.OperatorTimes || op == Keyword.OperatorDivide
  }

  /** The `logic_error` thrown for an operator the solver does not know. */
  const UnsupportedOperator: string := "Unsupported operator"
  /** A zero divisor, where the source's doubles would give an infinity or NaN. */
  const DivisionByZero: string := "Division by zero"
  /** A weak branch without both children: the source dereferences null. */
  const MissingChild: string := "Weak branch without two children"
  /** Both children weak: excluded by an assertion in the source. */
  const BothBranchesWeak: string := "Both branches weak"

  /** `left op right` for the four arithmetic operators. */
  function Combine(op: int, a: real, b: real): (r: Result<real>)
    requires IsArithmeticOp(op)
    ensures r.Err? <==> op == Keyword.OperatorDivide && b == 0.0
  {
    if op == Keyword.OperatorPlus then Ok(a + b)
    else if op == Keyword.OperatorMinus then Ok(a - b)
    else if op == Keyword.OperatorTimes then Ok(a * b)
    else if b == 0.0 then Err(DivisionByZero)
    else Ok(a / b)
  }

  /** A missing child evaluates to 0. */
  function SolveChild(c: Option<ExpressionNode>, store: Store): (r: Result<real>)
    ensures c.None? ==> r == Ok(0.0)
    decreases c
  {
    match c
    case None => Ok(0.0)
    case Some(n) => Solve(n, store)
  }

  /** `solveNode`. */
  function Solve(n: ExpressionNode, store: Store): (r: Result<real>)
    ensures IsConstantOp(n.operation) ==> r == Ok(n.val)
    ensures n.operation == KeyOperation ==> r == Ok(Read(store, n.extVal))
    ensures !IsConstantOp(n.operation) && n.operation != KeyOperation && !IsArithmeticOp(n.operation)
            ==> r == Err(UnsupportedOperator)
    decreases n, 1
  {
    if IsConstantOp(n.operation) then Ok(n.val)
    else if n.operation == KeyOperation then Ok(Read(store, n.extVal))
    else if !IsArithmeticOp(n.operation) then Err(UnsupportedOperator)
    else
      var l := SolveChild(n.left, store);
      var r := SolveChild(n.right, store);
      if l.Err? then l
      else if r.Err? then r
      else Combine(n.operation, l.value, r.value)
  }

  /** An operator node whose children solve combines their values. */
  lemma SolveArithmetic(n: ExpressionNode, store: Store)
    requires IsArithmeticOp(n.operation)
    requires SolveChild(n.left, store).Ok? && SolveChild(n.right, store).Ok?
    ensures Solve(n, store) == Combine(n.operation, SolveChild(n.left, store).value, SolveChild(n.right, store).value)
  {
  }

  // ---- back-solving ----

  /** What a back-solve produces: its return value and the one write it made
      through `setInteger`, if any. */
  datatype BackSolved = BackSolved(result: real, write: Option<(KeyId, real)>)

  function ApplyWrite(store: Store, w: Option<(KeyId, real)>): Store
  {
    match w
    case None => store
    case Some(kv) => store[kv.0 := kv.1]
  }

  /** The value the weak side must take for `known op weak` (or `weak op
      known`) to equal `req`. */
  function Inverse(op: int, leftUnknown: bool, known: real, req: real): (r: Result<real>)
    requires IsArithmeticOp(op)
    ensures r.Ok? && leftUnknown ==> Combine(op, r.value, known) == Ok(req) || (op == Keyword.OperatorDivide && known == 0.0)
    ensures r.Ok? && !leftUnknown ==> Combine(op, known, r.value) == Ok(req) || (op == Keyword.OperatorDivide && known == 0.0)
    ensures r.Err? <==> (op == Keyword.OperatorTimes && known == 0.0) || (op == Keyword.OperatorDivide && !leftUnknown && req == 0.0)
  {
    if op == Keyword.OperatorPlus then Ok(req - known)
    else if op == Keyword.OperatorTimes && known == 0.0 then Err(DivisionByZero)
    else if op == Keyword.OperatorTimes then TimesInverse(req, known); Ok(req / known)
    else if op == Keyword.OperatorMinus then (if leftUnknown then Ok(known + req) else Ok(known - req))
    else if leftUnknown then (if known != 0.0 then DivideLeftInverse(req, known); Ok(known * req) else Ok(known * req))
    else if req == 0.0 then Err(DivisionByZero)
    else (if known != 0.0 then DivideRightInverse(req, known); Ok(known / req) else Ok(known / req))
  }

  lemma TimesInverse(req: real, known: real)
    requires known != 0.0
    ensures Combine(Keyword.OperatorTimes, req / known, known) == Ok(req)
    ensures Combine(Keyword.OperatorTimes, known, req / known) == Ok(req)
  {
    TimesInverseLeft(req, known);
    TimesInverseRight(req, known);
  }

  lemma TimesInverseLeft(req: real, known: real)
    requires known != 0.0
    ensures Combine(Keyword.OperatorTimes, req / known, known) == Ok(req)
  {
    var x := req / known;
    CombineTimes(x, known);
    assert x * known == req;
  }

  lemma TimesInverseRight(req: real, known: real)
    requires known != 0.0
    ensures Combine(Keyword.OperatorTimes, known, req / known) == Ok(req)
  {
    var x := req / known;
    CombineTimes(known, x);
    assert known * x == req;
  }

  lemma CombineTimes(a: real, b: real)
    ensures Combine(Keyword.OperatorTimes, a, b) == Ok(a * b)
  {
  }

  lemma DivideLeftInverse(req: real, known: real)
    requires known != 0.0
    ensures Combine(Keyword.OperatorDivide, known * req, known) == Ok(req)
  {
    var x := known * req;
    assert x / known == req;
    assert Combine(Keyword.OperatorDivide, x, known) == Ok(x / known);
  }

  lemma DivideRightInverse(req: real, known: real)
    requires known != 0.0 && req != 0.0
    ensures Combine(Keyword.OperatorDivide, known, known / req) == Ok(req)
  {
    var x := known / req;
    assert x * req == known;
    assert x != 0.0;
    assert known / x == req;
    assert Combine(Keyword.OperatorDivide, known, x) == Ok(known / x);
  }

  /** `solveForUnknownNode`. A weak term writes the required value and
      returns it; a node that is neither weak term nor weak branch writes
      nothing and returns 0; a weak branch solves its known side and
      recurses into the side whose `weakBranch` is set (the right one when
      the left one's is not). */
  function BackSolve(n: ExpressionNode, store: Store, req: real): (r: Result<BackSolved>)
    ensures n.weakTerm ==> r == Ok(BackSolved(req, Some((Identity(n.extVal), req))))
    ensures !n.weakTerm && !n.weakBranch ==> r == Ok(BackSolved(0.0, None))
    ensures r.Ok? && r.value.write.Some? ==> r.value.result == r.value.write.value.1
    decreases n
  {
    if n.weakTerm then Ok(BackSolved(req, Some((Identity(n.extVal), req))))
    else if !n.weakBranch then Ok(BackSolved(0.0, None))
    else if n.left.None? || n.right.None? then Err(MissingChild)
    else if n.left.value.weakBranch && n.right.value.weakBranch then Err(BothBranchesWeak)
    else
      var leftUnknown := n.left.value.weakBranch;
      var known := if leftUnknown then Solve(n.right.value, store) else Solve(n.left.value, store);
      var weak := if leftUnknown then n.left.value else n.right.value;
      if known.Err? then Err(known.error)
      else if !IsArithmeticOp(n.operation) then Err(UnsupportedOperator)
      else
        var sub := Inverse(n.operation, leftUnknown, known.value, req);
        if sub.Err? then Err(sub.error)
        else BackSolve(weak, store, sub.value)
  }

  /** `checkContainsWeak`: the root is a weak term or a weak branch. */
  predicate ContainsWeak(n: ExpressionNode)
  {
    n.weakTerm || n.weakBranch
  }

  // ---- the round trip ----

  /** The identities of all key leaves in a tree. */
  function KeysRead(n: ExpressionNode): set<KeyId>
    decreases n
  {
    (if n.operation == KeyOperation then {Identity(n.extVal)} else {})
    + (match n.left case None => {} case Some(c) => KeysRead(c))
    + (match n.right case None => {} case Some(c) => KeysRead(c))
  }

  function KeysReadChild(c: Option<ExpressionNode>): set<KeyId>
  {
    match c case None => {} case Some(n) => KeysRead(n)
  }

  /** Writing a key that a tree does not read leaves its value unchanged. */
  lemma {:induction false} SolveIgnoresUnread(n: ExpressionNode, store: Store, id: KeyId, v: real)
    requires id !in KeysRead(n)
    ensures Solve(n, store[id := v]) == Solve(n, store)
    decreases n
  {
    if n.operation == KeyOperation {
      assert Identity(n.extVal) != id;
    }
    match n.left {
      case None =>
      case Some(c) => SolveIgnoresUnread(c, store, id, v);
    }
    match n.right {
      case None =>
      case Some(c) => SolveIgnoresUnread(c, store, id, v);
    }
  }

  /** A tree whose marked weak path ends at the key `id`: every weak branch
      on the path is an arithmetic node with two children, the side the
      back-solve descends into carries on the path, the other side solves
      without reading `id`, and a divisor on the other side is nonzero. */
  predicate WeakPath(n: ExpressionNode, id: KeyId, store: Store)
    decreases n
  {
    if n.weakTerm then n.operation == KeyOperation && Identity(n.extVal) == id
    else
      n.weakBranch && IsArithmeticOp(n.operation) && n.left.Some? && n.right.Some?
      && var leftUnknown := n.left.value.weakBranch;
         var weak := if leftUnknown then n.left.value else n.right.value;
         var other := if leftUnknown then n.right.value else n.left.value;
         !other.weakBranch && id !in KeysRead(other) && Solve(other, store).Ok?
         && (n.operation == Keyword.OperatorDivide ==> Solve(other, store).value != 0.0)
         && WeakPath(weak, id, store)
  }

  /** Back-solving to `t` along a weak path writes the weak key, returns that
      value, and solving afterwards (with `getInteger` reading what
      `setInteger` stored) gives `t` again. The back-solve fails only where
      it would have to divide by zero. */
  lemma {:induction false} BackSolveRoundTrip(n: ExpressionNode, store: Store, id: KeyId, t: real)
    requires WeakPath(n, id, store)
    requires BackSolve(n, store, t).Ok?
    ensures BackSolve(n, store, t).value.write.Some?
    ensures BackSolve(n, store, t).value.write.value.0 == id
    ensures Solve(n, ApplyWrite(store, BackSolve(n, store, t).value.write)) == Ok(t)
    decreases n
  {
    if n.weakTerm {
      assert Read(store[id := t], n.extVal) == t;
    } else {
      var leftUnknown := n.left.value.weakBranch;
      var weak := if leftUnknown then n.left.value else n.right.value;
      var other := if leftUnknown then n.right.value else n.left.value;
      var known := Solve(other, store).value;
      var sub := Inverse(n.operation, leftUnknown, known, t);
      assert BackSolve(n, store, t) == BackSolve(weak, store, sub.value);
      BackSolveRoundTrip(weak, store, id, sub.value);
      var w := BackSolve(weak, store, sub.value).value.write;
      var v := w.value.1;
      assert ApplyWrite(store, w) == store[id := v];
      SolveIgnoresUnread(other, store, id, v);
      SolveArithmetic(n, store[id := v]);
    }
  }

  // ---- the weak flags as the compiler sets them ----

  /** No node carries `weakBranch`: the parser only ever sets `weakTerm`. */
  predicate NoWeakBranch(n: ExpressionNode)
    decreases n
  {
    !n.weakBranch
    && (match n.left case None => true case Some(c) => NoWeakBranch(c))
    && (match n.right case None => true case Some(c) => NoWeakBranch(c))
  }

  /** As parsed, a back-solve of any expression whose root is not itself the
      weak term writes nothing and returns 0. */
  lemma ParsedBackSolveWritesNothing(n: ExpressionNode, store: Store, t: real)
    requires NoWeakBranch(n) && !n.weakTerm
    ensures BackSolve(n, store, t) == Ok(BackSolved(0.0, None))
  {
  }

  /** `[this.x] + 1` as the parser builds it. */
  const WeakX: ScopedValueKey := ScopedValueKey(Some(Element), None, Some("x"), None)
  const WeakPlusOne: ExpressionNode :=
    ExpressionNode(Keyword.OperatorPlus, false, false, 0.0, NoKey,
      Some(ExpressionNode(KeyOperation, false, true, 0.0, WeakX, None, None)),
      Some(ExpressionNode(Keyword.ScalarType, false, false, 1.0, NoKey, None, None)))

  /** Back-solving `[this.x] + 1` to 5 writes nothing, so the expression
      still solves to 1 and not to 5. */
  lemma WeakPlusOneNeverBackSolves(store: Store)
    requires Identity(WeakX) !in store
    ensures BackSolve(WeakPlusOne, store, 5.0) == Ok(BackSolved(0.0, None))
    ensures Solve(WeakPlusOne, store) == Ok(1.0)
  {
  }

  // ---- corrected: mark the path to the weak term ----

  /** Whether a subtree holds a weak term. */
  predicate HasWeakTerm(n: ExpressionNode)
    decreases n
  {
    n.weakTerm
    || (match n.left case None => false case Some(c) => HasWeakTerm(c))
    || (match n.right case None => false case Some(c) => HasWeakTerm(c))
  }

  /** Sets `weakBranch` on every node whose subtree holds the weak term,
      the term included; nothing else changes. */
  function MarkWeak(n: ExpressionNode): (r: ExpressionNode)
    ensures r.weakBranch == HasWeakTerm(n)
    ensures r.operation == n.operation && r.weakTerm == n.weakTerm && r.val == n.val && r.extVal == n.extVal
    ensures r.left.Some? == n.left.Some? && r.right.Some? == n.right.Some?
    decreases n
  {
    var l := match n.left case None => None case Some(c) => Some(MarkWeak(c));
    var rt := match n.right case None => None case Some(c) => Some(MarkWeak(c));
    n.(weakBranch := HasWeakTerm(n), left := l, right := rt)
  }

  function MarkWeakChild(c: Option<ExpressionNode>): Option<ExpressionNode>
  {
    match c case None => None case Some(n) => Some(MarkWeak(n))
  }

  /** Marking changes only flags, so it changes neither the value nor the keys read. */
  lemma {:induction false} MarkWeakKeepsMeaning(n: ExpressionNode, store: Store)
    ensures Solve(MarkWeak(n), store) == Solve(n, store)
    ensures KeysRead(MarkWeak(n)) == KeysRead(n)
    decreases n
  {
    match n.left {
      case None =>
      case Some(c) => MarkWeakKeepsMeaning(c, store);
    }
    match n.right {
      case None =>
      case Some(c) => MarkWeakKeepsMeaning(c, store);
    }
    assert MarkWeak(n).left == MarkWeakChild(n.left);
    assert MarkWeak(n).right == MarkWeakChild(n.right);
  }

  /** An unmarked tree with exactly one weak term, the key `id`, reached
      through arithmetic nodes with two children, whose other sides do not
      read `id`, solve, and are nonzero where they divide. */
  predicate OneWeakTerm(n: ExpressionNode, id: KeyId, store: Store)
    decreases n
  {
    if n.weakTerm then n.operation == KeyOperation && Identity(n.extVal) == id
    else
      IsArithmeticOp(n.operation) && n.left.Some? && n.right.Some?
      && var leftWeak := HasWeakTerm(n.left.value);
         var weak := if leftWeak then n.left.value else n.right.value;
         var other := if leftWeak then n.right.value else n.left.value;
         !HasWeakTerm(other) && id !in KeysRead(other) && Solve(other, store).Ok?
         && (n.operation == Keyword.OperatorDivide ==> Solve(other, store).value != 0.0)
         && OneWeakTerm(weak, id, store)
  }

  /** Marking such a tree gives a weak path, so the round trip holds for it. */
  lemma {:induction false} MarkWeakGivesWeakPath(n: ExpressionNode, id: KeyId, store: Store)
    requires OneWeakTerm(n, id, store)
    ensures WeakPath(MarkWeak(n), id, store)
    decreases n
  {
    if !n.weakTerm {
      var m := MarkWeak(n);
      var leftWeak := HasWeakTerm(n.left.value);
      var weak := if leftWeak then n.left.value else n.right.value;
      var other := if leftWeak then n.right.value else n.left.value;
      assert m.left == Some(MarkWeak(n.left.value));
      assert m.right == Some(MarkWeak(n.right.value));
      assert m.left.value.weakBranch == leftWeak;
      MarkWeakKeepsMeaning(other, store);
      MarkWeakGivesWeakPath(weak, id, store);
      assert HasWeakTerm(n);
    }
  }

  /** The corrected back-solve: mark, then back-solve. Solving afterwards
      gives the required value. */
  lemma MarkedBackSolveRoundTrip(n: ExpressionNode, store: Store, id: KeyId, t: real)
    requires OneWeakTerm(n, id, store)
    requires BackSolve(MarkWeak(n), store, t).Ok?
    ensures BackSolve(MarkWeak(n), store, t).value.write.Some?
    ensures BackSolve(MarkWeak(n), store, t).value.write.value.0 == id
    ensures Solve(n, ApplyWrite(store, BackSolve(MarkWeak(n), store, t).value.write)) == Ok(t)
  {
    MarkWeakGivesWeakPath(n, id, store);
    BackSolveRoundTrip(MarkWeak(n), store, id, t);
    MarkWeakKeepsMeaning(n, ApplyWrite(store, BackSolve(MarkWeak(n), store, t).value.write));
  }

  /** The example above, marked, back-solves to 5 by writing 4 to `this.x`. */
  lemma WeakPlusOneMarked(store: Store)
    ensures OneWeakTerm(WeakPlusOne, Identity(WeakX), store)
    ensures BackSolve(MarkWeak(WeakPlusOne), store, 5.0) == Ok(BackSolved(4.0, Some((Identity(WeakX), 4.0))))
  {
  }
}
