// The token parser of `Compiler::parseTokens` (src/compiler.cpp): the
// cursor helpers, scoped value keys, expressions with their precedence
// collapse, time values, animation graphs and compound state keys.
//
// Every parse step is first defined as a function of the token list and a
// position, giving the value and the position after it, or one of the two
// exceptions the compiler throws. The `Parser` class at the end walks the
// same tokens with a mutable position and is proved to compute exactly
// these functions.
module Parsing {
  import opened Wrappers
  import Keyword
  import Keywords
  import opened ValueKey
  import VirtualStateKey
  import AnimationGraph
  import Tokenizer

  type Token = Tokenizer.Token
  type PrecursorNode = VirtualStateKey.PrecursorNode

  /** A parse step's value and the position after it, or the compiler's
      `UnexpectedEOF` / `SyntaxError` exceptions. */
  datatype Outcome<T> = Parsed(value: T, next: nat) | EndOfFile | Syntax(message: string)

  /** Passing an exception on unchanged. */
  function Fail<T, U>(o: Outcome<T>): (r: Outcome<U>)
    requires !o.Parsed?
    ensures !r.Parsed? && (r.EndOfFile? <==> o.EndOfFile?) && (o.Syntax? ==> r == Syntax(o.message))
  {
    if o.EndOfFile? then EndOfFile else Syntax(o.message)
  }

  const UnexpectedSymbol := "unexpected symbol"
  const WeakConstant := "only non-constant terms may be weak"
  const TimeUnitInExpression := "time units are not valid in a scalar expression"
  const MalformedExpression := "malformed expression, expected a scalar or a value key"
  const InvalidKey := "invalid value key, expected a user token or an attribute key"
  const MissingLiteral := "symbol without a literal"
  const NoInterpolationMode := "graphs need an explicit interpolation mode"
  const PercentOutOfRange := "graph sample percentage out of range"
  const SampleOutOfRange := "graph sample out of range"
  const EmptyGraph := "graphs may not be empty"
  const NoTimeUnit := "expected a time unit"
  const NoLogicalOperator := "expected a logical operator"

  // ---- the cursor helpers ----

  /** `matchSymbolSomft`: false at the end. */
  predicate At(ts: seq<Token>, p: nat, symbol: int)
  {
    p < |ts| && ts[p].symbol == symbol
  }

  /** `next`: one step, none at the end. */
  function Skip(ts: seq<Token>, p: nat): (q: nat)
    requires p <= |ts|
    ensures q <= |ts| && (p < |ts| ==> q == p + 1) && (p == |ts| ==> q == p)
  {
    if p < |ts| then p + 1 else p
  }

  /** `nextHard` yielding `v`: the end of the input, before or after the
      step, is an `UnexpectedEOF`. */
  function Hard<T>(ts: seq<Token>, p: nat, v: T): (r: Outcome<T>)
    ensures r.Parsed? <==> p + 1 < |ts|
    ensures r.Parsed? ==> r == Parsed(v, p + 1)
    ensures !r.Parsed? ==> r.EndOfFile?
  {
    if p + 1 < |ts| then Parsed(v, p + 1) else EndOfFile
  }

  /** `matchSymbolHard` yielding `v`: a different symbol is a syntax error.
      At the end the source reads past the last token; that is modelled as
      an `UnexpectedEOF`. */
  function Expect<T>(ts: seq<Token>, p: nat, symbol: int, v: T): (r: Outcome<T>)
    ensures r.Parsed? <==> At(ts, p, symbol)
    ensures r.Parsed? ==> r == Parsed(v, p)
    ensures r.EndOfFile? <==> p >= |ts|
  {
    if p >= |ts| then EndOfFile
    else if ts[p].symbol != symbol then Syntax(UnexpectedSymbol)
    else Parsed(v, p)
  }

  /** `peekSymbolSequence`: the symbols match as far as the tokens go, so
      running out of tokens early still counts as a match. */
  predicate Peek(ts: seq<Token>, p: nat, symbols: seq<int>)
  {
    forall k :: 0 <= k < |symbols| && p + k < |ts| ==> ts[p + k].symbol == symbols[k]
  }

  function TextOf(t: Token): string
  {
    if t.payload.Text? then t.payload.text else ""
  }

  function NumberOf(t: Token): real
  {
    if t.payload.Number? then t.payload.value else 0.0
  }

  // ---- scoped value keys ----

  function Scoped(s: Scope): ScopedValueKey
  {
    NoKey.(scope := Some(s))
  }

  /** The scope prefix of `parseValueKeyScopeAndPath`. */
  function ScopeHead(ts: seq<Token>, p: nat): (r: Outcome<ScopedValueKey>)
    requires p < |ts|
    ensures r.Parsed? ==> p <= r.next < |ts|
  {
    if Peek(ts, p, [Keyword.UserToken, Keyword.Dot]) || Peek(ts, p, [Keyword.UserToken, Keyword.Colon, Keyword.Colon]) then
      Hard(ts, p, AddToPath(Scoped(Global), TextOf(ts[p])))
    else if At(ts, p, Keyword.Model) then Hard(ts, p, Scoped(Model))
    else if At(ts, p, Keyword.This) then Hard(ts, p, Scoped(Element))
    else if At(ts, p, Keyword.SchoolOperator) then Hard(ts, p, Scoped(RemorialClass))
    else if At(ts, p, Keyword.Material) then Hard(ts, p, Scoped(Material))
    else if Peek(ts, p, [Keyword.Colon, Keyword.Colon]) then
      if !Peek(ts, p, [Keyword.Colon, Keyword.Colon, Keyword.UserToken]) then Hard(ts, p + 1, Scoped(Global))
      else Parsed(Scoped(Global), p)
    else Parsed(NoKey, p)
  }

  /** The `:: name` pieces of `parseValueKeyScopeAndPath`. */
  function PathPieces(ts: seq<Token>, k: ScopedValueKey, p: nat): (r: Outcome<ScopedValueKey>)
    requires p <= |ts|
    ensures r.Parsed? ==> p <= r.next <= |ts|
    decreases |ts| - p
  {
    if Peek(ts, p, [Keyword.Colon, Keyword.Colon, Keyword.UserToken]) then
      var q := Skip(ts, Skip(ts, p));
      if q == |ts| then EndOfFile
      else PathPieces(ts, AddToPath(k, TextOf(ts[q])), q + 1)
    else Parsed(k, p)
  }

  /** `parseValueKeyScopeAndPath`. */
  function ScopeAndPath(ts: seq<Token>, p: nat): (r: Outcome<ScopedValueKey>)
    requires p <= |ts|
    ensures r.Parsed? ==> p <= r.next <= |ts|
  {
    if p == |ts| then EndOfFile
    else
      var h := ScopeHead(ts, p);
      if !h.Parsed? then h else PathPieces(ts, h.value, h.next)
  }

  /** The `.` that must follow a non-empty scope and path, and the step past it. */
  function DotAfter(ts: seq<Token>, k: ScopedValueKey, q: nat): (r: Outcome<()>)
    requires q <= |ts|
    ensures r.Parsed? ==> q <= r.next <= |ts|
  {
    if IsEmpty(k) then Parsed((), q)
    else
      var d := Expect(ts, q, Keyword.Dot, ());
      if !d.Parsed? then d else Hard(ts, q, ())
  }

  /** `parseScopedValueKeyForStateKey`. */
  function KeyForStateKey(ts: seq<Token>, p: nat): (r: Outcome<ScopedValueKey>)
    requires p <= |ts|
    ensures r.Parsed? ==> p < r.next <= |ts|
    ensures r.Parsed? ==> r.value.key.Some? && r.value.scope.Some?
  {
    var h := ScopeAndPath(ts, p);
    if !h.Parsed? then h
    else
      var d := DotAfter(ts, h.value, h.next);
      if !d.Parsed? then Fail(d)
      else
        var u := Expect(ts, d.next, Keyword.UserToken, ());
        if !u.Parsed? then Fail(u)
        else Parsed(SetScopeIfUnset(h.value.(key := Some(TextOf(ts[d.next]))), Element), Skip(ts, d.next))
  }

  /** The ending of `parseScopedValueKeyForExpression` without a material
      parameter: a user token, or an attribute key whose body is an
      expression, written with its literal. */
  function PlainKey(ts: seq<Token>, symbols: Keywords.SymbolTable, k: ScopedValueKey, q: nat): (r: Outcome<ScopedValueKey>)
    requires q <= |ts|
    ensures r.Parsed? ==> q < r.next <= |ts| && r.value.key.Some? && r.value.scope.Some?
  {
    var d := DotAfter(ts, k, q);
    if !d.Parsed? then Fail(d)
    else
      var q2 := d.next;
      if At(ts, q2, Keyword.UserToken) then
        Parsed(SetScopeIfUnset(k.(key := Some(TextOf(ts[q2]))), Element), q2 + 1)
      else if q2 == |ts| then EndOfFile
      else if !Keywords.IsExpressionBodyType(ts[q2].symbol) then Syntax(InvalidKey)
      else match Keywords.FindLiteral(symbols, ts[q2].symbol, 0)
        case None => Syntax(MissingLiteral)
        case Some(lit) => Parsed(SetScopeIfUnset(k.(key := Some(lit)), Element), q2 + 1)
  }

  // ---- expressions ----

  const MulOps: set<int> := {Keyword.OperatorTimes, Keyword.OperatorDivide}
  const AddOps: set<int> := {Keyword.OperatorPlus, Keyword.OperatorMinus}

  /** A node with no children and no key; `val` is uninitialised in the
      source and 0 here. */
  function Leaf(operation: int, val: real): (n: ExpressionNode)
    ensures n.operation == operation && n.val == val && n.left.None? && n.right.None?
  {
    ExpressionNode(operation, false, false, val, NoKey, None, None)
  }

  /** A number, with an optional `%` or `std` unit. */
  function Constant(ts: seq<Token>, q: nat, weak: bool): (r: Outcome<ExpressionNode>)
    requires q < |ts|
    ensures r.Parsed? ==> q < r.next <= |ts|
  {
    if weak then Syntax(WeakConstant)
    else
      var node := Leaf(Keyword.ScalarType, NumberOf(ts[q]));
      if At(ts, q + 1, Keyword.UnitStandard) || At(ts, q + 1, Keyword.UnitPercent) then
        Parsed(node.(operation := ts[q + 1].symbol), q + 2)
      else if At(ts, q + 1, Keyword.UnitSeconds) || At(ts, q + 1, Keyword.UnitMilliseconds) then
        Syntax(TimeUnitInExpression)
      else Parsed(node, q + 1)
  }

  /** The closing `]` of a weak term and the step past it. */
  function CloseWeak(ts: seq<Token>, body: Outcome<ExpressionNode>): (r: Outcome<ExpressionNode>)
    requires body.Parsed? && body.next <= |ts|
    ensures r.Parsed? ==> body.next < r.next <= |ts| && r.value == body.value.(weakTerm := true)
  {
    var c := Expect(ts, body.next, Keyword.CloseSquare, body.value.(weakTerm := true));
    if !c.Parsed? then c else Parsed(c.value, body.next + 1)
  }

  /** The operator and operand list of `parseExpressionForNode` before the
      collapse: operands at even positions, operators at odd ones. */
  predicate OperatorsAt(rest: seq<ExpressionNode>)
  {
    |rest| % 2 == 0 && forall i :: 0 <= i < |rest| && i % 2 == 0 ==> rest[i].operation in MulOps + AddOps
  }

  predicate Alternating(nodes: seq<ExpressionNode>)
  {
    |nodes| > 0 && OperatorsAt(nodes[1..])
  }

  /** `parseExpressionForNode` at `depth` (whose nested parentheses consume
      their `)`), `parseValueNode` and `parseScopedValueKeyForExpression`
      call each other; each returns a position no earlier than it started. */
  function ExprForNode(ts: seq<Token>, symbols: Keywords.SymbolTable, p: nat, depth: nat): (r: Outcome<ExpressionNode>)
    requires p <= |ts|
    ensures r.Parsed? ==> p < r.next <= |ts|
    decreases |ts| - p, 4
  {
    var first := ValueNode(ts, symbols, p, depth);
    if !first.Parsed? then Fail(first)
    else Finish(ts, OperandsFrom(ts, symbols, first.next, depth, [first.value]), depth, p)
  }

  /** After the operand list: the `)` of a nested expression, then the two
      collapse passes, which leave exactly one node. */
  function Finish(ts: seq<Token>, ops: Outcome<seq<ExpressionNode>>, depth: nat, p: nat): (r: Outcome<ExpressionNode>)
    requires ops.Parsed? ==> p < ops.next <= |ts| && Alternating(ops.value)
    ensures r.Parsed? ==> p < r.next <= |ts|
  {
    if !ops.Parsed? then Fail(ops)
    else
      var q := if At(ts, ops.next, Keyword.CloseParen) && depth != 0 then ops.next + 1 else ops.next;
      var folded := CollapsePass(CollapsePass(ops.value, MulOps), AddOps);
      CollapseMatchesPrecedence(ops.value);
      Parsed(folded[0], q)
  }

  /** The loop of `parseExpressionForNode` pushing operator and operand nodes. */
  function OperandsFrom(ts: seq<Token>, symbols: Keywords.SymbolTable, p: nat, depth: nat, acc: seq<ExpressionNode>)
    : (r: Outcome<seq<ExpressionNode>>)
    requires p <= |ts|
    ensures r.Parsed? ==> p <= r.next <= |ts|
    ensures r.Parsed? && Alternating(acc) ==> Alternating(r.value)
    decreases |ts| - p, 3
  {
    if At(ts, p, Keyword.OperatorPlus) || At(ts, p, Keyword.OperatorMinus)
       || At(ts, p, Keyword.OperatorTimes) || At(ts, p, Keyword.OperatorDivide) then
      var op := Leaf(ts[p].symbol, 0.0);
      if p + 1 >= |ts| then EndOfFile
      else
        var v := ValueNode(ts, symbols, p + 1, depth);
        if !v.Parsed? then Fail(v)
        else
          AlternatingSnoc(acc, op, v.value);
          OperandsFrom(ts, symbols, v.next, depth, acc + [op, v.value])
    else Parsed(acc, p)
  }

  /** `parseValueNode`: a parenthesised expression, or a number or value
      key, optionally bracketed as weak. */
  function ValueNode(ts: seq<Token>, symbols: Keywords.SymbolTable, p: nat, depth: nat): (r: Outcome<ExpressionNode>)
    requires p <= |ts|
    ensures r.Parsed? ==> p < r.next <= |ts|
    decreases |ts| - p, 3
  {
    if At(ts, p, Keyword.OpenParen) then
      if p + 1 < |ts| then ExprForNode(ts, symbols, p + 1, depth + 1) else EndOfFile
    else
      var weak := At(ts, p, Keyword.OpenSquare);
      if weak && p + 1 >= |ts| then EndOfFile
      else
        var q := if weak then p + 1 else p;
        var body := if At(ts, q, Keyword.ScalarType) || At(ts, q, Keyword.FloatType) then Constant(ts, q, weak)
                    else KeyTerm(ts, symbols, q);
        if !body.Parsed? || !weak then body else CloseWeak(ts, body)
  }

  /** A value-key operand; a syntax error inside it is reported as a
      malformed expression. */
  function KeyTerm(ts: seq<Token>, symbols: Keywords.SymbolTable, q: nat): (r: Outcome<ExpressionNode>)
    requires q <= |ts|
    ensures r.Parsed? ==> q < r.next <= |ts|
    decreases |ts| - q, 2
  {
    var k := KeyForExpression(ts, symbols, q);
    if k.Syntax? then Syntax(MalformedExpression)
    else if k.EndOfFile? then EndOfFile
    else Parsed(Leaf(Keyword.ScopedValueKey, 0.0).(extVal := k.value), k.next)
  }

  /** `parseScopedValueKeyForExpression`. */
  function KeyForExpression(ts: seq<Token>, symbols: Keywords.SymbolTable, p: nat): (r: Outcome<ScopedValueKey>)
    requires p <= |ts|
    ensures r.Parsed? ==> p < r.next <= |ts|
    decreases |ts| - p, 1
  {
    var h := ScopeAndPath(ts, p);
    if !h.Parsed? then h
    else if At(ts, h.next, Keyword.Material) then MaterialKey(ts, symbols, h.value, h.next)
    else PlainKey(ts, symbols, h.value, h.next)
  }

  /** `material . name ( expression )`: a key in material scope carrying the
      expression as its parameter. The expression is read from the `(`,
      which it takes as its own parenthesis, so a second `)` must follow. */
  function MaterialKey(ts: seq<Token>, symbols: Keywords.SymbolTable, k: ScopedValueKey, q: nat): (r: Outcome<ScopedValueKey>)
    requires q < |ts|
    ensures r.Parsed? ==> q < r.next <= |ts|
    decreases |ts| - q, 0
  {
    if q + 1 >= |ts| then EndOfFile
    else if ts[q + 1].symbol != Keyword.Dot then Syntax(UnexpectedSymbol)
    else if q + 2 >= |ts| then EndOfFile
    else if ts[q + 2].symbol != Keyword.UserToken then Syntax(UnexpectedSymbol)
    else if q + 3 >= |ts| then EndOfFile
    else if ts[q + 3].symbol != Keyword.OpenParen then Syntax(UnexpectedSymbol)
    else
      var e := ExprForNode(ts, symbols, q + 3, 0);
      if !e.Parsed? then Fail(e)
      else
        var c := Expect(ts, e.next, Keyword.CloseParen, ());
        if !c.Parsed? then Fail(c)
        else
          Parsed(k.(key := Some(TextOf(ts[q + 2])), scope := Some(Material), parameter := Some(e.value)), e.next + 1)
  }

  // ---- the precedence collapse ----

  /** An operator node taking its two operands. */
  function Combine(l: ExpressionNode, op: ExpressionNode, r: ExpressionNode): (n: ExpressionNode)
    ensures n.operation == op.operation && n.left == Some(l) && n.right == Some(r)
  {
    op.(left := Some(l), right := Some(r))
  }

  /** One `collapse` call: walking left to right, each operator in `ops`
      takes its neighbours as children and replaces the three nodes. */
  function CollapsePass(nodes: seq<ExpressionNode>, ops: set<int>): (r: seq<ExpressionNode>)
    ensures |r| <= |nodes| && (|nodes| > 0 ==> |r| > 0)
    decreases |nodes|
  {
    if |nodes| < 3 then nodes
    else if nodes[1].operation in ops then CollapsePass([Combine(nodes[0], nodes[1], nodes[2])] + nodes[3..], ops)
    else nodes[..2] + CollapsePass(nodes[2..], ops)
  }

  /** The reference grammar: a term is a factor followed by any number of
      `*` or `/` factors, grouped to the left; `Term` returns the term and
      the tokens after it. */
  function Term(acc: ExpressionNode, rest: seq<ExpressionNode>): (r: (ExpressionNode, seq<ExpressionNode>))
    ensures |r.1| <= |rest|
    decreases |rest|
  {
    if |rest| >= 2 && rest[0].operation in MulOps then Term(Combine(acc, rest[0], rest[1]), rest[2..])
    else (acc, rest)
  }

  /** What a term leaves: an even-length suffix that does not start with
      `*` or `/`. */
  lemma {:induction false} TermRest(acc: ExpressionNode, rest: seq<ExpressionNode>)
    ensures var r := Term(acc, rest);
      r.1 == rest[|rest| - |r.1|..] && (|rest| - |r.1|) % 2 == 0 && (|r.1| >= 2 ==> r.1[0].operation !in MulOps)
    decreases |rest|
  {
    if |rest| >= 2 && rest[0].operation in MulOps {
      TermRest(Combine(acc, rest[0], rest[1]), rest[2..]);
      var r := Term(acc, rest);
      assert rest[2..][|rest[2..]| - |r.1|..] == rest[|rest| - |r.1|..];
    }
  }

  /** A sum is a term followed by any number of `+` or `-` terms, grouped to
      the left. */
  function SumFrom(acc: ExpressionNode, rest: seq<ExpressionNode>): ExpressionNode
    decreases |rest|
  {
    if |rest| >= 2 then
      var t := Term(rest[1], rest[2..]);
      SumFrom(Combine(acc, rest[0], t.0), t.1)
    else acc
  }

  function Precedence(nodes: seq<ExpressionNode>): ExpressionNode
    requires |nodes| > 0
  {
    var t := Term(nodes[0], nodes[1..]);
    SumFrom(t.0, t.1)
  }

  /** The list of terms, as the first collapse pass leaves it. */
  function TailTerms(rest: seq<ExpressionNode>): seq<ExpressionNode>
    decreases |rest|
  {
    if |rest| >= 2 then
      var t := Term(rest[1], rest[2..]);
      [rest[0], t.0] + TailTerms(t.1)
    else rest
  }

  lemma AlternatingSnoc(acc: seq<ExpressionNode>, op: ExpressionNode, v: ExpressionNode)
    requires op.operation in MulOps + AddOps
    ensures Alternating(acc) ==> Alternating(acc + [op, v])
  {
    if Alternating(acc) {
      assert (acc + [op, v])[1..] == acc[1..] + [op, v];
    }
  }

  lemma OperatorsAtSuffix(rest: seq<ExpressionNode>, k: nat)
    requires OperatorsAt(rest) && k <= |rest| && k % 2 == 0
    ensures OperatorsAt(rest[k..])
  {
    assert forall i :: 0 <= i < |rest[k..]| ==> rest[k..][i] == rest[k + i];
  }

  /** One turn of `collapse` at the front of the list. */
  lemma CollapseHead(acc: ExpressionNode, rest: seq<ExpressionNode>, ops: set<int>)
    requires |rest| >= 2
    ensures rest[0].operation in ops ==>
              CollapsePass([acc] + rest, ops) == CollapsePass([Combine(acc, rest[0], rest[1])] + rest[2..], ops)
    ensures rest[0].operation !in ops ==>
              CollapsePass([acc] + rest, ops) == [acc, rest[0]] + CollapsePass([rest[1]] + rest[2..], ops)
  {
    var nodes := [acc] + rest;
    assert nodes[1] == rest[0] && nodes[2] == rest[1] && nodes[3..] == rest[2..];
    assert nodes[2..] == [rest[1]] + rest[2..];
    assert nodes[..2] == [acc, rest[0]];
  }

  /** The first pass groups exactly the terms of the grammar. */
  lemma {:induction false} MulPass(acc: ExpressionNode, rest: seq<ExpressionNode>)
    requires OperatorsAt(rest)
    ensures var t := Term(acc, rest); CollapsePass([acc] + rest, MulOps) == [t.0] + TailTerms(t.1)
    decreases |rest|
  {
    if |rest| >= 2 {
      CollapseHead(acc, rest, MulOps);
      OperatorsAtSuffix(rest, 2);
      if rest[0].operation in MulOps {
        assert Term(acc, rest) == Term(Combine(acc, rest[0], rest[1]), rest[2..]);
        MulPass(Combine(acc, rest[0], rest[1]), rest[2..]);
      } else {
        assert Term(acc, rest) == (acc, rest);
        var t := Term(rest[1], rest[2..]);
        assert TailTerms(rest) == [rest[0], t.0] + TailTerms(t.1);
        MulPass(rest[1], rest[2..]);
        assert [acc, rest[0]] + ([t.0] + TailTerms(t.1)) == [acc] + TailTerms(rest);
      }
    }
  }

  /** The second pass over the terms builds the grammar's sum. */
  lemma {:induction false} AddPass(acc: ExpressionNode, rest: seq<ExpressionNode>)
    requires OperatorsAt(rest) && (|rest| >= 2 ==> rest[0].operation !in MulOps)
    ensures CollapsePass([acc] + TailTerms(rest), AddOps) == [SumFrom(acc, rest)]
    decreases |rest|
  {
    if |rest| >= 2 {
      var t := Term(rest[1], rest[2..]);
      TermRest(rest[1], rest[2..]);
      OperatorsAtSuffix(rest, 2);
      OperatorsAtSuffix(rest[2..], |rest[2..]| - |t.1|);
      assert rest[2..][|rest[2..]| - |t.1|..] == t.1;
      assert rest[0].operation in AddOps;
      var nodes := [acc] + TailTerms(rest);
      assert nodes == [acc, rest[0], t.0] + TailTerms(t.1);
      assert nodes[3..] == TailTerms(t.1);
      AddPass(Combine(acc, rest[0], t.0), t.1);
    }
  }

  /** The two collapse passes of `parseExpressionForNode` build the
      left-grouped precedence parse: `*` and `/` bind tighter than `+` and
      `-`, each groups to the left, and one root remains (so the source's
      final size check never throws). */
  lemma CollapseMatchesPrecedence(nodes: seq<ExpressionNode>)
    requires Alternating(nodes)
    ensures CollapsePass(CollapsePass(nodes, MulOps), AddOps) == [Precedence(nodes)]
  {
    assert nodes == [nodes[0]] + nodes[1..];
    MulPass(nodes[0], nodes[1..]);
    var t := Term(nodes[0], nodes[1..]);
    TermRest(nodes[0], nodes[1..]);
    OperatorsAtSuffix(nodes[1..], |nodes[1..]| - |t.1|);
    AddPass(t.0, t.1);
  }
  // ---- time values ----

  /** C++'s conversion of a double to `int` truncates toward zero. */
  function Truncate(x: real): int
  {
    if x >= 0.0 then x.Floor else -((-x).Floor)
  }

  /** `parseTimeInMilliseconds`: no value unless a scalar comes first; then
      `ms` keeps it, `sec` multiplies it by 1000, anything else throws. */
  function TimeInMilliseconds(ts: seq<Token>, p: nat): (r: Outcome<Option<int>>)
    requires p <= |ts|
    ensures r.Parsed? ==> p <= r.next <= |ts|
  {
    if !At(ts, p, Keyword.ScalarType) then Parsed(None, p)
    else
      var n := Truncate(NumberOf(ts[p]));
      if p + 1 >= |ts| then EndOfFile
      else if ts[p + 1].symbol == Keyword.UnitMilliseconds then Parsed(Some(n), p + 2)
      else if ts[p + 1].symbol == Keyword.UnitSeconds then Parsed(Some(n * 1000), p + 2)
      else Syntax(NoTimeUnit)
  }

  // ---- animation graphs ----

  /** A syntax error thrown at position q, which first reads the token there. */
  function ErrorAt<T>(ts: seq<Token>, q: nat, message: string): (r: Outcome<T>)
    ensures !r.Parsed? && (r.EndOfFile? <==> q >= |ts|)
  {
    if q >= |ts| then EndOfFile else Syntax(message)
  }

  /** The `matchNumber` of `parseGraph`: `n%` with 0 <= n <= 100 gives n / 100,
      a bare number must lie in 0..1. */
  function SampleValue(ts: seq<Token>, q: nat): (r: Outcome<real>)
    requires q <= |ts|
    ensures r.Parsed? ==> q < r.next <= |ts|
  {
    if !At(ts, q, Keyword.ScalarType) && !At(ts, q, Keyword.FloatType) then ErrorAt(ts, q, UnexpectedSymbol)
    else
      var v := NumberOf(ts[q]);
      if At(ts, q + 1, Keyword.UnitPercent) then
        if v < 0.0 || v > 100.0 then ErrorAt(ts, q + 2, PercentOutOfRange) else Parsed(v / 100.0, q + 2)
      else if v < 0.0 || v > 1.0 then ErrorAt(ts, q + 1, SampleOutOfRange)
      else Parsed(v, q + 1)
  }

  /** The `, a @ b` loop of `parseGraph`; `addSample(y, x)` stores the
      second number as the sample's x and the first as its y. */
  function SamplesFrom(ts: seq<Token>, q: nat, acc: seq<AnimationGraph.Sample>): (r: Outcome<seq<AnimationGraph.Sample>>)
    requires q <= |ts|
    ensures r.Parsed? ==> q <= r.next <= |ts|
    decreases |ts| - q
  {
    if !At(ts, q, Keyword.Comma) then Parsed(acc, q)
    else if q + 1 >= |ts| then EndOfFile
    else
      var x := SampleValue(ts, q + 1);
      if !x.Parsed? then Fail(x)
      else
        var at := Expect(ts, x.next, Keyword.SchoolOperator, ());
        if !at.Parsed? then Fail(at)
        else if x.next + 1 >= |ts| then EndOfFile
        else
          var y := SampleValue(ts, x.next + 1);
          if !y.Parsed? then Fail(y)
          else SamplesFrom(ts, y.next, acc + [AnimationGraph.Sample(y.value, x.value)])
  }

  /** The literal form `graph ( linear|smooth , a @ b , ... )`. */
  function GraphLiteral(ts: seq<Token>, p: nat): (r: Outcome<AnimationGraph.Graph>)
    requires At(ts, p, Keyword.Graph)
    ensures r.Parsed? ==> p < r.next <= |ts|
  {
    if p + 1 >= |ts| then EndOfFile
    else if ts[p + 1].symbol != Keyword.OpenParen then Syntax(UnexpectedSymbol)
    else if p + 2 >= |ts| then EndOfFile
    else if ts[p + 2].symbol != Keyword.Linear && ts[p + 2].symbol != Keyword.Smooth then Syntax(NoInterpolationMode)
    else
      var mode := if ts[p + 2].symbol == Keyword.Linear then AnimationGraph.Linear else AnimationGraph.Smooth;
      if p + 3 >= |ts| then EndOfFile
      else
        GraphTail(ts, SamplesFrom(ts, p + 3, []), mode)
  }

  /** After the samples: at least one is needed, then the closing `)`. */
  function GraphTail(ts: seq<Token>, s: Outcome<seq<AnimationGraph.Sample>>, mode: AnimationGraph.InterpolationMode): (r: Outcome<AnimationGraph.Graph>)
    requires s.Parsed? ==> s.next <= |ts|
    ensures r.Parsed? ==> s.Parsed? && s.next < r.next <= |ts|
  {
    if !s.Parsed? then Fail(s)
    else if |s.value| == 0 then ErrorAt(ts, s.next, EmptyGraph)
    else
      var c := Expect(ts, s.next, Keyword.CloseParen, ());
      if !c.Parsed? then Fail(c)
      else Parsed(AnimationGraph.Graph(s.value, mode), s.next + 1)
  }

  /** `parseGraph`: a name looks in the enclosing scope's graphs first, then
      in the translation unit's, and is consumed only when found; the
      literal form is parsed; anything else gives no graph. */
  function GraphValue(ts: seq<Token>, p: nat, scope: Option<map<string, AnimationGraph.Graph>>,
                      unit: map<string, AnimationGraph.Graph>): (r: Outcome<Option<AnimationGraph.Graph>>)
    requires p <= |ts|
    ensures r.Parsed? ==> p <= r.next <= |ts|
  {
    if At(ts, p, Keyword.UserToken) then
      var name := TextOf(ts[p]);
      if scope.Some? && name in scope.value then Parsed(Some(scope.value[name]), p + 1)
      else if name in unit then Parsed(Some(unit[name]), p + 1)
      else Parsed(None, p)
    else if !At(ts, p, Keyword.Graph) then Parsed(None, p)
    else
      var g := GraphLiteral(ts, p);
      if !g.Parsed? then Fail(g) else Parsed(Some(g.value), g.next)
  }

  // ---- compound state keys ----

  /** A leaf of a compound state key. */
  function KeyLeaf(negation: bool, k: ScopedValueKey): (n: PrecursorNode)
    ensures n.left.None? && n.right.None? && n.negation == negation && n.stateKeyPrecursor == k
  {
    VirtualStateKey.PrecursorNode(Keyword.ScopedValueKey, negation, None, None, k)
  }

  /** The operator node that takes the result so far as its left child. */
  function OperatorNode(operation: int, left: PrecursorNode, right: PrecursorNode): (n: PrecursorNode)
    ensures n.operation == operation && !n.negation && n.left == Some(left) && n.right == Some(right)
  {
    VirtualStateKey.PrecursorNode(operation, false, Some(left), Some(right), NoKey)
  }

  /** `parseVirtualStateKey` at a parenthesis level: the first operand, the
      operators folded onto it, and the closing `)` (nested) or `:` (top). */
  function CompoundKey(ts: seq<Token>, p: nat, level: nat): (r: Outcome<PrecursorNode>)
    requires p <= |ts|
    ensures r.Parsed? ==> p < r.next <= |ts|
    decreases |ts| - p, 2
  {
    var first := StateOperand(ts, p, level);
    if !first.Parsed? then first
    else
      CloseStateKey(ts, FoldFrom(ts, first.next, level, first.value), level)
  }

  /** The closing `)` of a nested level or `:` of the top level. */
  function CloseStateKey(ts: seq<Token>, folded: Outcome<PrecursorNode>, level: nat): (r: Outcome<PrecursorNode>)
    requires folded.Parsed? ==> folded.next <= |ts|
    ensures r.Parsed? ==> folded.Parsed? && folded.next < r.next <= |ts|
  {
    if !folded.Parsed? then folded
    else
      var c := Expect(ts, folded.next, if level != 0 then Keyword.CloseParen else Keyword.Colon, folded.value);
      if !c.Parsed? then c else Parsed(c.value, folded.next + 1)
  }

  /** The `while` loop of `parseVirtualStateKey`: until `:` or `)`, each
      `&`, `|` or `^` and its operand become a node over the result so far. */
  function FoldFrom(ts: seq<Token>, q: nat, level: nat, acc: PrecursorNode): (r: Outcome<PrecursorNode>)
    requires q <= |ts|
    ensures r.Parsed? ==> q <= r.next <= |ts|
    decreases |ts| - q, 1
  {
    if At(ts, q, Keyword.Colon) || At(ts, q, Keyword.CloseParen) then Parsed(acc, q)
    else if q == |ts| then EndOfFile
    else if ts[q].symbol != Keyword.And && ts[q].symbol != Keyword.Or && ts[q].symbol != Keyword.Xor then
      Syntax(NoLogicalOperator)
    else
      var v := StateOperand(ts, q + 1, level);
      if !v.Parsed? then v
      else FoldFrom(ts, v.next, level, OperatorNode(ts[q].symbol, acc, v.value))
  }

  /** The `parseValueNode` of `parseVirtualStateKey`: an optional `not`, then
      a parenthesised key, whose negation the `not` flips, or a state key
      leaf carrying the `not`. */
  function StateOperand(ts: seq<Token>, p: nat, level: nat): (r: Outcome<PrecursorNode>)
    requires p <= |ts|
    ensures r.Parsed? ==> p < r.next <= |ts|
    decreases |ts| - p, 0
  {
    var negation := At(ts, p, Keyword.Not);
    if negation && p + 1 >= |ts| then EndOfFile
    else
      var q := if negation then p + 1 else p;
      if At(ts, q, Keyword.OpenParen) then
        if q + 1 >= |ts| then EndOfFile
        else
          var g := CompoundKey(ts, q + 1, level + 1);
          if !g.Parsed? || !negation then g
          else Parsed(g.value.(negation := !g.value.negation), g.next)
      else
        var k := KeyForStateKey(ts, q);
        if !k.Parsed? then Fail(k) else Parsed(KeyLeaf(negation, k.value), k.next)
  }
  // ---- what the parse steps mean ----

  /** A bracketed number is rejected, while a bracketed value key becomes a
      weak term. */
  lemma WeakTerms(ts: seq<Token>, symbols: Keywords.SymbolTable, p: nat, depth: nat)
    requires p + 1 < |ts| && At(ts, p, Keyword.OpenSquare)
    ensures At(ts, p + 1, Keyword.ScalarType) || At(ts, p + 1, Keyword.FloatType) ==>
              ValueNode(ts, symbols, p, depth) == Syntax(WeakConstant)
    ensures var k := KeyTerm(ts, symbols, p + 1);
      !At(ts, p + 1, Keyword.ScalarType) && !At(ts, p + 1, Keyword.FloatType) && k.Parsed? && At(ts, k.next, Keyword.CloseSquare) ==>
        ValueNode(ts, symbols, p, depth) == Parsed(k.value.(weakTerm := true), k.next + 1)
  {
  }

  /** `a + b * c` groups as `a + (b * c)`. */
  lemma SumOfProduct(ts: seq<Token>, symbols: Keywords.SymbolTable, a: real, b: real, c: real)
    requires |ts| == 5
    requires ts[0].symbol == Keyword.ScalarType && ts[0].payload == Tokenizer.Number(a)
    requires ts[1].symbol == Keyword.OperatorPlus
    requires ts[2].symbol == Keyword.ScalarType && ts[2].payload == Tokenizer.Number(b)
    requires ts[3].symbol == Keyword.OperatorTimes
    requires ts[4].symbol == Keyword.ScalarType && ts[4].payload == Tokenizer.Number(c)
    ensures ExprForNode(ts, symbols, 0, 0) ==
      Parsed(Combine(Leaf(Keyword.ScalarType, a), Leaf(Keyword.OperatorPlus, 0.0),
                     Combine(Leaf(Keyword.ScalarType, b), Leaf(Keyword.OperatorTimes, 0.0), Leaf(Keyword.ScalarType, c))), 5)
  {
    var la, lb, lc := Leaf(Keyword.ScalarType, a), Leaf(Keyword.ScalarType, b), Leaf(Keyword.ScalarType, c);
    var plus, times := Leaf(Keyword.OperatorPlus, 0.0), Leaf(Keyword.OperatorTimes, 0.0);
    assert ValueNode(ts, symbols, 0, 0) == Parsed(la, 1);
    assert ValueNode(ts, symbols, 2, 0) == Parsed(lb, 3);
    assert ValueNode(ts, symbols, 4, 0) == Parsed(lc, 5);
    var nodes := [la, plus, lb, times, lc];
    assert OperandsFrom(ts, symbols, 5, 0, nodes) == Parsed(nodes, 5);
    assert [la, plus, lb] + [times, lc] == nodes;
    assert OperandsFrom(ts, symbols, 3, 0, [la, plus, lb]) == Parsed(nodes, 5);
    assert [la] + [plus, lb] == [la, plus, lb];
    assert OperandsFrom(ts, symbols, 1, 0, [la]) == Parsed(nodes, 5);
    assert Alternating(nodes);
    CollapseMatchesPrecedence(nodes);
    var rest := nodes[1..];
    assert rest[1] == lb && rest[2..] == [times, lc];
    assert Term(la, rest) == (la, rest);
    assert Term(lb, [times, lc]) == (Combine(lb, times, lc), []);
    assert SumFrom(la, rest) == SumFrom(Combine(la, plus, Combine(lb, times, lc)), []);
  }

  /** A number written with a time unit is not an expression. */
  lemma TimeUnitsRejected(ts: seq<Token>, symbols: Keywords.SymbolTable, p: nat, depth: nat)
    requires p + 1 < |ts| && (At(ts, p, Keyword.ScalarType) || At(ts, p, Keyword.FloatType))
    requires ts[p + 1].symbol == Keyword.UnitSeconds || ts[p + 1].symbol == Keyword.UnitMilliseconds
    ensures ValueNode(ts, symbols, p, depth) == Syntax(TimeUnitInExpression)
  {
  }

  /** Whole scalars: `n ms` is n, `n sec` is 1000 n, any other following
      token is an error, and without a scalar there is no time value and
      nothing is consumed. */
  lemma TimeValues(ts: seq<Token>, p: nat, n: nat)
    requires p + 1 < |ts| && At(ts, p, Keyword.ScalarType) && ts[p].payload == Tokenizer.Number(n as real)
    ensures ts[p + 1].symbol == Keyword.UnitMilliseconds ==> TimeInMilliseconds(ts, p) == Parsed(Some(n), p + 2)
    ensures ts[p + 1].symbol == Keyword.UnitSeconds ==> TimeInMilliseconds(ts, p) == Parsed(Some(1000 * n), p + 2)
    ensures ts[p + 1].symbol != Keyword.UnitMilliseconds && ts[p + 1].symbol != Keyword.UnitSeconds ==>
              TimeInMilliseconds(ts, p) == Syntax(NoTimeUnit)
  {
    assert (n as real).Floor == n;
  }

  lemma NoTimeWithoutScalar(ts: seq<Token>, p: nat)
    requires p <= |ts| && !At(ts, p, Keyword.ScalarType)
    ensures TimeInMilliseconds(ts, p) == Parsed(None, p)
  {
  }

  /** Truncation agrees with the floor on non-negative values and rounds
      negative ones up. */
  lemma TruncateTowardZero(x: real)
    ensures 0.0 <= x ==> Truncate(x) as real <= x < Truncate(x) as real + 1.0
    ensures x < 0.0 ==> Truncate(x) as real - 1.0 < x <= Truncate(x) as real
  {
  }

  /** A sample number is accepted exactly in range, and always lies in 0..1. */
  lemma SampleValueMeaning(ts: seq<Token>, q: nat)
    requires q < |ts| && (At(ts, q, Keyword.ScalarType) || At(ts, q, Keyword.FloatType))
    ensures var v := NumberOf(ts[q]);
      At(ts, q + 1, Keyword.UnitPercent) ==>
        (SampleValue(ts, q).Parsed? <==> 0.0 <= v <= 100.0) &&
        (SampleValue(ts, q).Parsed? ==> SampleValue(ts, q) == Parsed(v / 100.0, q + 2))
    ensures var v := NumberOf(ts[q]);
      !At(ts, q + 1, Keyword.UnitPercent) ==>
        (SampleValue(ts, q).Parsed? <==> 0.0 <= v <= 1.0) &&
        (SampleValue(ts, q).Parsed? ==> SampleValue(ts, q) == Parsed(v, q + 1))
    ensures SampleValue(ts, q).Parsed? ==> 0.0 <= SampleValue(ts, q).value <= 1.0
  {
  }

  predicate WithinUnit(samples: seq<AnimationGraph.Sample>)
  {
    forall i :: 0 <= i < |samples| ==> 0.0 <= samples[i].x <= 1.0 && 0.0 <= samples[i].y <= 1.0
  }

  /** The sample loop appends in-range samples, in the order written. */
  lemma {:induction false} SamplesWithinUnit(ts: seq<Token>, q: nat, acc: seq<AnimationGraph.Sample>)
    requires q <= |ts| && WithinUnit(acc)
    ensures var r := SamplesFrom(ts, q, acc); r.Parsed? ==> WithinUnit(r.value) && acc <= r.value
    decreases |ts| - q
  {
    if At(ts, q, Keyword.Comma) && q + 1 < |ts| {
      var x := SampleValue(ts, q + 1);
      if x.Parsed? && At(ts, x.next, Keyword.SchoolOperator) && x.next + 1 < |ts| {
        var y := SampleValue(ts, x.next + 1);
        if y.Parsed? {
          SampleValueMeaning(ts, q + 1);
          SampleValueMeaning(ts, x.next + 1);
          var acc' := acc + [AnimationGraph.Sample(y.value, x.value)];
          assert WithinUnit(acc');
          SamplesWithinUnit(ts, y.next, acc');
        }
      }
    }
  }

  /** A graph literal that parses has at least one sample, and every sample
      lies in the unit square. */
  lemma GraphLiteralSamples(ts: seq<Token>, p: nat, scope: Option<map<string, AnimationGraph.Graph>>,
                            unit: map<string, AnimationGraph.Graph>)
    requires At(ts, p, Keyword.Graph)
    ensures var r := GraphValue(ts, p, scope, unit);
      r.Parsed? ==> r.value.Some? && |r.value.value.samples| > 0 && WithinUnit(r.value.value.samples)
  {
    if p + 3 < |ts| {
      SamplesWithinUnit(ts, p + 3, []);
    }
  }

  /** A name is looked up in the scope before the translation unit. */
  lemma GraphNamesShadow(ts: seq<Token>, p: nat, scope: map<string, AnimationGraph.Graph>,
                         unit: map<string, AnimationGraph.Graph>)
    requires At(ts, p, Keyword.UserToken)
    ensures TextOf(ts[p]) in scope ==> GraphValue(ts, p, Some(scope), unit) == Parsed(Some(scope[TextOf(ts[p])]), p + 1)
    ensures TextOf(ts[p]) !in scope && TextOf(ts[p]) in unit ==>
              GraphValue(ts, p, Some(scope), unit) == Parsed(Some(unit[TextOf(ts[p])]), p + 1)
    ensures TextOf(ts[p]) !in scope && TextOf(ts[p]) !in unit ==> GraphValue(ts, p, Some(scope), unit) == Parsed(None, p)
  {
  }

  /** `graph(linear, a @ b)` with a and b in 0..1 has the one sample whose x
      is b and whose y is a. */
  lemma OneSampleGraph(ts: seq<Token>, a: real, b: real)
    requires |ts| == 8 && 0.0 <= a <= 1.0 && 0.0 <= b <= 1.0
    requires ts[0].symbol == Keyword.Graph && ts[1].symbol == Keyword.OpenParen && ts[2].symbol == Keyword.Linear
    requires ts[3].symbol == Keyword.Comma && ts[4] .symbol == Keyword.FloatType && ts[4].payload == Tokenizer.Number(a)
    requires ts[5].symbol == Keyword.SchoolOperator && ts[6].symbol == Keyword.FloatType && ts[6].payload == Tokenizer.Number(b)
    requires ts[7].symbol == Keyword.CloseParen
    ensures GraphValue(ts, 0, None, map[]) == Parsed(Some(AnimationGraph.Graph([AnimationGraph.Sample(b, a)], AnimationGraph.Linear)), 8)
  {
    assert SampleValue(ts, 4) == Parsed(a, 5);
    assert SampleValue(ts, 6) == Parsed(b, 7);
    assert SamplesFrom(ts, 7, [AnimationGraph.Sample(b, a)]) == Parsed([AnimationGraph.Sample(b, a)], 7);
    assert [] + [AnimationGraph.Sample(b, a)] == [AnimationGraph.Sample(b, a)];
    assert Expect(ts, 5, Keyword.SchoolOperator, ()) == Parsed((), 5);
    assert SamplesFrom(ts, 3, []) == Parsed([AnimationGraph.Sample(b, a)], 7);
    assert GraphLiteral(ts, 0) == Parsed(AnimationGraph.Graph([AnimationGraph.Sample(b, a)], AnimationGraph.Linear), 8);
  }

  /** `n` is reached from `acc` by folding operator nodes on the left: each
      operator node takes the result so far as its left child. */
  predicate FoldsOnto(n: PrecursorNode, acc: PrecursorNode)
    decreases n
  {
    n == acc ||
    (n.operation in {Keyword.And, Keyword.Or, Keyword.Xor} && !n.negation && n.right.Some? &&
     n.left.Some? && FoldsOnto(n.left.value, acc))
  }

  lemma {:induction false} FoldIsLeft(ts: seq<Token>, q: nat, level: nat, acc: PrecursorNode)
    requires q <= |ts|
    ensures var r := FoldFrom(ts, q, level, acc); r.Parsed? ==> FoldsOnto(r.value, acc)
    decreases |ts| - q
  {
    var r := FoldFrom(ts, q, level, acc);
    if r.Parsed? && !(At(ts, q, Keyword.Colon) || At(ts, q, Keyword.CloseParen)) {
      var v := StateOperand(ts, q + 1, level);
      var n := OperatorNode(ts[q].symbol, acc, v.value);
      FoldIsLeft(ts, v.next, level, n);
      FoldsOntoTrans(r.value, n, acc);
    }
  }

  lemma {:induction false} FoldsOntoTrans(a: PrecursorNode, b: PrecursorNode, c: PrecursorNode)
    requires FoldsOnto(a, b)
    requires b.operation in {Keyword.And, Keyword.Or, Keyword.Xor} && !b.negation && b.right.Some? && b.left == Some(c)
    ensures FoldsOnto(a, c)
    decreases a
  {
    if a != b {
      FoldsOntoTrans(a.left.value, b, c);
    }
  }

  /** A compound key parses to a fold onto its first operand. */
  lemma StateKeyFoldsLeft(ts: seq<Token>, p: nat, level: nat)
    requires p <= |ts|
    ensures var r := CompoundKey(ts, p, level); var first := StateOperand(ts, p, level);
      r.Parsed? ==> first.Parsed? && FoldsOnto(r.value, first.value)
  {
    var first := StateOperand(ts, p, level);
    if first.Parsed? {
      FoldIsLeft(ts, first.next, level, first.value);
    }
  }

  /** `not (...)` flips the group's negation; `not key` negates the leaf. */
  lemma NotFlipsGroup(ts: seq<Token>, p: nat, level: nat)
    requires p + 2 < |ts| && At(ts, p, Keyword.Not) && At(ts, p + 1, Keyword.OpenParen)
    ensures var g := CompoundKey(ts, p + 2, level + 1);
      StateOperand(ts, p, level) == if g.Parsed? then Parsed(g.value.(negation := !g.value.negation), g.next) else g
  {
  }

  lemma NotNegatesLeaf(ts: seq<Token>, p: nat, level: nat)
    requires p + 1 < |ts| && At(ts, p, Keyword.Not) && !At(ts, p + 1, Keyword.OpenParen)
    ensures var k := KeyForStateKey(ts, p + 1);
      k.Parsed? ==> StateOperand(ts, p, level) == Parsed(KeyLeaf(true, k.value), k.next)
  {
  }

  /** A lone name is a key in element scope, with no path. */
  lemma NameIsElementKey(ts: seq<Token>, p: nat)
    requires p + 1 < |ts| && At(ts, p, Keyword.UserToken)
    requires ts[p + 1].symbol != Keyword.Dot
    requires ts[p + 1].symbol != Keyword.Colon || (p + 2 < |ts| && ts[p + 2].symbol != Keyword.Colon)
    ensures KeyForStateKey(ts, p) == Parsed(NoKey.(scope := Some(Element), key := Some(TextOf(ts[p]))), p + 1)
  {
    assert ts[p + 1].symbol != [Keyword.UserToken, Keyword.Dot][1];
    if ts[p + 1].symbol == Keyword.Colon {
      assert ts[p + 2].symbol != [Keyword.UserToken, Keyword.Colon, Keyword.Colon][2];
    } else {
      assert ts[p + 1].symbol != [Keyword.UserToken, Keyword.Colon, Keyword.Colon][1];
    }
    assert ts[p + 0].symbol != [Keyword.Colon, Keyword.Colon][0];
    assert ScopeHead(ts, p) == Parsed(NoKey, p);
    assert ts[p + 0].symbol != [Keyword.Colon, Keyword.Colon, Keyword.UserToken][0];
  }

  /** The leaf a lone name parses to. */
  function NameLeaf(t: Token): PrecursorNode
  {
    KeyLeaf(false, NoKey.(scope := Some(Element), key := Some(TextOf(t))))
  }

  /** `a & b | c :` groups as `(a & b) | c`, the result so far always
      becoming the left child. */
  lemma LeftFoldExample(ts: seq<Token>)
    requires |ts| == 7 && ts[6].symbol != Keyword.Colon
    requires ts[0].symbol == Keyword.UserToken && ts[1].symbol == Keyword.And && ts[2].symbol == Keyword.UserToken
    requires ts[3].symbol == Keyword.Or && ts[4].symbol == Keyword.UserToken && ts[5].symbol == Keyword.Colon
    ensures CompoundKey(ts, 0, 0) ==
      Parsed(OperatorNode(Keyword.Or, OperatorNode(Keyword.And, NameLeaf(ts[0]), NameLeaf(ts[2])), NameLeaf(ts[4])), 6)
  {
    NameIsElementKey(ts, 0);
    NameIsElementKey(ts, 2);
    NameIsElementKey(ts, 4);
    assert StateOperand(ts, 0, 0) == Parsed(NameLeaf(ts[0]), 1);
    assert StateOperand(ts, 2, 0) == Parsed(NameLeaf(ts[2]), 3);
    assert StateOperand(ts, 4, 0) == Parsed(NameLeaf(ts[4]), 5);
    var ab := OperatorNode(Keyword.And, NameLeaf(ts[0]), NameLeaf(ts[2]));
    var abc := OperatorNode(Keyword.Or, ab, NameLeaf(ts[4]));
    assert FoldFrom(ts, 5, 0, abc) == Parsed(abc, 5);
    assert FoldFrom(ts, 3, 0, ab) == Parsed(abc, 5);
    assert FoldFrom(ts, 1, 0, NameLeaf(ts[0])) == Parsed(abc, 5);
  }

  /** `this . name` is the same key, reached through its scope word. */
  lemma ThisNameIsElementKey(ts: seq<Token>, p: nat)
    requires p + 2 < |ts| && At(ts, p, Keyword.This) && At(ts, p + 1, Keyword.Dot) && At(ts, p + 2, Keyword.UserToken)
    ensures KeyForStateKey(ts, p) == Parsed(NoKey.(scope := Some(Element), key := Some(TextOf(ts[p + 2]))), p + 3)
  {
    assert ts[p + 0].symbol != [Keyword.UserToken, Keyword.Dot][0];
    assert ts[p + 0].symbol != [Keyword.UserToken, Keyword.Colon, Keyword.Colon][0];
    assert ScopeHead(ts, p) == Parsed(Scoped(Element), p + 1);
    assert ts[p + 1 + 0].symbol != [Keyword.Colon, Keyword.Colon, Keyword.UserToken][0];
  }
  // ---- the parser with its cursor ----

  /** One `collapse` call on the node list: the iterator walks the operand
      positions; an operator in `ops` takes its neighbours as children, the
      three nodes are replaced by it, and the walk resumes at it. */
  method Collapse(nodes: seq<ExpressionNode>, ops: set<int>) returns (r: seq<ExpressionNode>)
    ensures r == CollapsePass(nodes, ops)
  {
    r := nodes;
    var i := 0;
    ghost var whole := CollapsePass(nodes, ops);
    while i + 2 < |r|
      invariant i <= |r| && r[..i] + CollapsePass(r[i..], ops) == whole
      decreases |r| - i
    {
      if r[i + 1].operation in ops {
        CollapseCombines(r, i, ops, whole);
        r := Merged(r, i);
      } else {
        CollapseSkips(r, i, ops, whole);
        i := i + 2;
      }
    }
    CollapseDone(r, i, ops, whole);
  }

  /** The list after the operator at i + 1 took its neighbours: the three
      nodes erased and the new one inserted in their place. */
  function Merged(r: seq<ExpressionNode>, i: nat): (m: seq<ExpressionNode>)
    requires i + 2 < |r|
    ensures |m| == |r| - 2 && m[..i] == r[..i] && m[i] == Combine(r[i], r[i + 1], r[i + 2]) && m[i + 1..] == r[i + 3..]
  {
    r[..i] + [Combine(r[i], r[i + 1], r[i + 2])] + r[i + 3..]
  }

  lemma CollapseCombines(r: seq<ExpressionNode>, i: nat, ops: set<int>, whole: seq<ExpressionNode>)
    requires i + 2 < |r| && r[i + 1].operation in ops && r[..i] + CollapsePass(r[i..], ops) == whole
    ensures Merged(r, i)[..i] + CollapsePass(Merged(r, i)[i..], ops) == whole
  {
    var m := Merged(r, i);
    assert m[i..] == [Combine(r[i], r[i + 1], r[i + 2])] + r[i..][3..];
    assert r[i..][1] == r[i + 1];
  }

  lemma CollapseSkips(r: seq<ExpressionNode>, i: nat, ops: set<int>, whole: seq<ExpressionNode>)
    requires i + 2 < |r| && r[i + 1].operation !in ops && r[..i] + CollapsePass(r[i..], ops) == whole
    ensures r[..i + 2] + CollapsePass(r[i + 2..], ops) == whole
  {
    assert r[i..][1] == r[i + 1];
    assert r[i..][2..] == r[i + 2..];
    assert r[..i] + r[i..][..2] == r[..i + 2];
  }

  lemma CollapseDone(r: seq<ExpressionNode>, i: nat, ops: set<int>, whole: seq<ExpressionNode>)
    requires i <= |r| <= i + 2 && r[..i] + CollapsePass(r[i..], ops) == whole
    ensures r == whole
  {
    assert r[..i] + r[i..] == r;
  }

  /** The parser's token iterator, `parserPos`, over one token list. */
  class Parser {
    const tokens: seq<Token>
    const symbols: Keywords.SymbolTable
    var pos: nat

    predicate Valid()
      reads this
    {
      pos <= |tokens|
    }

    constructor(tokens: seq<Token>)
      ensures Valid() && this.tokens == tokens && symbols == Keywords.SymbolValuePairs && pos == 0
    {
      this.tokens := tokens;
      this.symbols := Keywords.SymbolValuePairs;
      pos := 0;
    }

    /** `next`: false once the end is reached. */
    method Next() returns (more: bool)
      requires Valid()
      modifies this
      ensures Valid() && pos == Skip(tokens, old(pos)) && more == (pos < |tokens|)
    {
      if pos == |tokens| {
        return false;
      }
      pos := pos + 1;
      more := pos < |tokens|;
    }

    /** `nextHard`: false stands for the `UnexpectedEOF` it throws. */
    method NextHard() returns (ok: bool)
      requires Valid()
      modifies this
      ensures Valid() && pos == Skip(tokens, old(pos)) && ok == (old(pos) + 1 < |tokens|)
    {
      ok := Next();
    }

    method ParseScopeHead() returns (r: Outcome<ScopedValueKey>)
      requires Valid() && pos < |tokens|
      modifies this
      ensures Valid() && r == ScopeHead(tokens, old(pos)) && (r.Parsed? ==> pos == r.next)
    {
      var key := NoKey;
      if Peek(tokens, pos, [Keyword.UserToken, Keyword.Dot]) || Peek(tokens, pos, [Keyword.UserToken, Keyword.Colon, Keyword.Colon]) {
        key := AddToPath(Scoped(Global), TextOf(tokens[pos]));
      } else if At(tokens, pos, Keyword.Model) {
        key := Scoped(Model);
      } else if At(tokens, pos, Keyword.This) {
        key := Scoped(Element);
      } else if At(tokens, pos, Keyword.SchoolOperator) {
        key := Scoped(RemorialClass);
      } else if At(tokens, pos, Keyword.Material) {
        key := Scoped(Material);
      } else if Peek(tokens, pos, [Keyword.Colon, Keyword.Colon]) {
        if Peek(tokens, pos, [Keyword.Colon, Keyword.Colon, Keyword.UserToken]) {
          return Parsed(Scoped(Global), pos);
        }
        var more := Next();
        key := Scoped(Global);
      } else {
        return Parsed(NoKey, pos);
      }
      var ok := NextHard();
      if !ok {
        return EndOfFile;
      }
      r := Parsed(key, pos);
    }

    /** `parseValueKeyScopeAndPath`. */
    method ParseValueKeyScopeAndPath() returns (r: Outcome<ScopedValueKey>)
      requires Valid()
      modifies this
      ensures Valid() && r == ScopeAndPath(tokens, old(pos)) && (r.Parsed? ==> pos == r.next)
    {
      if pos == |tokens| {
        return EndOfFile;
      }
      var h := ParseScopeHead();
      if !h.Parsed? {
        return h;
      }
      var key := h.value;
      ghost var whole := PathPieces(tokens, key, pos);
      while Peek(tokens, pos, [Keyword.Colon, Keyword.Colon, Keyword.UserToken])
        invariant Valid() && whole == PathPieces(tokens, key, pos)
        decreases |tokens| - pos
      {
        var more := Next();
        more := Next();
        if pos == |tokens| {
          return EndOfFile;
        }
        key := AddToPath(key, TextOf(tokens[pos]));
        more := Next();
      }
      r := Parsed(key, pos);
    }

    /** The `.` after a non-empty scope and path. */
    method MatchDotAfter(key: ScopedValueKey) returns (r: Outcome<()>)
      requires Valid()
      modifies this
      ensures Valid() && r == DotAfter(tokens, key, old(pos)) && (r.Parsed? ==> pos == r.next)
    {
      if !IsEmpty(key) {
        if pos == |tokens| {
          return EndOfFile;
        }
        if tokens[pos].symbol != Keyword.Dot {
          return Syntax(UnexpectedSymbol);
        }
        var ok := NextHard();
        if !ok {
          return EndOfFile;
        }
      }
      r := Parsed((), pos);
    }

    /** `parseScopedValueKeyForStateKey`. */
    method ParseScopedValueKeyForStateKey() returns (r: Outcome<ScopedValueKey>)
      requires Valid()
      modifies this
      ensures Valid() && r == KeyForStateKey(tokens, old(pos)) && (r.Parsed? ==> pos == r.next)
    {
      var h := ParseValueKeyScopeAndPath();
      if !h.Parsed? {
        return h;
      }
      var d := MatchDotAfter(h.value);
      if !d.Parsed? {
        return Fail(d);
      }
      if pos == |tokens| {
        return EndOfFile;
      }
      if tokens[pos].symbol != Keyword.UserToken {
        return Syntax(UnexpectedSymbol);
      }
      var key := SetScopeIfUnset(h.value.(key := Some(TextOf(tokens[pos]))), Element);
      var more := Next();
      r := Parsed(key, pos);
    }

    /** The end of `parseScopedValueKeyForExpression` without a material parameter. */
    method ParsePlainKey(key: ScopedValueKey) returns (r: Outcome<ScopedValueKey>)
      requires Valid()
      modifies this
      ensures Valid() && r == PlainKey(tokens, symbols, key, old(pos)) && (r.Parsed? ==> pos == r.next)
    {
      var d := MatchDotAfter(key);
      if !d.Parsed? {
        return Fail(d);
      }
      var name: string;
      if At(tokens, pos, Keyword.UserToken) {
        name := TextOf(tokens[pos]);
      } else {
        if pos == |tokens| {
          return EndOfFile;
        }
        if !Keywords.IsExpressionBodyType(tokens[pos].symbol) {
          return Syntax(InvalidKey);
        }
        var literal := Keywords.FindLiteral(symbols, tokens[pos].symbol, 0);
        if literal.None? {
          return Syntax(MissingLiteral);
        }
        name := literal.value;
      }
      var more := Next();
      r := Parsed(SetScopeIfUnset(key.(key := Some(name)), Element), pos);
    }

    /** `parseScopedValueKeyForExpression`. */
    method ParseScopedValueKeyForExpression() returns (r: Outcome<ScopedValueKey>)
      requires Valid()
      modifies this
      ensures Valid() && r == KeyForExpression(tokens, symbols, old(pos)) && (r.Parsed? ==> pos == r.next)
      decreases |tokens| - pos, 1
    {
      var h := ParseValueKeyScopeAndPath();
      if !h.Parsed? {
        return h;
      }
      if At(tokens, pos, Keyword.Material) {
        r := ParseMaterialKey(h.value);
      } else {
        r := ParsePlainKey(h.value);
      }
    }

    /** `material . name (expression)`. */
    method ParseMaterialKey(key: ScopedValueKey) returns (r: Outcome<ScopedValueKey>)
      requires Valid() && pos < |tokens|
      modifies this
      ensures Valid() && r == MaterialKey(tokens, symbols, key, old(pos)) && (r.Parsed? ==> pos == r.next)
      decreases |tokens| - pos, 0
    {
      var ok := NextHard();
      if !ok {
        return EndOfFile;
      }
      if tokens[pos].symbol != Keyword.Dot {
        return Syntax(UnexpectedSymbol);
      }
      ok := NextHard();
      if !ok {
        return EndOfFile;
      }
      if tokens[pos].symbol != Keyword.UserToken {
        return Syntax(UnexpectedSymbol);
      }
      var name := TextOf(tokens[pos]);
      ok := NextHard();
      if !ok {
        return EndOfFile;
      }
      if tokens[pos].symbol != Keyword.OpenParen {
        return Syntax(UnexpectedSymbol);
      }
      var e := ParseExpressionForNode(0);
      if !e.Parsed? {
        return Fail(e);
      }
      if pos == |tokens| {
        return EndOfFile;
      }
      if tokens[pos].symbol != Keyword.CloseParen {
        return Syntax(UnexpectedSymbol);
      }
      var more := Next();
      r := Parsed(key.(key := Some(name), scope := Some(Material), parameter := Some(e.value)), pos);
    }

    /** A number operand with its optional unit. */
    method ParseConstant(weak: bool) returns (r: Outcome<ExpressionNode>)
      requires Valid() && pos < |tokens|
      modifies this
      ensures Valid() && r == Constant(tokens, old(pos), weak) && (r.Parsed? ==> pos == r.next)
    {
      if weak {
        return Syntax(WeakConstant);
      }
      var node := Leaf(Keyword.ScalarType, NumberOf(tokens[pos]));
      var more := Next();
      if At(tokens, pos, Keyword.UnitStandard) || At(tokens, pos, Keyword.UnitPercent) {
        node := node.(operation := tokens[pos].symbol);
        more := Next();
      } else if At(tokens, pos, Keyword.UnitSeconds) || At(tokens, pos, Keyword.UnitMilliseconds) {
        return Syntax(TimeUnitInExpression);
      }
      r := Parsed(node, pos);
    }

    /** A value-key operand. */
    method ParseKeyTerm() returns (r: Outcome<ExpressionNode>)
      requires Valid()
      modifies this
      ensures Valid() && r == KeyTerm(tokens, symbols, old(pos)) && (r.Parsed? ==> pos == r.next)
      decreases |tokens| - pos, 2
    {
      var k := ParseScopedValueKeyForExpression();
      if k.Syntax? {
        return Syntax(MalformedExpression);
      }
      if k.EndOfFile? {
        return EndOfFile;
      }
      r := Parsed(Leaf(Keyword.ScopedValueKey, 0.0).(extVal := k.value), pos);
    }

    /** `parseValueNode`. */
    method ParseValueNode(depth: nat) returns (r: Outcome<ExpressionNode>)
      requires Valid()
      modifies this
      ensures Valid() && r == ValueNode(tokens, symbols, old(pos), depth) && (r.Parsed? ==> pos == r.next)
      decreases |tokens| - pos, 3
    {
      if At(tokens, pos, Keyword.OpenParen) {
        var ok := NextHard();
        if !ok {
          return EndOfFile;
        }
        r := ParseExpressionForNode(depth + 1);
        return;
      }
      var weak := At(tokens, pos, Keyword.OpenSquare);
      if weak {
        var ok := NextHard();
        if !ok {
          return EndOfFile;
        }
      }
      if At(tokens, pos, Keyword.ScalarType) || At(tokens, pos, Keyword.FloatType) {
        r := ParseConstant(weak);
      } else {
        r := ParseKeyTerm();
      }
      if r.Parsed? && weak {
        if pos == |tokens| {
          return EndOfFile;
        }
        if tokens[pos].symbol != Keyword.CloseSquare {
          return Syntax(UnexpectedSymbol);
        }
        var more := Next();
        r := Parsed(r.value.(weakTerm := true), pos);
      }
    }

    /** `parseExpressionForNode`: operands and operators are pushed onto a
        node list, which the two collapse passes fold into one root. */
    method ParseExpressionForNode(depth: nat) returns (r: Outcome<ExpressionNode>)
      requires Valid()
      modifies this
      ensures Valid() && r == ExprForNode(tokens, symbols, old(pos), depth) && (r.Parsed? ==> pos == r.next)
      decreases |tokens| - pos, 4
    {
      ghost var p0 := pos;
      var first := ParseValueNode(depth);
      if !first.Parsed? {
        return Fail(first);
      }
      var nodes := [first.value];
      ghost var whole := OperandsFrom(tokens, symbols, pos, depth, nodes);
      assert ExprForNode(tokens, symbols, p0, depth) == Finish(tokens, whole, depth, p0);
      while At(tokens, pos, Keyword.OperatorPlus) || At(tokens, pos, Keyword.OperatorMinus)
            || At(tokens, pos, Keyword.OperatorTimes) || At(tokens, pos, Keyword.OperatorDivide)
        invariant Valid() && p0 < pos && whole == OperandsFrom(tokens, symbols, pos, depth, nodes)
        decreases |tokens| - pos
      {
        var op := Leaf(tokens[pos].symbol, 0.0);
        var ok := NextHard();
        if !ok {
          return EndOfFile;
        }
        var v := ParseValueNode(depth);
        if !v.Parsed? {
          return Fail(v);
        }
        nodes := nodes + [op, v.value];
      }
      if At(tokens, pos, Keyword.CloseParen) && depth != 0 {
        var more := Next();
      }
      ghost var operands := nodes;
      nodes := Collapse(nodes, MulOps);
      nodes := Collapse(nodes, AddOps);
      CollapseMatchesPrecedence(operands);
      r := Parsed(nodes[0], pos);
    }

    /** `parseTimeInMilliseconds`. */
    method ParseTimeInMilliseconds() returns (r: Outcome<Option<int>>)
      requires Valid()
      modifies this
      ensures Valid() && r == TimeInMilliseconds(tokens, old(pos)) && (r.Parsed? ==> pos == r.next)
    {
      if !At(tokens, pos, Keyword.ScalarType) {
        return Parsed(None, pos);
      }
      var result := Truncate(NumberOf(tokens[pos]));
      var ok := NextHard();
      if !ok {
        return EndOfFile;
      }
      if tokens[pos].symbol == Keyword.UnitMilliseconds {
      } else if tokens[pos].symbol == Keyword.UnitSeconds {
        result := result * 1000;
      } else {
        return Syntax(NoTimeUnit);
      }
      var more := Next();
      r := Parsed(Some(result), pos);
    }

    /** The `matchNumber` of `parseGraph`. */
    method MatchNumber() returns (r: Outcome<real>)
      requires Valid()
      modifies this
      ensures Valid() && r == SampleValue(tokens, old(pos)) && (r.Parsed? ==> pos == r.next)
    {
      if !At(tokens, pos, Keyword.ScalarType) && !At(tokens, pos, Keyword.FloatType) {
        return ErrorAt(tokens, pos, UnexpectedSymbol);
      }
      var v := NumberOf(tokens[pos]);
      var more := Next();
      if At(tokens, pos, Keyword.UnitPercent) {
        more := Next();
        if v < 0.0 || v > 100.0 {
          return ErrorAt(tokens, pos, PercentOutOfRange);
        }
        return Parsed(v / 100.0, pos);
      }
      if v < 0.0 || v > 1.0 {
        return ErrorAt(tokens, pos, SampleOutOfRange);
      }
      r := Parsed(v, pos);
    }

    /** `parseGraph`, with the scope's and the translation unit's named graphs. */
    method ParseGraph(scope: Option<map<string, AnimationGraph.Graph>>, unit: map<string, AnimationGraph.Graph>)
      returns (r: Outcome<Option<AnimationGraph.Graph>>)
      requires Valid()
      modifies this
      ensures Valid() && r == GraphValue(tokens, old(pos), scope, unit) && (r.Parsed? ==> pos == r.next)
    {
      if At(tokens, pos, Keyword.UserToken) {
        var name := TextOf(tokens[pos]);
        var found: Option<AnimationGraph.Graph> := None;
        if scope.Some? && name in scope.value {
          found := Some(scope.value[name]);
        } else if name in unit {
          found := Some(unit[name]);
        }
        if found.Some? {
          var more := Next();
        }
        return Parsed(found, pos);
      }
      if !At(tokens, pos, Keyword.Graph) {
        return Parsed(None, pos);
      }
      var g := ParseGraphLiteral();
      if !g.Parsed? {
        return Fail(g);
      }
      r := Parsed(Some(g.value), pos);
    }

    /** The literal form of `parseGraph`. */
    method ParseGraphLiteral() returns (r: Outcome<AnimationGraph.Graph>)
      requires Valid() && At(tokens, pos, Keyword.Graph)
      modifies this
      ensures Valid() && r == GraphLiteral(tokens, old(pos)) && (r.Parsed? ==> pos == r.next)
    {
      var ok := NextHard();
      if !ok {
        return EndOfFile;
      }
      if tokens[pos].symbol != Keyword.OpenParen {
        return Syntax(UnexpectedSymbol);
      }
      ok := NextHard();
      if !ok {
        return EndOfFile;
      }
      var mode: AnimationGraph.InterpolationMode;
      if tokens[pos].symbol == Keyword.Linear {
        mode := AnimationGraph.Linear;
      } else if tokens[pos].symbol == Keyword.Smooth {
        mode := AnimationGraph.Smooth;
      } else {
        return Syntax(NoInterpolationMode);
      }
      ok := NextHard();
      if !ok {
        return EndOfFile;
      }
      var samples := ParseSamples();
      if !samples.Parsed? {
        return Fail(samples);
      }
      if |samples.value| == 0 {
        return ErrorAt(tokens, pos, EmptyGraph);
      }
      if pos == |tokens| {
        return EndOfFile;
      }
      if tokens[pos].symbol != Keyword.CloseParen {
        return Syntax(UnexpectedSymbol);
      }
      var more := Next();
      r := Parsed(AnimationGraph.Graph(samples.value, mode), pos);
    }

    /** The `, a @ b` loop of `parseGraph`. */
    method ParseSamples() returns (r: Outcome<seq<AnimationGraph.Sample>>)
      requires Valid()
      modifies this
      ensures Valid() && r == SamplesFrom(tokens, old(pos), []) && (r.Parsed? ==> pos == r.next)
    {
      var samples: seq<AnimationGraph.Sample> := [];
      ghost var whole := SamplesFrom(tokens, pos, samples);
      while At(tokens, pos, Keyword.Comma)
        invariant Valid() && whole == SamplesFrom(tokens, pos, samples)
        decreases |tokens| - pos
      {
        var ok := NextHard();
        if !ok {
          return EndOfFile;
        }
        var x := MatchNumber();
        if !x.Parsed? {
          return Fail(x);
        }
        if pos == |tokens| {
          return EndOfFile;
        }
        if tokens[pos].symbol != Keyword.SchoolOperator {
          return Syntax(UnexpectedSymbol);
        }
        ok := NextHard();
        if !ok {
          return EndOfFile;
        }
        var y := MatchNumber();
        if !y.Parsed? {
          return Fail(y);
        }
        samples := samples + [AnimationGraph.Sample(y.value, x.value)];
      }
      r := Parsed(samples, pos);
    }

    /** The operand reader of `parseVirtualStateKey`. */
    method ParseStateOperand(level: nat) returns (r: Outcome<PrecursorNode>)
      requires Valid()
      modifies this
      ensures Valid() && r == StateOperand(tokens, old(pos), level) && (r.Parsed? ==> pos == r.next)
      decreases |tokens| - pos, 0
    {
      var negation := At(tokens, pos, Keyword.Not);
      if negation {
        var ok := NextHard();
        if !ok {
          return EndOfFile;
        }
      }
      if At(tokens, pos, Keyword.OpenParen) {
        var ok := NextHard();
        if !ok {
          return EndOfFile;
        }
        r := ParseVirtualStateKey(level + 1);
        if r.Parsed? && negation {
          r := Parsed(r.value.(negation := !r.value.negation), r.next);
        }
        return;
      }
      var k := ParseScopedValueKeyForStateKey();
      if !k.Parsed? {
        return Fail(k);
      }
      r := Parsed(KeyLeaf(negation, k.value), pos);
    }

    /** `parseVirtualStateKey`. */
    method ParseVirtualStateKey(level: nat) returns (r: Outcome<PrecursorNode>)
      requires Valid()
      modifies this
      ensures Valid() && r == CompoundKey(tokens, old(pos), level) && (r.Parsed? ==> pos == r.next)
      decreases |tokens| - pos, 2
    {
      ghost var p0 := pos;
      var first := ParseStateOperand(level);
      if !first.Parsed? {
        return first;
      }
      var result := first.value;
      ghost var whole := FoldFrom(tokens, pos, level, result);
      assert CompoundKey(tokens, p0, level) == CloseStateKey(tokens, whole, level);
      while !At(tokens, pos, Keyword.Colon) && !At(tokens, pos, Keyword.CloseParen)
        invariant Valid() && p0 < pos && whole == FoldFrom(tokens, pos, level, result)
        decreases |tokens| - pos
      {
        if pos == |tokens| {
          return EndOfFile;
        }
        var op := tokens[pos].symbol;
        if op != Keyword.And && op != Keyword.Or && op != Keyword.Xor {
          return Syntax(NoLogicalOperator);
        }
        var more := Next();
        var v := ParseStateOperand(level);
        if !v.Parsed? {
          return v;
        }
        result := OperatorNode(op, result, v.value);
      }
      var close := if level != 0 then Keyword.CloseParen else Keyword.Colon;
      if tokens[pos].symbol != close {
        return Syntax(UnexpectedSymbol);
      }
      var more := Next();
      r := Parsed(result, pos);
    }
  }

  /** `parseExpression` over a whole token list. */
  method ParseExpression(tokens: seq<Token>) returns (r: Outcome<ExpressionNode>)
    ensures r == ExprForNode(tokens, Keywords.SymbolValuePairs, 0, 0)
  {
    var parser := new Parser(tokens);
    r := parser.ParseExpressionForNode(0);
  }
}
