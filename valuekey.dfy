// Scoped value keys (`this.width`, `model::a::b.count`, ...) and the
// expression trees they can carry as a parameter. The two types refer to
// each other, so they live in one module; solving expressions is in the
// Expression module.
module ValueKey {
  import opened Wrappers
  import Keyword

  datatype Scope = Global | Element | Model | Material | RemorialClass

  type KeyPath = seq<string>

  /** `parameter` is the root node of the optional parameter expression.
      Source positions (`definedAt`) are not modelled. */
  datatype ScopedValueKey = ScopedValueKey(
    scope: Option<Scope>,
    path: Option<KeyPath>,
    key: Option<string>,
    parameter: Option<ExpressionNode>)

  /** One node of an expression tree; `operation` holds a keyword symbol. */
  datatype ExpressionNode = ExpressionNode(
    operation: int,
    weakBranch: bool,
    weakTerm: bool,
    val: real,
    extVal: ScopedValueKey,
    left: Option<ExpressionNode>,
    right: Option<ExpressionNode>)

  /** A default-constructed key: nothing set. */
  const NoKey: ScopedValueKey := ScopedValueKey(None, None, None, None)

  /** A state key: an identity and the object it is scoped to (none for global). */
  datatype StateKey = StateKey(identity: string, scope: Option<nat>)

  // ---- identity: the part that ordering and equality look at ----

  /** Ordering and equality compare (scope, path, key) and nothing else. */
  type KeyId = (Option<Scope>, Option<KeyPath>, Option<string>)

  function Identity(k: ScopedValueKey): (id: KeyId)
    ensures id.0 == k.scope && id.1 == k.path && id.2 == k.key
  {
    (k.scope, k.path, k.key)
  }

  /** Two keys that differ only in their parameter compare equal. */
  lemma IdentityIgnoresParameter(k: ScopedValueKey, p: Option<ExpressionNode>)
    ensures Identity(k.(parameter := p)) == Identity(k)
    ensures Identity(k) == Identity(k.(parameter := None))
  {
  }

  // ---- mutators, on values ----

  /** `setScopeIfUnset`: an existing scope is never overridden. */
  function SetScopeIfUnset(k: ScopedValueKey, s: Scope): (r: ScopedValueKey)
    ensures k.scope.Some? ==> r == k
    ensures k.scope.None? ==> r == k.(scope := Some(s))
  {
    if k.scope.None? then k.(scope := Some(s)) else k
  }

  /** After `setScopeIfUnset` a key has a scope, and a second call changes nothing. */
  lemma SetScopeIfUnsetSettles(k: ScopedValueKey, s: Scope, t: Scope)
    ensures SetScopeIfUnset(k, s).scope.Some?
    ensures SetScopeIfUnset(SetScopeIfUnset(k, s), t) == SetScopeIfUnset(k, s)
  {
  }

  /** `empty`: scope, path, key and parameter are all absent. */
  predicate IsEmpty(k: ScopedValueKey)
  {
    k.scope.None? && k.path.None? && k.key.None? && k.parameter.None?
  }

  lemma EmptyExactlyNoKey(k: ScopedValueKey)
    ensures IsEmpty(k) <==> k == NoKey
  {
  }

  /** The path, reading an absent one as empty. */
  function PathOf(k: ScopedValueKey): KeyPath
  {
    k.path.GetOr([])
  }

  /** `addToPath`: a one-element path if there was none, else one more piece. */
  function AddToPath(k: ScopedValueKey, piece: string): (r: ScopedValueKey)
    ensures r.path == Some(PathOf(k) + [piece])
    ensures r.scope == k.scope && r.key == k.key && r.parameter == k.parameter
  {
    match k.path
    case None => assert PathOf(k) + [piece] == [piece]; k.(path := Some([piece]))
    case Some(p) => k.(path := Some(p + [piece]))
  }

  /** `merge`: adopt the right path when there is none, append it when both exist. */
  function Merge(k: ScopedValueKey, right: ScopedValueKey): (r: ScopedValueKey)
    ensures r.scope == k.scope && r.key == k.key && r.parameter == k.parameter
  {
    if k.path.None? && right.path.Some? then k.(path := right.path)
    else if k.path.Some? && right.path.Some? then k.(path := Some(k.path.value + right.path.value))
    else k
  }

  /** Merging concatenates the two paths (an absent path reads as empty), and
      the result has a path iff either side has one. */
  lemma MergeConcatenatesPaths(k: ScopedValueKey, right: ScopedValueKey)
    ensures PathOf(Merge(k, right)) == PathOf(k) + PathOf(right)
    ensures Merge(k, right).path.Some? <==> k.path.Some? || right.path.Some?
    ensures right.path.None? ==> Merge(k, right) == k
  {
    if k.path.None? && right.path.Some? {
      assert PathOf(k) == [];
      assert [] + right.path.value == right.path.value;
    } else if k.path.Some? && right.path.None? {
      assert PathOf(k) + [] == PathOf(k);
    } else if k.path.None? && right.path.None? {
      assert PathOf(k) + PathOf(right) == [];
    }
  }

  /** `operator=`: scope, path and key are copied; the parameter only when
      the source has one, otherwise the target keeps its own. */
  function Assign(target: ScopedValueKey, source: ScopedValueKey): (r: ScopedValueKey)
    ensures Identity(r) == Identity(source)
    ensures source.parameter.Some? ==> r == source
    ensures source.parameter.None? ==> r.parameter == target.parameter
  {
    ScopedValueKey(source.scope, source.path, source.key,
                   if source.parameter.Some? then source.parameter else target.parameter)
  }

  /** Assigning a parameterless key over a key with a parameter does not give
      an equal value: the old parameter survives. */
  lemma AssignKeepsStaleParameter(target: ScopedValueKey, source: ScopedValueKey)
    requires target.parameter.Some? && source.parameter.None?
    ensures Assign(target, source) != source
    ensures Identity(Assign(target, source)) == Identity(source)
  {
  }

  // ---- visiting every key: `apply` / `applyToEachScopedValueKey` ----

  /** The symbol of a key leaf in an expression tree. */
  const KeyOperation: int := Keyword.ScopedValueKey

  /** Every caller's visitor only rewrites scope, path and key: it is modelled
      as a function on the identity part. */
  function Rewrite(f: KeyId -> KeyId, k: ScopedValueKey): (r: ScopedValueKey)
    ensures Identity(r) == f(Identity(k)) && r.parameter == k.parameter
  {
    var id := f(Identity(k));
    ScopedValueKey(id.0, id.1, id.2, k.parameter)
  }

  /** `apply`: the key itself, then every key inside its parameter expression. */
  function Apply(f: KeyId -> KeyId, k: ScopedValueKey): (r: ScopedValueKey)
    decreases k, 1
  {
    var k1 := Rewrite(f, k);
    match k.parameter
    case None => k1
    case Some(p) => k1.(parameter := Some(ApplyToNode(f, p)))
  }

  /** `Expression::applyToEachScopedValueKey`: pre-order over the nodes;
      a key leaf has its key applied, then both subtrees are visited. */
  function ApplyToNode(f: KeyId -> KeyId, n: ExpressionNode): (r: ExpressionNode)
    decreases n, 0
  {
    var ext := if n.operation == KeyOperation then Apply(f, n.extVal) else n.extVal;
    var l := match n.left case None => None case Some(c) => Some(ApplyToNode(f, c));
    var rt := match n.right case None => None case Some(c) => Some(ApplyToNode(f, c));
    n.(extVal := ext, left := l, right := rt)
  }

  /** The keys `apply` visits, in visiting order. */
  function VisitedKeys(k: ScopedValueKey): seq<KeyId>
    decreases k, 1
  {
    [Identity(k)] + match k.parameter case None => [] case Some(p) => VisitedInNode(p)
  }

  function VisitedInNode(n: ExpressionNode): seq<KeyId>
    decreases n, 0
  {
    (if n.operation == KeyOperation then VisitedKeys(n.extVal) else [])
    + (match n.left case None => [] case Some(c) => VisitedInNode(c))
    + (match n.right case None => [] case Some(c) => VisitedInNode(c))
  }

  function MapIds(f: KeyId -> KeyId, ids: seq<KeyId>): (r: seq<KeyId>)
    ensures |r| == |ids|
    ensures forall i :: 0 <= i < |ids| ==> r[i] == f(ids[i])
  {
    if ids == [] then [] else [f(ids[0])] + MapIds(f, ids[1..])
  }

  lemma MapIdsAppend(f: KeyId -> KeyId, a: seq<KeyId>, b: seq<KeyId>)
    ensures MapIds(f, a + b) == MapIds(f, a) + MapIds(f, b)
  {
  }

  /** `apply` rewrites exactly the keys it visits, in the same order, and
      keeps the shape of every parameter expression. */
  lemma {:induction false} ApplyRewritesVisited(f: KeyId -> KeyId, k: ScopedValueKey)
    ensures VisitedKeys(Apply(f, k)) == MapIds(f, VisitedKeys(k))
    decreases k, 1
  {
    match k.parameter
    case None =>
    case Some(p) =>
      ApplyToNodeRewritesVisited(f, p);
      MapIdsAppend(f, [Identity(k)], VisitedInNode(p));
  }

  lemma {:induction false} ApplyToNodeRewritesVisited(f: KeyId -> KeyId, n: ExpressionNode)
    ensures VisitedInNode(ApplyToNode(f, n)) == MapIds(f, VisitedInNode(n))
    ensures ApplyToNode(f, n).operation == n.operation
    decreases n, 0
  {
    var r := ApplyToNode(f, n);
    var own := if n.operation == KeyOperation then VisitedKeys(n.extVal) else [];
    var ls := match n.left case None => [] case Some(c) => VisitedInNode(c);
    var rs := match n.right case None => [] case Some(c) => VisitedInNode(c);
    if n.operation == KeyOperation {
      ApplyRewritesVisited(f, n.extVal);
    }
    match n.left {
      case None =>
      case Some(c) => ApplyToNodeRewritesVisited(f, c);
    }
    match n.right {
      case None =>
      case Some(c) => ApplyToNodeRewritesVisited(f, c);
    }
    MapIdsAppend(f, own, ls);
    MapIdsAppend(f, own + ls, rs);
  }

  // ---- printing ----

  /** The word a scope prints as; no scope prints nothing. */
  function ScopeWord(s: Option<Scope>): string
  {
    match s
    case None => ""
    case Some(Element) => "this"
    case Some(Model) => "model"
    case Some(RemorialClass) => "@"
    case Some(Material) => "material"
    case Some(Global) => "global"
  }

  /** The scope words are distinct, so the printed word names its scope. */
  lemma ScopeWordsDistinct(s: Option<Scope>, t: Option<Scope>)
    ensures ScopeWord(s) == ScopeWord(t) ==> s == t
  {
  }

  /** Path elements joined with "::". */
  function JoinPath(p: KeyPath): string
  {
    if |p| == 0 then ""
    else if |p| == 1 then p[0]
    else p[0] + "::" + JoinPath(p[1..])
  }

  /** `operator<<(ostream, ValueKeyPath)`: each element, with "::" after every
      element but the last. */
  method PrintPath(p: KeyPath) returns (s: string)
    ensures s == JoinPath(p)
  {
    s := "";
    var i := 0;
    while i < |p|
      invariant 0 <= i <= |p|
      invariant s == JoinPath(p[..i]) + (if 0 < i < |p| then "::" else "")
    {
      assert p[..i + 1] == p[..i] + [p[i]];
      if i > 0 {
        JoinSnoc(p[..i], p[i]);
      } else {
        assert p[..1] == [p[0]];
      }
      s := s + p[i];
      if i + 1 != |p| {
        s := s + "::";
      }
      i := i + 1;
    }
    assert p[..|p|] == p;
  }

  predicate NoColon(w: string)
  {
    forall i :: 0 <= i < |w| ==> w[i] != ':'
  }

  /** The position of the first "::" at or after i, or |s| when there is none. */
  function NextSeparator(s: string, i: nat): (j: nat)
    requires i <= |s|
    ensures i <= j <= |s|
    ensures j < |s| ==> j + 1 < |s| && s[j] == ':' && s[j + 1] == ':'
    ensures forall m :: i <= m < j ==> !(m + 1 < |s| && s[m] == ':' && s[m + 1] == ':')
    decreases |s| - i
  {
    if i + 1 < |s| && s[i] == ':' && s[i + 1] == ':' then i
    else if i + 1 >= |s| then |s|
    else NextSeparator(s, i + 1)
  }

  /** Cuts a printed path at every "::". */
  function SplitPath(s: string): KeyPath
    decreases |s|
  {
    var j := NextSeparator(s, 0);
    if j == |s| then [s] else [s[..j]] + SplitPath(s[j + 2..])
  }

  /** In a word without ':' the next separator is past the word. */
  lemma SeparatorAfterWord(w: string, rest: string)
    requires NoColon(w)
    ensures NextSeparator(w + rest, 0) >= |w|
  {
  }

  lemma SplitPrefixedWord(w: string, rest: string)
    requires NoColon(w)
    ensures SplitPath(w + "::" + rest) == [w] + SplitPath(rest)
  {
    var s := w + "::" + rest;
    assert s == w + ("::" + rest);
    SeparatorAfterWord(w, "::" + rest);
    var j := NextSeparator(s, 0);
    assert s[|w|] == ':' && s[|w| + 1] == ':';
    assert s[..j] == w;
    assert s[j + 2..] == rest;
  }

  lemma SplitWord(w: string)
    requires NoColon(w)
    ensures SplitPath(w) == [w]
  {
    SeparatorAfterWord(w, "");
    assert w + "" == w;
  }

  /** Appending one element to a non-empty path adds "::" and the element. */
  lemma {:induction false} JoinSnoc(a: KeyPath, x: string)
    requires |a| >= 1
    ensures JoinPath(a + [x]) == JoinPath(a) + "::" + x
    decreases |a|
  {
    var ax := a + [x];
    if |a| == 1 {
      assert ax[1..] == [x];
    } else {
      assert ax[1..] == a[1..] + [x];
      JoinSnoc(a[1..], x);
      var m := JoinPath(a[1..]);
      assert JoinPath(ax) == a[0] + "::" + (m + "::" + x);
    }
  }

  /** Splitting a printed path at "::" recovers the path, provided it is not
      empty and no element contains ':'. */
  lemma {:induction false} SplitJoinRoundTrip(p: KeyPath)
    requires |p| > 0
    requires forall i :: 0 <= i < |p| ==> NoColon(p[i])
    ensures SplitPath(JoinPath(p)) == p
    decreases |p|
  {
    if |p| == 1 {
      SplitWord(p[0]);
    } else {
      SplitPrefixedWord(p[0], JoinPath(p[1..]));
      SplitJoinRoundTrip(p[1..]);
    }
  }

  /** `generatePrintout` up to the parameter: the scope word, "::" and the
      path if there is one, "." and the key if there is one. The parameter
      part is printed by the expression printer. */
  function KeyPrintoutHead(k: ScopedValueKey): (s: string)
    ensures |ScopeWord(k.scope)| <= |s| && s[..|ScopeWord(k.scope)|] == ScopeWord(k.scope)
  {
    var head := ScopeWord(k.scope) + (if k.path.Some? then "::" + JoinPath(k.path.value) else "");
    var s := head + (if k.key.Some? then "." + k.key.value else "");
    assert s[..|ScopeWord(k.scope)|] == ScopeWord(k.scope);
    s
  }
}
