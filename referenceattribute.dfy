// Compile-time attributes: the layer a template element or class declares for
// one attribute key, and the set of such layers (one per key) together with
// the element's `declare` and `set` modifiers. Classes are folded into an
// element by `derive`.
module ReferenceAttributes {
  import opened Wrappers
  import opened ValueKey
  import AnimationGraph
  import AttributeKey

  /** An 8-bit colour channel. */
  type Channel = c: int | 0 <= c < 256

  datatype Color = Color(red: Channel, green: Channel, blue: Channel)

  /** An easing: a duration and the graph that shapes it. */
  datatype Transition = Transition(milliseconds: int, graph: AnimationGraph.Graph)

  /** One attribute layer. Every field but the two lists is optional; the
      expressions are the roots of their trees. */
  datatype ReferenceAttribute = ReferenceAttribute(
    active: bool,
    clear: bool,
    property: Option<int>,
    starting: Option<ExpressionNode>,
    min: Option<ExpressionNode>,
    max: Option<ExpressionNode>,
    expr: Option<ExpressionNode>,
    color: Option<Color>,
    literal: Option<string>,
    literalList: seq<string>,
    singleKey: Option<ScopedValueKey>,
    keys: seq<ScopedValueKey>,
    delay: Option<int>,
    ease: Option<Transition>)

  /** A default-constructed layer: inactive, not clear, nothing set. */
  const Unset: ReferenceAttribute :=
    ReferenceAttribute(false, false, None, None, None, None, None, None, None, [], None, [], None, None)

  /** The `mergeHelper` of `derive`: keep mine if present, else take the parent's. */
  function Fill<T>(mine: Option<T>, parent: Option<T>): Option<T>
  {
    if mine.Some? then mine else parent
  }

  // ---- derive ----

  /** `derive`: fold the parent layer (a class, or an outer state) into this
      one. A clear layer and an inactive parent leave the layer as it is. */
  function Derive(mine: ReferenceAttribute, parent: ReferenceAttribute): (r: ReferenceAttribute)
    ensures mine.clear || !parent.active ==> r == mine
    ensures !mine.clear && parent.active ==> r.active && !r.clear
    ensures !mine.clear && parent.active ==>
              r.keys == mine.keys + parent.keys && r.literalList == mine.literalList + parent.literalList
  {
    if mine.clear || !parent.active then mine
    else
      ReferenceAttribute(
        true,
        mine.clear,
        Fill(mine.property, parent.property),
        Fill(mine.starting, parent.starting),
        Fill(mine.min, parent.min),
        Fill(mine.max, parent.max),
        Fill(mine.expr, parent.expr),
        Fill(mine.color, parent.color),
        Fill(mine.literal, parent.literal),
        mine.literalList + parent.literalList,
        Fill(mine.singleKey, parent.singleKey),
        mine.keys + parent.keys,
        Fill(mine.delay, parent.delay),
        Fill(mine.ease, parent.ease))
  }

  /** The child wins: every optional field the child has is kept, and a field
      the child lacks is the parent's. */
  lemma DeriveChildWins(mine: ReferenceAttribute, parent: ReferenceAttribute)
    requires !mine.clear && parent.active
    ensures var r := Derive(mine, parent);
      (mine.property.Some? ==> r.property == mine.property) &&
      (mine.property.None? ==> r.property == parent.property) &&
      (mine.starting.Some? ==> r.starting == mine.starting) &&
      (mine.starting.None? ==> r.starting == parent.starting) &&
      (mine.min.Some? ==> r.min == mine.min) &&
      (mine.min.None? ==> r.min == parent.min) &&
      (mine.max.Some? ==> r.max == mine.max) &&
      (mine.max.None? ==> r.max == parent.max) &&
      (mine.expr.Some? ==> r.expr == mine.expr) &&
      (mine.expr.None? ==> r.expr == parent.expr) &&
      (mine.color.Some? ==> r.color == mine.color) &&
      (mine.color.None? ==> r.color == parent.color) &&
      (mine.literal.Some? ==> r.literal == mine.literal) &&
      (mine.literal.None? ==> r.literal == parent.literal) &&
      (mine.singleKey.Some? ==> r.singleKey == mine.singleKey) &&
      (mine.singleKey.None? ==> r.singleKey == parent.singleKey) &&
      (mine.delay.Some? ==> r.delay == mine.delay) &&
      (mine.delay.None? ==> r.delay == parent.delay) &&
      (mine.ease.Some? ==> r.ease == mine.ease) &&
      (mine.ease.None? ==> r.ease == parent.ease)
  {
  }

  /** A fresh slot derived from an active parent is the parent's layer with
      `clear` dropped; from an inactive parent it stays unset. */
  lemma DeriveIntoUnset(parent: ReferenceAttribute)
    ensures parent.active ==> Derive(Unset, parent) == parent.(clear := false)
    ensures !parent.active ==> Derive(Unset, parent) == Unset
  {
  }

  /** Folding a chain of classes one at a time gives what folding the
      pre-derived parent gives, as long as no layer in the chain is clear and
      the ancestors are active. */
  lemma DeriveAssociative(c: ReferenceAttribute, p: ReferenceAttribute, g: ReferenceAttribute)
    requires !c.clear && !p.clear && p.active && g.active
    ensures Derive(Derive(c, p), g) == Derive(c, Derive(p, g))
  {
    assert (c.keys + p.keys) + g.keys == c.keys + (p.keys + g.keys);
    assert (c.literalList + p.literalList) + g.literalList == c.literalList + (p.literalList + g.literalList);
  }

  /** Deriving twice from the same parent repeats the parent's lists: derive
      is not idempotent. */
  lemma DeriveTwiceRepeatsKeys(mine: ReferenceAttribute, parent: ReferenceAttribute)
    requires !mine.clear && parent.active
    ensures Derive(Derive(mine, parent), parent).keys == mine.keys + parent.keys + parent.keys
  {
  }

  // ---- visiting keys ----

  function ApplyToOption(f: KeyId -> KeyId, e: Option<ExpressionNode>): Option<ExpressionNode>
  {
    match e
    case None => None
    case Some(n) => Some(ApplyToNode(f, n))
  }

  function VisitedInOption(e: Option<ExpressionNode>): seq<KeyId>
  {
    match e
    case None => []
    case Some(n) => VisitedInNode(n)
  }

  function RewriteAll(f: KeyId -> KeyId, ks: seq<ScopedValueKey>): (r: seq<ScopedValueKey>)
    ensures |r| == |ks|
    ensures forall i :: 0 <= i < |ks| ==> r[i] == Rewrite(f, ks[i])
  {
    if ks == [] then [] else [Rewrite(f, ks[0])] + RewriteAll(f, ks[1..])
  }

  function Identities(ks: seq<ScopedValueKey>): (r: seq<KeyId>)
    ensures |r| == |ks|
    ensures forall i :: 0 <= i < |ks| ==> r[i] == Identity(ks[i])
  {
    if ks == [] then [] else [Identity(ks[0])] + Identities(ks[1..])
  }

  /** `applyToEachScopedValueKey` on a layer: the keys inside starting, min,
      max and expr, then every list key, then the single key. The visitor is
      applied to list keys and the single key themselves, not to their
      parameters; the colour and the literals carry no key. */
  function ApplyToAttribute(f: KeyId -> KeyId, a: ReferenceAttribute): (r: ReferenceAttribute)
  {
    a.(starting := ApplyToOption(f, a.starting),
       min := ApplyToOption(f, a.min),
       max := ApplyToOption(f, a.max),
       expr := ApplyToOption(f, a.expr),
       keys := RewriteAll(f, a.keys),
       singleKey := match a.singleKey case None => None case Some(k) => Some(Rewrite(f, k)))
  }

  /** The keys the visitor meets in a layer, in visiting order. */
  function VisitedInAttribute(a: ReferenceAttribute): seq<KeyId>
  {
    VisitedInOption(a.starting) + VisitedInOption(a.min) + VisitedInOption(a.max) +
    VisitedInOption(a.expr) + Identities(a.keys) +
    match a.singleKey case None => [] case Some(k) => [Identity(k)]
  }

  lemma ApplyToOptionRewritesVisited(f: KeyId -> KeyId, e: Option<ExpressionNode>)
    ensures VisitedInOption(ApplyToOption(f, e)) == MapIds(f, VisitedInOption(e))
  {
    match e {
      case None =>
      case Some(n) => ApplyToNodeRewritesVisited(f, n);
    }
  }

  /** Visiting a layer rewrites exactly the keys it visits, in order, and
      touches nothing but its expressions and keys. */
  lemma ApplyToAttributeRewritesVisited(f: KeyId -> KeyId, a: ReferenceAttribute)
    ensures VisitedInAttribute(ApplyToAttribute(f, a)) == MapIds(f, VisitedInAttribute(a))
  {
    var r := ApplyToAttribute(f, a);
    ApplyToOptionRewritesVisited(f, a.starting);
    ApplyToOptionRewritesVisited(f, a.min);
    ApplyToOptionRewritesVisited(f, a.max);
    ApplyToOptionRewritesVisited(f, a.expr);
    var s0 := VisitedInOption(a.starting);
    var s1 := VisitedInOption(a.min);
    var s2 := VisitedInOption(a.max);
    var s3 := VisitedInOption(a.expr);
    var s4 := Identities(a.keys);
    var s5: seq<KeyId> := match a.singleKey case None => [] case Some(k) => [Identity(k)];
    assert Identities(r.keys) == MapIds(f, s4);
    MapIdsAppend(f, s0, s1);
    MapIdsAppend(f, s0 + s1, s2);
    MapIdsAppend(f, s0 + s1 + s2, s3);
    MapIdsAppend(f, s0 + s1 + s2 + s3, s4);
    MapIdsAppend(f, s0 + s1 + s2 + s3 + s4, s5);
  }

  /** The visitor leaves every field that holds no key as it was. */
  lemma ApplyToAttributeKeepsRest(f: KeyId -> KeyId, a: ReferenceAttribute)
    ensures var r := ApplyToAttribute(f, a);
      r.active == a.active && r.clear == a.clear && r.property == a.property &&
      r.color == a.color && r.literal == a.literal && r.literalList == a.literalList &&
      r.delay == a.delay && r.ease == a.ease
  {
  }

  // ---- the attribute set ----

  /** The contents of a `ReferenceAttributeSet`: one layer per attribute key,
      the declare modifiers by variable name and the set modifiers by key. */
  datatype AttributeSet = AttributeSet(
    attr: seq<ReferenceAttribute>,
    declares: map<string, ExpressionNode>,
    sets: map<KeyId, ExpressionNode>)

  function UnsetLayers(n: nat): (r: seq<ReferenceAttribute>)
    ensures |r| == n && forall k :: 0 <= k < n ==> r[k] == Unset
  {
    if n == 0 then [] else UnsetLayers(n - 1) + [Unset]
  }

  const BlankSet: AttributeSet := AttributeSet(UnsetLayers(AttributeKey.AttributeCount), map[], map[])

  ghost predicate WellFormed(s: AttributeSet)
  {
    |s.attr| == AttributeKey.AttributeCount
  }

  /** `deriveFrom` on values: the parent's modifiers overwrite same-named
      ones, and every slot is derived from the parent's slot. */
  function DerivedSet(mine: AttributeSet, parent: AttributeSet): (r: AttributeSet)
    requires WellFormed(mine) && WellFormed(parent)
    ensures WellFormed(r)
    ensures forall k :: 0 <= k < |r.attr| ==> r.attr[k] == Derive(mine.attr[k], parent.attr[k])
  {
    AttributeSet(
      seq(AttributeKey.AttributeCount, k requires 0 <= k < AttributeKey.AttributeCount => Derive(mine.attr[k], parent.attr[k])),
      mine.declares + parent.declares,
      mine.sets + parent.sets)
  }

  /** The modifiers of a derived set: every entry of the parent is written,
      overwriting a same-named entry, and entries only the child has are
      preserved. Unlike the layers, the parent wins here. */
  lemma DerivedSetModifiers(mine: AttributeSet, parent: AttributeSet)
    requires WellFormed(mine) && WellFormed(parent)
    ensures var r := DerivedSet(mine, parent);
      r.declares.Keys == mine.declares.Keys + parent.declares.Keys &&
      (forall v :: v in parent.declares ==> r.declares[v] == parent.declares[v]) &&
      (forall v :: v in mine.declares && v !in parent.declares ==> r.declares[v] == mine.declares[v]) &&
      r.sets.Keys == mine.sets.Keys + parent.sets.Keys &&
      (forall k :: k in parent.sets ==> r.sets[k] == parent.sets[k]) &&
      (forall k :: k in mine.sets && k !in parent.sets ==> r.sets[k] == mine.sets[k])
  {
  }

  /** Deriving from an empty class changes nothing. */
  lemma DeriveFromBlank(mine: AttributeSet)
    requires WellFormed(mine)
    ensures DerivedSet(mine, BlankSet) == mine
  {
    var r := DerivedSet(mine, BlankSet);
    assert r.attr == mine.attr;
    assert r.declares == mine.declares;
    assert r.sets == mine.sets;
  }

  /** A blank set derived from a parent: the parent's modifiers, and each
      slot the parent's with `clear` dropped, or unset where the parent's
      slot is inactive. */
  lemma DeriveBlankFrom(parent: AttributeSet, i: nat)
    requires WellFormed(parent) && i < AttributeKey.AttributeCount
    ensures DerivedSet(BlankSet, parent).declares == parent.declares
    ensures DerivedSet(BlankSet, parent).sets == parent.sets
    ensures parent.attr[i].active ==> DerivedSet(BlankSet, parent).attr[i] == parent.attr[i].(clear := false)
    ensures !parent.attr[i].active ==> DerivedSet(BlankSet, parent).attr[i] == Unset
  {
    DeriveIntoUnset(parent.attr[i]);
  }

  function RewrittenSet(f: KeyId -> KeyId, s: AttributeSet): AttributeSet
  {
    AttributeSet(
      seq(|s.attr|, k requires 0 <= k < |s.attr| => ApplyToAttribute(f, s.attr[k])),
      map v | v in s.declares :: ApplyToNode(f, s.declares[v]),
      map k | k in s.sets :: ApplyToNode(f, s.sets[k]))
  }

  /** `mergeModifiers`' loops: every entry of `other` written into `mine`. */
  method Overwrite<K, V>(mine: map<K, V>, other: map<K, V>) returns (r: map<K, V>)
    ensures r == mine + other
  {
    r := mine;
    var todo := other.Keys;
    while todo != {}
      invariant todo <= other.Keys
      invariant r == mine + (map k | k in other.Keys - todo :: other[k])
      decreases |todo|
    {
      var k :| k in todo;
      r := r[k := other[k]];
      todo := todo - {k};
    }
    assert (map k | k in other.Keys :: other[k]) == other;
  }

  /** The loop over a modifier map that rewrites the keys of every expression. */
  method RewriteValues<K>(f: KeyId -> KeyId, m: map<K, ExpressionNode>) returns (r: map<K, ExpressionNode>)
    ensures r == map k | k in m :: ApplyToNode(f, m[k])
  {
    r := m;
    var todo := m.Keys;
    while todo != {}
      invariant todo <= m.Keys
      invariant r.Keys == m.Keys
      invariant forall k :: k in m && k !in todo ==> r[k] == ApplyToNode(f, m[k])
      invariant forall k :: k in todo ==> r[k] == m[k]
      decreases |todo|
    {
      var k :| k in todo;
      r := r[k := ApplyToNode(f, m[k])];
      todo := todo - {k};
    }
  }

  // `ReferenceAttributeSet` is a value type: elements hold their sets by
  // value, so its in-place operations are methods returning the new value.

  /** `mergeModifiers`: the other set's modifiers overwrite same-named
      ones, entries only `mine` has are preserved, the layers are untouched. */
  method MergeModifiers(mine: AttributeSet, other: AttributeSet) returns (r: AttributeSet)
    ensures r.attr == mine.attr
    ensures r.declares.Keys == mine.declares.Keys + other.declares.Keys
    ensures forall v :: v in other.declares ==> r.declares[v] == other.declares[v]
    ensures forall v :: v in mine.declares && v !in other.declares ==> r.declares[v] == mine.declares[v]
    ensures r.sets.Keys == mine.sets.Keys + other.sets.Keys
    ensures forall k :: k in other.sets ==> r.sets[k] == other.sets[k]
    ensures forall k :: k in mine.sets && k !in other.sets ==> r.sets[k] == mine.sets[k]
  {
    var d := Overwrite(mine.declares, other.declares);
    var s := Overwrite(mine.sets, other.sets);
    r := mine.(declares := d, sets := s);
  }

  /** `deriveFrom`: merge the modifiers, then derive every slot from the
      other set's slot, key by key. */
  method DeriveFrom(mine: AttributeSet, other: AttributeSet) returns (r: AttributeSet)
    requires WellFormed(mine) && WellFormed(other)
    ensures r == DerivedSet(mine, other)
  {
    r := MergeModifiers(mine, other);
    assert r.declares == mine.declares + other.declares;
    assert r.sets == mine.sets + other.sets;
    var attr := r.attr;
    var key := 0;
    while key != AttributeKey.AttributeCount
      invariant 0 <= key <= AttributeKey.AttributeCount && |attr| == AttributeKey.AttributeCount
      invariant forall k :: 0 <= k < key ==> attr[k] == Derive(mine.attr[k], other.attr[k])
      invariant forall k :: key <= k < AttributeKey.AttributeCount ==> attr[k] == mine.attr[k]
    {
      attr := attr[key := Derive(attr[key], other.attr[key])];
      key := key + 1;
    }
    r := r.(attr := attr);
    assert r.attr == DerivedSet(mine, other).attr;
  }

  /** `applyToEachScopedValueKey`: every declare expression, every set
      expression and every slot, rewritten. */
  method ApplyToEachScopedValueKey(f: KeyId -> KeyId, s: AttributeSet) returns (r: AttributeSet)
    ensures r == RewrittenSet(f, s)
  {
    var d := RewriteValues(f, s.declares);
    var m := RewriteValues(f, s.sets);
    var attr := s.attr;
    var i := 0;
    while i != |attr|
      invariant 0 <= i <= |attr| == |s.attr|
      invariant forall k :: 0 <= k < i ==> attr[k] == ApplyToAttribute(f, s.attr[k])
      invariant forall k :: i <= k < |attr| ==> attr[k] == s.attr[k]
    {
      attr := attr[i := ApplyToAttribute(f, attr[i])];
      i := i + 1;
    }
    r := AttributeSet(attr, d, m);
    assert attr == RewrittenSet(f, s).attr;
  }
}
