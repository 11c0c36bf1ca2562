// The per-frame attribute of a display item: each frame the item's
// reference layers are merged into it (the last layer that has a field
// wins), and a commit compares the result with the previous frame's to
// decide whether anything changed and whether the change animates.
//
// The source keeps non-owning pointers into the reference layers. A pointer
// is a `Pin`: the identity of the reference set it points into together with
// the value found there, so two pins are equal exactly when they point at
// the same layer's field (each reference set has its own identity).
module RuntimeAttributes {
  import opened Wrappers
  import opened ValueKey
  import opened Expression
  import opened ReferenceAttributes

  datatype Pin<T> = Pin(layer: nat, value: T)

  /** One reference attribute handed to `merge`, with the identity of the
      reference set it belongs to. */
  datatype Layer = Layer(id: nat, ref: ReferenceAttribute)

  /** What a pointer field points at, if anything. */
  function Target<T>(p: Option<Pin<T>>): (r: Option<T>)
    ensures r.Some? <==> p.Some?
    ensures p.Some? ==> r.value == p.value.value
  {
    match p
    case None => None
    case Some(q) => Some(q.value)
  }

  /** `mergeHelper` on a pointer: repoint at the layer's field when the layer
      has one, else keep pointing where it did. */
  function Over<T>(mine: Option<Pin<T>>, id: nat, other: Option<T>): (r: Option<Pin<T>>)
    ensures other.Some? ==> r == Some(Pin(id, other.value))
    ensures other.None? ==> r == mine
  {
    match other
    case None => mine
    case Some(v) => Some(Pin(id, v))
  }

  datatype RuntimeAttribute = RuntimeAttribute(
    clear: Option<Pin<bool>>,
    property: Option<Pin<int>>,
    starting: Option<Pin<ExpressionNode>>,
    min: Option<Pin<ExpressionNode>>,
    max: Option<Pin<ExpressionNode>>,
    expr: Option<Pin<ExpressionNode>>,
    color: Option<Pin<Color>>,
    literal: Option<Pin<string>>,
    literalList: seq<string>,
    singleKey: Option<Pin<ScopedValueKey>>,
    keys: seq<ScopedValueKey>)

  /** What `reset` leaves: no pointer set and both lists empty. */
  const Empty: RuntimeAttribute :=
    RuntimeAttribute(None, None, None, None, None, None, None, None, [], None, [])

  /** The comparison the commit makes: pointers by identity, the literal list
      by value, and the keys as scoped keys compare (scope, path and key,
      not the parameter). */
  predicate SameAs(a: RuntimeAttribute, b: RuntimeAttribute)
  {
    a.clear == b.clear && a.property == b.property && a.starting == b.starting &&
    a.min == b.min && a.max == b.max && a.expr == b.expr && a.color == b.color &&
    a.literal == b.literal && a.literalList == b.literalList && a.singleKey == b.singleKey &&
    Identities(a.keys) == Identities(b.keys)
  }

  // ---- merge ----

  /** `RuntimeAttribute::merge`: every field the layer has replaces this
      one's, so a later layer wins over an earlier one (the opposite of
      `derive`); the two lists grow by the layer's entries; `clear` is never
      touched. */
  function MergeLayer(mine: RuntimeAttribute, l: Layer): (r: RuntimeAttribute)
    ensures r.clear == mine.clear
    ensures Target(r.property) == (if l.ref.property.Some? then l.ref.property else Target(mine.property))
    ensures Target(r.expr) == (if l.ref.expr.Some? then l.ref.expr else Target(mine.expr))
    ensures r.keys == mine.keys + l.ref.keys && r.literalList == mine.literalList + l.ref.literalList
  {
    mine.(
      property := Over(mine.property, l.id, l.ref.property),
      starting := Over(mine.starting, l.id, l.ref.starting),
      min := Over(mine.min, l.id, l.ref.min),
      max := Over(mine.max, l.id, l.ref.max),
      expr := Over(mine.expr, l.id, l.ref.expr),
      color := Over(mine.color, l.id, l.ref.color),
      literal := Over(mine.literal, l.id, l.ref.literal),
      singleKey := Over(mine.singleKey, l.id, l.ref.singleKey),
      keys := mine.keys + l.ref.keys,
      literalList := mine.literalList + l.ref.literalList)
  }

  /** Merging layers in order. */
  function MergeAll(a: RuntimeAttribute, ls: seq<Layer>): RuntimeAttribute
    decreases |ls|
  {
    if ls == [] then a else MergeAll(MergeLayer(a, ls[0]), ls[1..])
  }

  /** The pin of the last layer whose field `f` is set, if any. */
  function LastPin<T>(ls: seq<Layer>, f: ReferenceAttribute -> Option<T>): (r: Option<Pin<T>>)
    ensures r.Some? ==> exists i :: 0 <= i < |ls| && f(ls[i].ref).Some? &&
                                   r.value == Pin(ls[i].id, f(ls[i].ref).value) && forall j :: i < j < |ls| ==> f(ls[j].ref).None?
    ensures r.None? ==> forall j :: 0 <= j < |ls| ==> f(ls[j].ref).None?
    decreases |ls|
  {
    if ls == [] then None
    else
      var l := ls[|ls| - 1];
      if f(l.ref).Some? then Some(Pin(l.id, f(l.ref).value))
      else
        var r := LastPin(ls[..|ls| - 1], f);
        assert forall j :: 0 <= j < |ls| - 1 ==> ls[..|ls| - 1][j] == ls[j];
        r
  }

  /** Folding `Over` through the layers leaves the last layer's pin, or the
      starting one when no layer has the field. */
  lemma {:induction false} OverAllIsLast<T>(init: Option<Pin<T>>, ls: seq<Layer>, f: ReferenceAttribute -> Option<T>)
    ensures OverAll(init, ls, f) == (if LastPin(ls, f).Some? then LastPin(ls, f) else init)
    decreases |ls|
  {
    if ls != [] {
      var l := ls[|ls| - 1];
      var front := ls[..|ls| - 1];
      OverAllSnoc(init, front, l, f);
      assert ls == front + [l];
      OverAllIsLast(init, front, f);
    }
  }

  function OverAll<T>(init: Option<Pin<T>>, ls: seq<Layer>, f: ReferenceAttribute -> Option<T>): Option<Pin<T>>
    decreases |ls|
  {
    if ls == [] then init else OverAll(Over(init, ls[0].id, f(ls[0].ref)), ls[1..], f)
  }

  lemma {:induction false} OverAllSnoc<T>(init: Option<Pin<T>>, ls: seq<Layer>, l: Layer, f: ReferenceAttribute -> Option<T>)
    ensures OverAll(init, ls + [l], f) == Over(OverAll(init, ls, f), l.id, f(l.ref))
    decreases |ls|
  {
    if ls != [] {
      assert (ls + [l])[1..] == ls[1..] + [l];
      OverAllSnoc(Over(init, ls[0].id, f(ls[0].ref)), ls[1..], l, f);
    }
  }

  /** Every pointer field of a merge of layers comes from the fold of `Over`,
      and the lists are the concatenation of the layers' lists. */
  lemma {:induction false} MergeAllFields(a: RuntimeAttribute, ls: seq<Layer>)
    ensures var r := MergeAll(a, ls);
      r.clear == a.clear &&
      r.property == OverAll(a.property, ls, (x: ReferenceAttribute) => x.property) &&
      r.starting == OverAll(a.starting, ls, (x: ReferenceAttribute) => x.starting) &&
      r.min == OverAll(a.min, ls, (x: ReferenceAttribute) => x.min) &&
      r.max == OverAll(a.max, ls, (x: ReferenceAttribute) => x.max) &&
      r.expr == OverAll(a.expr, ls, (x: ReferenceAttribute) => x.expr) &&
      r.color == OverAll(a.color, ls, (x: ReferenceAttribute) => x.color) &&
      r.literal == OverAll(a.literal, ls, (x: ReferenceAttribute) => x.literal) &&
      r.singleKey == OverAll(a.singleKey, ls, (x: ReferenceAttribute) => x.singleKey)
    decreases |ls|
  {
    if ls != [] {
      MergeAllFields(MergeLayer(a, ls[0]), ls[1..]);
    }
  }

  function AllKeys(ls: seq<Layer>): seq<ScopedValueKey>
    decreases |ls|
  {
    if ls == [] then [] else ls[0].ref.keys + AllKeys(ls[1..])
  }

  function AllLiterals(ls: seq<Layer>): seq<string>
    decreases |ls|
  {
    if ls == [] then [] else ls[0].ref.literalList + AllLiterals(ls[1..])
  }

  /** Merging concatenates the layers' keys and literal lists in layer order. */
  lemma {:induction false} MergeAllConcatenates(a: RuntimeAttribute, ls: seq<Layer>)
    ensures MergeAll(a, ls).keys == a.keys + AllKeys(ls)
    ensures MergeAll(a, ls).literalList == a.literalList + AllLiterals(ls)
    decreases |ls|
  {
    if ls != [] {
      MergeAllConcatenates(MergeLayer(a, ls[0]), ls[1..]);
    }
  }

  /** After a reset and any merges, the main expression and the property
      are those of the last layer that has one. */
  lemma LastLayerWins(ls: seq<Layer>)
    ensures MergeAll(Empty, ls).expr == LastPin(ls, (x: ReferenceAttribute) => x.expr)
    ensures MergeAll(Empty, ls).property == LastPin(ls, (x: ReferenceAttribute) => x.property)
    ensures MergeAll(Empty, ls).clear.None?
  {
    MergeAllFields(Empty, ls);
    OverAllIsLast(None, ls, (x: ReferenceAttribute) => x.expr);
    OverAllIsLast(None, ls, (x: ReferenceAttribute) => x.property);
  }

  // ---- reading and writing the value ----

  /** Raise to the minimum, then lower to the maximum: the maximum wins
      where the two conflict. */
  function Bounded(v: real, lo: Option<real>, hi: Option<real>): real
  {
    var raised := if lo.Some? && lo.value > v then lo.value else v;
    if hi.Some? && hi.value < raised then hi.value else raised
  }

  lemma BoundedMeaning(v: real, lo: Option<real>, hi: Option<real>)
    ensures hi.Some? ==> Bounded(v, lo, hi) <= hi.value
    ensures lo.Some? && (hi.None? || lo.value <= hi.value) ==> lo.value <= Bounded(v, lo, hi)
    ensures (lo.None? || lo.value <= v) && (hi.None? || v <= hi.value) ==> Bounded(v, lo, hi) == v
    ensures lo.Some? && hi.Some? && hi.value < lo.value ==> Bounded(v, lo, hi) == hi.value
  {
  }

  /** Solving an optional bound; an error in it is the value's error. */
  function SolveBound(e: Option<Pin<ExpressionNode>>, store: Store): (r: Result<Option<real>>)
    ensures e.None? ==> r == Ok(None)
    ensures e.Some? ==> (r.Ok? <==> Solve(e.value.value, store).Ok?)
    ensures e.Some? && r.Ok? ==> r.value == Some(Solve(e.value.value, store).value)
  {
    if e.None? then Ok(None)
    else
      var s := Solve(e.value.value, store);
      if s.Err? then Err(s.error) else Ok(Some(s.value))
  }

  /** `RuntimeAttribute::getValue`: none without a main expression;
      otherwise its value, raised to the minimum and then lowered to the
      maximum. Expressions read the store as `getInteger`. */
  function GetValue(a: RuntimeAttribute, store: Store): (r: Result<Option<real>>)
    ensures a.expr.None? ==> r == Ok(None)
    ensures a.expr.Some? && r.Ok? ==> r.value.Some? && Solve(a.expr.value.value, store).Ok?
    ensures a.expr.Some? && Solve(a.expr.value.value, store).Ok? &&
            SolveBound(a.min, store).Ok? && SolveBound(a.max, store).Ok? ==>
            r == Ok(Some(Bounded(Solve(a.expr.value.value, store).value, SolveBound(a.min, store).value, SolveBound(a.max, store).value)))
  {
    if a.expr.None? then Ok(None)
    else
      var v := Solve(a.expr.value.value, store);
      var lo := SolveBound(a.min, store);
      var hi := SolveBound(a.max, store);
      if v.Err? then Err(v.error)
      else if lo.Err? then Err(lo.error)
      else if hi.Err? then Err(hi.error)
      else Ok(Some(Bounded(v.value, lo.value, hi.value)))
  }

  /** `RuntimeAttribute::setValue`: the starting expression is dropped and
      the main expression, if any, back-solves for the proposed value (with
      the weak path marked, as the rest of the model does), writing its weak
      key. */
  function SetValue(a: RuntimeAttribute, store: Store, proposed: real): (r: Result<(RuntimeAttribute, Store)>)
    ensures r.Ok? ==> r.value.0 == a.(starting := None)
    ensures a.expr.None? ==> r == Ok((a.(starting := None), store))
    ensures a.expr.Some? ==> (r.Ok? <==> BackSolve(MarkWeak(a.expr.value.value), store, proposed).Ok?)
    ensures a.expr.Some? && r.Ok? ==>
              r.value.1 == ApplyWrite(store, BackSolve(MarkWeak(a.expr.value.value), store, proposed).value.write)
  {
    var cleared := a.(starting := None);
    if a.expr.None? then Ok((cleared, store))
    else
      var b := BackSolve(MarkWeak(a.expr.value.value), store, proposed);
      if b.Err? then Err(b.error) else Ok((cleared, ApplyWrite(store, b.value.write)))
  }

  /** Setting a value and reading it back: with one weak term on the main
      expression and no bounds, the value read is the one proposed. */
  lemma SetThenGet(a: RuntimeAttribute, store: Store, id: KeyId, t: real)
    requires a.expr.Some? && a.min.None? && a.max.None?
    requires OneWeakTerm(a.expr.value.value, id, store)
    requires SetValue(a, store, t).Ok?
    ensures GetValue(SetValue(a, store, t).value.0, SetValue(a, store, t).value.1) == Ok(Some(t))
  {
    var e := a.expr.value.value;
    MarkedBackSolveRoundTrip(e, store, id, t);
  }

  // ---- the animatable attribute ----

  /** What an attribute reports to the environment. */
  datatype Signal = Changed(key: int) | TickerRequested(key: int) | TickerCancelled(key: int) | Accepted(key: int)

  /** `AnimatableAttribute`: the attribute being computed (`current`), the
      one shown before the last change (`previous`), and the copy taken at
      the start of a recompute (`checkpoint`). A ratio of 1 means no
      animation is under way. The animation start time is not modelled. */
  datatype Animatable = Animatable(
    key: int,
    active: bool,
    previous: RuntimeAttribute,
    current: RuntimeAttribute,
    checkpoint: RuntimeAttribute,
    delay: Option<Pin<int>>,
    ease: Option<Pin<Transition>>,
    lastRatio: real)

  /** A default-constructed attribute after `init` with its key. */
  function Initial(key: int): (r: Animatable)
    ensures r.key == key && !r.active && r.lastRatio == 1.0
    ensures r.current == Empty && r.previous == Empty && r.checkpoint == Empty
  {
    Animatable(key, false, Empty, Empty, Empty, None, None, 1.0)
  }

  /** `beginAttributeRecompute`: checkpoint the current attribute, forget the
      transition and the active flag, and reset the current attribute. */
  function Begin(a: Animatable): (r: Animatable)
    ensures r == a.(checkpoint := a.current, ease := None, delay := None, active := false, current := Empty)
  {
    a.(checkpoint := a.current, ease := None, delay := None, active := false, current := Empty)
  }

  /** `AnimatableAttribute::merge`: an inactive layer (or a cleared current
      attribute) changes nothing; otherwise the attribute becomes active,
      takes the layer's transition and delay where it has them, and merges
      the layer in. */
  function Merge(a: Animatable, l: Layer): (r: Animatable)
    ensures a.current.clear.Some? || !l.ref.active ==> r == a
    ensures a.current.clear.None? && l.ref.active ==>
              r == a.(active := true, ease := Over(a.ease, l.id, l.ref.ease),
                      delay := Over(a.delay, l.id, l.ref.delay), current := MergeLayer(a.current, l))
  {
    if a.current.clear.Some? || !l.ref.active then a
    else a.(active := true, ease := Over(a.ease, l.id, l.ref.ease),
            delay := Over(a.delay, l.id, l.ref.delay), current := MergeLayer(a.current, l))
  }

  function MergeEach(a: Animatable, ls: seq<Layer>): Animatable
    decreases |ls|
  {
    if ls == [] then a else MergeEach(Merge(a, ls[0]), ls[1..])
  }

  function Actives(ls: seq<Layer>): (r: seq<Layer>)
    ensures forall l :: l in r ==> l.ref.active
    decreases |ls|
  {
    if ls == [] then [] else (if ls[0].ref.active then [ls[0]] else []) + Actives(ls[1..])
  }

  /** Since merging never sets `clear`, the clear guard never fires: merging
      into a begun attribute merges exactly the active layers, and the
      attribute is active iff one of them was. Only the key and the copies
      outside `current` are left alone. */
  lemma {:induction false} MergeEachMergesActives(a: Animatable, ls: seq<Layer>)
    requires a.current.clear.None?
    ensures MergeEach(a, ls).current == MergeAll(a.current, Actives(ls))
    ensures MergeEach(a, ls).active == (a.active || Actives(ls) != [])
    ensures MergeEach(a, ls).checkpoint == a.checkpoint && MergeEach(a, ls).previous == a.previous
    ensures MergeEach(a, ls).key == a.key && MergeEach(a, ls).lastRatio == a.lastRatio
    decreases |ls|
  {
    if ls != [] {
      MergeEachMergesActives(Merge(a, ls[0]), ls[1..]);
      if ls[0].ref.active {
        assert Actives(ls) == [ls[0]] + Actives(ls[1..]);
        assert ([ls[0]] + Actives(ls[1..]))[1..] == Actives(ls[1..]);
      } else {
        assert Actives(ls) == [] + Actives(ls[1..]) == Actives(ls[1..]);
      }
    }
  }

  /** The result of a commit: the new attribute and what it signalled. */
  datatype Committed = Committed(attr: Animatable, signals: seq<Signal>)

  /** `commitAttributeRecompute`: nothing happens when the recompute gave
      what the checkpoint held. Otherwise the checkpoint becomes the
      previous attribute; with a transition or a delay the ratio drops to 0
      and the ticker is requested, without one the ratio is 1 and the
      ticker cancelled; then the change is signalled, once. */
  function Commit(a: Animatable): (r: Committed)
    ensures SameAs(a.checkpoint, a.current) ==> r == Committed(a, [])
    ensures !SameAs(a.checkpoint, a.current) ==>
              r.attr.previous == a.checkpoint &&
              r.attr == a.(previous := a.checkpoint, lastRatio := r.attr.lastRatio) &&
              (a.ease.Some? || a.delay.Some? ==> r.attr.lastRatio == 0.0 && r.signals == [TickerRequested(a.key), Changed(a.key)]) &&
              (a.ease.None? && a.delay.None? ==> r.attr.lastRatio == 1.0 && r.signals == [TickerCancelled(a.key), Changed(a.key)])
  {
    if SameAs(a.checkpoint, a.current) then Committed(a, [])
    else if a.ease.Some? || a.delay.Some? then
      Committed(a.(previous := a.checkpoint, lastRatio := 0.0), [TickerRequested(a.key), Changed(a.key)])
    else
      Committed(a.(previous := a.checkpoint, lastRatio := 1.0), [TickerCancelled(a.key), Changed(a.key)])
  }

  /** `getCorrectRTA`: the current attribute once no animation is under
      way, the previous one while it is. */
  function Correct(a: Animatable): (r: RuntimeAttribute)
    ensures a.lastRatio == 1.0 ==> r == a.current
    ensures a.lastRatio != 1.0 ==> r == a.previous
  {
    if a.lastRatio == 1.0 then a.current else a.previous
  }

  function GetProperty(a: Animatable): Option<int> { Target(Correct(a).property) }
  function GetLiteralList(a: Animatable): seq<string> { Correct(a).literalList }
  function GetSingleValueKey(a: Animatable): Option<ScopedValueKey> { Target(Correct(a).singleKey) }
  function GetValueKeyList(a: Animatable): seq<ScopedValueKey> { Correct(a).keys }
  function GetUserToken(a: Animatable): Option<string> { Target(Correct(a).literal) }
  function GetColor(a: Animatable): Option<Color> { Target(Correct(a).color) }

  /** After a changing commit the getters show the new attribute when there
      is no transition, and keep showing the one from before the recompute
      while a transition or delay is pending. */
  lemma CommitShows(a: Animatable)
    requires !SameAs(a.checkpoint, a.current)
    ensures a.ease.None? && a.delay.None? ==> Correct(Commit(a).attr) == a.current
    ensures a.ease.Some? || a.delay.Some? ==> Correct(Commit(a).attr) == a.checkpoint
    ensures GetProperty(Commit(a).attr) ==
              Target(if a.ease.None? && a.delay.None? then a.current.property else a.checkpoint.property)
  {
  }

  /** A change signals exactly once; no change signals nothing. */
  lemma CommitSignalsOnce(a: Animatable)
    ensures Changed(a.key) in Commit(a).signals <==> !SameAs(a.checkpoint, a.current)
    ensures |Commit(a).signals| == (if SameAs(a.checkpoint, a.current) then 0 else 2)
  {
  }

  /** A recompute that merges the same active layers as last time finds
      nothing changed: the commit signals nothing and keeps the attribute. */
  lemma RecomputeWithSameLayersIsQuiet(a: Animatable, ls: seq<Layer>)
    requires a.current == MergeAll(Empty, Actives(ls))
    ensures Commit(MergeEach(Begin(a), ls)).signals == []
    ensures Commit(MergeEach(Begin(a), ls)).attr.current == a.current
  {
    var b := MergeEach(Begin(a), ls);
    MergeEachMergesActives(Begin(a), ls);
    assert b.current == a.current && b.checkpoint == a.current;
    assert SameAs(b.checkpoint, b.current);
  }

  /** `AnimatableAttribute::getValue` once no animation is under way. The
      interpolated value mid-animation is not modelled. */
  function SettledValue(a: Animatable, store: Store): (r: Result<Option<real>>)
    ensures a.lastRatio == 1.0 ==> r == GetValue(a.current, store)
    ensures a.lastRatio != 1.0 ==> r.Err?
  {
    if a.lastRatio == 1.0 then GetValue(a.current, store) else Err(Animating)
  }

  const Animating: string := "Interpolated value during an animation"
}
