// The bookkeeping of the environment: which display item instantiates which
// element under which model item, how state keys are generated from their
// precursors, the set of items whose attribute sets changed, the acceptors
// of the state-changing attributes and the dispatch of triggers.
module Environments {
  import opened Wrappers
  import opened ValueKey
  import opened StateManagement
  import Elements
  import VirtualStateKey

  type ItemId = nat
  type ElementId = nat
  type ModelId = nat

  /** A display item and a model item are distinct objects: their addresses,
      used as state-key scopes and as observer identities, never meet. */
  function ItemAddress(i: ItemId): (a: nat)
    ensures a % 2 == 0
  {
    2 * i
  }

  function ModelAddress(m: ModelId): (a: nat)
    ensures a % 2 == 1
  {
    2 * m + 1
  }

  /** `DisplayItemKey`: the element an item instantiates and the model item
      it was made for (none for a static item). */
  datatype DisplayItemKey = DisplayItemKey(element: ElementId, model: Option<ModelId>)

  /** The model items as the environment sees them: the parent item of each
      one's container (none for a root container), with a depth that
      decreases towards the root. */
  datatype ModelTree = ModelTree(parent: map<ModelId, Option<ModelId>>, depth: map<ModelId, nat>)

  ghost predicate Ranked(t: ModelTree)
  {
    t.parent.Keys <= t.depth.Keys &&
    forall m :: m in t.parent && t.parent[m].Some? ==>
      t.parent[m].value in t.parent && t.depth[t.parent[m].value] < t.depth[m]
  }

  predicate InTree(t: ModelTree, m: Option<ModelId>)
  {
    m.Some? ==> m.value in t.parent
  }

  function Height(t: ModelTree, m: Option<ModelId>): nat
    requires InTree(t, m) && Ranked(t)
  {
    if m.None? then 0 else t.depth[m.value] + 1
  }

  /** A model item followed by its ancestors, ending with none. */
  function Chain(t: ModelTree, m: Option<ModelId>): (r: seq<Option<ModelId>>)
    requires Ranked(t) && InTree(t, m)
    ensures |r| > 0 && r[0] == m && r[|r| - 1].None?
    ensures forall j :: 0 <= j < |r| ==> InTree(t, r[j])
    decreases Height(t, m)
  {
    if m.None? then [None] else [m] + Chain(t, t.parent[m.value])
  }

  /** The walk of `deduceTarget`: the item of the element under the model
      item, else under its parent item, and so on up to the static level. */
  function FindUp(keys: map<DisplayItemKey, ItemId>, t: ModelTree, e: ElementId, m: Option<ModelId>): Option<ItemId>
    requires Ranked(t) && InTree(t, m)
    decreases Height(t, m)
  {
    if DisplayItemKey(e, m) in keys then Some(keys[DisplayItemKey(e, m)])
    else if m.None? then None
    else FindUp(keys, t, e, t.parent[m.value])
  }

  /** The walk finds the item of the nearest level of the chain that has
      one, and nothing exactly when no level has one. */
  lemma {:induction false} FindUpIsNearest(keys: map<DisplayItemKey, ItemId>, t: ModelTree, e: ElementId, m: Option<ModelId>)
    requires Ranked(t) && InTree(t, m)
    ensures FindUp(keys, t, e, m).None? <==> forall j :: 0 <= j < |Chain(t, m)| ==> DisplayItemKey(e, Chain(t, m)[j]) !in keys
    ensures FindUp(keys, t, e, m).Some? ==>
              exists j :: 0 <= j < |Chain(t, m)| && DisplayItemKey(e, Chain(t, m)[j]) in keys &&
                FindUp(keys, t, e, m) == Some(keys[DisplayItemKey(e, Chain(t, m)[j])]) &&
                forall i :: 0 <= i < j ==> DisplayItemKey(e, Chain(t, m)[i]) !in keys
    decreases Height(t, m)
  {
    var c := Chain(t, m);
    if DisplayItemKey(e, m) in keys {
      assert DisplayItemKey(e, c[0]) in keys;
    } else if m.Some? {
      var p := t.parent[m.value];
      FindUpIsNearest(keys, t, e, p);
      var c' := Chain(t, p);
      assert c == [m] + c';
      if FindUp(keys, t, e, p).Some? {
        var j :| 0 <= j < |c'| && DisplayItemKey(e, c'[j]) in keys &&
                 FindUp(keys, t, e, p) == Some(keys[DisplayItemKey(e, c'[j])]) &&
                 forall i :: 0 <= i < j ==> DisplayItemKey(e, c'[i]) !in keys;
        assert c[j + 1] == c'[j];
        assert forall i :: 0 < i < j + 1 ==> c[i] == c'[i - 1];
      } else {
        assert forall i :: 0 <= i < |Chain(t, p)| ==> DisplayItemKey(e, Chain(t, p)[i]) !in keys;
        forall j | 0 <= j < |c|
          ensures DisplayItemKey(e, c[j]) !in keys
        {
          if j > 0 {
            assert 0 <= j - 1 < |c'|;
            assert c[j] == c'[j - 1];
          } else {
            assert c[0] == m;
          }
        }
      }
    }
  }

  // ---- state-changer acceptors, on the state values ----

  /** Induce and unset: every listed state that exists reads `v`. */
  function Assigned(a: map<StateKey, bool>, keys: seq<StateKey>, v: bool): (r: map<StateKey, bool>)
  {
    map k | k in a :: if k in keys then v else a[k]
  }

  /** Toggle: each listed state that exists is flipped, once per listing. */
  function Toggled(a: map<StateKey, bool>, keys: seq<StateKey>): (r: map<StateKey, bool>)
    ensures r.Keys == a.Keys
    decreases |keys|
  {
    if keys == [] then a
    else
      var b := Toggled(a, keys[..|keys| - 1]);
      var k := keys[|keys| - 1];
      if k in b then b[k := !b[k]] else b
  }

  function Occurrences(keys: seq<StateKey>, k: StateKey): nat
    decreases |keys|
  {
    if keys == [] then 0
    else Occurrences(keys[..|keys| - 1], k) + (if keys[|keys| - 1] == k then 1 else 0)
  }

  /** A state ends up flipped exactly when it is listed an odd number of times. */
  lemma {:induction false} ToggledParity(a: map<StateKey, bool>, keys: seq<StateKey>, k: StateKey)
    requires k in a
    ensures Toggled(a, keys)[k] == (a[k] != (Occurrences(keys, k) % 2 == 1))
    decreases |keys|
  {
    if keys != [] {
      ToggledParity(a, keys[..|keys| - 1], k);
    }
  }

  lemma {:induction false} OccurrencesOfDistinct(keys: seq<StateKey>, k: StateKey)
    requires forall i, j :: 0 <= i < j < |keys| ==> keys[i] != keys[j]
    ensures Occurrences(keys, k) == if k in keys then 1 else 0
    decreases |keys|
  {
    if keys != [] {
      var front := keys[..|keys| - 1];
      assert keys == front + [keys[|keys| - 1]];
      OccurrencesOfDistinct(front, k);
    }
  }

  /** Toggling distinct states flips exactly the listed ones. */
  lemma ToggledDistinct(a: map<StateKey, bool>, keys: seq<StateKey>)
    requires forall i, j :: 0 <= i < j < |keys| ==> keys[i] != keys[j]
    ensures forall k :: k in a ==> Toggled(a, keys)[k] == (if k in keys then !a[k] else a[k])
  {
    forall k | k in a
      ensures Toggled(a, keys)[k] == (if k in keys then !a[k] else a[k])
    {
      ToggledParity(a, keys, k);
      OccurrencesOfDistinct(keys, k);
    }
  }

  /** Toggling the same list twice restores every state. */
  lemma ToggleTwice(a: map<StateKey, bool>, keys: seq<StateKey>)
    ensures Toggled(Toggled(a, keys), keys) == a
  {
    var b := Toggled(a, keys);
    forall k | k in a
      ensures Toggled(b, keys)[k] == a[k]
    {
      ToggledParity(a, keys, k);
      ToggledParity(b, keys, k);
    }
  }

  /** The first pass of the radio acceptor: the active listed state with
      the highest stamp (the first of equals; none above stamp 0 leaves the
      default key), that stamp, and how many listed states are active. */
  datatype Pick = Pick(top: StateKey, stamp: nat, count: nat)

  function RadioPick(keys: seq<StateKey>, active: map<StateKey, bool>, stamps: map<StateKey, nat>): Pick
    decreases |keys|
  {
    if keys == [] then Pick(VirtualStateKey.DefaultStateKey, 0, 0)
    else
      var p := RadioPick(keys[..|keys| - 1], active, stamps);
      var k := keys[|keys| - 1];
      if !(k in active && active[k]) then p
      else
        var s := if k in stamps then stamps[k] else 0;
        if s > p.stamp then Pick(k, s, p.count + 1) else p.(count := p.count + 1)
  }

  function ActiveListed(keys: seq<StateKey>, active: map<StateKey, bool>): nat
    decreases |keys|
  {
    if keys == [] then 0
    else ActiveListed(keys[..|keys| - 1], active) + (if keys[|keys| - 1] in active && active[keys[|keys| - 1]] then 1 else 0)
  }

  /** The pick counts the active listings, and a stamp above 0 belongs to an
      active listed state no other active listed state outstamps. */
  lemma {:induction false} RadioPickMeaning(keys: seq<StateKey>, active: map<StateKey, bool>, stamps: map<StateKey, nat>)
    requires active.Keys == stamps.Keys
    ensures RadioPick(keys, active, stamps).count == ActiveListed(keys, active)
    ensures var p := RadioPick(keys, active, stamps);
            p.stamp > 0 ==> p.top in keys && p.top in active && active[p.top] && stamps[p.top] == p.stamp
    ensures var p := RadioPick(keys, active, stamps);
            forall k :: k in keys && k in active && active[k] ==> stamps[k] <= p.stamp
    decreases |keys|
  {
    if keys != [] {
      var front := keys[..|keys| - 1];
      RadioPickMeaning(front, active, stamps);
      assert keys == front + [keys[|keys| - 1]];
    }
  }

  /** The radio acceptor's second pass: every listed state but the top one
      is set false. */
  function Cleared(a: map<StateKey, bool>, keys: seq<StateKey>, top: StateKey): (r: map<StateKey, bool>)
  {
    map k | k in a :: if k in keys && k != top then false else a[k]
  }

  /** With two or more listed states active, where active states carry
      stamps above 0, exactly one listed state stays active: the one with
      the highest stamp. */
  lemma RadioLeavesOne(keys: seq<StateKey>, active: map<StateKey, bool>, stamps: map<StateKey, nat>)
    requires active.Keys == stamps.Keys
    requires forall k :: k in active && active[k] ==> stamps[k] > 0
    requires RadioPick(keys, active, stamps).count > 1
    ensures var p := RadioPick(keys, active, stamps);
            var after := Cleared(active, keys, p.top);
            p.top in keys && p.top in after && after[p.top] &&
            (forall k :: k in keys && k in after && after[k] ==> k == p.top) &&
            (forall k :: k in keys && k in active && active[k] ==> stamps[k] <= stamps[p.top])
  {
    RadioPickMeaning(keys, active, stamps);
    ActiveListedPositive(keys, active);
    var k :| k in keys && k in active && active[k];
    assert stamps[k] > 0;
  }

  lemma {:induction false} ActiveListedPositive(keys: seq<StateKey>, active: map<StateKey, bool>)
    requires ActiveListed(keys, active) > 0
    ensures exists k :: k in keys && k in active && active[k]
    decreases |keys|
  {
    var front := keys[..|keys| - 1];
    var last := keys[|keys| - 1];
    if last in active && active[last] {
      assert last in keys;
    } else {
      ActiveListedPositive(front, active);
      var k :| k in front && k in active && active[k];
      assert k in keys;
    }
  }

  // ---- triggers ----

  const QuitTrigger: string := "IVD-Core-Quit"

  /** A trigger the dispatch hands to the item's model; any other is global,
      and the global quit trigger ends the run. */
  predicate ForModel(t: ScopedValueKey, model: Option<ModelId>)
  {
    t.scope == Some(Model) && model.Some?
  }

  predicate Quits(t: ScopedValueKey, model: Option<ModelId>)
  {
    !ForModel(t, model) && t.key == Some(QuitTrigger)
  }

  /** `reactToTrigger` calls, in order: the model item and the trigger's key. */
  function ModelReactions(ts: seq<ScopedValueKey>, model: Option<ModelId>): (r: seq<(ModelId, Option<string>)>)
    ensures |r| <= |ts|
    decreases |ts|
  {
    if ts == [] then []
    else
      var t := ts[|ts| - 1];
      ModelReactions(ts[..|ts| - 1], model) + (if ForModel(t, model) then [(model.value, t.key)] else [])
  }

  predicate AnyQuits(ts: seq<ScopedValueKey>, model: Option<ModelId>)
  {
    exists t :: t in ts && Quits(t, model)
  }


  /** A state key precursor rebuilt from a keyed attribute map's key. */
  function Precursor(k: KeyId): (p: ScopedValueKey)
    ensures Identity(p) == k && p.parameter.None?
  {
    ScopedValueKey(k.0, k.1, k.2, None)
  }

  /** The item (by its address) observes the state. */
  predicate Watches(t: Table, k: StateKey, observer: Item)
  {
    k in t.observers && observer in t.observers[k]
  }

  /** Registering an observer keeps every other observation. */
  lemma ObservingKeeps(t: Table, k: StateKey, item: Item, pos: Position, k2: StateKey, o: Item)
    requires Aligned(t) && Watches(t, k2, o)
    ensures Watches(Observing(Ensure(t, k), k, item, pos), k2, o)
  {
  }

  lemma ObservingAdds(t: Table, k: StateKey, item: Item, pos: Position)
    requires Aligned(t)
    ensures Watches(Observing(Ensure(t, k), k, item, pos), k, item)
  {
  }

  lemma AnyQuitsSnoc(ts: seq<ScopedValueKey>, t: ScopedValueKey, model: Option<ModelId>)
    ensures AnyQuits(ts + [t], model) <==> AnyQuits(ts, model) || Quits(t, model)
  {
    assert t in ts + [t];
    assert forall x :: x in ts ==> x in ts + [t];
  }

  /** The deferred virtual keys of an item: each with the item as context. */
  function Deferring(item: ItemId, vs: seq<VirtualStateKey.VirtualStateKeyPrecursor>): (r: seq<(ItemId, VirtualStateKey.VirtualStateKeyPrecursor)>)
    ensures |r| == |vs| && forall j :: 0 <= j < |vs| ==> r[j] == (item, vs[j])
  {
    seq(|vs|, j requires 0 <= j < |vs| => (item, vs[j]))
  }

  function InternalOf(internal: map<ModelId, seq<ItemId>>, m: ModelId): seq<ItemId>
  {
    if m in internal then internal[m] else []
  }

  /** The states that exist, in the order listed. */
  function Existing(keys: seq<StateKey>, present: set<StateKey>): (r: seq<StateKey>)
    ensures forall k :: k in r <==> k in keys && k in present
    decreases |keys|
  {
    if keys == [] then []
    else
      var front := keys[..|keys| - 1];
      var k := keys[|keys| - 1];
      assert keys == front + [k];
      Existing(front, present) + (if k in present then [k] else [])
  }

  lemma AssignedStep(a: map<StateKey, bool>, keys: seq<StateKey>, i: nat, v: bool)
    requires i < |keys|
    ensures Assigned(a, keys[..i + 1], v) ==
              if keys[i] in a then Assigned(a, keys[..i], v)[keys[i] := v] else Assigned(a, keys[..i], v)
  {
    assert keys[..i + 1] == keys[..i] + [keys[i]];
  }

  lemma ClearedStep(a: map<StateKey, bool>, keys: seq<StateKey>, i: nat, top: StateKey)
    requires i < |keys|
    ensures Cleared(a, keys[..i + 1], top) ==
              if keys[i] in a && keys[i] != top then Cleared(a, keys[..i], top)[keys[i] := false] else Cleared(a, keys[..i], top)
  {
    assert keys[..i + 1] == keys[..i] + [keys[i]];
  }

  /** `mutateIfObserved` without a cascade: the state, if it exists, reads
      the value given, and no other state changes value. */
  lemma MutatedAlone(t0: Table, t1: Table, last: nat, sent: seq<Notice>, k: StateKey, v: bool)
    requires NoDependents(t0, k) && Aligned(t0)
    requires k !in t0.active || t0.active[k] == v ==> t1 == t0
    requires k in t0.active && t0.active[k] != v ==> t1 == Stamped(t0, k, v, last + 1)
    ensures t1.active == if k in t0.active then t0.active[k := v] else t0.active
  {
    if k in t0.active && t0.active[k] == v {
      assert t0.active[k := v] == t0.active;
    }
  }

  /** All the reactions of the first `n` items of the order. */
  function Dispatched(order: seq<ItemId>, tm: map<ItemId, seq<ScopedValueKey>>, itk: map<ItemId, DisplayItemKey>, n: nat): seq<(ModelId, Option<string>)>
    requires n <= |order| && forall i :: i in order ==> i in tm && i in itk
  {
    if n == 0 then [] else Dispatched(order, tm, itk, n - 1) + ModelReactions(tm[order[n - 1]], itk[order[n - 1]].model)
  }

  /** One item's triggers, in order: which go to its model, and whether the
      quit trigger is among the others. */
  method DispatchItem(ts: seq<ScopedValueKey>, model: Option<ModelId>) returns (quit: bool, rs: seq<(ModelId, Option<string>)>)
    ensures quit <==> AnyQuits(ts, model)
    ensures rs == ModelReactions(ts, model)
  {
    quit := false;
    rs := [];
    for j := 0 to |ts|
      invariant quit <==> AnyQuits(ts[..j], model)
      invariant rs == ModelReactions(ts[..j], model)
    {
      var t := ts[j];
      assert ts[..j + 1] == ts[..j] + [t];
      assert ts[..j + 1][..j] == ts[..j];
      AnyQuitsSnoc(ts[..j], t, model);
      if ForModel(t, model) {
        rs := rs + [(model.value, t.key)];
      } else if t.key == Some(QuitTrigger) {
        quit := true;
      }
    }
    assert ts[..|ts|] == ts;
  }

  /** The loop of the trigger phase, over the items in `order`. */
  method DispatchAll(order: seq<ItemId>, tm: map<ItemId, seq<ScopedValueKey>>, itk: map<ItemId, DisplayItemKey>)
    returns (die: bool, reactions: seq<(ModelId, Option<string>)>)
    requires forall i :: i in order <==> i in tm
    requires tm.Keys <= itk.Keys
    ensures die <==> exists i :: i in tm && AnyQuits(tm[i], itk[i].model)
    ensures reactions == Dispatched(order, tm, itk, |order|)
  {
    die := false;
    reactions := [];
    for n := 0 to |order|
      invariant die <==> exists j :: 0 <= j < n && AnyQuits(tm[order[j]], itk[order[j]].model)
      invariant reactions == Dispatched(order, tm, itk, n)
    {
      var item := order[n];
      var quit, rs := DispatchItem(tm[item], itk[item].model);
      reactions := reactions + rs;
      die := die || quit;
    }
    if die {
      ghost var j :| 0 <= j < |order| && AnyQuits(tm[order[j]], itk[order[j]].model);
      assert order[j] in tm;
    } else {
      forall i | i in tm
        ensures !AnyQuits(tm[i], itk[i].model)
      {
        var j :| 0 <= j < |order| && order[j] == i;
      }
    }
  }

  /** The two key maps agree: every key leads to an allocated item whose key
      it is, and every item's model is known. */
  ghost predicate KeyMaps(t: ModelTree, next: ItemId, k2i: map<DisplayItemKey, ItemId>, i2k: map<ItemId, DisplayItemKey>)
  {
    Ranked(t) &&
    (forall i :: i in i2k ==> i < next && InTree(t, i2k[i].model)) &&
    (forall k :: k in k2i ==> k2i[k] in i2k && i2k[k2i[k]] == k)
  }

  /** Registering a new item under a key keeps the maps in agreement, even
      when the key had an item before. */
  lemma EnrollKeeps(t: ModelTree, next: ItemId, k2i: map<DisplayItemKey, ItemId>, i2k: map<ItemId, DisplayItemKey>, key: DisplayItemKey)
    requires KeyMaps(t, next, k2i, i2k) && InTree(t, key.model)
    ensures KeyMaps(t, next + 1, k2i[key := next], i2k[next := key])
  {
    var m := k2i[key := next];
    var n := i2k[next := key];
    forall k | k in m
      ensures m[k] in n && n[m[k]] == k
    {
      if k != key {
        assert k2i[k] < next;
      }
    }
  }

  /** Removing an item and its key keeps the maps in agreement, and no key
      leads to the item any more. */
  lemma DestroyKeeps(t: ModelTree, next: ItemId, k2i: map<DisplayItemKey, ItemId>, i2k: map<ItemId, DisplayItemKey>, item: ItemId)
    requires KeyMaps(t, next, k2i, i2k) && item in i2k
    ensures KeyMaps(t, next, k2i - {i2k[item]}, i2k - {item})
    ensures forall k :: k in k2i - {i2k[item]} ==> (k2i - {i2k[item]})[k] != item
  {
  }

  class Environment {
    const states: StateManager
    const models: ModelTree
    /** `elementLookupByPath`: the compiled elements by path. */
    const elementByPath: map<KeyPath, ElementId>
    /** `instances`: the live display items. */
    var instances: set<ItemId>
    /** The next display item to be allocated. */
    var nextItem: ItemId
    var keyToItem: map<DisplayItemKey, ItemId>
    var itemToKey: map<ItemId, DisplayItemKey>
    /** Each model item's `internalDisplayItems`. */
    var internalItems: map<ModelId, seq<ItemId>>
    /** `deferredVirtualStateKeys`, each with its context item. */
    var deferred: seq<(ItemId, VirtualStateKey.VirtualStateKeyPrecursor)>
    /** `itemsWithChangedAttributeSets`. */
    var dirty: set<ItemId>
    var triggerMap: map<ItemId, seq<ScopedValueKey>>

    /** Every key leads to a live item whose key it is; that item's model is
        known; the dirty and trigger items are live. */
    ghost predicate Books()
      reads this
    {
      KeyMaps(models, nextItem, keyToItem, itemToKey) &&
      itemToKey.Keys == instances && dirty <= instances && triggerMap.Keys <= instances
    }

    ghost predicate Valid()
      reads this, states
    {
      Books() && states.Valid()
    }

    constructor(depth: nat, models: ModelTree, elementByPath: map<KeyPath, ElementId>)
      requires Ranked(models)
      ensures Valid() && fresh(states)
      ensures this.models == models && this.elementByPath == elementByPath
      ensures instances == {} && keyToItem == map[] && itemToKey == map[] && internalItems == map[]
      ensures deferred == [] && dirty == {} && triggerMap == map[]
    {
      states := new StateManager(depth);
      this.models := models;
      this.elementByPath := elementByPath;
      instances := {};
      nextItem := 0;
      keyToItem := map[];
      itemToKey := map[];
      internalItems := map[];
      deferred := [];
      dirty := {};
      triggerMap := map[];
    }

    /** What `deduceTarget` finds: nothing for a path no element has;
        otherwise the walk up from the context's model item. */
    function Deduced(context: ItemId, path: KeyPath): (r: Option<ItemId>)
      reads this
      requires Books() && context in itemToKey
      ensures r.Some? ==> path in elementByPath && r.value in instances && itemToKey[r.value].element == elementByPath[path]
      ensures path !in elementByPath ==> r.None?
    {
      if path !in elementByPath then None
      else FindUpLive(elementByPath[path], itemToKey[context].model)
    }

    function FindUpLive(e: ElementId, m: Option<ModelId>): (r: Option<ItemId>)
      reads this
      requires Books() && InTree(models, m)
      ensures r == FindUp(keyToItem, models, e, m)
      ensures r.Some? ==> r.value in instances && itemToKey[r.value].element == e && itemToKey[r.value].model in Chain(models, m)
      decreases Height(models, m)
    {
      if DisplayItemKey(e, m) in keyToItem then Some(keyToItem[DisplayItemKey(e, m)])
      else if m.None? then None
      else FindUpLive(e, models.parent[m.value])
    }

    /** `deduceTarget`. */
    method DeduceTarget(context: ItemId, path: KeyPath) returns (r: Option<ItemId>)
      requires Books() && context in itemToKey
      ensures r == Deduced(context, path)
    {
      if path !in elementByPath {
        return None;
      }
      var e := elementByPath[path];
      var m := itemToKey[context].model;
      while DisplayItemKey(e, m) !in keyToItem
        invariant InTree(models, m)
        invariant FindUp(keyToItem, models, e, m) == Deduced(context, path)
        decreases Height(models, m)
      {
        if m.None? {
          return None;
        }
        m := models.parent[m.value];
      }
      r := Some(keyToItem[DisplayItemKey(e, m)]);
    }

    /** `generateStateKeyFromPrecursor`: the identity is the key; an element
        scope means the context item, a model scope its model item, any
        other scope the global level; a path replaces the scope by the item
        deduced from it. Failed assertions are errors. */
    function KeyFor(pre: ScopedValueKey, context: ItemId): (r: Result<StateKey>)
      reads this
      requires Books() && context in itemToKey
      ensures r.Ok? ==> pre.key.Some? && r.value.identity == pre.key.value
      ensures pre.key.None? ==> r.Err?
      ensures pre.scope == Some(Model) && (pre.path.Some? || itemToKey[context].model.None?) ==> r.Err?
      ensures r.Ok? && pre.path.Some? ==>
                Deduced(context, pre.path.value).Some? &&
                r.value.scope == Some(ItemAddress(Deduced(context, pre.path.value).value))
      ensures pre.path.Some? && Deduced(context, pre.path.value).None? ==> r.Err?
      ensures r.Ok? && pre.path.None? && pre.scope == Some(Element) ==> r.value.scope == Some(ItemAddress(context))
      ensures r.Ok? && pre.scope == Some(Model) ==> r.value.scope == Some(ModelAddress(itemToKey[context].model.value))
      ensures r.Ok? && pre.path.None? && pre.scope != Some(Element) && pre.scope != Some(Model) ==> r.value.scope.None?
      ensures pre.key.Some? && pre.path.None? && (pre.scope == Some(Model) ==> itemToKey[context].model.Some?) ==> r.Ok?
    {
      if pre.key.None? then Err(NoKeyName)
      else if pre.scope == Some(Model) && pre.path.Some? then Err(ModelPath)
      else if pre.scope == Some(Model) && itemToKey[context].model.None? then Err(NoModel)
      else if pre.path.Some? then
        var target := Deduced(context, pre.path.value);
        if target.None? then Err(NoTarget) else Ok(StateKey(pre.key.value, Some(ItemAddress(target.value))))
      else if pre.scope == Some(Element) then Ok(StateKey(pre.key.value, Some(ItemAddress(context))))
      else if pre.scope == Some(Model) then Ok(StateKey(pre.key.value, Some(ModelAddress(itemToKey[context].model.value))))
      else Ok(StateKey(pre.key.value, None))
    }

    method GenerateStateKey(pre: ScopedValueKey, context: ItemId) returns (r: Result<StateKey>)
      requires Books() && context in itemToKey
      ensures r == KeyFor(pre, context)
    {
      if pre.key.None? {
        return Err(NoKeyName);
      }
      var scope: Option<nat> := None;
      if pre.scope == Some(Element) {
        scope := Some(ItemAddress(context));
      } else if pre.scope == Some(Model) {
        if pre.path.Some? {
          return Err(ModelPath);
        }
        var m := itemToKey[context].model;
        if m.None? {
          return Err(NoModel);
        }
        scope := Some(ModelAddress(m.value));
      }
      if pre.path.Some? {
        var target := DeduceTarget(context, pre.path.value);
        if target.None? {
          return Err(NoTarget);
        }
        scope := Some(ItemAddress(target.value));
      }
      r := Ok(StateKey(pre.key.value, scope));
    }

    /** `applyToStates`' key generation, for every listed precursor. */
    method GenerateStateKeys(pres: seq<ScopedValueKey>, context: ItemId) returns (r: Result<seq<StateKey>>)
      requires Books() && context in itemToKey
      ensures r.Ok? <==> forall i :: 0 <= i < |pres| ==> KeyFor(pres[i], context).Ok?
      ensures r.Ok? ==> |r.value| == |pres| && forall i :: 0 <= i < |pres| ==> KeyFor(pres[i], context) == Ok(r.value[i])
    {
      var ks: seq<StateKey> := [];
      for i := 0 to |pres|
        invariant |ks| == i
        invariant forall j :: 0 <= j < i ==> KeyFor(pres[j], context) == Ok(ks[j])
      {
        var k := GenerateStateKey(pres[i], context);
        if k.Err? {
          return Err(k.error);
        }
        ks := ks + [k.value];
      }
      r := Ok(ks);
    }

    /** `registerStateObserver` for each state, with its position. */
    method RegisterObservers(ks: seq<StateKey>, observer: Item, positions: seq<Position>)
      requires states.Valid() && |positions| == |ks|
      modifies states
      ensures states.Valid()
      ensures forall j :: 0 <= j < |ks| ==> Watches(states.table, ks[j], observer)
    {
      for i := 0 to |ks|
        invariant states.Valid()
        invariant forall j :: 0 <= j < i ==> Watches(states.table, ks[j], observer)
      {
        ghost var t0 := states.table;
        assert Aligned(t0);
        states.RegisterStateObserver(ks[i], observer, positions[i]);
        forall j | 0 <= j < i
          ensures Watches(states.table, ks[j], observer)
        {
          ObservingKeeps(t0, ks[i], observer, positions[i], ks[j], observer);
        }
        ObservingAdds(t0, ks[i], observer, positions[i]);
      }
    }

    /** The bookkeeping half of `setupNewDisplayItem`. */
    method Enroll(element: ElementId, model: Option<ModelId>, virtualKeys: seq<VirtualStateKey.VirtualStateKeyPrecursor>)
      returns (item: ItemId)
      requires Books() && InTree(models, model)
      modifies this
      ensures Books()
      ensures item == old(nextItem) && item in itemToKey
      ensures nextItem == old(nextItem) + 1 && instances == old(instances) + {item}
      ensures keyToItem == old(keyToItem)[DisplayItemKey(element, model) := item]
      ensures itemToKey == old(itemToKey)[item := DisplayItemKey(element, model)]
      ensures model.Some? ==> internalItems == old(internalItems)[model.value := InternalOf(old(internalItems), model.value) + [item]]
      ensures model.None? ==> internalItems == old(internalItems)
      ensures triggerMap == old(triggerMap)
      ensures dirty == old(dirty) + {item} && deferred == old(deferred) + Deferring(item, virtualKeys)
    {
      item := nextItem;
      var key := DisplayItemKey(element, model);
      EnrollKeeps(models, nextItem, keyToItem, itemToKey, key);
      nextItem := nextItem + 1;
      instances := instances + {item};
      keyToItem := keyToItem[key := item];
      itemToKey := itemToKey[item := key];
      if model.Some? {
        internalItems := internalItems[model.value := InternalOf(internalItems, model.value) + [item]];
      }
      deferred := deferred + Deferring(item, virtualKeys);
      dirty := dirty + {item};
    }

    /** `setupNewDisplayItem`: the new item is registered under its
        (element, model) key both ways and added to its model item; one
        observer is registered per keyed state; the element's virtual keys
        are deferred with the item as context; the item is marked dirty.
        `order` is the keyed map's iteration order. A state key that cannot
        be generated is an error. */
    method SetupNewDisplayItem(element: ElementId, elem: Elements.Element, model: Option<ModelId>, order: seq<KeyId>)
      returns (r: Result<ItemId>)
      requires Valid() && InTree(models, model)
      requires forall k :: k in order <==> k in elem.keyedMap
      modifies this, states
      ensures Valid()
      ensures nextItem == old(nextItem) + 1 && instances == old(instances) + {old(nextItem)}
      ensures keyToItem == old(keyToItem)[DisplayItemKey(element, model) := old(nextItem)]
      ensures itemToKey == old(itemToKey)[old(nextItem) := DisplayItemKey(element, model)]
      ensures model.Some? ==> internalItems == old(internalItems)[model.value := InternalOf(old(internalItems), model.value) + [old(nextItem)]]
      ensures model.None? ==> internalItems == old(internalItems)
      ensures triggerMap == old(triggerMap)
      ensures r.Ok? ==> r.value == old(nextItem)
      ensures r.Ok? ==> dirty == old(dirty) + {r.value} && deferred == old(deferred) + Deferring(r.value, elem.virtualKeys)
      ensures r.Ok? ==> forall k :: k in order ==>
                KeyFor(Precursor(k), r.value).Ok? && Watches(states.table, KeyFor(Precursor(k), r.value).value, ItemAddress(r.value))
      ensures r.Err? <==> exists k :: k in order && KeyFor(Precursor(k), old(nextItem)).Err?
    {
      var item := Enroll(element, model, elem.virtualKeys);
      var pres := seq(|order|, j requires 0 <= j < |order| => Precursor(order[j]));
      var ks := GenerateStateKeys(pres, item);
      if ks.Err? {
        var j :| 0 <= j < |pres| && KeyFor(pres[j], item).Err?;
        assert order[j] in order;
        return Err(ks.error);
      }
      var keyed := elem.keyedMap;
      var positions := seq(|order|, j requires 0 <= j < |order| => keyed[order[j]]);
      RegisterObservers(ks.value, ItemAddress(item), positions);
      forall k | k in order
        ensures KeyFor(Precursor(k), item).Ok? && Watches(states.table, KeyFor(Precursor(k), item).value, ItemAddress(item))
      {
        var j :| 0 <= j < |order| && order[j] == k;
        assert pres[j] == Precursor(k);
      }
      r := Ok(item);
    }

    /** `destroyDisplayItem`'s bookkeeping: the item leaves both key maps,
        the dirty set, the state manager's observers and the instances. */
    method DestroyDisplayItem(item: ItemId)
      requires Valid() && item in instances && item !in triggerMap
      modifies this, states
      ensures Valid()
      ensures keyToItem == old(keyToItem) - {old(itemToKey)[item]}
      ensures itemToKey == old(itemToKey) - {item} && instances == old(instances) - {item} && dirty == old(dirty) - {item}
      ensures forall k :: k in keyToItem ==> keyToItem[k] != item
      ensures forall k :: k in states.table.observers ==> ItemAddress(item) !in states.table.observers[k]
      ensures triggerMap == old(triggerMap) && internalItems == old(internalItems) && deferred == old(deferred)
      ensures nextItem == old(nextItem)
    {
      var key := itemToKey[item];
      DestroyKeeps(models, nextItem, keyToItem, itemToKey, item);
      keyToItem := keyToItem - {key};
      itemToKey := itemToKey - {item};
      dirty := dirty - {item};
      states.RemoveReferencesToDisplayItem(ItemAddress(item));
      instances := instances - {item};
    }

    /** The start of a frame's recompute: the dirty set is copied and
        cleared, so items marked while the copy is processed wait for the
        next frame. */
    method TakeDirty() returns (batch: set<ItemId>)
      requires Books()
      modifies this
      ensures Books()
      ensures batch == old(dirty) && dirty == {}
      ensures instances == old(instances) && keyToItem == old(keyToItem) && itemToKey == old(itemToKey)
      ensures triggerMap == old(triggerMap) && internalItems == old(internalItems) && deferred == old(deferred)
      ensures nextItem == old(nextItem)
    {
      batch := dirty;
      dirty := {};
    }

    /** An item's attribute set changed. */
    method MarkDirty(item: ItemId)
      requires Books() && item in instances
      modifies this
      ensures Books()
      ensures dirty == old(dirty) + {item}
      ensures instances == old(instances) && keyToItem == old(keyToItem) && itemToKey == old(itemToKey)
      ensures triggerMap == old(triggerMap) && internalItems == old(internalItems) && deferred == old(deferred)
      ensures nextItem == old(nextItem)
    {
      dirty := dirty + {item};
    }

    /** The recompute phase of a frame, with what recomputing the i-th item
        of the batch marks dirty given as `marks[i]`: the batch is exactly
        the items dirty when the frame began, and what is dirty afterwards is
        exactly what the batch marked. */
    method RecomputePhase(order: seq<ItemId>, marks: seq<set<ItemId>>) returns (batch: set<ItemId>)
      requires Books()
      requires |marks| == |order| && forall i :: 0 <= i < |marks| ==> marks[i] <= instances
      requires forall i :: i in order <==> i in dirty
      modifies this
      ensures Books()
      ensures batch == old(dirty)
      ensures forall i :: i in dirty <==> exists j :: 0 <= j < |marks| && i in marks[j]
      ensures instances == old(instances) && keyToItem == old(keyToItem) && itemToKey == old(itemToKey)
    {
      batch := TakeDirty();
      for i := 0 to |order|
        invariant Books() && instances == old(instances) && keyToItem == old(keyToItem) && itemToKey == old(itemToKey)
        invariant forall x :: x in dirty <==> exists j :: 0 <= j < i && x in marks[j]
      {
        ghost var d := dirty;
        dirty := dirty + marks[i];
        forall x | x in dirty
          ensures exists j :: 0 <= j < i + 1 && x in marks[j]
        {
          if x !in marks[i] {
            assert x in d;
          }
        }
      }
    }

    // ---- the state-changer acceptors ----

    /** `mutateIfObserved` on one state: without a cascade the state, if it
        exists, reads `v` and no other state changes value. */
    method MutateAlone(k: StateKey, v: bool)
      requires states.Valid()
      modifies states
      ensures states.Valid()
      ensures ValuesOnly(old(states.table), states.table)
      ensures NoDependents(old(states.table), k) ==>
                states.table.active == if k in old(states.table.active) then old(states.table.active)[k := v] else old(states.table.active)
    {
      ghost var t0 := states.table;
      ghost var last := states.lastStamp;
      ghost var sent := states.notices;
      assert Aligned(t0);
      var _ := states.MutateIfObserved(k, v);
      if NoDependents(t0, k) {
        assert k in t0.active ==> |t0.affected[k]| == 0;
        assert k in t0.active && t0.active[k] != v ==> states.table == Stamped(t0, k, v, last + 1);
        MutatedAlone(t0, states.table, last, sent, k, v);
      }
    }

    /** The induce (`v` true) and unset (`v` false) acceptors:
        `mutateIfObserved` on every listed state. Without virtual-state
        cascades every listed state that exists reads `v` afterwards and no
        other state changes value. */
    method SetEach(keys: seq<StateKey>, v: bool)
      requires states.Valid()
      modifies states
      ensures states.Valid()
      ensures ValuesOnly(old(states.table), states.table)
      ensures Calm(old(states.table), keys) ==> states.table.active == Assigned(old(states.table.active), keys, v)
    {
      ghost var t := states.table;
      ghost var calm := Calm(t, keys);
      assert Assigned(t.active, keys[..0], v) == t.active;
      for i := 0 to |keys|
        invariant states.Valid()
        invariant ValuesOnly(t, states.table)
        invariant calm ==> states.table.active == Assigned(t.active, keys[..i], v)
      {
        ghost var t0 := states.table;
        assert calm ==> keys[i] in keys && NoDependents(t, keys[i]) && t0.affected == t.affected;
        MutateAlone(keys[i], v);
        ValuesOnlyTrans(t, t0, states.table);
        AssignedStep(t.active, keys, i, v);
      }
      assert keys[..|keys|] == keys;
    }

    /** The toggle acceptor: every listed state is checked and set to the
        opposite value. Without cascades the states end up `Toggled`. */
    method ToggleEach(keys: seq<StateKey>)
      requires states.Valid()
      modifies states
      ensures states.Valid()
      ensures ValuesOnly(old(states.table), states.table)
      ensures Calm(old(states.table), keys) ==> states.table.active == Toggled(old(states.table.active), keys)
    {
      ghost var t := states.table;
      ghost var calm := Calm(t, keys);
      assert keys[..0] == [];
      for i := 0 to |keys|
        invariant states.Valid()
        invariant ValuesOnly(t, states.table)
        invariant calm ==> states.table.active == Toggled(t.active, keys[..i])
      {
        var on := states.CheckState(keys[i]);
        ghost var t0 := states.table;
        assert calm ==> keys[i] in keys && NoDependents(t, keys[i]) && t0.affected == t.affected;
        MutateAlone(keys[i], !on);
        ValuesOnlyTrans(t, t0, states.table);
        assert keys[..i + 1][..i] == keys[..i];
      }
      assert keys[..|keys|] == keys;
    }

    /** The radio acceptor's first pass, reading the states. */
    method PickTop(keys: seq<StateKey>) returns (p: Pick)
      requires states.Valid()
      ensures p == RadioPick(keys, states.table.active, states.table.stamps)
    {
      p := Pick(VirtualStateKey.DefaultStateKey, 0, 0);
      for i := 0 to |keys|
        invariant p == RadioPick(keys[..i], states.table.active, states.table.stamps)
      {
        var k := keys[i];
        assert keys[..i + 1][..i] == keys[..i];
        if states.CheckState(k) {
          var s := states.GetStamp(k);
          if s > p.stamp {
            p := Pick(k, s, p.count + 1);
          } else {
            p := p.(count := p.count + 1);
          }
        }
      }
      assert keys[..|keys|] == keys;
    }

    /** The radio acceptor: with two or more listed states active, every
        listed state but the top one is set false; otherwise nothing
        changes. */
    method Radio(keys: seq<StateKey>) returns (p: Pick)
      requires states.Valid()
      modifies states
      ensures states.Valid()
      ensures p == RadioPick(keys, old(states.table.active), old(states.table.stamps))
      ensures ValuesOnly(old(states.table), states.table)
      ensures p.count <= 1 ==> states.table == old(states.table)
      ensures Calm(old(states.table), keys) && p.count > 1 ==>
                states.table.active == Cleared(old(states.table.active), keys, p.top)
      ensures Calm(old(states.table), keys) && p.count > 1 ==>
                p.top in keys && p.top in states.table.active && states.table.active[p.top] &&
                forall k :: k in keys && k in states.table.active && states.table.active[k] ==> k == p.top
    {
      ghost var t := states.table;
      p := PickTop(keys);
      if p.count > 1 {
        ClearAllBut(keys, p.top);
        RadioLeavesOne(keys, t.active, t.stamps);
      }
    }

    /** The radio acceptor's second pass: `mutateIfObserved(false)` on every
        listed state but `top`. */
    method ClearAllBut(keys: seq<StateKey>, top: StateKey)
      requires states.Valid()
      modifies states
      ensures states.Valid()
      ensures ValuesOnly(old(states.table), states.table)
      ensures Calm(old(states.table), keys) ==> states.table.active == Cleared(old(states.table.active), keys, top)
    {
      ghost var t := states.table;
      ghost var calm := Calm(t, keys);
      assert Cleared(t.active, keys[..0], top) == t.active;
      for i := 0 to |keys|
        invariant states.Valid()
        invariant ValuesOnly(t, states.table)
        invariant calm ==> states.table.active == Cleared(t.active, keys[..i], top)
      {
        ClearedStep(t.active, keys, i, top);
        if keys[i] != top {
          ghost var t0 := states.table;
          assert calm ==> keys[i] in keys && NoDependents(t, keys[i]) && t0.affected == t.affected;
          MutateAlone(keys[i], false);
          ValuesOnlyTrans(t, t0, states.table);
        }
      }
      assert keys[..|keys|] == keys;
    }

    /** The trigger-state acceptor: `setTriggerIfObserved` on every listed
        state; the ones that exist are queued for reset, in order. */
    method TriggerEach(keys: seq<StateKey>)
      requires states.Valid()
      modifies states
      ensures states.Valid()
      ensures ValuesOnly(old(states.table), states.table)
      ensures states.triggerStates == old(states.triggerStates) + Existing(keys, old(states.table.active).Keys)
    {
      ghost var t := states.table;
      ghost var q := states.triggerStates;
      for i := 0 to |keys|
        invariant states.Valid()
        invariant ValuesOnly(t, states.table)
        invariant states.triggerStates == q + Existing(keys[..i], t.active.Keys)
      {
        ghost var t0 := states.table;
        states.SetTriggerIfObserved(keys[i]);
        ValuesOnlyTrans(t, t0, states.table);
        assert keys[..i + 1][..i] == keys[..i];
      }
      assert keys[..|keys|] == keys;
    }

    /** The triggers acceptor: an item with triggers records them. */
    method AcceptTriggers(item: ItemId, triggers: seq<ScopedValueKey>)
      requires Books() && item in instances
      modifies this
      ensures Books()
      ensures triggerMap == if |triggers| > 0 then old(triggerMap)[item := triggers] else old(triggerMap)
      ensures instances == old(instances) && keyToItem == old(keyToItem) && itemToKey == old(itemToKey) && dirty == old(dirty)
    {
      if |triggers| > 0 {
        triggerMap := triggerMap[item := triggers];
      }
    }

    /** The trigger phase of a frame, over the items in `order` (the trigger
        map's order): model-scoped triggers of an item with a model go to
        that model, the global quit trigger asks the run to end, every
        trigger is dispatched either way, and the map is cleared. */
    method DispatchTriggers(order: seq<ItemId>) returns (die: bool, reactions: seq<(ModelId, Option<string>)>)
      requires Books()
      requires forall i :: i in order <==> i in triggerMap
      modifies this
      ensures instances == old(instances) && keyToItem == old(keyToItem) && itemToKey == old(itemToKey) && dirty == old(dirty)
      ensures Books()
      ensures triggerMap == map[]
      ensures die <==> exists i :: i in old(triggerMap) && AnyQuits(old(triggerMap)[i], itemToKey[i].model)
      ensures reactions == Dispatched(order, old(triggerMap), itemToKey, |order|)
    {
      die, reactions := DispatchAll(order, triggerMap, itemToKey);
      triggerMap := map[];
    }
  }

  const NoKeyName: string := "State key precursor without a key"
  const ModelPath: string := "Model-scoped state key with a path"
  const NoModel: string := "Model-scoped state key outside a model"
  const NoTarget: string := "Could not deduce the target of a state key path"
}
