// A compiled template element (or class): its default attribute set, one
// attribute set per state key it reacts to, its virtual state keys and the
// initial expressions of its variables. The sets are held by value.
module Elements {
  import opened Wrappers
  import opened ValueKey
  import opened ReferenceAttributes
  import AttributeKey
  import VirtualStateKey

  /** A keyed slot's position together with its attribute set. */
  datatype AttributePositionPair = AttributePositionPair(position: int, attrs: AttributeSet)

  /** A slot's contents in a snapshot of the slots; blank when absent. */
  function Lookup(slots: map<KeyId, AttributeSet>, k: KeyId): AttributeSet
  {
    if k in slots then slots[k] else BlankSet
  }

  ghost predicate AllWellFormed(slots: map<KeyId, AttributeSet>)
  {
    forall k :: k in slots ==> WellFormed(slots[k])
  }

  /** The key map sends distinct keys to distinct existing positions. */
  ghost predicate Positions(keyed: seq<AttributeSet>, keyedMap: map<KeyId, nat>)
  {
    (forall k :: k in keyedMap ==> keyedMap[k] < |keyed|) &&
    (forall k, l :: k in keyedMap && l in keyedMap && k != l ==> keyedMap[k] != keyedMap[l])
  }

  /** The set of every state key, read through the key map. */
  ghost function SlotsOf(keyed: seq<AttributeSet>, keyedMap: map<KeyId, nat>): (r: map<KeyId, AttributeSet>)
    ensures forall k :: k in r <==> k in keyedMap && keyedMap[k] < |keyed|
    ensures (forall i :: 0 <= i < |keyed| ==> WellFormed(keyed[i])) ==> AllWellFormed(r)
  {
    map k | k in keyedMap && keyedMap[k] < |keyed| :: keyed[keyedMap[k]]
  }

  /** Writing one position changes only the slot of the key stored there. */
  lemma SlotsUpdate(keyed: seq<AttributeSet>, keyedMap: map<KeyId, nat>, key: KeyId, x: AttributeSet)
    requires Positions(keyed, keyedMap) && key in keyedMap
    ensures SlotsOf(keyed[keyedMap[key] := x], keyedMap) == SlotsOf(keyed, keyedMap)[key := x]
  {
  }

  lemma UpdateTwice<K, V>(m: map<K, V>, k: K, a: V, b: V)
    ensures m[k := a][k := b] == m[k := b]
  {
  }

  /** A new key with a blank set at the next position. */
  lemma SlotsAppend(keyed: seq<AttributeSet>, keyedMap: map<KeyId, nat>, key: KeyId)
    requires Positions(keyed, keyedMap) && key !in keyedMap
    ensures SlotsOf(keyed + [BlankSet], keyedMap[key := |keyed|]) == SlotsOf(keyed, keyedMap)[key := BlankSet]
  {
    var a := SlotsOf(keyed + [BlankSet], keyedMap[key := |keyed|]);
    var b := SlotsOf(keyed, keyedMap)[key := BlankSet];
    assert forall k :: k in a ==> a[k] == b[k];
  }

  /** The slots after `deriveFrom`: every key of the parent derives into the
      child's slot for it (a blank one if the child had none); the child's
      other slots are kept. */
  function DerivedSlots(mine: map<KeyId, AttributeSet>, parent: map<KeyId, AttributeSet>): (r: map<KeyId, AttributeSet>)
    requires AllWellFormed(mine) && AllWellFormed(parent)
    ensures r.Keys == mine.Keys + parent.Keys
    ensures AllWellFormed(r)
  {
    map k | k in mine.Keys + parent.Keys ::
      if k in parent then DerivedSet(Lookup(mine, k), parent[k]) else mine[k]
  }

  /** With no parent keys nothing changes. */
  lemma DerivedSlotsNone(mine: map<KeyId, AttributeSet>)
    requires AllWellFormed(mine)
    ensures DerivedSlots(mine, map[]) == mine
  {
  }

  /** One more parent key. */
  lemma DerivedSlotsStep(mine: map<KeyId, AttributeSet>, done: map<KeyId, AttributeSet>, key: KeyId, x: AttributeSet)
    requires AllWellFormed(mine) && AllWellFormed(done) && WellFormed(x) && key !in done
    ensures Lookup(DerivedSlots(mine, done), key) == Lookup(mine, key)
    ensures DerivedSlots(mine, done[key := x]) == DerivedSlots(mine, done)[key := DerivedSet(Lookup(mine, key), x)]
  {
  }

  /** A state of the parent the child has no attributes for arrives in the
      child as the parent's slot derived into a blank set. */
  lemma DerivedSlotsNewState(mine: map<KeyId, AttributeSet>, parent: map<KeyId, AttributeSet>, k: KeyId)
    requires AllWellFormed(mine) && AllWellFormed(parent)
    requires k in parent && k !in mine
    ensures DerivedSlots(mine, parent)[k] == DerivedSet(BlankSet, parent[k])
  {
  }

  /** Every set has a slot per attribute key, and the key map sends distinct
      keys to distinct existing positions. */
  ghost predicate TableValid(keyed: seq<AttributeSet>, keyedMap: map<KeyId, nat>)
  {
    (forall i :: 0 <= i < |keyed| ==> WellFormed(keyed[i])) && Positions(keyed, keyedMap)
  }

  /** Every key keeps its position. */
  ghost predicate Extends(later: map<KeyId, nat>, earlier: map<KeyId, nat>)
  {
    forall k :: k in earlier ==> k in later && later[k] == earlier[k]
  }

  /** `obtainPosForKey` on the table: the stored position of a known key; a
      new key gets a blank set at the next position. Either way no state's
      attributes change: a new slot reads as the missing one did. */
  method ObtainPos(keyed: seq<AttributeSet>, keyedMap: map<KeyId, nat>, key: KeyId)
    returns (ks: seq<AttributeSet>, km: map<KeyId, nat>, pos: nat)
    requires TableValid(keyed, keyedMap)
    ensures TableValid(ks, km) && Extends(km, keyedMap)
    ensures key in km && km[key] == pos && pos < |ks|
    ensures ks[pos] == Lookup(SlotsOf(keyed, keyedMap), key)
    ensures key in keyedMap ==> pos == keyedMap[key] && ks == keyed && km == keyedMap
    ensures key !in keyedMap ==> pos == |keyed| && ks == keyed + [BlankSet] && km == keyedMap[key := pos]
    ensures SlotsOf(ks, km) == SlotsOf(keyed, keyedMap)[key := Lookup(SlotsOf(keyed, keyedMap), key)]
  {
    if key in keyedMap {
      pos := keyedMap[key];
      ks, km := keyed, keyedMap;
      assert SlotsOf(ks, km) == SlotsOf(keyed, keyedMap)[key := Lookup(SlotsOf(keyed, keyedMap), key)];
      return;
    }
    SlotsAppend(keyed, keyedMap, key);
    pos := |keyed|;
    ks := keyed + [BlankSet];
    km := keyedMap[key := pos];
  }

  /** One round of `deriveFrom`'s loop: the slot for `key` (created blank if
      absent) derives from the parent's set `x`. */
  method DeriveKeyInto(keyed: seq<AttributeSet>, keyedMap: map<KeyId, nat>, key: KeyId, x: AttributeSet)
    returns (ks: seq<AttributeSet>, km: map<KeyId, nat>)
    requires TableValid(keyed, keyedMap) && WellFormed(x)
    ensures TableValid(ks, km) && Extends(km, keyedMap)
    ensures SlotsOf(ks, km) == SlotsOf(keyed, keyedMap)[key := DerivedSet(Lookup(SlotsOf(keyed, keyedMap), key), x)]
  {
    ghost var before := SlotsOf(keyed, keyedMap);
    var pos;
    ks, km, pos := ObtainPos(keyed, keyedMap, key);
    var derived := ReferenceAttributes.DeriveFrom(ks[pos], x);
    SlotsUpdate(ks, km, key, derived);
    UpdateTwice(before, key, Lookup(before, key), derived);
    ks := ks[pos := derived];
  }

  /** The parent's slots whose keys the loop has already visited. */
  ghost function Visited(theirs: map<KeyId, AttributeSet>, todo: set<KeyId>): (r: map<KeyId, AttributeSet>)
    requires AllWellFormed(theirs)
    ensures AllWellFormed(r)
  {
    map k | k in theirs && k !in todo :: theirs[k]
  }

  /** Visiting one more key adds its slot. */
  lemma VisitedStep(theirs: map<KeyId, AttributeSet>, todo: set<KeyId>, key: KeyId)
    requires AllWellFormed(theirs) && key in todo && key in theirs
    ensures key !in Visited(theirs, todo)
    ensures Visited(theirs, todo - {key}) == Visited(theirs, todo)[key := theirs[key]]
  {
  }

  /** Before the loop nothing is visited; after it, everything. */
  lemma VisitedEnds(theirs: map<KeyId, AttributeSet>)
    requires AllWellFormed(theirs)
    ensures Visited(theirs, theirs.Keys) == map[]
    ensures Visited(theirs, {}) == theirs
  {
  }

  /** The loop of `deriveFrom` over the parent's state keys. */
  method DeriveKeys(keyed: seq<AttributeSet>, keyedMap: map<KeyId, nat>,
                    parentKeyed: seq<AttributeSet>, parentMap: map<KeyId, nat>)
    returns (ks: seq<AttributeSet>, km: map<KeyId, nat>)
    requires TableValid(keyed, keyedMap) && TableValid(parentKeyed, parentMap)
    ensures TableValid(ks, km) && Extends(km, keyedMap)
    ensures SlotsOf(ks, km) == DerivedSlots(SlotsOf(keyed, keyedMap), SlotsOf(parentKeyed, parentMap))
  {
    ghost var mine := SlotsOf(keyed, keyedMap);
    ghost var theirs := SlotsOf(parentKeyed, parentMap);
    ks, km := keyed, keyedMap;
    var todo := parentMap.Keys;
    VisitedEnds(theirs);
    DerivedSlotsNone(mine);
    while todo != {}
      invariant TableValid(ks, km) && Extends(km, keyedMap) && todo <= parentMap.Keys
      invariant SlotsOf(ks, km) == DerivedSlots(mine, Visited(theirs, todo))
      decreases todo
    {
      var key :| key in todo;
      VisitedStep(theirs, todo, key);
      DerivedSlotsStep(mine, Visited(theirs, todo), key, theirs[key]);
      ks, km := DeriveKeyInto(ks, km, key, parentKeyed[parentMap[key]]);
      todo := todo - {key};
    }
  }

  class Element {
    const elementStamp: int
    var defaultAttr: AttributeSet
    /** The keyed attribute sets, in the order their keys were first seen. */
    var keyed: seq<AttributeSet>
    /** The position of each state key's set in `keyed`. */
    var keyedMap: map<KeyId, nat>
    var virtualKeys: seq<VirtualStateKey.VirtualStateKeyPrecursor>
    var initials: map<string, ExpressionNode>

    /** Every set has a slot per attribute key, and the key map sends
        distinct keys to distinct existing slots. */
    ghost predicate Valid()
      reads this
    {
      WellFormed(defaultAttr) && TableValid(keyed, keyedMap)
    }

    /** Every slot's contents, by state key. */
    ghost function Slots(): map<KeyId, AttributeSet>
      reads this
    {
      SlotsOf(keyed, keyedMap)
    }

    constructor(stamp: int)
      ensures Valid()
      ensures elementStamp == stamp && defaultAttr == BlankSet
      ensures keyed == [] && keyedMap == map[] && virtualKeys == [] && initials == map[]
    {
      elementStamp := stamp;
      defaultAttr := BlankSet;
      keyed := [];
      keyedMap := map[];
      virtualKeys := [];
      initials := map[];
    }

    /** `obtainPosForKey`: the stored position of a known key; a new key gets
        a blank set at the next position. Either way no state's attributes
        change: a new slot reads as the missing one did. */
    method ObtainPosForKey(key: KeyId) returns (pos: nat)
      requires Valid()
      modifies this
      ensures Valid() && Extends(keyedMap, old(keyedMap))
      ensures key in keyedMap && keyedMap[key] == pos && pos < |keyed|
      ensures key in old(keyedMap) ==>
                pos == old(keyedMap[key]) && keyed == old(keyed) && keyedMap == old(keyedMap)
      ensures key !in old(keyedMap) ==>
                pos == old(|keyed|) && keyed == old(keyed) + [BlankSet] && keyedMap == old(keyedMap)[key := pos]
      ensures Slots() == old(Slots())[key := Lookup(old(Slots()), key)]
      ensures defaultAttr == old(defaultAttr) && virtualKeys == old(virtualKeys) && initials == old(initials)
    {
      keyed, keyedMap, pos := ObtainPos(keyed, keyedMap, key);
    }

    /** `getAttributeSetForStateKey`: the default set (none) for a
        precursor without a key; otherwise the key's slot position, its set
        created blank if new. */
    method GetAttributeSetForStateKey(statePre: ScopedValueKey) returns (which: Option<nat>)
      requires Valid()
      modifies this
      ensures Valid()
      ensures statePre.key.None? ==> which.None? && keyed == old(keyed) && keyedMap == old(keyedMap)
      ensures statePre.key.Some? ==>
                which.Some? && Identity(statePre) in keyedMap && which.value == keyedMap[Identity(statePre)] &&
                which.value < |keyed| && keyed[which.value] == Lookup(old(Slots()), Identity(statePre))
      ensures forall k :: Lookup(Slots(), k) == Lookup(old(Slots()), k)
      ensures defaultAttr == old(defaultAttr) && virtualKeys == old(virtualKeys) && initials == old(initials)
    {
      if statePre.key.None? {
        return None;
      }
      var pos := ObtainPosForKey(Identity(statePre));
      which := Some(pos);
    }

    /** `at`: the slot at `pos` with its set; none when `pos` is out of
        range, where the source's checked access throws. */
    method At(pos: int) returns (r: Option<AttributePositionPair>)
      ensures 0 <= pos < |keyed| ==> r == Some(AttributePositionPair(pos, keyed[pos]))
      ensures !(0 <= pos < |keyed|) ==> r.None?
    {
      if 0 <= pos < |keyed| {
        r := Some(AttributePositionPair(pos, keyed[pos]));
      } else {
        r := None;
      }
    }

    /** `setInitialExpression`: a later expression for the same variable
        replaces the earlier one. */
    method SetInitialExpression(key: string, initial: ExpressionNode)
      modifies this
      ensures initials == old(initials)[key := initial]
      ensures defaultAttr == old(defaultAttr) && keyed == old(keyed) && keyedMap == old(keyedMap)
      ensures virtualKeys == old(virtualKeys)
    {
      initials := initials[key := initial];
    }

    method AddVirtualStateKey(vk: VirtualStateKey.VirtualStateKeyPrecursor)
      modifies this
      ensures virtualKeys == old(virtualKeys) + [vk]
      ensures defaultAttr == old(defaultAttr) && keyed == old(keyed) && keyedMap == old(keyedMap)
      ensures initials == old(initials)
    {
      virtualKeys := virtualKeys + [vk];
    }

    /** `deriveFrom`: the default set derives from the parent's default set,
        and every state key of the parent derives into this element's slot
        for the same key, created blank if absent. The virtual keys and the
        initial expressions are not inherited. */
    method DeriveFrom(parent: Element)
      requires Valid() && parent.Valid() && parent != this
      modifies this
      ensures Valid() && Extends(keyedMap, old(keyedMap))
      ensures defaultAttr == DerivedSet(old(defaultAttr), parent.defaultAttr)
      ensures Slots() == DerivedSlots(old(Slots()), parent.Slots())
      ensures virtualKeys == old(virtualKeys) && initials == old(initials)
    {
      defaultAttr := ReferenceAttributes.DeriveFrom(defaultAttr, parent.defaultAttr);
      keyed, keyedMap := DeriveKeys(keyed, keyedMap, parent.keyed, parent.keyedMap);
    }
  }
}
