// The state manager: boolean states keyed by (identity, scope), the display
// items that observe them, and the virtual states computed from them.
module StateManagement {
  import opened Wrappers
  import opened ValueKey
  import opened VirtualStateKey

  /** A display item, by handle. */
  type Item = nat
  /** An `AttributePositionPair`: the position of a keyed attribute set in
      the item's element (the set itself is found from the position). */
  type Position = int

  /** A call the manager makes on a display item. */
  datatype Notice = AddSet(item: Item, position: Position) | RemoveSet(item: Item, position: Position)

  /** `updateSingleObserver`: an active state adds the item's attribute set,
      an inactive one removes it. */
  function Notify(item: Item, position: Position, active: bool): (n: Notice)
    ensures n.item == item && n.position == position
    ensures n.AddSet? <==> active
  {
    if active then AddSet(item, position) else RemoveSet(item, position)
  }

  /** The virtual keys the manager holds: their expressions are well formed. */
  type WellFormedKey = v: VirtualStateKey | WellFormed(v.root) witness VirtualStateKey(DefaultStateKey, DefaultNode)

  // ---- the set of affected virtual keys: a std::set ordered by proxy key in
  // the source, kept here in insertion order because that order compares
  // scope pointers by address ----

  predicate HasProxy(vs: seq<WellFormedKey>, p: StateKey)
  {
    exists i :: 0 <= i < |vs| && vs[i].proxyStateKey == p
  }

  predicate UniqueProxies(vs: seq<WellFormedKey>)
  {
    forall i, j :: 0 <= i < j < |vs| ==> vs[i].proxyStateKey != vs[j].proxyStateKey
  }

  /** `registerAffectedVirtualStateKey`: `std::set::insert`, a no-op when a
      key with the same proxy is already there; a new key goes last. */
  function RegisterAffected(vs: seq<WellFormedKey>, v: WellFormedKey): (r: seq<WellFormedKey>)
    ensures HasProxy(r, v.proxyStateKey)
    ensures forall w :: w in r <==> w in vs || (w == v && !HasProxy(vs, v.proxyStateKey))
    ensures UniqueProxies(vs) ==> UniqueProxies(r)
  {
    if HasProxy(vs, v.proxyStateKey) then vs
    else
      assert (vs + [v])[|vs|] == v;
      vs + [v]
  }

  /** `removeAffectedVirtualStateKey`: `std::set::erase` of the key with that proxy. */
  function RemoveAffected(vs: seq<WellFormedKey>, p: StateKey): (r: seq<WellFormedKey>)
    ensures forall w :: w in r <==> w in vs && w.proxyStateKey != p
    ensures |r| <= |vs|
  {
    if |vs| == 0 then []
    else if vs[0].proxyStateKey == p then RemoveAffected(vs[1..], p)
    else [vs[0]] + RemoveAffected(vs[1..], p)
  }

  lemma {:induction false} RemoveAffectedKeepsUnique(vs: seq<WellFormedKey>, p: StateKey)
    requires UniqueProxies(vs)
    ensures UniqueProxies(RemoveAffected(vs, p))
    decreases |vs|
  {
    if |vs| > 0 {
      var t := vs[1..];
      assert UniqueProxies(t) by {
        forall i, j | 0 <= i < j < |t|
          ensures t[i].proxyStateKey != t[j].proxyStateKey
        {
          assert t[i] == vs[i + 1] && t[j] == vs[j + 1];
        }
      }
      RemoveAffectedKeepsUnique(t, p);
      if vs[0].proxyStateKey != p {
        var rest := RemoveAffected(t, p);
        forall w | w in t
          ensures w.proxyStateKey != vs[0].proxyStateKey
        {
          var m :| 0 <= m < |t| && t[m] == w;
          assert vs[m + 1] == w;
        }
        var r := [vs[0]] + rest;
        assert RemoveAffected(vs, p) == r;
        forall i, j | 0 <= i < j < |r|
          ensures r[i].proxyStateKey != r[j].proxyStateKey
        {
          assert r[j] == rest[j - 1] && rest[j - 1] in rest;
          if i > 0 {
            assert r[i] == rest[i - 1];
          }
        }
      }
    }
  }

  /** Registering a virtual key and removing it again restores the set. */
  lemma RegisterThenRemove(vs: seq<WellFormedKey>, v: WellFormedKey)
    requires !HasProxy(vs, v.proxyStateKey)
    ensures RemoveAffected(RegisterAffected(vs, v), v.proxyStateKey) == vs
  {
    RemoveAppended(vs, v);
  }

  lemma {:induction false} RemoveAppended(vs: seq<WellFormedKey>, v: WellFormedKey)
    requires !HasProxy(vs, v.proxyStateKey)
    ensures RemoveAffected(vs + [v], v.proxyStateKey) == vs
    decreases |vs|
  {
    if |vs| == 0 {
      assert RemoveAffected([v], v.proxyStateKey) == RemoveAffected([], v.proxyStateKey);
    } else {
      assert vs[0].proxyStateKey != v.proxyStateKey;
      forall i | 0 <= i < |vs[1..]|
        ensures vs[1..][i].proxyStateKey != v.proxyStateKey
      {
        assert vs[1..][i] == vs[i + 1];
      }
      assert (vs + [v])[1..] == vs[1..] + [v];
      RemoveAppended(vs[1..], v);
      assert [vs[0]] + vs[1..] == vs;
    }
  }

  // ---- observer notification order (the source's map is ordered by address) ----

  lemma {:induction false} Least(s: set<nat>) returns (m: nat)
    requires s != {}
    ensures m in s && forall x :: x in s ==> m <= x
    decreases |s|
  {
    var x :| x in s;
    m := x;
    if s != {x} {
      var r := Least(s - {x});
      m := if x <= r then x else r;
      forall y | y in s
        ensures m <= y
      {
        if y != x {
          assert y in s - {x};
        }
      }
    } else {
      forall y | y in s
        ensures m <= y
      {
        assert y == x;
      }
    }
  }

  lemma MinExists(s: set<nat>)
    requires s != {}
    ensures exists m :: m in s && forall x :: x in s ==> m <= x
  {
    var m := Least(s);
  }

  function MinOf(s: set<nat>): (m: nat)
    requires s != {}
    ensures m in s && forall x :: x in s ==> m <= x
  {
    MinExists(s);
    var m :| m in s && forall x :: x in s ==> m <= x;
    m
  }

  /** The members of a set of handles in ascending order. */
  function Ascending(s: set<nat>): (r: seq<nat>)
    ensures forall x :: x in r <==> x in s
    ensures |r| == |s|
    ensures forall i, j :: 0 <= i < j < |r| ==> r[i] < r[j]
    decreases |s|
  {
    if s == {} then []
    else
      var m := MinOf(s);
      var rest := Ascending(s - {m});
      AscendingJoin(s, m, rest);
      [m] + rest
  }

  lemma AscendingJoin(s: set<nat>, m: nat, rest: seq<nat>)
    requires m in s && forall x :: x in s ==> m <= x
    requires forall x :: x in rest <==> x in s - {m}
    requires |rest| == |s - {m}|
    requires forall i, j :: 0 <= i < j < |rest| ==> rest[i] < rest[j]
    ensures forall x :: x in [m] + rest <==> x in s
    ensures |[m] + rest| == |s|
    ensures forall i, j :: 0 <= i < j < |[m] + rest| ==> ([m] + rest)[i] < ([m] + rest)[j]
  {
    var r := [m] + rest;
    forall i, j | 0 <= i < j < |r|
      ensures r[i] < r[j]
    {
      if i == 0 {
        assert r[j] == rest[j - 1] && r[j] in s - {m};
      } else {
        assert r[i] == rest[i - 1] && r[j] == rest[j - 1];
      }
    }
  }

  function NoticesFor(items: seq<Item>, obs: map<Item, Position>, active: bool): (r: seq<Notice>)
    requires forall i :: i in items ==> i in obs
    ensures |r| == |items|
    ensures forall j :: 0 <= j < |r| ==> r[j] == Notify(items[j], obs[items[j]], active)
  {
    if |items| == 0 then [] else [Notify(items[0], obs[items[0]], active)] + NoticesFor(items[1..], obs, active)
  }

  /** `for(auto pair : observers) updateSingleObserver(...)`: one notice per
      observer, in ascending item order. */
  function ObserverNotices(obs: map<Item, Position>, active: bool): (r: seq<Notice>)
    ensures |r| == |obs|
    ensures forall item :: item in obs ==> Notify(item, obs[item], active) in r
    ensures forall j :: 0 <= j < |r| ==> r[j].item in obs && r[j] == Notify(r[j].item, obs[r[j].item], active)
  {
    var items := Ascending(obs.Keys);
    NoticesCover(items, obs, active);
    NoticesFor(items, obs, active)
  }

  lemma {:induction false} NoticesCover(items: seq<Item>, obs: map<Item, Position>, active: bool)
    requires forall i :: i in items ==> i in obs
    ensures forall item :: item in items ==> Notify(item, obs[item], active) in NoticesFor(items, obs, active)
  {
    if |items| > 0 {
      NoticesCover(items[1..], obs, active);
      assert forall item :: item in items && item != items[0] ==> item in items[1..];
    }
  }

  // ---- the state table ----

  /** The manager's states, one map per field of `State`, all over the same
      keys: `std::map<ValueKey, StateRange>` flattened to (identity, scope). */
  datatype Table = Table(
    active: map<StateKey, bool>,
    stamps: map<StateKey, nat>,
    observers: map<StateKey, map<Item, Position>>,
    virtualKeys: map<StateKey, Option<WellFormedKey>>,
    affected: map<StateKey, seq<WellFormedKey>>)

  const EmptyTable: Table := Table(map[], map[], map[], map[], map[])

  /** The five maps have the same keys: the stored states. */
  ghost predicate Aligned(t: Table)
  {
    forall k :: (k in t.active || k in t.stamps || k in t.observers || k in t.virtualKeys || k in t.affected)
                ==> k in t.active && k in t.stamps && k in t.observers && k in t.virtualKeys && k in t.affected
  }

  /** `checkObserved`: observed by an item or by a virtual state. */
  predicate Observed(t: Table, k: StateKey)
    requires k in t.observers && k in t.affected
  {
    |t.observers[k]| > 0 || |t.affected[k]| > 0
  }

  /** A stored state that nobody observes: `eraseStateIfOrphaned` erases it. */
  predicate Orphan(t: Table, k: StateKey)
  {
    k in t.active && k in t.observers && k in t.affected && !Observed(t, k)
  }

  /** The states that read as active (`checkState`). */
  function ActiveKeys(t: Table): (r: set<StateKey>)
    ensures forall k :: k in r <==> k in t.active && t.active[k]
  {
    set k | k in t.active && t.active[k]
  }

  /** No virtual state depends on the state: mutating it does not cascade. */
  ghost predicate NoDependents(t: Table, k: StateKey)
  {
    k in t.affected ==> |t.affected[k]| == 0
  }

  /** None of the listed states has a virtual state depending on it. */
  ghost predicate Calm(t: Table, keys: seq<StateKey>)
  {
    forall k :: k in keys ==> NoDependents(t, k)
  }

  /** No scoped state of the identity has a virtual state depending on it. */
  ghost predicate ScopesCalm(t: Table, id: string)
  {
    forall sc: nat :: NoDependents(t, StateKey(id, Some(sc)))
  }

  /** An active state has been stamped by the mutation that set it. */
  ghost predicate ActiveStamped(t: Table)
  {
    forall k :: k in t.active && t.active[k] && k in t.stamps ==> t.stamps[k] > 0
  }

  ghost predicate StampsBelow(stamps: map<StateKey, nat>, bound: nat)
  {
    forall k :: k in stamps ==> stamps[k] <= bound
  }

  /** Every observer a state lists has the key recorded under it in `displayItemObserverMap`. */
  ghost predicate Tracked(observers: map<StateKey, map<Item, Position>>, om: map<Item, seq<StateKey>>)
  {
    forall k, item :: k in observers && item in observers[k] ==> item in om && k in om[item]
  }

  /** The manager's invariant, on its table, its last stamp and its observer map. */
  ghost predicate Inv(t: Table, last: nat, om: map<Item, seq<StateKey>>)
  {
    Aligned(t) && StampsBelow(t.stamps, last) && Tracked(t.observers, om) && ActiveStamped(t)
  }

  function ObservedBy(om: map<Item, seq<StateKey>>, item: Item): seq<StateKey>
  {
    if item in om then om[item] else []
  }

  function VolatileOf(vm: map<nat, seq<string>>, scope: nat): seq<string>
  {
    if scope in vm then vm[scope] else []
  }

  /** The scopes (other than global) that have a state of this identity, ascending. */
  function ScopesOf(t: Table, id: string): (r: seq<nat>)
    ensures forall sc :: sc in r <==> StateKey(id, Some(sc)) in t.active
  {
    var r := Ascending(set k | k in t.active && k.identity == id && k.scope.Some? :: k.scope.value);
    assert forall sc :: StateKey(id, Some(sc)) in t.active ==> sc in r by {
      forall sc | StateKey(id, Some(sc)) in t.active
        ensures sc in r
      {
        var k := StateKey(id, Some(sc));
        assert k.scope.value == sc;
      }
    }
    r
  }

  // ---- the table's transitions ----

  /** `states[key.identity][key.scope]`: finds the state, default-constructing
      `State()` (inactive, unstamped, unobserved) when there is none. */
  function Ensure(t: Table, k: StateKey): Table
  {
    if k in t.active then t
    else Table(t.active[k := false], t.stamps[k := 0], t.observers[k := map[]],
               t.virtualKeys[k := None], t.affected[k := []])
  }

  /** `State::mutate`'s own change: value and stamp. */
  function Stamped(t: Table, k: StateKey, setTo: bool, stamp: nat): Table
  {
    t.(active := t.active[k := setTo], stamps := t.stamps[k := stamp])
  }

  /** `State::reigsterObserver`: `observers[item] = pair`. */
  function Observing(t: Table, k: StateKey, item: Item, pos: Position): Table
    requires k in t.observers
  {
    var obs: map<Item, Position> := t.observers[k][item := pos];
    t.(observers := t.observers[k := obs])
  }

  /** `State::removeObserver`. */
  function Unobserving(t: Table, k: StateKey, item: Item): Table
    requires k in t.observers
  {
    t.(observers := t.observers[k := t.observers[k] - {item}])
  }

  /** `State::insertVirtualStateKey`'s own change. */
  function Installing(t: Table, v: WellFormedKey): Table
  {
    t.(virtualKeys := t.virtualKeys[v.proxyStateKey := Some(v)])
  }

  /** `registerAffectedVirtualStateKey`. */
  function Registering(t: Table, k: StateKey, v: WellFormedKey): Table
    requires k in t.affected
  {
    t.(affected := t.affected[k := RegisterAffected(t.affected[k], v)])
  }

  /** `removeAffectedVirtualStateKey`. */
  function Unregistering(t: Table, k: StateKey, p: StateKey): Table
    requires k in t.affected
  {
    t.(affected := t.affected[k := RemoveAffected(t.affected[k], p)])
  }

  /** Erasing a state. */
  function Without(t: Table, k: StateKey): Table
  {
    Table(t.active - {k}, t.stamps - {k}, t.observers - {k}, t.virtualKeys - {k}, t.affected - {k})
  }

  /** `b` differs from `a` at most in values and stamps: what a (cascading)
      mutation changes. */
  ghost predicate ValuesOnly(a: Table, b: Table)
  {
    b.active.Keys == a.active.Keys && b.stamps.Keys == a.stamps.Keys
    && b.observers == a.observers && b.virtualKeys == a.virtualKeys && b.affected == a.affected
  }

  /** A state `b` kept from `a`: the same value, stamp, observers and virtual
      key, and no more virtual keys registered with it. */
  predicate Kept(a: Table, b: Table, k: StateKey)
  {
    k in a.active && k in b.active && a.active[k] == b.active[k]
    && k in a.stamps && k in b.stamps && a.stamps[k] == b.stamps[k]
    && k in a.observers && k in b.observers && a.observers[k] == b.observers[k]
    && k in a.virtualKeys && k in b.virtualKeys && a.virtualKeys[k] == b.virtualKeys[k]
    && k in a.affected && k in b.affected && |b.affected[k]| <= |a.affected[k]|
  }

  /** `b` arises from `a` by erasing states no item observes and removing
      registrations of virtual keys. */
  ghost predicate Shrinks(a: Table, b: Table)
  {
    (forall k :: k in b.active ==> Kept(a, b, k))
    && (forall k :: k in a.active && k !in b.active ==> k in a.observers && |a.observers[k]| == 0)
  }

  // ---- what the transitions mean ----

  /** `initState` creates exactly the missing state, fresh, and changes no other. */
  lemma EnsureMeaning(t: Table, k: StateKey)
    requires Aligned(t)
    ensures var r := Ensure(t, k);
      Aligned(r) && r.active.Keys == t.active.Keys + {k}
      && (k !in t.active ==> !r.active[k] && r.stamps[k] == 0 && r.observers[k] == map[]
                             && r.virtualKeys[k] == None && r.affected[k] == [])
      && (forall j :: j in t.active ==> r.active[j] == t.active[j] && r.stamps[j] == t.stamps[j]
                                        && r.observers[j] == t.observers[j]
                                        && r.virtualKeys[j] == t.virtualKeys[j] && r.affected[j] == t.affected[j])
  {
    EnsureAligned(t, k);
    if k !in t.active {
      assert Ensure(t, k).active.Keys == t.active.Keys + {k};
    }
  }

  lemma EnsureAligned(t: Table, k: StateKey)
    requires Aligned(t)
    ensures Aligned(Ensure(t, k))
  {
    if k !in t.active {
      var r := Ensure(t, k);
      forall j | j in r.active || j in r.stamps || j in r.observers || j in r.virtualKeys || j in r.affected
        ensures j in r.active && j in r.stamps && j in r.observers && j in r.virtualKeys && j in r.affected
      {
        if j != k {
          assert j in t.active || j in t.stamps || j in t.observers || j in t.virtualKeys || j in t.affected;
        }
      }
    }
  }

  /** `initState` leaves an existing state's virtual key alone. */
  lemma EnsureKeeps(t: Table, k: StateKey, j: StateKey)
    requires j in t.active && j in t.virtualKeys
    ensures j in Ensure(t, k).virtualKeys && Ensure(t, k).virtualKeys[j] == t.virtualKeys[j]
  {
    if k !in t.active {
      assert j != k;
    }
  }

  /** Registering an observer makes the state observed, records the item's
      position (overwriting an earlier one) and leaves values, stamps and all
      other states alone. */
  lemma ObservingMeaning(t: Table, k: StateKey, item: Item, pos: Position)
    requires Aligned(t) && k in t.active
    ensures var r := Observing(t, k, item, pos);
      Aligned(r) && Observed(r, k)
      && r.observers[k].Keys == t.observers[k].Keys + {item} && r.observers[k][item] == pos
      && (forall i :: i in t.observers[k] && i != item ==> r.observers[k][i] == t.observers[k][i])
      && r.active == t.active && r.stamps == t.stamps && r.affected == t.affected
      && (forall j :: j in t.observers && j != k ==> r.observers[j] == t.observers[j])
  {
  }

  /** Removing an observer removes exactly that item from that state. */
  lemma UnobservingMeaning(t: Table, k: StateKey, item: Item)
    requires Aligned(t) && k in t.active
    ensures var r := Unobserving(t, k, item);
      Aligned(r) && item !in r.observers[k] && r.observers[k].Keys == t.observers[k].Keys - {item}
      && r.active == t.active && r.stamps == t.stamps && r.affected == t.affected
      && (forall j :: j in t.observers && j != k ==> r.observers[j] == t.observers[j])
  {
  }

  /** Registering a virtual key with a state makes it observed, with one
      entry for the proxy. */
  lemma RegisteringMeaning(t: Table, k: StateKey, v: WellFormedKey)
    requires Aligned(t)
    ensures var e := Ensure(t, k); var r := Registering(e, k, v);
      Aligned(r) && r.active.Keys == t.active.Keys + {k}
      && HasProxy(r.affected[k], v.proxyStateKey) && Observed(r, k)
      && r.virtualKeys == e.virtualKeys && r.observers == e.observers
      && (forall j :: j in t.affected && j != k ==> r.affected[j] == t.affected[j])
  {
    EnsureMeaning(t, k);
    var r := Registering(Ensure(t, k), k, v);
    var i :| 0 <= i < |r.affected[k]| && r.affected[k][i].proxyStateKey == v.proxyStateKey;
  }

  /** The keys `mutateAll` visits: exactly the identity's scoped states. */
  lemma ScopedKeys(t: Table, id: string, scopes: seq<nat>, keys: seq<StateKey>)
    requires forall sc :: sc in scopes <==> StateKey(id, Some(sc)) in t.active
    requires |keys| == |scopes| && forall j :: 0 <= j < |keys| ==> keys[j] == StateKey(id, Some(scopes[j]))
    ensures forall sc :: StateKey(id, Some(sc)) in t.active ==> StateKey(id, Some(sc)) in keys
    ensures forall k :: k in keys ==> k in t.active && k.scope.Some?
    ensures ScopesCalm(t, id) ==> Calm(t, keys)
  {
    forall sc | StateKey(id, Some(sc)) in t.active
      ensures StateKey(id, Some(sc)) in keys
    {
      var j :| 0 <= j < |scopes| && scopes[j] == sc;
      assert keys[j] == StateKey(id, Some(sc));
    }
    forall k | k in keys
      ensures k in t.active && k.scope.Some? && (ScopesCalm(t, id) ==> NoDependents(t, k))
    {
      var n :| 0 <= n < |keys| && keys[n] == k;
      assert k == StateKey(id, Some(scopes[n]));
    }
  }

  /** One step of `insertVirtualState`'s loop: the listed states so far and
      this one have the virtual key registered, and no value changes. */
  lemma RegisterStep(t: Table, v: WellFormedKey, keys: seq<StateKey>, i: nat)
    requires Aligned(t) && i < |keys|
    requires v.proxyStateKey in t.active && t.virtualKeys[v.proxyStateKey] == Some(v)
    requires forall j :: 0 <= j < i ==> keys[j] in t.active && HasProxy(t.affected[keys[j]], v.proxyStateKey)
    ensures var r := Registering(Ensure(t, keys[i]), keys[i], v);
            v.proxyStateKey in r.active && r.virtualKeys[v.proxyStateKey] == Some(v)
            && (forall j :: 0 <= j <= i ==> keys[j] in r.active && HasProxy(r.affected[keys[j]], v.proxyStateKey))
            && (forall k :: k in t.active ==> k in r.active && r.active[k] == t.active[k])
  {
    var r := Registering(Ensure(t, keys[i]), keys[i], v);
    RegisteringMeaning(t, keys[i], v);
    EnsureKeeps(t, keys[i], v.proxyStateKey);
    EnsureMeaning(t, keys[i]);
    forall j | 0 <= j <= i
      ensures keys[j] in r.active && HasProxy(r.affected[keys[j]], v.proxyStateKey)
    {
      if keys[j] != keys[i] {
        assert r.affected[keys[j]] == t.affected[keys[j]];
      }
    }
  }

  /** Removing a virtual key's registration, and erasing an unobserved state,
      only shrink the table. */
  lemma UnregisteringShrinks(t: Table, k: StateKey, p: StateKey)
    requires Aligned(t) && k in t.active
    ensures Aligned(Unregistering(t, k, p)) && Shrinks(t, Unregistering(t, k, p))
  {
  }

  lemma WithoutShrinks(t: Table, k: StateKey)
    requires Aligned(t) && k in t.active && !Observed(t, k)
    ensures Aligned(Without(t, k)) && Shrinks(t, Without(t, k))
    ensures Without(t, k).active.Keys == t.active.Keys - {k}
  {
  }

  lemma ValuesOnlyTrans(a: Table, b: Table, c: Table)
    requires ValuesOnly(a, b) && ValuesOnly(b, c)
    ensures ValuesOnly(a, c)
  {
  }

  /** After the first `i` steps of `mutateAll` without a cascade: the
      listed states read `active`, all others keep their value and stamp. */
  ghost predicate SetSoFar(t: Table, base: Table, keys: seq<StateKey>, i: nat, active: bool)
    requires i <= |keys|
  {
    (forall j :: 0 <= j < i ==> keys[j] in t.active && t.active[keys[j]] == active)
    && (forall k :: k in base.active && k in base.stamps && k !in keys[..i] ==>
          k in t.active && k in t.stamps && t.active[k] == base.active[k] && t.stamps[k] == base.stamps[k])
  }

  /** One step of `mutateAll` without a cascade changes at most the one state. */
  lemma {:induction false} MutateStep(t0: Table, t1: Table, base: Table, keys: seq<StateKey>, i: nat, active: bool, stamp: nat)
    requires i < |keys| && SetSoFar(t0, base, keys, i, active)
    requires t1 == t0 || t1 == Stamped(t0, keys[i], active, stamp)
    requires keys[i] in t1.active && t1.active[keys[i]] == active
    ensures SetSoFar(t1, base, keys, i + 1, active)
  {
    assert keys[..i + 1] == keys[..i] + [keys[i]];
  }

  lemma ShrinksTrans(a: Table, b: Table, c: Table)
    requires Shrinks(a, b) && Shrinks(b, c)
    ensures Shrinks(a, c)
  {
  }

  /** A state nobody observes stays unobserved while the table shrinks. */
  lemma UnobservedStaysUnobserved(a: Table, b: Table, k: StateKey)
    requires Aligned(a) && Aligned(b) && Shrinks(a, b) && k in b.active && !Observed(a, k)
    ensures !Observed(b, k)
  {
  }

  // ---- the invariant across the transitions ----

  lemma InvEnsure(t: Table, last: nat, om: map<Item, seq<StateKey>>, k: StateKey)
    requires Inv(t, last, om)
    ensures Inv(Ensure(t, k), last, om)
  {
    EnsureAligned(t, k);
    EnsureKeepsStamps(t, last, k);
    EnsureKeepsTracked(t, om, k);
  }

  lemma EnsureKeepsStamps(t: Table, last: nat, k: StateKey)
    requires StampsBelow(t.stamps, last) && ActiveStamped(t)
    requires k !in t.active ==> k !in t.stamps
    ensures StampsBelow(Ensure(t, k).stamps, last) && ActiveStamped(Ensure(t, k))
  {
  }

  lemma EnsureKeepsTracked(t: Table, om: map<Item, seq<StateKey>>, k: StateKey)
    requires Tracked(t.observers, om)
    ensures Tracked(Ensure(t, k).observers, om)
  {
    if k !in t.active {
      var r := Ensure(t, k);
      forall k2, item | k2 in r.observers && item in r.observers[k2]
        ensures item in om && k2 in om[item]
      {
        assert k2 != k;
        assert r.observers[k2] == t.observers[k2];
      }
    }
  }

  lemma InvStamped(t: Table, last: nat, om: map<Item, seq<StateKey>>, k: StateKey, setTo: bool, stamp: nat)
    requires Inv(t, last, om) && k in t.active && 0 < stamp <= last
    ensures Inv(Stamped(t, k, setTo, stamp), last, om) && ValuesOnly(t, Stamped(t, k, setTo, stamp))
  {
  }

  lemma InvRaise(t: Table, last: nat, om: map<Item, seq<StateKey>>)
    requires Inv(t, last, om)
    ensures Inv(t, last + 1, om)
  {
  }

  lemma InvRecord(t: Table, last: nat, om: map<Item, seq<StateKey>>, k: StateKey, item: Item)
    requires Inv(t, last, om)
    ensures Inv(t, last, om[item := ObservedBy(om, item) + [k]])
  {
    var om' := om[item := ObservedBy(om, item) + [k]];
    forall j, i | j in t.observers && i in t.observers[j]
      ensures i in om' && j in om'[i]
    {
      if i == item {
        assert j in om[item];
        assert om'[item] == om[item] + [k];
      }
    }
  }

  lemma InvObserving(t: Table, last: nat, om: map<Item, seq<StateKey>>, k: StateKey, item: Item, pos: Position)
    requires Inv(t, last, om) && k in t.active && item in om && k in om[item]
    ensures Inv(Observing(t, k, item, pos), last, om)
  {
  }

  lemma InvUnobserving(t: Table, last: nat, om: map<Item, seq<StateKey>>, k: StateKey, item: Item)
    requires Inv(t, last, om) && k in t.active
    ensures Inv(Unobserving(t, k, item), last, om)
  {
  }

  lemma InvInstalling(t: Table, last: nat, om: map<Item, seq<StateKey>>, v: WellFormedKey)
    requires Inv(t, last, om) && v.proxyStateKey in t.active
    ensures Inv(Installing(t, v), last, om)
  {
  }

  lemma InvRegistering(t: Table, last: nat, om: map<Item, seq<StateKey>>, k: StateKey, v: WellFormedKey)
    requires Inv(t, last, om) && k in t.active
    ensures Inv(Registering(t, k, v), last, om)
  {
  }

  lemma InvWithout(t: Table, last: nat, om: map<Item, seq<StateKey>>, k: StateKey)
    requires Inv(t, last, om) && k in t.active && !Observed(t, k)
    ensures Inv(Without(t, k), last, om) && Shrinks(t, Without(t, k))
  {
    WithoutShrinks(t, k);
    InvShrinks(t, Without(t, k), last, om);
  }

  lemma InvShrinks(a: Table, b: Table, last: nat, om: map<Item, seq<StateKey>>)
    requires Inv(a, last, om) && Aligned(b) && Shrinks(a, b)
    ensures Inv(b, last, om)
  {
  }

  /** Once no state lists the item, its entry in the observer map can go. */
  lemma InvForget(t: Table, last: nat, om: map<Item, seq<StateKey>>, item: Item)
    requires Inv(t, last, om)
    requires forall k :: k in t.observers ==> item !in t.observers[k]
    ensures Inv(t, last, om - {item})
  {
  }

  /** A proxy whose expression does not read it, once set to that
      expression's value, already agrees with it: syncing it again changes
      nothing (see `StateManager.SyncProxyState`). */
  lemma ResyncIsStable(t: Table, v: WellFormedKey, stamp: nat)
    requires v.proxyStateKey in t.active && v.proxyStateKey !in LeafKeys(v.root)
    ensures var t' := Stamped(t, v.proxyStateKey, Evaluate(v.root, ActiveKeys(t)), stamp);
            t'.active[v.proxyStateKey] == Evaluate(v.root, ActiveKeys(t'))
  {
    var t' := Stamped(t, v.proxyStateKey, Evaluate(v.root, ActiveKeys(t)), stamp);
    forall k | k in LeafKeys(v.root)
      ensures k in ActiveKeys(t) <==> k in ActiveKeys(t')
    {
      assert k != v.proxyStateKey;
    }
    EvaluateReadsLeafKeys(v.root, ActiveKeys(t), ActiveKeys(t'));
  }

  /** The virtual states of one sync pass are untangled when no virtual
      state depends on any of their proxies and none of their expressions
      reads one of their proxies: syncing one then neither cascades nor
      changes what another reads. */
  ghost predicate Untangled(t: Table, vs: seq<WellFormedKey>)
  {
    UniqueProxies(vs)
    && (forall i :: 0 <= i < |vs| ==> NoDependents(t, vs[i].proxyStateKey))
    && (forall i, j :: 0 <= i < |vs| && 0 <= j < |vs| ==> vs[i].proxyStateKey !in LeafKeys(vs[j].root))
  }

  /** Every stored proxy of the listed virtual states holds its expression's value. */
  ghost predicate Synced(t: Table, vs: seq<WellFormedKey>)
  {
    forall i :: 0 <= i < |vs| && vs[i].proxyStateKey in t.active ==>
      t.active[vs[i].proxyStateKey] == Evaluate(vs[i].root, ActiveKeys(t))
  }

  /** One of the first `n` virtual states has proxy `k`. */
  ghost predicate ProxyBelow(vs: seq<WellFormedKey>, n: nat, k: StateKey)
    requires n <= |vs|
  {
    exists j :: 0 <= j < n && vs[j].proxyStateKey == k
  }

  /** `after` is `before` with the stored proxies of the first `n` virtual
      states set to their expressions' values over `before`, and every other
      state as it was. */
  ghost predicate SyncedUpTo(before: Table, after: Table, vs: seq<WellFormedKey>, n: nat)
    requires n <= |vs|
  {
    after.active.Keys == before.active.Keys
    && (forall k :: k in before.active && !ProxyBelow(vs, n, k) ==> after.active[k] == before.active[k])
    && (forall j :: 0 <= j < n && vs[j].proxyStateKey in before.active ==>
          after.active[vs[j].proxyStateKey] == Evaluate(vs[j].root, ActiveKeys(before)))
  }

  /** `after` is `before` with every stored proxy of `vs` synced, as above. */
  ghost predicate SyncedFrom(before: Table, after: Table, vs: seq<WellFormedKey>)
  {
    SyncedUpTo(before, after, vs, |vs|)
  }

  /** An expression that reads none of the first `n` proxies reads the same
      states before and after they were synced. */
  lemma UnreadProxies(before: Table, after: Table, vs: seq<WellFormedKey>, n: nat, e: StateNode)
    requires n <= |vs| && WellFormed(e)
    requires after.active.Keys == before.active.Keys
    requires forall k :: k in before.active && !ProxyBelow(vs, n, k) ==> after.active[k] == before.active[k]
    requires forall j :: 0 <= j < n ==> vs[j].proxyStateKey !in LeafKeys(e)
    ensures Evaluate(e, ActiveKeys(after)) == Evaluate(e, ActiveKeys(before))
  {
    forall k | k in LeafKeys(e)
      ensures k in ActiveKeys(after) <==> k in ActiveKeys(before)
    {
      assert !ProxyBelow(vs, n, k);
    }
    EvaluateReadsLeafKeys(e, ActiveKeys(after), ActiveKeys(before));
  }

  /** A pass over untangled virtual states leaves every proxy agreeing
      with its expression, so syncing them again changes nothing. */
  lemma SyncedFromIsSynced(before: Table, after: Table, vs: seq<WellFormedKey>)
    requires Untangled(before, vs) && SyncedFrom(before, after, vs)
    ensures Synced(after, vs)
  {
    forall i | 0 <= i < |vs| && vs[i].proxyStateKey in after.active
      ensures after.active[vs[i].proxyStateKey] == Evaluate(vs[i].root, ActiveKeys(after))
    {
      UnreadProxies(before, after, vs, |vs|, vs[i].root);
    }
  }

  /** One turn of `syncAffectedVirtualStateKeys` over untangled virtual
      states: the next proxy takes its expression's value, the rest stay. */
  lemma SyncStep(before: Table, t0: Table, t1: Table, vs: seq<WellFormedKey>, i: nat)
    requires Untangled(before, vs) && i < |vs|
    requires SyncedUpTo(before, t0, vs, i)
    requires t1.active.Keys == t0.active.Keys
    requires forall k :: k in t0.active && k != vs[i].proxyStateKey ==> t1.active[k] == t0.active[k]
    requires vs[i].proxyStateKey in t0.active ==>
               t1.active[vs[i].proxyStateKey] == Evaluate(vs[i].root, ActiveKeys(t0))
    ensures SyncedUpTo(before, t1, vs, i + 1)
  {
    UnreadProxies(before, t0, vs, i, vs[i].root);
    SyncStepKeeps(before, t0, t1, vs, i);
    SyncStepValues(before, t0, t1, vs, i);
  }

  lemma SyncStepKeeps(before: Table, t0: Table, t1: Table, vs: seq<WellFormedKey>, i: nat)
    requires i < |vs|
    requires SyncedUpTo(before, t0, vs, i) && t1.active.Keys == t0.active.Keys
    requires forall k :: k in t0.active && k != vs[i].proxyStateKey ==> t1.active[k] == t0.active[k]
    ensures forall k :: k in before.active && !ProxyBelow(vs, i + 1, k) ==> t1.active[k] == before.active[k]
  {
    assert ProxyBelow(vs, i + 1, vs[i].proxyStateKey);
    assert forall k :: ProxyBelow(vs, i, k) ==> ProxyBelow(vs, i + 1, k);
  }

  lemma SyncStepValues(before: Table, t0: Table, t1: Table, vs: seq<WellFormedKey>, i: nat)
    requires UniqueProxies(vs) && i < |vs|
    requires SyncedUpTo(before, t0, vs, i) && t1.active.Keys == t0.active.Keys
    requires forall k :: k in t0.active && k != vs[i].proxyStateKey ==> t1.active[k] == t0.active[k]
    requires vs[i].proxyStateKey in t0.active ==>
               t1.active[vs[i].proxyStateKey] == Evaluate(vs[i].root, ActiveKeys(before))
    ensures forall j :: 0 <= j < i + 1 && vs[j].proxyStateKey in before.active ==>
              t1.active[vs[j].proxyStateKey] == Evaluate(vs[j].root, ActiveKeys(before))
  {
    forall j | 0 <= j < i && vs[j].proxyStateKey in before.active
      ensures t1.active[vs[j].proxyStateKey] == Evaluate(vs[j].root, ActiveKeys(before))
    {
      assert vs[j].proxyStateKey != vs[i].proxyStateKey;
    }
  }

  lemma PrefixTrans<T>(a: seq<T>, b: seq<T>, c: seq<T>)
    requires a <= b && b <= c
    ensures a <= c
  {
    assert c[..|a|] == b[..|a|];
  }

  class StateManager {
    /** How deep one mutation may cascade through virtual states (and one
        erasure through the keys of a virtual state) in the model. */
    const cascadeDepth: nat
    /** The stamp of the latest committed mutation; the first is 1, 0 means unstamped. */
    var lastStamp: nat
    var table: Table
    var triggerStates: seq<StateKey>
    var volatileStateMap: map<nat, seq<string>>
    var displayItemObserverMap: map<Item, seq<StateKey>>
    /** The attribute-set additions and removals sent to display items, in order. */
    var notices: seq<Notice>

    ghost predicate Valid()
      reads this
    {
      Inv(table, lastStamp, displayItemObserverMap)
    }

    constructor(depth: nat)
      ensures Valid()
      ensures cascadeDepth == depth && lastStamp == 0 && table == EmptyTable && triggerStates == []
      ensures volatileStateMap == map[] && displayItemObserverMap == map[] && notices == []
    {
      cascadeDepth := depth;
      lastStamp := 0;
      table := EmptyTable;
      triggerStates := [];
      volatileStateMap := map[];
      displayItemObserverMap := map[];
      notices := [];
    }

    /** `checkState`: false for a state that does not exist. */
    function CheckState(k: StateKey): (b: bool)
      reads this
      ensures b <==> k in ActiveKeys(table)
    {
      k in table.active && table.active[k]
    }

    /** `getStamp`: 0 for a state that does not exist. */
    function GetStamp(k: StateKey): (r: nat)
      reads this
      requires Valid()
      ensures r <= lastStamp
      ensures k !in table.active ==> r == 0
    {
      if k in table.active then table.stamps[k] else 0
    }

    /** `getLastStamp`: no stored stamp exceeds it. */
    function GetLastStamp(): (r: nat)
      reads this
      requires Valid()
      ensures forall k :: k in table.active ==> GetStamp(k) <= r
    {
      lastStamp
    }

    /** `hasTriggerStates`. */
    function HasTriggerStates(): (b: bool)
      reads this
      ensures b <==> triggerStates != []
    {
      |triggerStates| > 0
    }

    /** The bookkeeping maps and the trigger queue are left alone. */
    twostate predicate BooksKept()
      reads this
    {
      triggerStates == old(triggerStates)
      && volatileStateMap == old(volatileStateMap)
      && displayItemObserverMap == old(displayItemObserverMap)
    }

    /** What a (possibly cascading) mutation leaves alone. */
    twostate predicate OnlyValuesChange()
      reads this
    {
      ValuesOnly(old(table), table) && old(lastStamp) <= lastStamp && old(notices) <= notices && BooksKept()
    }

    /** What an erasure leaves alone. */
    twostate predicate OnlyErases()
      reads this
    {
      Shrinks(old(table), table) && lastStamp == old(lastStamp) && notices == old(notices) && BooksKept()
    }

    /** Without a cascade: the state was set and given the next stamp, and
        its observers were told. */
    twostate predicate StampedFresh(before: Table, last: nat, sent: seq<Notice>, k: StateKey, active: bool)
      requires k in before.observers
      reads this
    {
      table == Stamped(before, k, active, last + 1)
      && lastStamp == last + 1
      && notices == sent + ObserverNotices(before.observers[k], active)
    }

    // ---- mutation ----

    /** The first half of `State::mutate`: set value and stamp, notify every observer. */
    method SetValue(k: StateKey, setTo: bool, stamp: nat)
      requires Valid() && k in table.active && 0 < stamp <= lastStamp
      modifies this
      ensures Valid() && ValuesOnly(old(table), table) && BooksKept()
      ensures table == Stamped(old(table), k, setTo, stamp)
      ensures notices == old(notices) + ObserverNotices(old(table).observers[k], setTo)
      ensures lastStamp == old(lastStamp)
    {
      InvStamped(table, lastStamp, displayItemObserverMap, k, setTo, stamp);
      notices := notices + ObserverNotices(table.observers[k], setTo);
      table := Stamped(table, k, setTo, stamp);
    }

    /** `State::mutate`: a no-op when the value is already `setTo`; otherwise
        sets value and stamp, notifies every observer, then syncs the virtual
        states that depend on this one. */
    method MutateState(k: StateKey, setTo: bool, stamp: nat, fuel: nat) returns (changed: bool)
      requires Valid() && k in table.active && 0 < stamp <= lastStamp
      modifies this
      ensures Valid() && OnlyValuesChange()
      ensures changed <==> old(table).active[k] != setTo
      ensures !changed ==> table == old(table) && notices == old(notices) && lastStamp == old(lastStamp)
      ensures changed ==> old(notices) + ObserverNotices(old(table).observers[k], setTo) <= notices
      ensures changed && |old(table).affected[k]| == 0 ==>
                table == Stamped(old(table), k, setTo, stamp)
                && notices == old(notices) + ObserverNotices(old(table).observers[k], setTo)
                && lastStamp == old(lastStamp)
      ensures changed && fuel > 0 && Untangled(old(table), old(table).affected[k]) && !HasProxy(old(table).affected[k], k) ==>
                table.active[k] == setTo && Synced(table, old(table).affected[k])
      decreases fuel, 0
    {
      if table.active[k] == setTo {
        return false;
      }
      var vs := table.affected[k];
      SetValue(k, setTo, stamp);
      if fuel > 0 && |vs| > 0 {
        ghost var sent := notices;
        ghost var t0 := table;
        SyncAll(vs, fuel - 1);
        PrefixTrans(old(notices), sent, notices);
        ValuesOnlyTrans(old(table), t0, table);
        assert Untangled(old(table), vs) ==> Untangled(t0, vs);
      }
      changed := true;
    }

    /** `syncAffectedVirtualStateKeys`: syncs each virtual state in turn.
        Over untangled virtual states each stored proxy ends up holding its
        expression's value, over the states before and after the pass alike. */
    method SyncAll(vs: seq<WellFormedKey>, fuel: nat)
      requires Valid()
      modifies this
      ensures Valid() && OnlyValuesChange()
      ensures Untangled(old(table), vs) ==> SyncedFrom(old(table), table, vs) && Synced(table, vs)
      decreases fuel, 4
    {
      ghost var untangled := Untangled(table, vs);
      var i := 0;
      while i < |vs|
        invariant 0 <= i <= |vs|
        invariant Valid() && OnlyValuesChange()
        invariant untangled ==> SyncedUpTo(old(table), table, vs, i)
      {
        ghost var sent := notices;
        ghost var t0 := table;
        SyncProxyState(vs[i], fuel);
        PrefixTrans(old(notices), sent, notices);
        ValuesOnlyTrans(old(table), t0, table);
        if untangled {
          SyncStep(old(table), t0, table, vs, i);
        }
        i := i + 1;
      }
      if untangled {
        SyncedFromIsSynced(old(table), table, vs);
      }
    }

    /** `VirtualStateKey::syncProxyState`: sets the proxy to the value of the
        virtual state's expression, if the proxy exists. */
    method SyncProxyState(v: WellFormedKey, fuel: nat)
      requires Valid()
      modifies this
      ensures Valid() && OnlyValuesChange()
      ensures var value := Evaluate(v.root, ActiveKeys(old(table)));
              v.proxyStateKey !in old(table).active || old(table).active[v.proxyStateKey] == value ==>
                table == old(table) && notices == old(notices) && lastStamp == old(lastStamp)
      ensures var value := Evaluate(v.root, ActiveKeys(old(table)));
              v.proxyStateKey in old(table).active && old(table).active[v.proxyStateKey] != value
              && NoDependents(old(table), v.proxyStateKey) ==>
                StampedFresh(old(table), old(lastStamp), old(notices), v.proxyStateKey, value)
      ensures v.proxyStateKey in old(table).active && NoDependents(old(table), v.proxyStateKey) ==>
                table.active[v.proxyStateKey] == Evaluate(v.root, ActiveKeys(old(table)))
      ensures NoDependents(old(table), v.proxyStateKey) ==>
                forall k :: k in old(table).active && k != v.proxyStateKey ==> table.active[k] == old(table).active[k]
      decreases fuel, 3
    {
      var value := Evaluate(v.root, ActiveKeys(table));
      var _ := MutateIfObservedWithin(v.proxyStateKey, value, fuel);
    }

    method MutateIfObservedWithin(k: StateKey, active: bool, fuel: nat) returns (found: bool)
      requires Valid()
      modifies this
      ensures Valid() && OnlyValuesChange()
      ensures found <==> k in old(table).active
      ensures !found || old(table).active[k] == active ==>
                table == old(table) && notices == old(notices) && lastStamp == old(lastStamp)
      ensures found && old(table).active[k] != active && |old(table).affected[k]| == 0 ==>
                StampedFresh(old(table), old(lastStamp), old(notices), k, active)
      decreases fuel, 2
    {
      if k !in table.active {
        return false;
      }
      AttemptMutateWithin(k, active, fuel);
      found := true;
    }

    /** `attemptMutate`, with the stamp committed before the mutation can
        cascade (see `AsWrittenCascade` for the order in the source). */
    method AttemptMutateWithin(k: StateKey, flag: bool, fuel: nat)
      requires Valid() && k in table.active
      modifies this
      ensures Valid() && OnlyValuesChange()
      ensures old(table).active[k] == flag ==>
                table == old(table) && notices == old(notices) && lastStamp == old(lastStamp)
      ensures old(table).active[k] != flag ==>
                lastStamp > old(lastStamp)
                && old(notices) + ObserverNotices(old(table).observers[k], flag) <= notices
      ensures old(table).active[k] != flag && |old(table).affected[k]| == 0 ==>
                StampedFresh(old(table), old(lastStamp), old(notices), k, flag)
      decreases fuel, 1
    {
      if table.active[k] != flag {
        InvRaise(table, lastStamp, displayItemObserverMap);
        lastStamp := lastStamp + 1;
        var _ := MutateState(k, flag, lastStamp, fuel);
      }
    }

    /** `mutateIfObserved`: false when the state does not exist. */
    method MutateIfObserved(k: StateKey, active: bool) returns (found: bool)
      requires Valid()
      modifies this
      ensures Valid() && OnlyValuesChange()
      ensures found <==> k in old(table).active
      ensures !found || old(table).active[k] == active ==>
                table == old(table) && notices == old(notices) && lastStamp == old(lastStamp)
      ensures found && old(table).active[k] != active && |old(table).affected[k]| == 0 ==>
                StampedFresh(old(table), old(lastStamp), old(notices), k, active)
    {
      found := MutateIfObservedWithin(k, active, cascadeDepth);
    }

    /** `setTriggerIfObserved`: sets the state and queues it for reset. */
    method SetTriggerIfObserved(k: StateKey)
      requires Valid()
      modifies this
      ensures Valid()
      ensures ValuesOnly(old(table), table) && old(notices) <= notices && old(lastStamp) <= lastStamp
      ensures triggerStates == old(triggerStates) + (if k in old(table).active then [k] else [])
      ensures volatileStateMap == old(volatileStateMap) && displayItemObserverMap == old(displayItemObserverMap)
      ensures k !in old(table).active ==> table == old(table)
      ensures k in old(table).active && |old(table).affected[k]| == 0 ==> CheckState(k)
    {
      var found := MutateIfObserved(k, true);
      if found {
        triggerStates := triggerStates + [k];
      }
    }

    /** One step of `resetTriggerStates` without a cascade: the state (if it
        still exists) reads inactive and no other state changes value. */
    method ResetOne(k: StateKey)
      requires Valid()
      modifies this
      ensures Valid() && OnlyValuesChange()
      ensures NoDependents(old(table), k) ==> table.active == (if k in old(table).active then old(table).active[k := false] else old(table).active)
    {
      if k in table.active {
        AttemptMutateWithin(k, false, cascadeDepth);
      }
    }

    /** `resetTriggerStates`: clears every queued trigger back to inactive and
        empties the queue (a queued state that no longer exists is skipped). */
    method ResetTriggerStates()
      requires Valid()
      modifies this
      ensures Valid()
      ensures ValuesOnly(old(table), table) && old(lastStamp) <= lastStamp && old(notices) <= notices
      ensures triggerStates == []
      ensures volatileStateMap == old(volatileStateMap) && displayItemObserverMap == old(displayItemObserverMap)
      ensures Calm(old(table), old(triggerStates)) ==> forall k :: k in old(triggerStates) ==> !CheckState(k)
    {
      var queue := triggerStates;
      ghost var calm := Calm(table, queue);
      var i := 0;
      while i < |queue|
        invariant 0 <= i <= |queue|
        invariant Valid() && OnlyValuesChange()
        invariant calm ==> Calm(table, queue) && forall j :: 0 <= j < i ==> !CheckState(queue[j])
      {
        ghost var sent := notices;
        ghost var t0 := table;
        assert calm ==> NoDependents(table, queue[i]);
        ResetOne(queue[i]);
        PrefixTrans(old(notices), sent, notices);
        ValuesOnlyTrans(old(table), t0, table);
        i := i + 1;
      }
      if calm {
        forall k | k in queue
          ensures !CheckState(k)
        {
          var j :| 0 <= j < |queue| && queue[j] == k;
        }
      }
      triggerStates := [];
    }

    /** One step of `mutateAll` without a cascade: the state reads `active`,
        and no other state changes value or stamp. */
    method MutateOne(k: StateKey, active: bool)
      requires Valid() && k in table.active
      modifies this
      ensures Valid() && OnlyValuesChange()
      ensures NoDependents(old(table), k) ==>
                table == old(table) || table == Stamped(old(table), k, active, lastStamp)
      ensures NoDependents(old(table), k) ==> table.active[k] == active
    {
      AttemptMutateWithin(k, active, cascadeDepth);
    }

    /** The loop of `mutateAll`: without a cascade, every listed state ends
        up reading `active` and every other state keeps its value and stamp. */
    method MutateEach(keys: seq<StateKey>, active: bool)
      requires Valid() && forall k :: k in keys ==> k in table.active
      modifies this
      ensures Valid() && OnlyValuesChange()
      ensures Calm(old(table), keys) ==> forall k :: k in keys ==> table.active[k] == active
      ensures Calm(old(table), keys) ==> forall k :: k in old(table).active && k !in keys ==>
                table.active[k] == old(table).active[k] && table.stamps[k] == old(table).stamps[k]
    {
      ghost var calm := Calm(table, keys);
      var i := 0;
      while i < |keys|
        invariant 0 <= i <= |keys|
        invariant Valid() && OnlyValuesChange()
        invariant calm ==> Calm(table, keys)
        invariant calm ==> SetSoFar(table, old(table), keys, i, active)
      {
        ghost var sent := notices;
        ghost var t0 := table;
        assert calm ==> NoDependents(table, keys[i]);
        MutateOne(keys[i], active);
        PrefixTrans(old(notices), sent, notices);
        ValuesOnlyTrans(old(table), t0, table);
        if calm {
          MutateStep(t0, table, old(table), keys, i, active, lastStamp);
        }
        i := i + 1;
      }
      assert keys[..i] == keys;
      if calm {
        forall k | k in keys
          ensures table.active[k] == active
        {
          var j :| 0 <= j < |keys| && keys[j] == k;
        }
      }
    }

    /** `mutateAll`: mutates every scoped state of the identity, in scope
        order; the global one is left alone. */
    method MutateAll(k: StateKey, active: bool)
      requires Valid()
      modifies this
      ensures Valid() && OnlyValuesChange()
      ensures ScopesCalm(old(table), k.identity) ==>
                forall sc :: StateKey(k.identity, Some(sc)) in old(table).active ==> table.active[StateKey(k.identity, Some(sc))] == active
      ensures ScopesCalm(old(table), k.identity) && StateKey(k.identity, None) in old(table).active ==>
                table.active[StateKey(k.identity, None)] == old(table).active[StateKey(k.identity, None)]
                && table.stamps[StateKey(k.identity, None)] == old(table).stamps[StateKey(k.identity, None)]
    {
      var scopes := ScopesOf(table, k.identity);
      var keys := seq(|scopes|, j requires 0 <= j < |scopes| => StateKey(k.identity, Some(scopes[j])));
      ScopedKeys(table, k.identity, scopes, keys);
      MutateEach(keys, active);
    }

    // ---- creation and observation ----

    /** `initState`: records a scoped key under its scope (every time) and
        creates the state if it does not exist. */
    method InitState(k: StateKey)
      requires Valid()
      modifies this
      ensures Valid()
      ensures table == Ensure(old(table), k)
      ensures volatileStateMap == if k.scope.Some?
                                  then old(volatileStateMap)[k.scope.value := VolatileOf(old(volatileStateMap), k.scope.value) + [k.identity]]
                                  else old(volatileStateMap)
      ensures lastStamp == old(lastStamp) && notices == old(notices) && triggerStates == old(triggerStates)
      ensures displayItemObserverMap == old(displayItemObserverMap)
    {
      if k.scope.Some? {
        volatileStateMap := volatileStateMap[k.scope.value := VolatileOf(volatileStateMap, k.scope.value) + [k.identity]];
      }
      InvEnsure(table, lastStamp, displayItemObserverMap, k);
      table := Ensure(table, k);
    }

    /** `registerStateObserver`: records the key under the item, creates the
        state if needed, registers the item and tells it the state's current
        value (see `ObservingMeaning`). */
    method RegisterStateObserver(k: StateKey, item: Item, pos: Position)
      requires Valid()
      modifies this
      ensures Valid()
      ensures table == Observing(Ensure(old(table), k), k, item, pos)
      ensures notices == old(notices) + [Notify(item, pos, old(CheckState(k)))]
      ensures displayItemObserverMap == old(displayItemObserverMap)[item := ObservedBy(old(displayItemObserverMap), item) + [k]]
      ensures lastStamp == old(lastStamp) && triggerStates == old(triggerStates)
    {
      RecordObserver(k, item);
      InitState(k);
      AddObserver(k, item, pos);
    }

    /** `displayItemObserverMap[observer].push_back(key)`. */
    method RecordObserver(k: StateKey, item: Item)
      requires Valid()
      modifies this
      ensures Valid()
      ensures displayItemObserverMap == old(displayItemObserverMap)[item := ObservedBy(old(displayItemObserverMap), item) + [k]]
      ensures table == old(table) && lastStamp == old(lastStamp) && notices == old(notices)
      ensures triggerStates == old(triggerStates) && volatileStateMap == old(volatileStateMap)
    {
      InvRecord(table, lastStamp, displayItemObserverMap, k, item);
      displayItemObserverMap := displayItemObserverMap[item := ObservedBy(displayItemObserverMap, item) + [k]];
    }

    /** `State::reigsterObserver`. */
    method AddObserver(k: StateKey, item: Item, pos: Position)
      requires Valid() && k in table.active
      requires item in displayItemObserverMap && k in displayItemObserverMap[item]
      modifies this
      ensures Valid()
      ensures table == Observing(old(table), k, item, pos)
      ensures notices == old(notices) + [Notify(item, pos, old(table).active[k])]
      ensures lastStamp == old(lastStamp) && BooksKept()
    {
      InvObserving(table, lastStamp, displayItemObserverMap, k, item, pos);
      notices := notices + [Notify(item, pos, table.active[k])];
      table := Observing(table, k, item, pos);
    }

    /** `insertVirtualState`: installs the virtual key on its proxy (which
        must exist), syncs the proxy, then registers the key with every
        state it lists, creating the missing ones. */
    method InsertVirtualState(v: WellFormedKey)
      requires Valid() && v.proxyStateKey in table.active
      modifies this
      ensures Valid()
      ensures v.proxyStateKey in table.active && table.virtualKeys[v.proxyStateKey] == Some(v)
      ensures forall k :: k in AffectedKeys(v.root) ==>
                k in table.active && HasProxy(table.affected[k], v.proxyStateKey) && Observed(table, k)
      ensures forall k :: k in old(table).active ==> k in table.active
      ensures NoDependents(old(table), v.proxyStateKey) ==>
                table.active[v.proxyStateKey] == Evaluate(v.root, ActiveKeys(old(table)))
      ensures old(lastStamp) <= lastStamp && old(notices) <= notices
      ensures triggerStates == old(triggerStates) && displayItemObserverMap == old(displayItemObserverMap)
    {
      Install(v);
      ghost var installed := table;
      assert ActiveKeys(installed) == ActiveKeys(old(table));
      SyncProxyState(v, cascadeDepth);
      var keys := AffectedKeys(v.root);
      RegisterEach(v, keys);
      forall k | k in AffectedKeys(v.root)
        ensures k in table.active && HasProxy(table.affected[k], v.proxyStateKey) && Observed(table, k)
      {
        var j :| 0 <= j < |keys| && keys[j] == k;
        var n :| 0 <= n < |table.affected[k]| && table.affected[k][n].proxyStateKey == v.proxyStateKey;
      }
    }

    /** The loop of `insertVirtualState`: registers the virtual key with every
        listed state, creating the missing ones; no value or stamp changes. */
    method RegisterEach(v: WellFormedKey, keys: seq<StateKey>)
      requires Valid() && v.proxyStateKey in table.active && table.virtualKeys[v.proxyStateKey] == Some(v)
      modifies this
      ensures Valid()
      ensures v.proxyStateKey in table.active && table.virtualKeys[v.proxyStateKey] == Some(v)
      ensures forall j :: 0 <= j < |keys| ==> keys[j] in table.active && HasProxy(table.affected[keys[j]], v.proxyStateKey)
      ensures forall k :: k in old(table).active ==> k in table.active && table.active[k] == old(table).active[k]
      ensures lastStamp == old(lastStamp) && notices == old(notices)
      ensures triggerStates == old(triggerStates) && displayItemObserverMap == old(displayItemObserverMap)
    {
      var i := 0;
      while i < |keys|
        invariant 0 <= i <= |keys|
        invariant Valid()
        invariant v.proxyStateKey in table.active && table.virtualKeys[v.proxyStateKey] == Some(v)
        invariant forall j :: 0 <= j < i ==> keys[j] in table.active && HasProxy(table.affected[keys[j]], v.proxyStateKey)
        invariant forall k :: k in old(table).active ==> k in table.active && table.active[k] == old(table).active[k]
        invariant lastStamp == old(lastStamp) && notices == old(notices)
        invariant triggerStates == old(triggerStates) && displayItemObserverMap == old(displayItemObserverMap)
      {
        ghost var before := table;
        RegisterWith(keys[i], v);
        RegisterStep(before, v, keys, i);
        i := i + 1;
      }
    }

    /** `State::insertVirtualStateKey`'s own change. */
    method Install(v: WellFormedKey)
      requires Valid() && v.proxyStateKey in table.active
      modifies this
      ensures Valid()
      ensures table == Installing(old(table), v)
      ensures lastStamp == old(lastStamp) && notices == old(notices) && BooksKept()
    {
      InvInstalling(table, lastStamp, displayItemObserverMap, v);
      table := Installing(table, v);
    }

    /** One step of `insertVirtualState`: create the state if missing, then
        `registerAffectedVirtualStateKey` (see `RegisteringMeaning`). */
    method RegisterWith(k: StateKey, v: WellFormedKey)
      requires Valid()
      modifies this
      ensures Valid()
      ensures table == Registering(Ensure(old(table), k), k, v)
      ensures lastStamp == old(lastStamp) && notices == old(notices)
      ensures triggerStates == old(triggerStates) && displayItemObserverMap == old(displayItemObserverMap)
    {
      if k !in table.active {
        InitState(k);
      }
      EnsureMeaning(table, k);
      InvRegistering(table, lastStamp, displayItemObserverMap, k, v);
      table := Registering(table, k, v);
    }

    // ---- erasure ----

    /** `eraseStateIfOrphaned`: erases an existing state that nobody observes;
        if it is the proxy of a virtual state, first unregisters that virtual
        state from each state it lists and tries to erase those too. */
    method EraseStateIfOrphaned(k: StateKey, fuel: nat)
      requires Valid()
      modifies this
      ensures Valid() && OnlyErases()
      ensures k in old(table).active && !Observed(old(table), k) ==> k !in table.active
      ensures k !in old(table).active || Observed(old(table), k) ==> table == old(table)
      decreases fuel, 1
    {
      if k !in table.active || Observed(table, k) {
        return;
      }
      var vk := table.virtualKeys[k];
      if vk.Some? && fuel > 0 {
        UnregisterVirtualKey(vk.value, k, fuel - 1);
      }
      if k in table.active {
        Erase(k);
      }
    }

    /** `rangeIterator->second.erase(stateIt)` on an orphan. */
    method Erase(k: StateKey)
      requires Valid() && k in table.active && !Observed(table, k)
      modifies this
      ensures Valid() && OnlyErases()
      ensures table == Without(old(table), k)
    {
      InvWithout(table, lastStamp, displayItemObserverMap, k);
      table := Without(table, k);
    }

    /** `affectedState->removeAffectedVirtualStateKey(vskey)`. */
    method Unregister(k: StateKey, p: StateKey)
      requires Valid() && k in table.active
      modifies this
      ensures Valid() && OnlyErases()
      ensures table == Unregistering(old(table), k, p)
    {
      UnregisteringShrinks(table, k, p);
      InvShrinks(table, Unregistering(table, k, p), lastStamp, displayItemObserverMap);
      table := Unregistering(table, k, p);
    }

    /** The loop of `eraseStateIfOrphaned` over the keys of the orphan's
        virtual state `v`; the orphan `k` stays unobserved throughout. */
    method UnregisterVirtualKey(v: WellFormedKey, k: StateKey, fuel: nat)
      requires Valid()
      requires k in table.active ==> !Observed(table, k)
      modifies this
      ensures Valid() && OnlyErases()
      ensures k in table.active ==> !Observed(table, k)
      decreases fuel, 2
    {
      var keys := AffectedKeys(v.root);
      var i := 0;
      while i < |keys|
        invariant 0 <= i <= |keys|
        invariant Valid() && OnlyErases()
        invariant k in table.active ==> !Observed(table, k)
      {
        if keys[i] in table.active {
          ghost var t0 := table;
          Unregister(keys[i], v.proxyStateKey);
          ghost var t1 := table;
          EraseStateIfOrphaned(keys[i], fuel);
          ShrinksTrans(t0, t1, table);
          ShrinksTrans(old(table), t0, table);
          if k in table.active {
            UnobservedStaysUnobserved(t0, table, k);
          }
        }
        i := i + 1;
      }
    }

    /** The loop of `deallocateScope`: tries to erase each state in turn. */
    method EraseEach(keys: seq<StateKey>)
      requires Valid()
      modifies this
      ensures Valid() && OnlyErases()
      ensures forall k :: k in keys && Orphan(old(table), k) ==> k !in table.active
    {
      var i := 0;
      while i < |keys|
        invariant 0 <= i <= |keys|
        invariant Valid() && OnlyErases()
        invariant forall j :: 0 <= j < i && Orphan(old(table), keys[j]) ==> keys[j] !in table.active
      {
        ghost var t0 := table;
        EraseStateIfOrphaned(keys[i], cascadeDepth);
        ShrinksTrans(old(table), t0, table);
        if Orphan(old(table), keys[i]) && keys[i] in t0.active {
          UnobservedStaysUnobserved(old(table), t0, keys[i]);
        }
        i := i + 1;
      }
      forall k | k in keys && Orphan(old(table), k)
        ensures k !in table.active
      {
        var j :| 0 <= j < |keys| && keys[j] == k;
      }
    }

    /** `deallocateScope`: tries to erase every state recorded under the
        scope, then forgets the scope. */
    method DeallocateScope(scope: nat)
      requires Valid()
      modifies this
      ensures Valid()
      ensures Shrinks(old(table), table)
      ensures forall id :: id in VolatileOf(old(volatileStateMap), scope) && Orphan(old(table), StateKey(id, Some(scope)))
                ==> StateKey(id, Some(scope)) !in table.active
      ensures volatileStateMap == old(volatileStateMap) - {scope}
      ensures lastStamp == old(lastStamp) && notices == old(notices) && triggerStates == old(triggerStates)
      ensures displayItemObserverMap == old(displayItemObserverMap)
    {
      var ids := VolatileOf(volatileStateMap, scope);
      var keys := seq(|ids|, j requires 0 <= j < |ids| => StateKey(ids[j], Some(scope)));
      EraseEach(keys);
      forall id | id in ids
        ensures StateKey(id, Some(scope)) in keys
      {
        var j :| 0 <= j < |ids| && ids[j] == id;
        assert keys[j] == StateKey(id, Some(scope));
      }
      volatileStateMap := volatileStateMap - {scope};
    }

    /** `removeReferencesToModel`. */
    method RemoveReferencesToModel(scope: nat)
      requires Valid()
      modifies this
      ensures Valid()
      ensures Shrinks(old(table), table)
      ensures scope !in volatileStateMap
      ensures lastStamp == old(lastStamp) && notices == old(notices) && triggerStates == old(triggerStates)
    {
      DeallocateScope(scope);
    }

    /** `findState(key)->removeObserver(item)`, skipped for a missing state. */
    method DropObserver(k: StateKey, item: Item)
      requires Valid()
      modifies this
      ensures Valid()
      ensures table == if k in old(table).active then Unobserving(old(table), k, item) else old(table)
      ensures lastStamp == old(lastStamp) && notices == old(notices) && BooksKept()
    {
      if k in table.active {
        InvUnobserving(table, lastStamp, displayItemObserverMap, k, item);
        table := Unobserving(table, k, item);
      }
    }

    /** One step of `removeReferencesToDisplayItem`: the state no longer
        lists the item, and was erased if that left it orphaned. */
    method ReleaseOne(k: StateKey, item: Item)
      requires Valid()
      modifies this
      ensures Valid()
      ensures forall j :: j in table.active ==> j in old(table).active
      ensures forall j :: j in table.observers && j != k ==> table.observers[j] == old(table).observers[j]
      ensures k in table.observers ==> item !in table.observers[k]
      ensures lastStamp == old(lastStamp) && notices == old(notices) && BooksKept()
    {
      ghost var t0 := table;
      DropObserver(k, item);
      if k in t0.active {
        UnobservingMeaning(t0, k, item);
      }
      EraseStateIfOrphaned(k, cascadeDepth);
    }

    /** `removeReferencesToDisplayItem`: erases the item's own states, then
        drops the item from every state it observes, erasing those left
        orphaned. Afterwards no state refers to the item. */
    method RemoveReferencesToDisplayItem(item: Item)
      requires Valid()
      modifies this
      ensures Valid()
      ensures forall k :: k in table.observers ==> item !in table.observers[k]
      ensures forall k :: k in table.active ==> k in old(table).active
      ensures item !in displayItemObserverMap && item !in volatileStateMap
      ensures lastStamp == old(lastStamp) && notices == old(notices) && triggerStates == old(triggerStates)
    {
      DeallocateScope(item);
      var keys := ObservedBy(displayItemObserverMap, item);
      ghost var start := table;
      var i := 0;
      while i < |keys|
        invariant 0 <= i <= |keys|
        invariant Valid()
        invariant forall k :: k in table.observers && item in table.observers[k] ==> forall j :: 0 <= j < i ==> keys[j] != k
        invariant forall k :: k in table.active ==> k in start.active
        invariant item !in volatileStateMap
        invariant displayItemObserverMap == old(displayItemObserverMap)
        invariant lastStamp == old(lastStamp) && notices == old(notices) && triggerStates == old(triggerStates)
      {
        ghost var t0 := table;
        ReleaseOne(keys[i], item);
        forall o | o in table.observers && item in table.observers[o]
          ensures forall j :: 0 <= j <= i ==> keys[j] != o
        {
          assert o != keys[i] && table.observers[o] == t0.observers[o];
        }
        i := i + 1;
      }
      forall k | k in table.observers
        ensures item !in table.observers[k]
      {
      }
      InvForget(table, lastStamp, displayItemObserverMap, item);
      displayItemObserverMap := displayItemObserverMap - {item};
    }
  }

  // ---- stamp order around a cascade ----

  /** The stamps that `count`-many nested `attemptMutate` calls issue when
      each reads the manager's current `lastStamp` and commits its own:
      `changes[i]` says whether the i-th synced proxy changed. The result is
      the final `lastStamp` and the stamps of the proxies that changed. */
  function NestedStamps(cur: nat, changes: seq<bool>): (r: (nat, seq<nat>))
    ensures r.0 == cur + |r.1|
    ensures forall i :: 0 <= i < |r.1| ==> r.1[i] == cur + 1 + i
    decreases |changes|
  {
    if |changes| == 0 then (cur, [])
    else if changes[0] then
      var t := NestedStamps(cur + 1, changes[1..]);
      (t.0, [cur + 1] + t.1)
    else NestedStamps(cur, changes[1..])
  }

  /** As written (statemanager.cpp:108-116): the change takes stamp `last + 1`
      but `lastStamp` is committed only after `mutate` returns, so the
      proxies it syncs stamp from the stale `last`, and the final commit then
      overwrites whatever they committed. Result: the changed state's stamp,
      the final `lastStamp`, and the proxies' stamps. */
  function AsWrittenCascade(last: nat, changes: seq<bool>): (r: (nat, nat, seq<nat>))
    ensures r.0 == last + 1 && r.1 == last + 1
  {
    var nested := NestedStamps(last, changes);
    (last + 1, last + 1, nested.1)
  }

  /** One state change that makes two virtual proxies change: the first proxy
      shares the stamp of the state itself, and `lastStamp` ends below the
      second proxy's stamp, so the next mutation reuses stamp 2. */
  lemma AsWrittenCascadeCounterexample()
    ensures AsWrittenCascade(0, [true, true]) == (1, 1, [1, 2])
  {
    assert NestedStamps(0, [true, true]).1 == [1, 2];
  }

  /** Corrected: commit the stamp before the mutation cascades (as the class
      does). */
  function CorrectedCascade(last: nat, changes: seq<bool>): (r: (nat, nat, seq<nat>))
  {
    var nested := NestedStamps(last + 1, changes);
    (last + 1, nested.0, nested.1)
  }

  /** Corrected, every change gets its own stamp above all earlier ones,
      and `lastStamp` ends at the highest stamp issued, one per change. */
  lemma CorrectedCascadeStamps(last: nat, changes: seq<bool>)
    ensures var r := CorrectedCascade(last, changes);
      r.0 == last + 1
      && (forall i :: 0 <= i < |r.2| ==> r.0 < r.2[i] <= r.1)
      && (forall i, j :: 0 <= i < j < |r.2| ==> r.2[i] < r.2[j])
      && r.1 == last + 1 + |r.2|
  {
  }

  /** `lastStamp` never trails a stamp it issued once the commit comes first,
      and always does when two proxies change under the order as written. */
  lemma AsWrittenLosesStampOrder(last: nat, changes: seq<bool>)
    requires |NestedStamps(last, changes).1| >= 2
    ensures AsWrittenCascade(last, changes).1 < AsWrittenCascade(last, changes).2[1]
  {
  }
}
