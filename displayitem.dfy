// `DisplayItem`: an instance of an element. The item keeps its own
// variables and the attribute layers that currently contribute to it; the
// tree of items (parent and children links) is kept by `ItemTree`, keyed by
// item; and the order in which a layout sees its children is
// `ModelOrder`.
module DisplayItems {
  import opened Wrappers

  // ---- the item's own state ----

  /** A layer handed to the recompute, in merge order: the element's
      default set, or the keyed set contributing at a position. */
  datatype Layer = DefaultSet | Contributing(position: int, attrs: nat)

  lemma Nonempty(s: set<int>)
    requires s != {}
    ensures exists y :: y in s
  {
    if forall y :: y !in s { assert false; }
  }

  /** The least of a finite set of positions. */
  ghost function MinOf(s: set<int>): (m: int)
    requires s != {}
    ensures m in s && forall p :: p in s ==> m <= p
    decreases |s|
  {
    Nonempty(s);
    var x :| x in s;
    if s == {x} then x
    else
      var rest := MinOf(s - {x});
      var m := if rest <= x then rest else x;
      assert forall p :: p in s ==> m <= p by {
        forall p | p in s ensures m <= p { if p != x { assert p in s - {x}; } }
      }
      m
  }

  class DisplayItem {
    const elementStamp: int
    /** `variableMap`; doubles are modelled as reals. */
    var variables: map<string, real>
    /** `contributingAttrs`: the keyed set contributing at each position. */
    var contributing: map<int, nat>
    /** Whether the environment has this item in its changed-attributes set. */
    var markedChanged: bool

    constructor(stamp: int)
      ensures elementStamp == stamp && variables == map[] && contributing == map[] && !markedChanged
    {
      elementStamp := stamp;
      variables := map[];
      contributing := map[];
      markedChanged := false;
    }

    /** `setVariable`. */
    method SetVariable(key: string, val: real)
      modifies this
      ensures variables == old(variables)[key := val]
      ensures contributing == old(contributing) && markedChanged == old(markedChanged)
    {
      variables := variables[key := val];
    }

    /** `getVariable` reads through `operator[]`, which stores 0 for a key
        never set. */
    method GetVariable(key: string) returns (val: real)
      modifies this
      ensures val == (if key in old(variables) then old(variables)[key] else 0.0)
      ensures variables == old(variables)[key := val]
      ensures contributing == old(contributing) && markedChanged == old(markedChanged)
    {
      if key !in variables {
        variables := variables[key := 0.0];
      }
      val := variables[key];
    }

    /** `addAttributeSet`: the set now contributes at its position (replacing
        any set there), and the item is marked changed. */
    method AddAttributeSet(position: int, attrs: nat)
      modifies this
      ensures contributing == old(contributing)[position := attrs] && markedChanged
      ensures variables == old(variables)
    {
      contributing := contributing[position := attrs];
      markedChanged := true;
    }

    /** `removeAttributeSet`: nothing contributes at the position any more. */
    method RemoveAttributeSet(position: int)
      modifies this
      ensures contributing == old(contributing) - {position} && markedChanged
      ensures variables == old(variables)
    {
      contributing := contributing - {position};
      markedChanged := true;
    }

    /** `recomputeAttributeSet`'s loop: the layers handed to `mergeIn`,
        in order. The default set comes first, then every contributing set
        exactly once, by ascending position (the map's order). */
    method RecomputeLayers() returns (merged: seq<Layer>)
      ensures LayersOf(merged, contributing, contributing.Keys)
    {
      var remaining := contributing.Keys;
      ghost var done: set<int> := {};
      merged := [DefaultSet];
      while remaining != {}
        invariant remaining + done == contributing.Keys && remaining !! done
        invariant LayersOf(merged, contributing, done) && Below(merged, remaining)
        decreases |remaining|
      {
        ghost var least := MinOf(remaining);
        var p :| p in remaining && forall q :: q in remaining ==> p <= q;
        LayerStep(merged, contributing, done, remaining, p);
        merged := merged + [Contributing(p, contributing[p])];
        remaining := remaining - {p};
        done := done + {p};
      }
    }
  }

  /** `merged` is the default set followed by the sets contributing at the
      positions `done`, each once, by ascending position. */
  ghost predicate LayersOf(merged: seq<Layer>, contributing: map<int, nat>, done: set<int>)
  {
    |merged| == 1 + |done| && merged[0] == DefaultSet &&
    (forall k :: 1 <= k < |merged| ==>
       merged[k].Contributing? && merged[k].position in done && merged[k].position in contributing &&
       merged[k].attrs == contributing[merged[k].position]) &&
    (forall p :: p in done && p in contributing ==> Contributing(p, contributing[p]) in merged) &&
    (forall i, j :: 1 <= i < j < |merged| ==> merged[i].position < merged[j].position)
  }

  /** Every position merged so far is before every position still to come. */
  ghost predicate Below(merged: seq<Layer>, remaining: set<int>)
  {
    forall k, q :: 1 <= k < |merged| && q in remaining && merged[k].Contributing? ==> merged[k].position < q
  }

  lemma LayerStep(merged: seq<Layer>, contributing: map<int, nat>, done: set<int>, remaining: set<int>, p: int)
    requires LayersOf(merged, contributing, done) && Below(merged, remaining)
    requires p in remaining && p in contributing && remaining !! done
    requires forall q :: q in remaining ==> p <= q
    ensures LayersOf(merged + [Contributing(p, contributing[p])], contributing, done + {p})
    ensures Below(merged + [Contributing(p, contributing[p])], remaining - {p})
  {
    var next := merged + [Contributing(p, contributing[p])];
    forall k | 1 <= k < |next|
      ensures next[k].Contributing? && next[k].position in done + {p} && next[k].position in contributing
      ensures next[k].attrs == contributing[next[k].position]
    {
      if k < |merged| { assert next[k] == merged[k]; }
    }
    forall i, j | 1 <= i < j < |next|
      ensures next[i].position < next[j].position
    {
      if j == |merged| { assert next[i] == merged[i]; } else { assert next[i] == merged[i] && next[j] == merged[j]; }
    }
    forall k, q | 1 <= k < |next| && q in remaining - {p} && next[k].Contributing?
      ensures next[k].position < q
    {
      if k < |merged| { assert next[k] == merged[k]; }
    }
    assert next[|merged|] == Contributing(p, contributing[p]);
  }

  // ---- the tree ----

  /** The items' parent and children links, keyed by item. */
  class ItemTree {
    var parent: map<nat, nat>
    /** `children`; an item absent here has none. */
    var children: map<nat, set<nat>>

    constructor()
      ensures parent == map[] && children == map[] && Valid()
    {
      parent := map[];
      children := map[];
    }

    function Kids(p: nat): set<nat>
      reads this
    {
      KidsOf(children, p)
    }

    ghost predicate Valid()
      reads this
    {
      Linked(parent, children)
    }

    /** `deparent`: the item leaves its parent's children and has no parent. */
    method Deparent(i: nat)
      requires Valid()
      modifies this
      ensures Valid()
      ensures parent == old(parent) - {i}
      ensures forall q :: KidsOf(children, q) == KidsOf(old(children), q) - {i}
    {
      DetachLinked(parent, children, i);
      if i in parent {
        var p := parent[i];
        children := children[p := Kids(p) - {i}];
        parent := parent - {i};
      }
    }

    /** `setParent` to a (non-null) item: nothing happens when it is already
        the parent; otherwise the item leaves its old parent and joins `p`. */
    method SetParent(i: nat, p: nat)
      requires Valid()
      modifies this
      ensures Valid()
      ensures i in old(parent) && old(parent)[i] == p ==> parent == old(parent) && children == old(children)
      ensures parent == old(parent)[i := p]
      ensures forall q :: q != p ==> Kids(q) == old(Kids(q)) - {i}
      ensures Kids(p) == old(Kids(p)) + {i}
    {
      if i in parent && parent[i] == p {
        assert i in Kids(p);
        assert Kids(p) + {i} == Kids(p);
        return;
      }
      Deparent(i);
      AttachLinked(parent, children, i, p);
      parent := parent[i := p];
      children := children[p := Kids(p) + {i}];
    }

    /** `prepareToDie`: the item leaves its parent, then every child leaves
        it. */
    method PrepareToDie(i: nat)
      requires Valid()
      modifies this
      ensures Valid()
      ensures i !in parent && Kids(i) == {}
      ensures parent.Keys == old(parent).Keys - {i} - old(Kids(i))
      ensures forall c :: c in parent ==> parent[c] == old(parent)[c]
      ensures forall q :: q != i ==> Kids(q) == old(Kids(q)) - {i}
    {
      Deparent(i);
      ghost var (orphan, detached) := (parent, children);
      ReleaseChildren(i);
      forall q | q != i
        ensures Kids(q) == old(Kids(q)) - {i}
      {
        KidsDisjoint(orphan, detached, q, i);
      }
    }

    /** `prepareToDie`'s loop: each child of a parentless item leaves it.
        The loop runs over a snapshot of the children, where the source
        erases from the set it iterates. */
    method ReleaseChildren(i: nat)
      requires Valid() && i !in parent
      modifies this
      ensures Valid()
      ensures i !in parent && Kids(i) == {}
      ensures parent.Keys == old(parent).Keys - old(Kids(i))
      ensures forall c :: c in parent ==> parent[c] == old(parent)[c]
      ensures forall q :: q != i ==> Kids(q) == old(Kids(q)) - old(Kids(i))
    {
      var snapshot := Kids(i);
      ghost var released: set<nat> := {};
      ghost var (orphan, detached) := (parent, children);
      while snapshot != {}
        invariant Releasing(parent, children, orphan, detached, i, snapshot, released)
        decreases |snapshot|
      {
        var c :| c in snapshot;
        ghost var (p0, k0) := (parent, children);
        Deparent(c);
        ReleaseStep(p0, k0, parent, children, orphan, detached, i, snapshot, released, c);
        snapshot := snapshot - {c};
        released := released + {c};
      }
    }

    /** The parent chain from `i` ends within `n` steps. */
    ghost predicate RootWithin(i: nat, n: nat)
      reads this
      decreases n
    {
      i !in parent || (n > 0 && RootWithin(parent[i], n - 1))
    }

    /** The `k`-th ancestor of `i` (`i` itself for 0). */
    function Ancestor(i: nat, k: nat): nat
      reads this
      decreases k
    {
      if k == 0 || i !in parent then i else Ancestor(parent[i], k - 1)
    }

    /** `getDepth`: one more than the parent's depth, 0 for a parentless item. */
    function Depth(i: nat, ghost n: nat): (d: nat)
      requires RootWithin(i, n)
      reads this
      ensures d <= n
      ensures Ancestor(i, d) !in parent
      ensures forall k :: 0 <= k < d ==> Ancestor(i, k) in parent
      decreases n
    {
      if i !in parent then 0 else Depth(parent[i], n - 1) + 1
    }

    /** `getRoot`: follow parents until an item has none; the source loops
        for ever on a cycle, so the chain is required to end. */
    method GetRoot(i: nat, ghost n: nat) returns (root: nat)
      requires RootWithin(i, n)
      ensures root !in parent
      ensures root == Ancestor(i, Depth(i, n))
    {
      var candidate := i;
      ghost var steps := 0;
      ghost var left: nat := n;
      root := candidate;
      while candidate in parent
        invariant RootWithin(candidate, left) && steps + left == n
        invariant candidate == Ancestor(i, steps)
        invariant Depth(i, n) == steps + Depth(candidate, left)
        decreases left
      {
        AncestorStep(i, steps);
        candidate := parent[candidate];
        steps := steps + 1;
        left := left - 1;
      }
      root := candidate;
    }

    lemma {:induction false} AncestorStep(i: nat, k: nat)
      requires Ancestor(i, k) in parent
      ensures Ancestor(i, k + 1) == parent[Ancestor(i, k)]
      decreases k
    {
      if k > 0 && i in parent {
        AncestorStep(parent[i], k - 1);
      }
    }
  }

  function KidsOf(children: map<nat, set<nat>>, p: nat): set<nat>
  {
    if p in children then children[p] else {}
  }

  /** The two links agree: an item is among its parent's children, and
      each child names that parent. */
  ghost predicate Linked(parent: map<nat, nat>, children: map<nat, set<nat>>)
  {
    (forall c :: c in parent ==> c in KidsOf(children, parent[c])) &&
    (forall p, c :: p in children && c in children[p] ==> c in parent && parent[c] == p)
  }

  /** The children links once `i` has left its parent. */
  function Detached(parent: map<nat, nat>, children: map<nat, set<nat>>, i: nat): map<nat, set<nat>>
  {
    if i in parent then children[parent[i] := KidsOf(children, parent[i]) - {i}] else children
  }

  lemma DetachLinked(parent: map<nat, nat>, children: map<nat, set<nat>>, i: nat)
    requires Linked(parent, children)
    ensures Linked(parent - {i}, Detached(parent, children, i))
    ensures forall q :: KidsOf(Detached(parent, children, i), q) == KidsOf(children, q) - {i}
  {
    var d := Detached(parent, children, i);
    forall q
      ensures KidsOf(d, q) == KidsOf(children, q) - {i}
    {
      if i in KidsOf(children, q) { assert parent[i] == q; }
    }
  }

  lemma AttachLinked(parent: map<nat, nat>, children: map<nat, set<nat>>, i: nat, p: nat)
    requires Linked(parent, children) && i !in parent
    ensures Linked(parent[i := p], children[p := KidsOf(children, p) + {i}])
  {
  }

  /** The state while `prepareToDie` releases the children of `i`: of the
      links left once `i` had no parent (`orphan`, `detached`), the items
      `released` have lost theirs, and `snapshot` holds the rest. */
  ghost predicate Releasing(parent: map<nat, nat>, children: map<nat, set<nat>>,
                            orphan: map<nat, nat>, detached: map<nat, set<nat>>,
                            i: nat, snapshot: set<nat>, released: set<nat>)
  {
    Linked(parent, children) &&
    snapshot + released == KidsOf(detached, i) && snapshot !! released &&
    KidsOf(children, i) == snapshot &&
    parent.Keys == orphan.Keys - released &&
    (forall c :: c in parent ==> parent[c] == orphan[c]) &&
    (forall q :: q != i ==> KidsOf(children, q) == KidsOf(detached, q) - released)
  }

  lemma ReleaseStep(parent: map<nat, nat>, children: map<nat, set<nat>>,
                    parent': map<nat, nat>, children': map<nat, set<nat>>,
                    orphan: map<nat, nat>, detached: map<nat, set<nat>>,
                    i: nat, snapshot: set<nat>, released: set<nat>, c: nat)
    requires Releasing(parent, children, orphan, detached, i, snapshot, released) && c in snapshot
    requires Linked(parent', children') && parent' == parent - {c}
    requires forall q :: KidsOf(children', q) == KidsOf(children, q) - {c}
    ensures Releasing(parent', children', orphan, detached, i, snapshot - {c}, released + {c})
  {
    forall q | q != i
      ensures KidsOf(children', q) == KidsOf(detached, q) - (released + {c})
    {
      assert KidsOf(children', q) == KidsOf(children, q) - {c};
    }
  }

  /** Distinct items have no child in common. */
  lemma KidsDisjoint(parent: map<nat, nat>, children: map<nat, set<nat>>, q: nat, i: nat)
    requires Linked(parent, children) && q != i
    ensures KidsOf(children, q) !! KidsOf(children, i)
  {
    forall c | c in KidsOf(children, q)
      ensures c !in KidsOf(children, i)
    {
      assert parent[c] == q;
    }
  }

  // ---- model order ----

  /** A child as the ordering sees it: its item, its element's stamp
      (declaration order) and the cell named by its PositionWithin, when it
      has one. */
  datatype Child = Child(id: nat, stamp: int, cell: Option<string>)

  ghost predicate SortedBy(s: seq<Child>, key: Child -> int)
  {
    forall i, j :: 0 <= i < j < |s| ==> key(s[i]) <= key(s[j])
  }

  /** The elements whose key is `v`, in their order in `s`. */
  function Filter(s: seq<Child>, key: Child -> int, v: int): seq<Child>
  {
    if s == [] then []
    else Filter(s[..|s| - 1], key, v) + (if key(s[|s| - 1]) == v then [s[|s| - 1]] else [])
  }

  /** `x` placed after every element whose key is not greater. */
  function InsertStable(s: seq<Child>, x: Child, key: Child -> int): (r: seq<Child>)
    ensures multiset(r) == multiset(s) + multiset{x}
  {
    if s == [] || key(s[|s| - 1]) <= key(x) then s + [x]
    else
      assert s == s[..|s| - 1] + [s[|s| - 1]];
      InsertStable(s[..|s| - 1], x, key) + [s[|s| - 1]]
  }

  /** `std::stable_sort` by `key`: insertion from the left. */
  function StableSort(s: seq<Child>, key: Child -> int): (r: seq<Child>)
    ensures multiset(r) == multiset(s)
  {
    if s == [] then []
    else
      assert s == s[..|s| - 1] + [s[|s| - 1]];
      InsertStable(StableSort(s[..|s| - 1], key), s[|s| - 1], key)
  }

  lemma {:induction false} FilterAppend(s: seq<Child>, x: Child, key: Child -> int, v: int)
    ensures Filter(s + [x], key, v) == Filter(s, key, v) + (if key(x) == v then [x] else [])
  {
    assert (s + [x])[..|s|] == s;
  }

  ghost predicate BoundedBy(s: seq<Child>, key: Child -> int, b: int)
  {
    forall k :: 0 <= k < |s| ==> key(s[k]) <= b
  }

  lemma {:induction false} InsertBounded(s: seq<Child>, x: Child, key: Child -> int, b: int)
    requires BoundedBy(s, key, b) && key(x) <= b
    ensures BoundedBy(InsertStable(s, x, key), key, b)
    decreases |s|
  {
    if s != [] && key(s[|s| - 1]) > key(x) {
      var init := s[..|s| - 1];
      assert BoundedBy(init, key, b) by {
        forall k | 0 <= k < |init| ensures key(init[k]) <= b { assert init[k] == s[k]; }
      }
      InsertBounded(init, x, key, b);
    }
  }

  lemma SwapTail(a: seq<Child>, b: seq<Child>, c: seq<Child>)
    requires b + c == c + b
    ensures a + b + c == a + c + b
  {
    assert a + b + c == a + (b + c);
    assert a + c + b == a + (c + b);
  }

  lemma SortedInit(s: seq<Child>, key: Child -> int)
    requires SortedBy(s, key) && s != []
    ensures SortedBy(s[..|s| - 1], key)
  {
  }

  lemma AppendSorted(r: seq<Child>, last: Child, key: Child -> int)
    requires SortedBy(r, key) && BoundedBy(r, key, key(last))
    ensures SortedBy(r + [last], key)
  {
  }

  lemma {:induction false} InsertSorted(s: seq<Child>, x: Child, key: Child -> int)
    requires SortedBy(s, key)
    ensures SortedBy(InsertStable(s, x, key), key)
    decreases |s|
  {
    if s != [] && key(s[|s| - 1]) > key(x) {
      var init := s[..|s| - 1];
      var last := s[|s| - 1];
      assert SortedBy(init, key) && BoundedBy(init, key, key(last)) by {
        forall k | 0 <= k < |init| ensures key(init[k]) <= key(last) && init[k] == s[k] { assert init[k] == s[k]; }
      }
      InsertSorted(init, x, key);
      InsertBounded(init, x, key, key(last));
      AppendSorted(InsertStable(init, x, key), last, key);
    } else if s != [] {
      AppendSorted(s, x, key);
    }
  }

  lemma {:induction false} InsertKeepsClasses(s: seq<Child>, x: Child, key: Child -> int, v: int)
    requires SortedBy(s, key)
    ensures Filter(InsertStable(s, x, key), key, v) == Filter(s, key, v) + (if key(x) == v then [x] else [])
    decreases |s|
  {
    if s == [] || key(s[|s| - 1]) <= key(x) {
      FilterAppend(s, x, key, v);
    } else {
      var init := s[..|s| - 1];
      var last := s[|s| - 1];
      SortedInit(s, key);
      InsertKeepsClasses(init, x, key, v);
      FilterAppend(InsertStable(init, x, key), last, key, v);
      FilterAppend(init, last, key, v);
      assert s == init + [last];
      var xs := if key(x) == v then [x] else [];
      var ls := if key(last) == v then [last] else [];
      assert xs + ls == ls + xs by {
        if key(x) == v { assert key(last) != v; }
      }
      assert Filter(InsertStable(s, x, key), key, v) == Filter(init, key, v) + xs + ls;
      assert Filter(s, key, v) == Filter(init, key, v) + ls;
      SwapTail(Filter(init, key, v), xs, ls);
    }
  }

  /** The sort orders by key, and keeps the elements of each key in their
      original order: it is stable, and a permutation. */
  lemma {:induction false} StableSortMeaning(s: seq<Child>, key: Child -> int)
    ensures SortedBy(StableSort(s, key), key)
    ensures forall v :: Filter(StableSort(s, key), key, v) == Filter(s, key, v)
    decreases |s|
  {
    if s != [] {
      var init := s[..|s| - 1];
      var last := s[|s| - 1];
      StableSortMeaning(init, key);
      InsertSorted(StableSort(init, key), last, key);
      forall v
        ensures Filter(StableSort(s, key), key, v) == Filter(s, key, v)
      {
        InsertKeepsClasses(StableSort(init, key), last, key, v);
        FilterAppend(init, last, key, v);
        assert s == init + [last];
      }
    }
  }

  /** The cells a layout declares, framed: "front" before them, "back"
      after. */
  function Cells(names: seq<string>): seq<string>
  {
    ["front"] + names + ["back"]
  }

  /** A cell's rank: its first index among the framed cells, or one past
      the end plus one for a name not declared. */
  function CellRank(names: seq<string>, cell: string): (r: nat)
    ensures r <= |names| + 1 || r == |names| + 3
    ensures r == |names| + 3 <==> cell !in Cells(names)
    ensures r < |names| + 2 ==> Cells(names)[r] == cell && forall k :: 0 <= k < r ==> Cells(names)[k] != cell
  {
    IndexOf(Cells(names), cell, 0)
  }

  function IndexOf(cells: seq<string>, cell: string, from: nat): (r: nat)
    requires from <= |cells|
    ensures from <= r
    ensures r < |cells| ==> cells[r] == cell && forall k :: from <= k < r ==> cells[k] != cell
    ensures r >= |cells| ==> r == |cells| + 1 && forall k :: from <= k < |cells| ==> cells[k] != cell
    decreases |cells| - from
  {
    if from == |cells| then |cells| + 1
    else if cells[from] == cell then from
    else IndexOf(cells, cell, from + 1)
  }

  function Stamp(c: Child): int { c.stamp }

  function CellKey(names: seq<string>): Child -> int
  {
    (c: Child) => if c.cell.Some? then CellRank(names, c.cell.value) else 0
  }

  /** `getChildMaterialsInModelOrder`: the children stably sorted by stamp,
      then, when the layout declares cell names, stably by cell rank. The
      cell rank is computed inside the comparator, so a child without a
      PositionWithin key fails the source's assertion, modelled as None,
      as soon as the sort compares anything: with two or more children
      every child is compared, a single child never is. */
  function ModelOrder(children: seq<Child>, cellNames: Option<seq<string>>): Option<seq<Child>>
  {
    var byStamp := StableSort(children, Stamp);
    if cellNames.None? then Some(byStamp)
    else if |children| > 1 && exists i :: 0 <= i < |children| && children[i].cell.None? then None
    else Some(StableSort(byStamp, CellKey(cellNames.value)))
  }

  /** Only a layout with cell names fails, only with two or more children,
      and only when one of them has no PositionWithin cell; a lone child
      comes back as it is. */
  lemma ModelOrderFails(children: seq<Child>, cellNames: Option<seq<string>>)
    ensures ModelOrder(children, cellNames).None? <==>
            cellNames.Some? && |children| > 1 && exists i :: 0 <= i < |children| && children[i].cell.None?
    ensures |children| == 1 ==> ModelOrder(children, cellNames) == Some(children)
  {
    if cellNames.Some? && |children| > 1 && exists i :: 0 <= i < |children| && children[i].cell.None? {
      assert ModelOrder(children, cellNames) == None;
    }
    if |children| == 1 {
      assert StableSort(children, Stamp) == children by { SingleSorted(children, Stamp); }
      if cellNames.Some? {
        SingleSorted(children, CellKey(cellNames.value));
      }
    }
  }

  /** Sorting a single child leaves it alone. */
  lemma SingleSorted(s: seq<Child>, key: Child -> int)
    requires |s| == 1
    ensures StableSort(s, key) == s
  {
    assert s[..0] == [];
    assert s == [] + [s[0]];
  }

  /** Without cell names the model order is the children sorted by stamp. */
  lemma ModelOrderByStamp(children: seq<Child>)
    ensures ModelOrder(children, None).Some?
    ensures var r := ModelOrder(children, None).value;
            multiset(r) == multiset(children) && SortedBy(r, Stamp) &&
            forall v :: Filter(r, Stamp, v) == Filter(children, Stamp, v)
  {
    StableSortMeaning(children, Stamp);
  }

  /** With cell names the model order is a permutation of the children by
      cell rank ("front" first, names not declared last), and the children
      of one rank keep their stamp order. */
  lemma ModelOrderByCell(children: seq<Child>, names: seq<string>)
    requires forall i :: 0 <= i < |children| ==> children[i].cell.Some?
    ensures ModelOrder(children, Some(names)).Some?
    ensures var r := ModelOrder(children, Some(names)).value;
            multiset(r) == multiset(children) && SortedBy(r, CellKey(names)) &&
            forall v :: SortedBy(Filter(r, CellKey(names), v), Stamp)
  {
    var byStamp := StableSort(children, Stamp);
    var key := CellKey(names);
    assert ModelOrder(children, Some(names)) == Some(StableSort(byStamp, key));
    StableSortMeaning(children, Stamp);
    StableSortMeaning(byStamp, key);
    forall v
      ensures SortedBy(Filter(StableSort(byStamp, key), key, v), Stamp)
    {
      FilterSorted(byStamp, key, v, Stamp);
    }
  }

  /** A subsequence of a sorted sequence is sorted. */
  lemma {:induction false} FilterSorted(s: seq<Child>, key: Child -> int, v: int, order: Child -> int)
    requires SortedBy(s, order)
    ensures SortedBy(Filter(s, key, v), order)
    decreases |s|
  {
    if s != [] {
      var init := s[..|s| - 1];
      var last := s[|s| - 1];
      assert SortedBy(init, order) && BoundedBy(init, order, order(last)) by {
        forall k | 0 <= k < |init| ensures order(init[k]) <= order(last) && init[k] == s[k] { assert init[k] == s[k]; }
      }
      FilterSorted(init, key, v, order);
      if key(last) == v {
        FilterBounded(init, key, v, order, order(last));
        AppendSorted(Filter(init, key, v), last, order);
      }
    }
  }

  lemma {:induction false} FilterBounded(s: seq<Child>, key: Child -> int, v: int, order: Child -> int, b: int)
    requires BoundedBy(s, order, b)
    ensures BoundedBy(Filter(s, key, v), order, b)
    decreases |s|
  {
    if s != [] {
      var init := s[..|s| - 1];
      assert BoundedBy(init, order, b) by {
        forall k | 0 <= k < |init| ensures order(init[k]) <= b { assert init[k] == s[k]; }
      }
      FilterBounded(init, key, v, order, b);
    }
  }

  /** "front" ranks before every other name, and an undeclared name after
      every declared one, "back" included. */
  lemma CellRanks(names: seq<string>, cell: string, other: string)
    ensures CellRank(names, "front") == 0
    ensures cell in Cells(names) && other !in Cells(names) ==> CellRank(names, cell) < CellRank(names, other)
    ensures CellRank(names, "back") <= |names| + 1
  {
    assert Cells(names)[0] == "front";
    assert Cells(names)[|names| + 1] == "back";
  }
}
