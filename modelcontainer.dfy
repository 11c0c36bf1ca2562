// `ModelContainer`: the intrusive doubly linked list of model items that one
// model (or one item's child model) owns, with the events it posts.
//
// Items are handles. The list's pointers are kept as maps from an item to its
// `nextItem` and to its `previousItem`, `None` standing for a null pointer;
// an item that is destroyed leaves both maps.
module ModelContainers {
  import opened Wrappers
  import opened ValueKey
  import opened Events

  type ItemRef = nat

  /** The list's pointers taken together: `frontItem`, `lastItem` and every
      item's `nextItem` and `previousItem`. */
  datatype Links = Links(
    front: Option<ItemRef>,
    last: Option<ItemRef>,
    next: map<ItemRef, Option<ItemRef>>,
    prev: map<ItemRef, Option<ItemRef>>)

  /** `x->nextItem.get()`. */
  function After(l: Links, x: ItemRef): Option<ItemRef>
  {
    if x in l.next then l.next[x] else None
  }

  /** `x->previousItem`. */
  function Before(l: Links, x: ItemRef): Option<ItemRef>
  {
    if x in l.prev then l.prev[x] else None
  }

  // ---------------------------------------------------------------------
  // What a well-linked list is
  // ---------------------------------------------------------------------

  ghost predicate Distinct(items: seq<ItemRef>)
  {
    forall a, b :: 0 <= a < b < |items| ==> items[a] != items[b]
  }

  /** The item after position `k` of `items`, `None` at the back. */
  function Succ(items: seq<ItemRef>, k: nat): Option<ItemRef>
    requires k < |items|
  {
    if k + 1 < |items| then Some(items[k + 1]) else None
  }

  /** The item before position `k` of `items`, `None` at the front. */
  function Pred(items: seq<ItemRef>, k: nat): Option<ItemRef>
    requires k < |items|
  {
    if k > 0 then Some(items[k - 1]) else None
  }

  /** `frontItem` and the `nextItem` pointers thread exactly `items`. */
  ghost predicate Forward(l: Links, items: seq<ItemRef>)
  {
    && l.front == (if items == [] then None else Some(items[0]))
    && forall k {:trigger After(l, items[k])} :: 0 <= k < |items| ==>
         items[k] in l.next && After(l, items[k]) == Succ(items, k)
  }

  /** `lastItem` and the `previousItem` pointers thread `items` backwards. */
  ghost predicate Backward(l: Links, items: seq<ItemRef>)
  {
    && l.last == (if items == [] then None else Some(items[|items| - 1]))
    && forall k {:trigger Before(l, items[k])} :: 0 <= k < |items| ==>
         items[k] in l.prev && Before(l, items[k]) == Pred(items, k)
  }

  /** No pointer belongs to an item outside the list. */
  ghost predicate Owned(l: Links, items: seq<ItemRef>)
  {
    forall z :: z in l.next || z in l.prev ==> z in items
  }

  /** The links form the doubly linked list `items`, front first. */
  ghost predicate Threads(l: Links, items: seq<ItemRef>)
  {
    Distinct(items) && Forward(l, items) && Backward(l, items) && Owned(l, items)
  }

  // ---------------------------------------------------------------------
  // Iteration
  // ---------------------------------------------------------------------

  /** What `iterator` visits from `from` on, following `nextItem` until
      `end()` (a null position), cut off after `fuel` steps. */
  function Walk(l: Links, from: Option<ItemRef>, fuel: nat): seq<ItemRef>
    decreases fuel
  {
    if fuel == 0 || from.None? then [] else [from.value] + Walk(l, After(l, from.value), fuel - 1)
  }

  lemma {:induction false} WalkSuffix(l: Links, items: seq<ItemRef>, k: nat, fuel: nat)
    requires Forward(l, items)
    requires k <= |items| && |items| - k <= fuel
    ensures Walk(l, if k < |items| then Some(items[k]) else None, fuel) == items[k..]
    decreases |items| - k
  {
    if k < |items| {
      WalkSuffix(l, items, k + 1, fuel - 1);
      assert items[k..] == [items[k]] + items[k + 1..];
    }
  }

  /** Iterating from `begin()` to `end()` visits the list front to back,
      whatever bound is put on the number of steps, as long as it is at
      least the length. */
  lemma {:induction false} IterationVisitsList(l: Links, items: seq<ItemRef>, fuel: nat)
    requires Threads(l, items) && |items| <= fuel
    ensures Walk(l, l.front, fuel) == items
  {
    WalkSuffix(l, items, 0, fuel);
  }

  // ---------------------------------------------------------------------
  // Appending and deleting
  // ---------------------------------------------------------------------

  /** `push_back_new`'s relinking, with `x` the newly made item. */
  function Appended(l: Links, x: ItemRef): Links
  {
    if l.last.Some? then
      Links(l.front, Some(x), l.next[l.last.value := Some(x)][x := None], l.prev[x := l.last])
    else
      Links(Some(x), Some(x), l.next[x := None], l.prev[x := None])
  }

  lemma {:induction false} AppendedThreads(l: Links, items: seq<ItemRef>, x: ItemRef)
    requires Threads(l, items) && x !in items
    ensures Threads(Appended(l, x), items + [x])
  {
    var a, s, n := Appended(l, x), items + [x], |items|;
    forall k | 0 <= k < |s|
      ensures s[k] in a.next && After(a, s[k]) == Succ(s, k)
      ensures s[k] in a.prev && Before(a, s[k]) == Pred(s, k)
    {
      if k < n {
        assert s[k] == items[k] && items[k] != x;
        assert After(l, items[k]) == Succ(items, k);
        assert Before(l, items[k]) == Pred(items, k);
        if k + 1 == n {
          assert l.last == Some(items[k]);
        }
      } else if n > 0 {
        assert s[k - 1] == items[n - 1];
      }
    }
    forall p, q | 0 <= p < q < |s|
      ensures s[p] != s[q]
    {
      if q == n {
        assert s[p] == items[p];
      }
    }
    forall z | z in a.next || z in a.prev
      ensures z in s
    {
      if z != x {
        assert z in l.next || z in l.prev || Some(z) == l.last;
      }
    }
  }

  /** `safeToDelete`'s relinking: `x` is unlinked and destroyed. `x` must be
      the front or have a predecessor, as the source dereferences it. */
  function Deleted(l: Links, x: ItemRef): Links
    requires l.front == Some(x) || Before(l, x).Some?
  {
    var last := if l.last == Some(x) then Before(l, x) else l.last;
    var nx := After(l, x);
    if l.front == Some(x) then
      if nx.Some? then Links(nx, last, l.next - {x}, l.prev[nx.value := None] - {x})
      else Links(None, last, l.next - {x}, l.prev - {x})
    else
      var prev := if nx.Some? then l.prev[nx.value := Before(l, x)] else l.prev;
      Links(l.front, last, l.next[Before(l, x).value := nx] - {x}, prev - {x})
  }

  /** The list with `x` taken out. */
  function Removed(s: seq<ItemRef>, x: ItemRef): seq<ItemRef>
  {
    if s == [] then [] else (if s[0] == x then [] else [s[0]]) + Removed(s[1..], x)
  }

  lemma {:induction false} RemovedAt(s: seq<ItemRef>, k: nat)
    requires Distinct(s) && k < |s|
    ensures Removed(s, s[k]) == s[..k] + s[k + 1..]
  {
    if k == 0 {
      RemovedAbsent(s[1..], s[0]);
      assert s[..0] + s[1..] == s[1..];
    } else {
      RemovedAt(s[1..], k - 1);
      assert s[1..][k - 1] == s[k];
      assert [s[0]] + (s[1..][..k - 1] + s[1..][k..]) == s[..k] + s[k + 1..];
    }
  }

  lemma {:induction false} RemovedKeeps(s: seq<ItemRef>, x: ItemRef, z: ItemRef)
    requires z in Removed(s, x)
    ensures z in s && z != x
  {
    if s != [] && (s[0] == x || z != s[0]) {
      RemovedKeeps(s[1..], x, z);
    }
  }

  lemma {:induction false} RemovedAbsent(s: seq<ItemRef>, x: ItemRef)
    requires x !in s
    ensures Removed(s, x) == s
  {
    if s != [] {
      RemovedAbsent(s[1..], x);
    }
  }

  /** `items` without position `k`. */
  function Dropped(items: seq<ItemRef>, k: nat): seq<ItemRef>
    requires k < |items|
  {
    seq(|items| - 1, m requires 0 <= m < |items| - 1 => items[if m < k then m else m + 1])
  }

  lemma RemovedIsDropped(items: seq<ItemRef>, k: nat)
    requires Distinct(items) && k < |items|
    ensures Removed(items, items[k]) == Dropped(items, k)
  {
    RemovedAt(items, k);
    var d := Dropped(items, k);
    assert items[..k] + items[k + 1..] == d by {
      forall m | 0 <= m < |d|
        ensures (items[..k] + items[k + 1..])[m] == d[m]
      {
      }
    }
  }

  lemma {:induction false} DeletedThreads(l: Links, items: seq<ItemRef>, k: nat)
    requires Threads(l, items) && k < |items|
    ensures l.front == Some(items[k]) || Before(l, items[k]).Some?
    ensures Threads(Deleted(l, items[k]), Removed(items, items[k]))
    ensures |Removed(items, items[k])| == |items| - 1
  {
    RemovedIsDropped(items, k);
    assert Before(l, items[k]) == Pred(items, k);
    DeletedForward(l, items, k);
    DeletedBackward(l, items, k);
    var s := Dropped(items, k);
    forall p, q | 0 <= p < q < |s|
      ensures s[p] != s[q]
    {
      assert s[p] == items[if p < k then p else p + 1];
      assert s[q] == items[if q < k then q else q + 1];
    }
    var d := Deleted(l, items[k]);
    forall z | z in d.next || z in d.prev
      ensures z in s
    {
      assert z != items[k] && z in items;
      var i :| 0 <= i < |items| && items[i] == z;
      assert z == s[if i < k then i else i - 1];
    }
  }

  lemma {:induction false} DeletedForward(l: Links, items: seq<ItemRef>, k: nat)
    requires Threads(l, items) && k < |items|
    requires l.front == Some(items[k]) || Before(l, items[k]).Some?
    ensures Forward(Deleted(l, items[k]), Dropped(items, k))
  {
    var x, d, s := items[k], Deleted(l, items[k]), Dropped(items, k);
    assert Before(l, x) == Pred(items, k);
    assert After(l, x) == Succ(items, k);
    forall m | 0 <= m < |s|
      ensures s[m] in d.next && After(d, s[m]) == Succ(s, m)
    {
      var i := if m < k then m else m + 1;
      assert s[m] == items[i] && items[i] != x;
      assert After(l, items[i]) == Succ(items, i);
      if m + 1 < |s| {
        assert s[m + 1] == items[if m + 1 < k then m + 1 else m + 2];
      }
    }
    if |s| > 0 {
      assert s[0] == items[if k == 0 then 1 else 0];
    }
  }

  lemma {:induction false} DeletedBackward(l: Links, items: seq<ItemRef>, k: nat)
    requires Threads(l, items) && k < |items|
    requires l.front == Some(items[k]) || Before(l, items[k]).Some?
    ensures Backward(Deleted(l, items[k]), Dropped(items, k))
  {
    var d, s := Deleted(l, items[k]), Dropped(items, k);
    forall m | 0 <= m < |s|
      ensures s[m] in d.prev && Before(d, s[m]) == Pred(s, m)
    {
      DeletedBefore(l, items, k, m);
    }
    DeletedLast(l, items, k);
  }

  /** One position of `DeletedBackward`. */
  lemma {:induction false} DeletedBefore(l: Links, items: seq<ItemRef>, k: nat, m: nat)
    requires Threads(l, items) && k < |items| && m + 1 < |items|
    requires l.front == Some(items[k]) || Before(l, items[k]).Some?
    ensures Dropped(items, k)[m] in Deleted(l, items[k]).prev
    ensures Before(Deleted(l, items[k]), Dropped(items, k)[m]) == Pred(Dropped(items, k), m)
  {
    var x, s := items[k], Dropped(items, k);
    assert Before(l, x) == Pred(items, k);
    assert After(l, x) == Succ(items, k);
    var i := if m < k then m else m + 1;
    assert s[m] == items[i] && items[i] != x;
    assert Before(l, items[i]) == Pred(items, i);
    if m > 0 {
      assert s[m - 1] == items[if m - 1 < k then m - 1 else m];
    }
  }

  /** `lastItem` after `DeletedBackward`. */
  lemma {:induction false} DeletedLast(l: Links, items: seq<ItemRef>, k: nat)
    requires Threads(l, items) && k < |items|
    requires l.front == Some(items[k]) || Before(l, items[k]).Some?
    ensures var s := Dropped(items, k);
            Deleted(l, items[k]).last == (if s == [] then None else Some(s[|s| - 1]))
  {
    var s := Dropped(items, k);
    assert Before(l, items[k]) == Pred(items, k);
    if |s| > 0 {
      assert s[|s| - 1] == items[if k == |items| - 1 then |items| - 2 else |items| - 1];
    }
  }

  // ---------------------------------------------------------------------
  // Swapping
  // ---------------------------------------------------------------------

  /** A `std::unique_ptr<ModelItemBase>` that owns an item: `frontItem` or
      some item's `nextItem`. */
  datatype Slot = FrontSlot | NextSlot(owner: ItemRef)

  /** The slot that owns the item after `p`, `frontItem` when `p` is null. */
  function SlotAfter(p: Option<ItemRef>): Slot
  {
    if p.Some? then NextSlot(p.value) else FrontSlot
  }

  function Held(l: Links, s: Slot): Option<ItemRef>
  {
    match s
    case FrontSlot => l.front
    case NextSlot(y) => After(l, y)
  }

  function Put(l: Links, s: Slot, v: Option<ItemRef>): Links
  {
    match s
    case FrontSlot => l.(front := v)
    case NextSlot(y) => l.(next := l.next[y := v])
  }

  /** `to = std::move(from)`: `from` is emptied, then `to` takes its item. */
  function MoveInto(l: Links, to: Slot, from: Slot): Links
  {
    Put(Put(l, from, None), to, Held(l, from))
  }

  /** The list with the items `a` and `b` trading places. */
  function Exchanged(s: seq<ItemRef>, a: ItemRef, b: ItemRef): seq<ItemRef>
  {
    seq(|s|, k requires 0 <= k < |s| => if s[k] == a then b else if s[k] == b then a else s[k])
  }

  lemma ExchangedKeeps(s: seq<ItemRef>, a: ItemRef, b: ItemRef, z: ItemRef)
    requires a in s && b in s && z in Exchanged(s, a, b)
    ensures z in s
  {
    var k :| 0 <= k < |s| && Exchanged(s, a, b)[k] == z;
    assert s[k] in s;
  }

  /** A corrected `swap`. Adjacent items are exchanged as the source does and
      the successor's `previousItem` (or `lastItem`) is pointed at the item
      that is now second; other pairs trade their predecessors' slots, their
      own `nextItem` and `previousItem` pointers and their successors'
      `previousItem` (or `lastItem`). */
  function SwapLinks(l: Links, x: ItemRef, y: ItemRef): Links
  {
    if x == y then l
    else if After(l, x) == Some(y) then AdjacentSwap(l, x, y)
    else if After(l, y) == Some(x) then AdjacentSwap(l, y, x)
    else FarSwap(l, x, y)
  }

  /** `a` directly before `b` becomes `b` directly before `a`. */
  function AdjacentSwap(l: Links, a: ItemRef, b: ItemRef): Links
  {
    var pa, nb := Before(l, a), After(l, b);
    var l1 := Put(l, SlotAfter(pa), Some(b));
    var next := l1.next[b := Some(a)][a := nb];
    var prev := l.prev[b := pa][a := Some(b)];
    if nb.Some? then Links(l1.front, l.last, next, prev[nb.value := Some(a)])
    else Links(l1.front, Some(a), next, prev)
  }

  /** `x` and `y`, neither directly after the other, trade places. */
  function FarSwap(l: Links, x: ItemRef, y: ItemRef): Links
  {
    var px, nx, py, ny := Before(l, x), After(l, x), Before(l, y), After(l, y);
    var l1 := Put(Put(l, SlotAfter(px), Some(y)), SlotAfter(py), Some(x));
    var next := l1.next[y := nx][x := ny];
    var prev := l.prev[y := px][x := py];
    var prev1, last1 := if nx.Some? then prev[nx.value := Some(y)] else prev, if nx.Some? then l.last else Some(y);
    var prev2, last2 := if ny.Some? then prev1[ny.value := Some(x)] else prev1, if ny.Some? then last1 else Some(x);
    Links(l1.front, last2, next, prev2)
  }

  /** Position `p` of `items` once positions `i` and `j` have traded. */
  function Traded(p: nat, i: nat, j: nat): nat
  {
    if p == i then j else if p == j then i else p
  }

  /** Trading two positions keeps the items distinct and the same set. */
  lemma {:induction false} TradedList(items: seq<ItemRef>, i: nat, j: nat)
    requires Distinct(items) && i < |items| && j < |items|
    ensures Distinct(items[i := items[j]][j := items[i]])
    ensures forall z :: z in items ==> z in items[i := items[j]][j := items[i]]
  {
    var s := items[i := items[j]][j := items[i]];
    forall p | 0 <= p < |s|
      ensures s[p] == items[Traded(p, i, j)]
    {
    }
    forall p, q | 0 <= p < q < |s|
      ensures s[p] != s[q]
    {
      assert s[p] == items[Traded(p, i, j)] && s[q] == items[Traded(q, i, j)];
    }
    forall z | z in items
      ensures z in s
    {
      var m :| 0 <= m < |items| && items[m] == z;
      assert z == s[Traded(m, i, j)];
    }
  }

  lemma {:induction false} AdjacentSwapThreads(l: Links, items: seq<ItemRef>, i: nat)
    requires Threads(l, items) && i + 1 < |items|
    ensures Threads(AdjacentSwap(l, items[i], items[i + 1]), items[i := items[i + 1]][i + 1 := items[i]])
  {
    TradedList(items, i, i + 1);
    AdjacentSwapForward(l, items, i);
    AdjacentSwapBackward(l, items, i);
    var w, s := AdjacentSwap(l, items[i], items[i + 1]), items[i := items[i + 1]][i + 1 := items[i]];
    assert Before(l, items[i]) == Pred(items, i);
    forall z | z in w.next || z in w.prev
      ensures z in s
    {
      assert z in items;
    }
  }

  lemma {:induction false} AdjacentSwapForward(l: Links, items: seq<ItemRef>, i: nat)
    requires Threads(l, items) && i + 1 < |items|
    ensures Forward(AdjacentSwap(l, items[i], items[i + 1]), items[i := items[i + 1]][i + 1 := items[i]])
  {
    var a, b := items[i], items[i + 1];
    var w, s := AdjacentSwap(l, a, b), items[i := b][i + 1 := a];
    assert Before(l, a) == Pred(items, i);
    assert After(l, b) == Succ(items, i + 1);
    forall k | 0 <= k < |s|
      ensures s[k] in w.next && After(w, s[k]) == Succ(s, k)
    {
      if k != i && k != i + 1 {
        assert s[k] == items[k] && s[k] != a && s[k] != b;
        assert After(l, items[k]) == Succ(items, k);
        if k + 1 < |s| && k + 1 != i {
          assert s[k + 1] == items[k + 1];
        }
      }
    }
  }

  lemma {:induction false} AdjacentSwapBackward(l: Links, items: seq<ItemRef>, i: nat)
    requires Threads(l, items) && i + 1 < |items|
    ensures Backward(AdjacentSwap(l, items[i], items[i + 1]), items[i := items[i + 1]][i + 1 := items[i]])
  {
    var s := items[i := items[i + 1]][i + 1 := items[i]];
    forall k | 0 <= k < |s|
      ensures s[k] in AdjacentSwap(l, items[i], items[i + 1]).prev
      ensures Before(AdjacentSwap(l, items[i], items[i + 1]), s[k]) == Pred(s, k)
    {
      AdjacentSwapBefore(l, items, i, k);
    }
    AdjacentSwapLast(l, items, i);
  }

  /** `lastItem` after `AdjacentSwapBackward`. */
  lemma {:induction false} AdjacentSwapLast(l: Links, items: seq<ItemRef>, i: nat)
    requires Threads(l, items) && i + 1 < |items|
    ensures var s := items[i := items[i + 1]][i + 1 := items[i]];
            AdjacentSwap(l, items[i], items[i + 1]).last == Some(s[|s| - 1])
  {
    assert After(l, items[i + 1]) == Succ(items, i + 1);
  }

  lemma {:induction false} AdjacentSwapBefore(l: Links, items: seq<ItemRef>, i: nat, k: nat)
    requires Threads(l, items) && i + 1 < |items| && k < |items|
    ensures items[i := items[i + 1]][i + 1 := items[i]][k] in AdjacentSwap(l, items[i], items[i + 1]).prev
    ensures Before(AdjacentSwap(l, items[i], items[i + 1]), items[i := items[i + 1]][i + 1 := items[i]][k])
         == Pred(items[i := items[i + 1]][i + 1 := items[i]], k)
  {
    var a, b := items[i], items[i + 1];
    var w, s := AdjacentSwap(l, a, b), items[i := b][i + 1 := a];
    assert Before(l, a) == Pred(items, i);
    assert After(l, b) == Succ(items, i + 1);
    if k != i && k != i + 1 {
      assert s[k] == items[k] && s[k] != a && s[k] != b;
      assert Before(l, items[k]) == Pred(items, k);
      if k > 0 && k - 1 != i + 1 {
        assert s[k - 1] == items[k - 1];
      }
    }
  }

  lemma {:induction false} FarSwapThreads(l: Links, items: seq<ItemRef>, i: nat, j: nat)
    requires Threads(l, items) && i < |items| && j < |items|
    requires i + 1 < j || j + 1 < i
    ensures Threads(FarSwap(l, items[i], items[j]), items[i := items[j]][j := items[i]])
  {
    TradedList(items, i, j);
    FarSwapForward(l, items, i, j);
    FarSwapBackward(l, items, i, j);
    var w, s := FarSwap(l, items[i], items[j]), items[i := items[j]][j := items[i]];
    assert Before(l, items[i]) == Pred(items, i);
    assert Before(l, items[j]) == Pred(items, j);
    assert After(l, items[i]) == Succ(items, i);
    assert After(l, items[j]) == Succ(items, j);
    forall z | z in w.next || z in w.prev
      ensures z in s
    {
      assert z in items;
    }
  }

  lemma {:induction false} FarSwapForward(l: Links, items: seq<ItemRef>, i: nat, j: nat)
    requires Threads(l, items) && i < |items| && j < |items|
    requires i + 1 < j || j + 1 < i
    ensures Forward(FarSwap(l, items[i], items[j]), items[i := items[j]][j := items[i]])
  {
    var x, y := items[i], items[j];
    var w, s := FarSwap(l, x, y), items[i := y][j := x];
    assert Before(l, x) == Pred(items, i);
    assert Before(l, y) == Pred(items, j);
    assert After(l, x) == Succ(items, i);
    assert After(l, y) == Succ(items, j);
    forall k | 0 <= k < |s|
      ensures s[k] in w.next && After(w, s[k]) == Succ(s, k)
    {
      if k != i && k != j {
        assert s[k] == items[k] && s[k] != x && s[k] != y;
        assert After(l, items[k]) == Succ(items, k);
      }
    }
  }

  lemma {:induction false} FarSwapBackward(l: Links, items: seq<ItemRef>, i: nat, j: nat)
    requires Threads(l, items) && i < |items| && j < |items|
    requires i + 1 < j || j + 1 < i
    ensures Backward(FarSwap(l, items[i], items[j]), items[i := items[j]][j := items[i]])
  {
    var s := items[i := items[j]][j := items[i]];
    forall k | 0 <= k < |s|
      ensures s[k] in FarSwap(l, items[i], items[j]).prev
      ensures Before(FarSwap(l, items[i], items[j]), s[k]) == Pred(s, k)
    {
      FarSwapBefore(l, items, i, j, k);
    }
    FarSwapLast(l, items, i, j);
  }

  /** `lastItem` after `FarSwapBackward`. */
  lemma {:induction false} FarSwapLast(l: Links, items: seq<ItemRef>, i: nat, j: nat)
    requires Threads(l, items) && i < |items| && j < |items|
    requires i + 1 < j || j + 1 < i
    ensures var s := items[i := items[j]][j := items[i]];
            FarSwap(l, items[i], items[j]).last == Some(s[|s| - 1])
  {
    assert After(l, items[i]) == Succ(items, i);
    assert After(l, items[j]) == Succ(items, j);
  }

  lemma {:induction false} FarSwapBefore(l: Links, items: seq<ItemRef>, i: nat, j: nat, k: nat)
    requires Threads(l, items) && i < |items| && j < |items| && k < |items|
    requires i + 1 < j || j + 1 < i
    ensures items[i := items[j]][j := items[i]][k] in FarSwap(l, items[i], items[j]).prev
    ensures Before(FarSwap(l, items[i], items[j]), items[i := items[j]][j := items[i]][k])
         == Pred(items[i := items[j]][j := items[i]], k)
  {
    var x, y := items[i], items[j];
    var w, s := FarSwap(l, x, y), items[i := y][j := x];
    assert Before(l, x) == Pred(items, i);
    assert Before(l, y) == Pred(items, j);
    assert After(l, x) == Succ(items, i);
    assert After(l, y) == Succ(items, j);
    if k != i && k != j {
      assert s[k] == items[k] && s[k] != x && s[k] != y;
      assert Before(l, items[k]) == Pred(items, k);
    }
  }

  /** Swapping any two items of the list keeps it a well-linked list, with
      the two items trading places and every other item where it was. */
  lemma {:induction false} SwapLinksThreads(l: Links, items: seq<ItemRef>, i: nat, j: nat)
    requires Threads(l, items) && i < |items| && j < |items|
    ensures Threads(SwapLinks(l, items[i], items[j]), Exchanged(items, items[i], items[j]))
  {
    var x, y := items[i], items[j];
    var s := Exchanged(items, x, y);
    forall k | 0 <= k < |items|
      ensures items[k] == x <==> k == i
      ensures items[k] == y <==> k == j
    {
    }
    if i == j {
      assert s == items;
    } else if After(l, x) == Some(y) {
      assert j == i + 1 by {
        if i + 1 < |items| {
          assert items[i + 1] == y;
        }
      }
      AdjacentSwapThreads(l, items, i);
      assert s == items[i := y][j := x];
    } else if After(l, y) == Some(x) {
      assert i == j + 1 by {
        if j + 1 < |items| {
          assert items[j + 1] == x;
        }
      }
      AdjacentSwapThreads(l, items, j);
      assert s == items[j := x][i := y];
    } else {
      assert i + 1 != j && j + 1 != i;
      FarSwapThreads(l, items, i, j);
      assert s == items[i := y][j := x];
    }
  }

  // ---------------------------------------------------------------------
  // `swap` as written
  // ---------------------------------------------------------------------

  /** `pos == frontItem.get() ? frontItem : pos->previousItem->nextItem`. */
  function SlotOf(l: Links, p: ItemRef): Slot
    requires l.front == Some(p) || Before(l, p).Some?
  {
    if l.front == Some(p) then FrontSlot else NextSlot(Before(l, p).value)
  }

  /** The `swapAdjacent` lambda, step by step: `right` must be the
      `nextItem` of the item `left` owns, and owns an item itself. */
  function SwapAdjacentAsWritten(l: Links, left: Slot, right: Slot): Links
    requires Held(l, left).Some? && right == NextSlot(Held(l, left).value) && left != right
    requires Held(l, right).Some?
  {
    var a := Held(l, left).value;                  // oldLeftTemp = std::move(left)
    var l1 := Put(l, left, None);
    var l2 := MoveInto(l1, left, right);           // left = std::move(right)
    var b := Held(l2, left).value;
    var l3 := MoveInto(l2, NextSlot(a), NextSlot(b));
    var l4 := l3.(prev := l3.prev[b := Before(l3, a)]);
    var l5 := l4.(prev := l4.prev[a := Some(b)]);
    Put(l5, NextSlot(b), Some(a))                  // left->nextItem = std::move(oldLeftTemp)
  }

  /** The non-adjacent branch, step by step. */
  function SwapFarAsWritten(l: Links, p1: ItemRef, p2: ItemRef, s1: Slot, s2: Slot): Links
    requires Held(l, s1).Some? && Held(l, s2).Some?
  {
    var l1 := l.(prev := l.prev[p1 := Before(l, p2)][p2 := Before(l, p1)]);
    var tmp := Held(l1, s1);
    var l2 := Put(l1, s1, None);
    var l3 := MoveInto(l2, s1, s2);
    var l4 := Put(l3, s2, tmp);
    var h1 := Held(l4, s1);
    var l5 := if After(l4, h1.value).None? then l4.(last := h1) else l4;
    var h2 := Held(l5, s2);
    if After(l5, h2.value).None? then l5.(last := h2) else l5
  }

  /** `swap` as written, on a well-linked list `items` holding both items. */
  ghost function SwapAsWritten(l: Links, items: seq<ItemRef>, p1: ItemRef, p2: ItemRef): Links
    requires Threads(l, items) && p1 in items && p2 in items
  {
    HeldOwn(l, items, p1);
    HeldOwn(l, items, p2);
    var s1, s2 := SlotOf(l, p1), SlotOf(l, p2);
    if After(l, p1) == Held(l, s2) then
      AfterOwns(l, items, p1, p2);
      SwapAdjacentAsWritten(l, s1, s2)
    else if After(l, p2) == Held(l, s1) then
      AfterOwns(l, items, p2, p1);
      SwapAdjacentAsWritten(l, s2, s1)
    else
      SwapFarAsWritten(l, p1, p2, s1, s2)
  }

  /** On a well-linked list every item is the front or has a predecessor,
      and its slot owns it. */
  lemma {:induction false} HeldOwn(l: Links, items: seq<ItemRef>, p: ItemRef)
    requires Threads(l, items) && p in items
    ensures l.front == Some(p) || Before(l, p).Some?
    ensures Held(l, SlotOf(l, p)) == Some(p)
  {
    var k :| 0 <= k < |items| && items[k] == p;
    if k > 0 {
      assert Before(l, p) == Some(items[k - 1]);
      assert items[0] != p;
    }
  }

  /** When `q` follows `p`, `q`'s slot is `p`'s `nextItem`, and it is not
      `p`'s own slot. */
  lemma {:induction false} AfterOwns(l: Links, items: seq<ItemRef>, p: ItemRef, q: ItemRef)
    requires Threads(l, items) && p in items && q in items
    requires After(l, p) == Some(q)
    ensures l.front == Some(p) || Before(l, p).Some?
    ensures l.front == Some(q) || Before(l, q).Some?
    ensures SlotOf(l, q) == NextSlot(p) && SlotOf(l, p) != SlotOf(l, q)
  {
    HeldOwn(l, items, p);
    HeldOwn(l, items, q);
    var k :| 0 <= k < |items| && items[k] == p;
    assert k + 1 < |items| && items[k + 1] == q;
    assert Before(l, q) == Some(p);
    assert items[0] != q;
    if Before(l, p).Some? {
      assert Before(l, p).value != p;
    }
  }

  /** The adjacent branch of `swap` as written gets the forward order
      right, whichever of the two is passed first: iteration then sees the
      two items exchanged. */
  lemma {:induction false} AsWrittenAdjacentForward(l: Links, items: seq<ItemRef>, i: nat, p1: ItemRef, p2: ItemRef)
    requires Threads(l, items) && i + 1 < |items|
    requires (p1 == items[i] && p2 == items[i + 1]) || (p1 == items[i + 1] && p2 == items[i])
    ensures Forward(SwapAsWritten(l, items, p1, p2), Exchanged(items, p1, p2))
  {
    var a, b := items[i], items[i + 1];
    AfterOwns(l, items, a, b);
    HeldOwn(l, items, p1);
    HeldOwn(l, items, p2);
    var w := SwapAsWritten(l, items, p1, p2);
    var c := AdjacentSwap(l, a, b);
    assert w == SwapAdjacentAsWritten(l, SlotOf(l, a), SlotOf(l, b)) by {
      if p1 == b {
        assert After(l, b) != Some(b);
      }
    }
    assert SlotOf(l, a) == SlotAfter(Before(l, a));
    AdjacentAsWrittenLinks(l, a, b, SlotOf(l, a));
    AdjacentSwapThreads(l, items, i);
    ExchangedAdjacent(items, i, p1, p2);
    SameForward(c, w, items[i := b][i + 1 := a]);
  }

  /** The lambda leaves `frontItem` and every `nextItem` as the corrected
      adjacent swap does. */
  lemma AdjacentAsWrittenLinks(l: Links, a: ItemRef, b: ItemRef, left: Slot)
    requires left == SlotAfter(Before(l, a)) && Held(l, left) == Some(a) && After(l, a) == Some(b)
    requires left != NextSlot(a) && a != b && Before(l, a) != Some(b)
    ensures SwapAdjacentAsWritten(l, left, NextSlot(a)).front == AdjacentSwap(l, a, b).front
    ensures SwapAdjacentAsWritten(l, left, NextSlot(a)).next == AdjacentSwap(l, a, b).next
  {
  }

  lemma ExchangedAdjacent(items: seq<ItemRef>, i: nat, p1: ItemRef, p2: ItemRef)
    requires Distinct(items) && i + 1 < |items|
    requires (p1 == items[i] && p2 == items[i + 1]) || (p1 == items[i + 1] && p2 == items[i])
    ensures Exchanged(items, p1, p2) == items[i := items[i + 1]][i + 1 := items[i]]
  {
  }

  /** Only `frontItem` and the `nextItem` pointers matter to the forward order. */
  lemma SameForward(l: Links, w: Links, items: seq<ItemRef>)
    requires Forward(l, items) && w.front == l.front && w.next == l.next
    ensures Forward(w, items)
  {
    forall k | 0 <= k < |items|
      ensures items[k] in w.next && After(w, items[k]) == Succ(items, k)
    {
      assert After(l, items[k]) == Succ(items, k);
    }
  }

  // The five-item list 0, 1, 2, 3, 4 and the three-item list 0, 1, 2.

  function FiveItems(): Links
  {
    Links(Some(0), Some(4),
      map[0 := Some(1), 1 := Some(2), 2 := Some(3), 3 := Some(4), 4 := None],
      map[0 := None, 1 := Some(0), 2 := Some(1), 3 := Some(2), 4 := Some(3)])
  }

  function ThreeItems(): Links
  {
    Links(Some(0), Some(2),
      map[0 := Some(1), 1 := Some(2), 2 := None],
      map[0 := None, 1 := Some(0), 2 := Some(1)])
  }

  lemma FiveItemsThreads()
    ensures Threads(FiveItems(), [0, 1, 2, 3, 4])
  {
    var l, s := FiveItems(), [0, 1, 2, 3, 4];
    forall k | 0 <= k < 5
      ensures s[k] == k
    {
    }
  }

  lemma ThreeItemsThreads()
    ensures Threads(ThreeItems(), [0, 1, 2])
  {
    var s := [0, 1, 2];
    forall k | 0 <= k < 3
      ensures s[k] == k
    {
    }
  }

  /** Swapping items 1 and 3 of 0, 1, 2, 3, 4 as written leaves a list
      that iterates 0, 3, 4: items 1 and 2 are cut off (they own each other)
      instead of the list reading 0, 3, 2, 1, 4. */
  lemma AsWrittenFarSwapLosesItems()
    ensures Threads(FiveItems(), [0, 1, 2, 3, 4])
    ensures Walk(SwapAsWritten(FiveItems(), [0, 1, 2, 3, 4], 1, 3), Some(0), 10) == [0, 3, 4]
    ensures Exchanged([0, 1, 2, 3, 4], 1, 3) == [0, 3, 2, 1, 4]
  {
    FiveItemsThreads();
    var l := FiveItems();
    var w := SwapAsWritten(l, [0, 1, 2, 3, 4], 1, 3);
    assert w == SwapFarAsWritten(l, 1, 3, NextSlot(0), NextSlot(2));
    assert w.next == map[0 := Some(3), 1 := Some(2), 2 := Some(1), 3 := Some(4), 4 := None];
    assert Walk(w, Some(4), 8) == [4];
    assert Walk(w, Some(3), 9) == [3, 4];
    var e := Exchanged([0, 1, 2, 3, 4], 1, 3);
    assert e[1] == 3 && e[3] == 1 && e[0] == 0 && e[2] == 2 && e[4] == 4;
  }

  /** Swapping the last two items of 0, 1, 2 as written gives the forward
      order 0, 2, 1 but leaves `lastItem` at 2; appending item 3 then hangs
      it after 2, destroying item 1: iteration reads 0, 2, 3, where the
      list should read 0, 2, 1, 3. */
  lemma AsWrittenAdjacentSwapKeepsStaleLast()
    ensures Threads(ThreeItems(), [0, 1, 2])
    ensures SwapAsWritten(ThreeItems(), [0, 1, 2], 1, 2).last == Some(2)
    ensures Walk(SwapAsWritten(ThreeItems(), [0, 1, 2], 1, 2), Some(0), 10) == [0, 2, 1]
    ensures Walk(Appended(SwapAsWritten(ThreeItems(), [0, 1, 2], 1, 2), 3), Some(0), 10) == [0, 2, 3]
  {
    ThreeItemsThreads();
    var l := ThreeItems();
    var w := SwapAsWritten(l, [0, 1, 2], 1, 2);
    assert w == SwapAdjacentAsWritten(l, NextSlot(0), NextSlot(1));
    assert w.next == map[0 := Some(2), 1 := None, 2 := Some(1)];
    assert w.last == Some(2);
    assert Walk(w, Some(1), 8) == [1];
    var a := Appended(w, 3);
    assert a.next == map[0 := Some(2), 1 := None, 2 := Some(3), 3 := None];
    assert Walk(a, Some(3), 8) == [3];
  }

  /** Swapping the middle items of 0, 1, 2, 3, 4 as written (1 and 2) leaves
      item 3's `previousItem` at 2 although 1 now precedes it. */
  lemma AsWrittenAdjacentSwapKeepsStalePrevious()
    ensures Threads(FiveItems(), [0, 1, 2, 3, 4])
    ensures Before(SwapAsWritten(FiveItems(), [0, 1, 2, 3, 4], 1, 2), 3) == Some(2)
    ensures Forward(SwapAsWritten(FiveItems(), [0, 1, 2, 3, 4], 1, 2), [0, 2, 1, 3, 4])
  {
    FiveItemsThreads();
    var l := FiveItems();
    AsWrittenAdjacentForward(l, [0, 1, 2, 3, 4], 1, 1, 2);
    var e := Exchanged([0, 1, 2, 3, 4], 1, 2);
    assert e[1] == 2 && e[2] == 1 && e[0] == 0 && e[3] == 3 && e[4] == 4;
    assert e == [0, 2, 1, 3, 4];
    var w := SwapAsWritten(l, [0, 1, 2, 3, 4], 1, 2);
    assert w == SwapAdjacentAsWritten(l, NextSlot(0), NextSlot(1));
  }

  // ---------------------------------------------------------------------
  // Model paths
  // ---------------------------------------------------------------------

  /** A container as `getModelPath` sees it: its `modelName` and the
      container of its `parentItem`, `None` for a root container. */
  datatype ContainerInfo = ContainerInfo(name: string, parent: Option<nat>)

  /** Every parent is itself a known container, made before its children. */
  ghost predicate Rooted(tree: map<nat, ContainerInfo>)
  {
    forall c :: c in tree && tree[c].parent.Some? ==> tree[c].parent.value in tree && tree[c].parent.value < c
  }

  /** `getModelPath`. */
  function ModelPath(tree: map<nat, ContainerInfo>, c: nat): (p: KeyPath)
    requires Rooted(tree) && c in tree
    ensures |p| >= 1 && p[|p| - 1] == tree[c].name
    ensures |p| == 1 <==> tree[c].parent.None?
    decreases c
  {
    match tree[c].parent
    case None => [tree[c].name]
    case Some(above) => ModelPath(tree, above) + [tree[c].name]
  }

  /** `a` is `n` parent steps above `c`. */
  ghost predicate Above(tree: map<nat, ContainerInfo>, a: nat, c: nat, n: nat)
    decreases n
  {
    c in tree && if n == 0 then a == c else tree[c].parent.Some? && Above(tree, a, tree[c].parent.value, n - 1)
  }

  /** A container's path starts with the path of each container above it,
      and is one name longer per step down. */
  lemma {:induction false} PathExtendsAncestor(tree: map<nat, ContainerInfo>, a: nat, c: nat, n: nat)
    requires Rooted(tree) && Above(tree, a, c, n)
    ensures a in tree
    ensures |ModelPath(tree, c)| == |ModelPath(tree, a)| + n
    ensures ModelPath(tree, a) <= ModelPath(tree, c)
    decreases n
  {
    if n > 0 {
      var up := tree[c].parent.value;
      PathExtendsAncestor(tree, a, up, n - 1);
    }
  }

  // ---------------------------------------------------------------------
  // The container
  // ---------------------------------------------------------------------

  class ModelContainer {
    /** The handle events use for this container. */
    const handle: nat
    var modelName: string
    var parentItem: Option<ItemRef>
    const queue: EventQueue

    var frontItem: Option<ItemRef>
    var lastItem: Option<ItemRef>
    var nextItem: map<ItemRef, Option<ItemRef>>
    var previousItem: map<ItemRef, Option<ItemRef>>
    var itemCount: int

    /** The next handle `push_back_new` hands out. */
    var nextHandle: nat
    ghost var items: seq<ItemRef>

    function Pointers(): Links
      reads this
    {
      Links(frontItem, lastItem, nextItem, previousItem)
    }

    ghost predicate Valid()
      reads this
    {
      && Threads(Pointers(), items)
      && itemCount == |items|
      && forall z :: z in items ==> z < nextHandle
    }

    constructor(handle: nat, queue: EventQueue, modelName: string, parentItem: Option<ItemRef>)
      ensures Valid() && items == []
      ensures this.handle == handle && this.queue == queue
      ensures this.modelName == modelName && this.parentItem == parentItem
    {
      this.handle := handle;
      this.queue := queue;
      this.modelName := modelName;
      this.parentItem := parentItem;
      frontItem, lastItem := None, None;
      nextItem, previousItem := map[], map[];
      itemCount := 0;
      nextHandle := 0;
      items := [];
    }

    /** `size`: the number of items in the list. */
    function Size(): (n: int)
      reads this
      requires Valid()
      ensures n == |items|
    {
      itemCount
    }

    /** Iteration from `begin()` to `end()`: every item, front to back. */
    method Elements() returns (s: seq<ItemRef>)
      requires Valid()
      ensures s == items
    {
      s := [];
      var pos := frontItem;
      while pos.Some?
        invariant |s| <= |items| && s == items[..|s|]
        invariant pos == (if |s| < |items| then Some(items[|s|]) else None)
        decreases |items| - |s|
      {
        s := s + [pos.value];
        pos := After(Pointers(), pos.value);
      }
    }

    /** `push_back_new`: a new item is linked in at the back, the count
        goes up by one, and exactly one ModelItemAdded event is queued. */
    method PushBackNew() returns (item: ItemRef)
      requires Valid()
      modifies this, queue
      ensures Valid() && items == old(items) + [item] && item !in old(items)
      ensures Pointers() == Appended(old(Pointers()), item) && nextHandle == item + 1
      ensures modelName == old(modelName) && parentItem == old(parentItem)
      ensures queue.contents == old(queue.contents) + [ContainerEvent(ModelItemAdded, Some(handle), Some(item), None)]
    {
      item := nextHandle;
      LinkAtBack();
      queue.PushEvent(ContainerEvent(ModelItemAdded, Some(handle), Some(item), None));
    }

    /** The linking half of `push_back_new`: the next handle is threaded in
        after `lastItem`. */
    method LinkAtBack()
      requires Valid()
      modifies this
      ensures Valid() && items == old(items) + [old(nextHandle)] && old(nextHandle) !in old(items)
      ensures Pointers() == Appended(old(Pointers()), old(nextHandle)) && nextHandle == old(nextHandle) + 1
      ensures modelName == old(modelName) && parentItem == old(parentItem)
    {
      var item := nextHandle;
      nextHandle := nextHandle + 1;
      ghost var before := Pointers();
      AppendedThreads(before, items, item);
      if lastItem.Some? {
        previousItem := previousItem[item := lastItem];
        nextItem := nextItem[lastItem.value := Some(item)][item := None];
      } else {
        previousItem := previousItem[item := None];
        nextItem := nextItem[item := None];
        frontItem := Some(item);
      }
      lastItem := Some(item);
      itemCount := itemCount + 1;
      assert Pointers() == Appended(before, item);
      items := items + [item];
    }

    /** `safeToDelete`: `item` is unlinked and destroyed; the others keep
        their order, the count goes down by one, front and last are fixed. */
    method SafeToDelete(item: ItemRef)
      requires Valid() && item in items
      modifies this
      ensures Valid() && items == Removed(old(items), item)
      ensures Pointers() == Deleted(old(Pointers()), item)
      ensures nextHandle == old(nextHandle)
      ensures modelName == old(modelName) && parentItem == old(parentItem)
    {
      ghost var before := Pointers();
      ghost var k :| 0 <= k < |items| && items[k] == item;
      DeletedThreads(before, items, k);
      var prev, nx := Before(Pointers(), item), After(Pointers(), item);
      if lastItem == Some(item) {
        lastItem := prev;
      }
      if frontItem == Some(item) {
        if nx.Some? {
          frontItem := nx;
          previousItem := previousItem[nx.value := None];
        } else {
          frontItem := None;
        }
      } else {
        if nx.Some? {
          previousItem := previousItem[nx.value := prev];
        }
        nextItem := nextItem[prev.value := nx];
      }
      nextItem, previousItem := nextItem - {item}, previousItem - {item};
      itemCount := itemCount - 1;
      forall z | z in Removed(items, item)
        ensures z < nextHandle
      {
        RemovedKeeps(items, item, z);
      }
      items := Removed(items, item);
    }

    /** `swap`, corrected: the two items trade places in the list and
        exactly one ModelItemsSwapped event naming both is queued. */
    method Swap(pos1: ItemRef, pos2: ItemRef)
      requires Valid() && pos1 in items && pos2 in items
      modifies this, queue
      ensures Valid() && items == Exchanged(old(items), pos1, pos2)
      ensures Pointers() == SwapLinks(old(Pointers()), pos1, pos2)
      ensures nextHandle == old(nextHandle) && itemCount == old(itemCount)
      ensures modelName == old(modelName) && parentItem == old(parentItem)
      ensures queue.contents == old(queue.contents) + [ContainerEvent(ModelItemsSwapped, Some(handle), Some(pos1), Some(pos2))]
    {
      ghost var i :| 0 <= i < |items| && items[i] == pos1;
      ghost var j :| 0 <= j < |items| && items[j] == pos2;
      SwapLinksThreads(Pointers(), items, i, j);
      var l := SwapLinks(Pointers(), pos1, pos2);
      frontItem, lastItem, nextItem, previousItem := l.front, l.last, l.next, l.prev;
      forall z | z in Exchanged(items, pos1, pos2)
        ensures z < nextHandle
      {
        ExchangedKeeps(items, pos1, pos2, z);
      }
      items := Exchanged(items, pos1, pos2);
      queue.PushEvent(ContainerEvent(ModelItemsSwapped, Some(handle), Some(pos1), Some(pos2)));
    }

    /** `erase_later`: the list is left alone; only a ModelItemRemoved event
        is queued, for the environment to act on. */
    method EraseLater(item: ItemRef)
      modifies queue
      ensures queue.contents == old(queue.contents) + [ContainerEvent(ModelItemRemoved, Some(handle), Some(item), None)]
    {
      queue.PushEvent(ContainerEvent(ModelItemRemoved, Some(handle), Some(item), None));
    }
  }
}
