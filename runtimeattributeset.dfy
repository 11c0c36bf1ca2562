// The runtime attribute set of a display item: one animatable attribute per
// attribute key, the declare modifiers of the first reference set merged in
// and the set modifiers of every one, as they stand during a recompute.
module RuntimeAttributeSets {
  import opened Wrappers
  import opened ValueKey
  import opened Expression
  import opened ReferenceAttributes
  import opened RuntimeAttributes
  import AttributeKey
  import Keywords

  // ---- resolving a name to an attribute ----

  /** The attribute a name reads as written: the symbol its spelling maps
      to, whatever kind of keyword that is. */
  function AttributeIndexAsWritten(name: string): (r: Option<int>)
    ensures r == Keywords.SymbolForLiteral(name)
  {
    Keywords.SymbolForLiteral(name)
  }

  /** Spellings of keywords that are not natural attributes map past the end
      of the 43 attributes: "@" is the school operator, whose value is the
      unnatural `padding` key, 44. */
  lemma AsWrittenIndexesPastTheEnd()
    ensures AttributeIndexAsWritten("@") == Some(44)
    ensures !(0 <= 44 < AttributeKey.AttributeCount)
  {
    Keywords.PaddingIsSchoolOperator();
  }

  /** The attribute a name reads: the symbol of its spelling when that is a
      natural attribute; any other name is looked up among the declares. */
  function AttributeIndex(name: string): (r: Option<int>)
    ensures r.Some? <==> Keywords.SymbolForLiteral(name).Some? && Keywords.IsNaturalKey(Keywords.SymbolForLiteral(name).value)
    ensures r.Some? ==> r == Keywords.SymbolForLiteral(name) && 0 <= r.value < AttributeKey.AttributeCount
  {
    var s := Keywords.SymbolForLiteral(name);
    if s.Some? && Keywords.IsNaturalKey(s.value) then s else None
  }

  /** Where the two differ: exactly the names whose symbol is not a natural
      attribute. */
  lemma AttributeIndexCorrects(name: string)
    ensures AttributeIndex(name) != AttributeIndexAsWritten(name) <==>
              AttributeIndexAsWritten(name).Some? && !(0 <= AttributeIndexAsWritten(name).value < AttributeKey.AttributeCount)
  {
  }

  // ---- set modifiers ----

  /** One set modifier as `fireSets` meets it: which reference set it lives
      in, the key it writes and its expression. Two entries are the same
      expression object exactly when they are equal. */
  datatype SetEntry = SetEntry(layer: nat, key: KeyId, expr: ExpressionNode)

  type SetModifiers = Pin<map<KeyId, ExpressionNode>>

  /** `order[i]` lists the keys of the i-th set-modifier map, each once, in
      the order the map iterates them. */
  ghost predicate OrderFits(sets: seq<SetModifiers>, order: seq<seq<KeyId>>)
  {
    |order| == |sets| &&
    (forall i, k :: 0 <= i < |sets| && k in order[i] ==> k in sets[i].value) &&
    (forall i, k :: 0 <= i < |sets| && k in sets[i].value ==> k in order[i]) &&
    (forall i, j, m :: 0 <= i < |sets| && 0 <= j < m < |order[i]| ==> order[i][j] != order[i][m])
  }

  function Row(p: SetModifiers, ks: seq<KeyId>): (r: seq<SetEntry>)
    requires forall k :: k in ks ==> k in p.value
    ensures |r| == |ks| && forall j :: 0 <= j < |ks| ==> r[j] == SetEntry(p.layer, ks[j], p.value[ks[j]])
  {
    seq(|ks|, j requires 0 <= j < |ks| => SetEntry(p.layer, ks[j], p.value[ks[j]]))
  }

  /** The entries of the first `n` maps, in layer order. */
  ghost function Entries(sets: seq<SetModifiers>, order: seq<seq<KeyId>>, n: nat): seq<SetEntry>
    requires OrderFits(sets, order) && n <= |sets|
  {
    if n == 0 then [] else Entries(sets, order, n - 1) + Row(sets[n - 1], order[n - 1])
  }

  /** The first occurrence of each entry, in order. */
  function Dedup(s: seq<SetEntry>): (r: seq<SetEntry>)
    ensures forall x :: x in r <==> x in s
    ensures forall i, j :: 0 <= i < j < |r| ==> r[i] != r[j]
    decreases |s|
  {
    if s == [] then []
    else
      var front := s[..|s| - 1];
      var last := s[|s| - 1];
      assert s == front + [last];
      var d := Dedup(front);
      if last in front then d else d + [last]
  }

  /** Without repeated entries nothing is skipped. */
  lemma {:induction false} DedupOfDistinct(s: seq<SetEntry>)
    requires forall i, j :: 0 <= i < j < |s| ==> s[i] != s[j]
    ensures Dedup(s) == s
    decreases |s|
  {
    if s != [] {
      var front := s[..|s| - 1];
      assert forall i, j :: 0 <= i < j < |front| ==> front[i] != front[j];
      DedupOfDistinct(front);
      assert s[|s| - 1] !in front;
      assert s == front + [s[|s| - 1]];
    }
  }

  /** Solving and writing each entry in turn, as `setInteger` on the store;
      the first failing solve is the result. */
  function Replay(store: Store, es: seq<SetEntry>): Result<Store>
    decreases |es|
  {
    if es == [] then Ok(store)
    else
      var r := Replay(store, es[..|es| - 1]);
      var e := es[|es| - 1];
      if r.Err? then r
      else
        var v := Solve(e.expr, r.value);
        if v.Err? then Err(v.error) else Ok(r.value[e.key := v.value])
  }

  /** Where `fireSets` stands: the entries visited so far, the ones fired
      (the first occurrence of each), the set of the visited ones, and the
      store after firing them. */
  ghost predicate Firing(store: Store, r: Result<Store>, seen: set<SetEntry>, fired: seq<SetEntry>, visited: seq<SetEntry>)
  {
    fired == Dedup(visited) && (forall x :: x in seen <==> x in visited) && r == Replay(store, fired)
  }

  lemma FiringStep(store: Store, r: Result<Store>, seen: set<SetEntry>, fired: seq<SetEntry>, visited: seq<SetEntry>, x: SetEntry)
    requires Firing(store, r, seen, fired, visited)
    ensures x in seen ==> Firing(store, r, seen, fired, visited + [x])
    ensures x !in seen ==> Dedup(visited + [x]) == fired + [x] && (visited + [x])[..|visited|] == visited
    ensures x !in seen ==>
              Replay(store, fired + [x]) ==
                (if r.Err? then r else
                   var v := Solve(x.expr, r.value); if v.Err? then Err(v.error) else Ok(r.value[x.key := v.value]))
    ensures x !in seen ==>
              Firing(store, if r.Err? then r else
                              var v := Solve(x.expr, r.value); if v.Err? then Err(v.error) else Ok(r.value[x.key := v.value]),
                     seen + {x}, fired + [x], visited + [x])
  {
    assert (visited + [x])[..|visited|] == visited;
    assert (fired + [x])[..|fired|] == fired;
  }

  /** One set-modifier map's loop: each entry not fired before is solved
      and written. */
  method FireRow(ghost store: Store, r: Result<Store>, seen: set<SetEntry>, fired: seq<SetEntry>,
                 ghost visited: seq<SetEntry>, p: SetModifiers, ks: seq<KeyId>)
    returns (r': Result<Store>, seen': set<SetEntry>, fired': seq<SetEntry>)
    requires forall k :: k in ks ==> k in p.value
    requires Firing(store, r, seen, fired, visited)
    ensures Firing(store, r', seen', fired', visited + Row(p, ks))
  {
    r', seen', fired' := r, seen, fired;
    ghost var done := visited;
    for j := 0 to |ks|
      invariant Firing(store, r', seen', fired', done)
      invariant done == visited + Row(p, ks[..j])
    {
      var x := SetEntry(p.layer, ks[j], p.value[ks[j]]);
      FiringStep(store, r', seen', fired', done, x);
      if x !in seen' {
        if r'.Ok? {
          var v := Solve(x.expr, r'.value);
          r' := if v.Err? then Err(v.error) else Ok(r'.value[x.key := v.value]);
        }
        fired' := fired' + [x];
        seen' := seen' + {x};
      }
      assert Row(p, ks[..j + 1]) == Row(p, ks[..j]) + [x];
      done := done + [x];
    }
    assert ks[..|ks|] == ks;
  }

  /** The signals of committing the first `n` attributes, in key order. */
  function CommitSignals(s: seq<Animatable>, n: nat): seq<Signal>
    requires n <= |s|
  {
    if n == 0 then [] else CommitSignals(s, n - 1) + Commit(s[n - 1]).signals
  }

  /** An attribute signals a change exactly when its recompute changed it. */
  lemma {:induction false} CommitSignalsChanged(s: seq<Animatable>, n: nat, k: int)
    requires n <= |s| && forall j :: 0 <= j < |s| ==> s[j].key == j
    ensures Changed(k) in CommitSignals(s, n) <==> 0 <= k < n && !SameAs(s[k].checkpoint, s[k].current)
  {
    if n > 0 {
      CommitSignalsChanged(s, n - 1, k);
      CommitSignalsOnce(s[n - 1]);
      assert Changed(k) in Commit(s[n - 1]).signals ==> k == n - 1;
    }
  }

  /** An attribute that is not animating, has no bounds and whose main
      expression has the one weak term `weak`: setting it can be read back. */
  predicate RoundTrips(a: Animatable, weak: KeyId, store: Store)
  {
    a.lastRatio == 1.0 && a.current.expr.Some? && a.current.min.None? && a.current.max.None? &&
    OneWeakTerm(a.current.expr.value.value, weak, store)
  }

  class RuntimeAttributeSet {
    /** The display item the set belongs to. */
    const context: nat
    const attr: array<Animatable>
    /** The declare modifiers of the first set merged since the last begin. */
    var declareModifiers: Option<Pin<map<string, ExpressionNode>>>
    /** The set modifiers of every set merged since the last begin. */
    var setModifiers: seq<SetModifiers>

    /** One attribute per attribute key, each knowing its key. */
    ghost predicate Valid()
      reads this, attr
    {
      attr.Length == AttributeKey.AttributeCount && forall k :: 0 <= k < attr.Length ==> attr[k].key == k
    }

    /** Every attribute starts initialised with its own key. The environment
        callbacks it receives are the signals the other methods return. */
    constructor(context: nat)
      ensures Valid() && fresh(attr) && this.context == context
      ensures forall k :: 0 <= k < attr.Length ==> attr[k] == Initial(k)
      ensures declareModifiers.None? && setModifiers == []
    {
      this.context := context;
      attr := new Animatable[AttributeKey.AttributeCount](k => Initial(k));
      declareModifiers := None;
      setModifiers := [];
    }

    /** `beginAttributeSetRecompute`: forget the modifiers and begin every
        attribute. */
    method BeginRecompute()
      requires Valid()
      modifies this, attr
      ensures Valid()
      ensures declareModifiers.None? && setModifiers == []
      ensures forall k :: 0 <= k < attr.Length ==> attr[k] == Begin(old(attr[k]))
    {
      declareModifiers := None;
      setModifiers := [];
      for key := 0 to attr.Length
        modifies attr
        invariant forall j :: 0 <= j < key ==> attr[j] == Begin(old(attr[j]))
        invariant forall j :: key <= j < attr.Length ==> attr[j] == old(attr[j])
      {
        attr[key] := Begin(attr[key]);
      }
    }

    /** `mergeIn`: the declare modifiers are taken from the first set merged
        only; every set's set modifiers are appended; every attribute merges
        the set's slot for its key. `id` is the identity of the set. */
    method MergeIn(other: AttributeSet, id: nat)
      requires Valid() && WellFormed(other)
      modifies this, attr
      ensures Valid()
      ensures old(declareModifiers).None? ==> declareModifiers == Some(Pin(id, other.declares))
      ensures old(declareModifiers).Some? ==> declareModifiers == old(declareModifiers)
      ensures setModifiers == old(setModifiers) + [Pin(id, other.sets)]
      ensures forall k :: 0 <= k < attr.Length ==> attr[k] == RuntimeAttributes.Merge(old(attr[k]), Layer(id, other.attr[k]))
    {
      if declareModifiers.None? {
        declareModifiers := Some(Pin(id, other.declares));
      }
      setModifiers := setModifiers + [Pin(id, other.sets)];
      for key := 0 to attr.Length
        modifies attr
        invariant forall j :: 0 <= j < key ==> attr[j] == RuntimeAttributes.Merge(old(attr[j]), Layer(id, other.attr[j]))
        invariant forall j :: key <= j < attr.Length ==> attr[j] == old(attr[j])
      {
        attr[key] := RuntimeAttributes.Merge(attr[key], Layer(id, other.attr[key]));
      }
    }

    /** `commitAttributeSetRecompute`: commit every attribute, in key order. */
    method CommitRecompute() returns (signals: seq<Signal>)
      requires Valid()
      modifies attr
      ensures Valid()
      ensures forall k :: 0 <= k < attr.Length ==> attr[k] == Commit(old(attr[k])).attr
      ensures signals == CommitSignals(old(attr[..]), attr.Length)
    {
      ghost var before := attr[..];
      signals := [];
      for key := 0 to attr.Length
        invariant forall j :: 0 <= j < key ==> attr[j] == Commit(before[j]).attr
        invariant forall j :: key <= j < attr.Length ==> attr[j] == before[j]
        invariant signals == CommitSignals(before, key)
      {
        var c := Commit(attr[key]);
        attr[key] := c.attr;
        signals := signals + c.signals;
      }
    }

    /** `executeStateChangers`: the acceptor of every state-changing key from
        `InduceState` through `RadioState` (not `Triggers`) runs, in key
        order, unless the attribute is delayed. The keys whose acceptors run
        are returned. */
    method ExecuteStateChangers() returns (accepted: seq<int>)
      requires Valid()
      ensures forall k :: k in accepted <==>
                AttributeKey.InduceState <= k <= AttributeKey.RadioState && attr[k].delay.None?
      ensures forall i, j :: 0 <= i < j < |accepted| ==> accepted[i] < accepted[j]
    {
      accepted := [];
      for key := AttributeKey.InduceState to AttributeKey.RadioState + 1
        invariant forall k :: k in accepted <==> AttributeKey.InduceState <= k < key && attr[k].delay.None?
        invariant forall i, j :: 0 <= i < j < |accepted| ==> accepted[i] < accepted[j]
        invariant forall i :: 0 <= i < |accepted| ==> accepted[i] < key
      {
        if attr[key].delay.None? {
          accepted := accepted + [key];
        }
      }
    }

    /** `fireSets`: every set-modifier expression is solved and written
        through `setInteger`, in layer order, each expression object at most
        once. `order` is each map's iteration order. The expressions fired
        are returned with the resulting store. */
    method FireSets(store: Store, order: seq<seq<KeyId>>) returns (r: Result<Store>, fired: seq<SetEntry>)
      requires OrderFits(setModifiers, order)
      ensures fired == Dedup(Entries(setModifiers, order, |setModifiers|))
      ensures r == Replay(store, fired)
    {
      r := Ok(store);
      var seen: set<SetEntry> := {};
      fired := [];
      ghost var visited: seq<SetEntry> := [];
      for i := 0 to |setModifiers|
        invariant Firing(store, r, seen, fired, visited)
        invariant visited == Entries(setModifiers, order, i)
      {
        r, seen, fired := FireRow(store, r, seen, fired, visited, setModifiers[i], order[i]);
        visited := visited + Row(setModifiers[i], order[i]);
      }
    }

    /** `getInt(ValueKey)`: a natural attribute's name reads the attribute;
        any other name reads its declared expression, and an undeclared one
        reads as none. Before any set is merged there is no declare map,
        where the source dereferences null. */
    function GetInt(name: string, store: Store): (r: Result<Option<real>>)
      requires Valid()
      reads this, attr
      ensures AttributeIndex(name).Some? ==> r == SettledValue(attr[AttributeIndex(name).value], store)
      ensures AttributeIndex(name).None? && declareModifiers.None? ==> r == Err(NoDeclareMap)
      ensures AttributeIndex(name).None? && declareModifiers.Some? && name !in declareModifiers.value.value ==> r == Ok(None)
      ensures AttributeIndex(name).None? && declareModifiers.Some? && name in declareModifiers.value.value ==>
                (r.Ok? <==> Solve(declareModifiers.value.value[name], store).Ok?) &&
                (r.Ok? ==> r.value == Some(Solve(declareModifiers.value.value[name], store).value))
    {
      var i := AttributeIndex(name);
      if i.Some? then SettledValue(attr[i.value], store)
      else if declareModifiers.None? then Err(NoDeclareMap)
      else if name !in declareModifiers.value.value then Ok(None)
      else
        var v := Solve(declareModifiers.value.value[name], store);
        if v.Err? then Err(v.error) else Ok(Some(v.value))
    }

    /** `setInteger(ValueKey)`: a natural attribute's name sets that
        attribute's value; any other name must be declared with a weak
        expression, which back-solves for the proposed value. Failed
        assertions in the source are errors here. Setting and reading back
        gives the value proposed, for an attribute with one weak term and no
        bounds that is not animating, and for a declared variable with one
        weak term. */
    method SetInteger(name: string, proposed: real, store: Store, ghost weak: KeyId) returns (r: Result<Store>)
      requires Valid()
      modifies attr
      ensures Valid()
      ensures AttributeIndex(name).None? ==> attr[..] == old(attr[..])
      ensures AttributeIndex(name).Some? ==>
                var i := AttributeIndex(name).value;
                var s := SetValue(old(attr[i]).current, store, proposed);
                (forall k :: 0 <= k < attr.Length && k != i ==> attr[k] == old(attr[k])) &&
                (s.Err? ==> r == Err(s.error) && attr[i] == old(attr[i])) &&
                (s.Ok? ==> r == Ok(s.value.1) && attr[i] == old(attr[i]).(current := s.value.0))
      ensures AttributeIndex(name).None? && (declareModifiers.None? || name !in declareModifiers.value.value) ==> r.Err?
      ensures AttributeIndex(name).None? && declareModifiers.Some? && name in declareModifiers.value.value ==>
                var e := declareModifiers.value.value[name];
                (!ContainsWeak(MarkWeak(e)) ==> r.Err?) &&
                (ContainsWeak(MarkWeak(e)) && BackSolve(MarkWeak(e), store, proposed).Ok? ==>
                   r == Ok(ApplyWrite(store, BackSolve(MarkWeak(e), store, proposed).value.write)))
      ensures r.Ok? && AttributeIndex(name).None? && declareModifiers.Some? && name in declareModifiers.value.value &&
              OneWeakTerm(declareModifiers.value.value[name], weak, store) ==>
                GetInt(name, r.value) == Ok(Some(proposed))
      ensures r.Ok? && AttributeIndex(name).Some? && RoundTrips(old(attr[AttributeIndex(name).value]), weak, store) ==>
                GetInt(name, r.value) == Ok(Some(proposed))
    {
      var i := AttributeIndex(name);
      if i.Some? {
        var a := attr[i.value];
        var s := SetValue(a.current, store, proposed);
        if s.Err? {
          return Err(s.error);
        }
        attr[i.value] := a.(current := s.value.0);
        r := Ok(s.value.1);
        if RoundTrips(a, weak, store) {
          SetThenGet(a.current, store, weak, proposed);
        }
        return;
      }
      if declareModifiers.None? || name !in declareModifiers.value.value {
        return Err(Undeclared);
      }
      var e := declareModifiers.value.value[name];
      if !ContainsWeak(MarkWeak(e)) {
        return Err(NotWeak);
      }
      var b := BackSolve(MarkWeak(e), store, proposed);
      if b.Err? {
        return Err(b.error);
      }
      r := Ok(ApplyWrite(store, b.value.write));
      if OneWeakTerm(e, weak, store) {
        MarkedBackSolveRoundTrip(e, store, weak, proposed);
      }
    }
  }

  /** No set has been merged since the last begin. */
  const NoDeclareMap: string := "No declare modifiers"
  /** The name is neither an attribute nor declared. */
  const Undeclared: string := "Undeclared name"
  /** The declared expression has no weak term to solve for. */
  const NotWeak: string := "Declared expression is not weak"
}
