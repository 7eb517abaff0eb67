/** Whole sequences of definitions, and the scopes the driver hands out as their input. */
module ScopeRuns {
  import opened Scopes
  import opened ScopedMaps
  import opened Grammar
  import opened Tables
  import opened Driver
  import opened EmittedScopes

  datatype Definition<V> = Definition(scope: Scope, value: V)

  /** Later definitions of a scope replace earlier ones. */
  function LastWins<V>(ds: seq<Definition<V>>): map<Scope, V> {
    if ds == [] then map[] else LastWins(ds[..|ds| - 1])[ds[|ds| - 1].scope := ds[|ds| - 1].value]
  }

  /** Later definitions of a scope are dropped. */
  function FirstWins<V>(ds: seq<Definition<V>>): map<Scope, V> {
    if ds == [] then map[]
    else
      var m := FirstWins(ds[..|ds| - 1]);
      if ds[|ds| - 1].scope in m then m else m[ds[|ds| - 1].scope := ds[|ds| - 1].value]
  }

  function ScopesIn<V>(ds: seq<Definition<V>>): set<Scope> {
    set i | 0 <= i < |ds| :: ds[i].scope
  }

  lemma {:induction false} LastWinsKeys<V>(ds: seq<Definition<V>>)
    ensures LastWins(ds).Keys == ScopesIn(ds)
    decreases |ds|
  {
    if ds != [] {
      var n := |ds| - 1;
      LastWinsKeys(ds[..n]);
      assert ScopesIn(ds) == ScopesIn(ds[..n]) + {ds[n].scope};
    }
  }

  /** The value of a scope is the one of its last definition. */
  lemma {:induction false} LastDefinitionCounts<V>(ds: seq<Definition<V>>, i: nat)
    requires i < |ds| && forall j :: i < j < |ds| ==> ds[j].scope != ds[i].scope
    ensures ds[i].scope in LastWins(ds) && LastWins(ds)[ds[i].scope] == ds[i].value
    decreases |ds|
  {
    if i < |ds| - 1 {
      LastDefinitionCounts(ds[..|ds| - 1], i);
    }
  }

  /** The value of a scope is the one of its first definition. */
  lemma {:induction false} FirstDefinitionCounts<V>(ds: seq<Definition<V>>, i: nat)
    requires i < |ds| && forall j :: 0 <= j < i ==> ds[j].scope != ds[i].scope
    ensures FirstWins(ds).Keys == ScopesIn(ds) && FirstWins(ds)[ds[i].scope] == ds[i].value
    decreases |ds|
  {
    var n := |ds| - 1;
    assert ScopesIn(ds) == ScopesIn(ds[..n]) + {ds[n].scope};
    FirstWinsKeys(ds[..n]);
    if i < n {
      FirstDefinitionCounts(ds[..n], i);
    }
  }

  lemma {:induction false} FirstWinsKeys<V>(ds: seq<Definition<V>>)
    ensures FirstWins(ds).Keys == ScopesIn(ds)
    decreases |ds|
  {
    if ds != [] {
      var n := |ds| - 1;
      FirstWinsKeys(ds[..n]);
      assert ScopesIn(ds) == ScopesIn(ds[..n]) + {ds[n].scope};
    }
  }

  /** Definitions of different scopes may come in any order. */
  lemma {:induction false} OrderDoesNotMatter<V>(a: seq<Definition<V>>, b: seq<Definition<V>>)
    requires forall i, j :: 0 <= i < j < |a| ==> a[i].scope != a[j].scope
    requires forall i, j :: 0 <= i < j < |b| ==> b[i].scope != b[j].scope
    requires forall d :: d in a <==> d in b
    ensures LastWins(a) == LastWins(b) == FirstWins(a)
  {
    LastWinsKeys(a);
    LastWinsKeys(b);
    FirstWinsKeys(a);
    forall s | s in ScopesIn(a) ensures s in ScopesIn(b) && LastWins(a)[s] == LastWins(b)[s] == FirstWins(a)[s] {
      var i :| 0 <= i < |a| && a[i].scope == s;
      assert a[i] in b;
      var j :| 0 <= j < |b| && b[j] == a[i];
      LastDefinitionCounts(a, i);
      FirstDefinitionCounts(a, i);
      LastDefinitionCounts(b, j);
    }
    forall s | s in ScopesIn(b) ensures s in ScopesIn(a) {
      var j :| 0 <= j < |b| && b[j].scope == s;
      assert b[j] in a;
    }
  }

  lemma {:induction false} SubHierarchy(a: set<Scope>, b: set<Scope>)
    requires Hierarchical(b) && a <= b
    ensures Hierarchical(a)
  {
  }

  lemma {:induction false} PrefixFits<V>(ds: seq<Definition<V>>, i: nat)
    requires i < |ds| && Hierarchical(ScopesIn(ds))
    ensures ds[i].scope.NonEmpty() && Hierarchical(LastWins(ds[..i]).Keys + {ds[i].scope})
        && FirstWins(ds[..i]).Keys == LastWins(ds[..i]).Keys
    ensures LastWins(ds[..i + 1]) == LastWins(ds[..i])[ds[i].scope := ds[i].value]
    ensures FirstWins(ds[..i + 1]) == if ds[i].scope in FirstWins(ds[..i]) then FirstWins(ds[..i]) else
        FirstWins(ds[..i])[ds[i].scope := ds[i].value]
  {
    LastWinsKeys(ds[..i]);
    FirstWinsKeys(ds[..i]);
    SubHierarchy(ScopesIn(ds[..i]) + {ds[i].scope}, ScopesIn(ds));
    assert ds[..i + 1][..i] == ds[..i];
  }

  /** Definitions with nested or disjoint scopes in any order are all taken; the last one of each scope counts. */
  method SetAll<V(==)>(m: ScopedInstance<V>, ds: seq<Definition<V>>)
    requires m.Valid() && m.Contents() == map[] && Hierarchical(ScopesIn(ds))
    modifies m, m.invtree
    ensures m.Valid() && m.Contents() == LastWins(ds)
  {
    for i := 0 to |ds|
      invariant m.Valid() && m.Contents() == LastWins(ds[..i])
    {
      PrefixFits(ds, i);
      var r := m.Set(ds[i].scope, ds[i].value);
    }
    assert ds[..|ds|] == ds;
  }

  /** The same for one key of a keyed map, where the first definition of each scope counts. */
  method SetAllForKey<K(==,!new), V(==)>(m: ScopedMap<K, V>, key: K, ds: seq<Definition<V>>)
    requires m.Valid() && m.Contents(key) == map[] && Hierarchical(ScopesIn(ds))
    modifies m, m.invtree
    ensures m.Valid() && m.Contents(key) == FirstWins(ds)
    ensures forall k | k != key :: m.Contents(k) == old(m.Contents(k))
  {
    for i := 0 to |ds|
      invariant m.Valid() && m.Contents(key) == FirstWins(ds[..i])
      invariant forall k | k != key :: m.Contents(k) == old(m.Contents(k))
    {
      PrefixFits(ds, i);
      var r := m.Set(ds[i].scope, key, ds[i].value);
    }
    assert ds[..|ds|] == ds;
  }

  /** The scopes attached to the nodes of an accepted run can be defined in any order. */
  lemma {:induction false} RunScopesCanBeSet<V>(tb: Tables, keywords: set<int>, lexems: seq<Lexem>, eof: Lexem,
                                                fuel: nat, ds: seq<Definition<V>>)
    requires Run(tb, keywords, INITIAL, lexems, eof, fuel, []).Finished?
    requires forall d | d in ds :: d.scope in EmittedAll(Run(tb, keywords, INITIAL, lexems, eof, fuel, []).nodes)
    ensures Hierarchical(ScopesIn(ds))
  {
    var r := Run(tb, keywords, INITIAL, lexems, eof, fuel, []);
    InitialNested();
    FinishedRunNests(tb, keywords, INITIAL, lexems, eof, fuel, []);
    EmittedScopesAreHierarchical(r.nodes, 0, r.scopestep);
    forall s | s in ScopesIn(ds) ensures s in EmittedAll(r.nodes) {
      var i :| 0 <= i < |ds| && ds[i].scope == s;
      assert ds[i] in ds;
    }
    SubHierarchy(ScopesIn(ds), set s | s in EmittedAll(r.nodes));
  }
}
