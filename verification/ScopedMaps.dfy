/** Values bound to nested scopes: one value per scope, or one per scope and key. */
module ScopedMaps {
  import opened Scopes
  import opened ScopeForest
  import opened InvTree

  // ---------------------------------------------------------------- what a lookup means

  /** The value of the innermost defined scope that covers the step. */
  ghost function Lookup<V>(defs: map<Scope, V>, step: int, nullval: V): V {
    if exists s :: Innermost(defs.Keys, step, s) then
      var s :| Innermost(defs.Keys, step, s);
      defs[s]
    else nullval
  }

  lemma {:induction false} InnermostExists(S: set<Scope>, covering: set<Scope>, step: int)
    requires Hierarchical(S) && covering != {} && covering <= S && forall c | c in covering :: c.Covers(step)
    ensures exists s :: s in covering && Innermost(covering, step, s)
    decreases |covering|
  {
    var x :| x in covering;
    var rest := covering - {x};
    if rest == {} {
      assert covering == {x} && Innermost(covering, step, x);
    } else {
      InnermostExists(S, rest, step);
      var m :| m in rest && Innermost(rest, step, m);
      OverlapIsNested(S, x, m, step);
      var n := if m.Contains(x) then x else m;
      forall c | c in covering && c.Covers(step) ensures c.Contains(n) { assert c == x || c in rest; }
      assert Innermost(covering, step, n);
    }
  }

  /** v is the value of the scope around the step that lies inside all others around it, and the null value if there
      is no scope around it. */
  ghost predicate InnermostValue<V>(defs: map<Scope, V>, step: int, nullval: V, v: V) {
    if forall c | c in defs :: !(c.start <= step < c.end) then v == nullval
    else exists s :: s in defs && s.start <= step < s.end && v == defs[s]
           && forall c | c in defs && c.start <= step < c.end :: c.start <= s.start && s.end <= c.end
  }

  /** In a hierarchy of scopes the lookup finds the one innermost scope covering the step, if any scope covers it. */
  lemma {:induction false} LookupIsInnermost<V>(defs: map<Scope, V>, step: int, nullval: V)
    requires Hierarchical(defs.Keys)
    ensures if exists c :: c in defs && c.Covers(step)
            then exists s :: Innermost(defs.Keys, step, s) && Lookup(defs, step, nullval) == defs[s]
                             && forall t | Innermost(defs.Keys, step, t) :: t == s
            else Lookup(defs, step, nullval) == nullval
    ensures InnermostValue(defs, step, nullval, Lookup(defs, step, nullval))
  {
    if c :| c in defs && c.Covers(step) {
      var covering := set d | d in defs && d.Covers(step);
      assert c in covering;
      InnermostExists(defs.Keys, covering, step);
      var s :| s in covering && Innermost(covering, step, s);
      assert Innermost(defs.Keys, step, s);
    }
  }

  function ValueOr<V>(defs: map<Scope, V>, scope: Scope, nullval: V): V {
    if scope in defs then defs[scope] else nullval
  }

  /** What the elements of the array with the indices in at define. */
  ghost function Definitions<V>(ar: seq<UpValue<V>>, at: map<Scope, int>): (defs: map<Scope, V>)
    ensures Indexed(ScopesOf(ar), at) ==> defs.Keys == at.Keys
  {
    map s | s in at && 0 <= at[s] < |ar| :: ar[at[s]].value
  }

  lemma {:induction false} DefinitionsGrown<V>(ar: seq<UpValue<V>>, ar': seq<UpValue<V>>, at: map<Scope, int>,
                                               scope: Scope, value: V)
    requires Indexed(ScopesOf(ar), at) && Grown(ar, ar', at, scope, value) && scope !in at
        && Indexed(ScopesOf(ar'), at[scope := |ar|])
    ensures Definitions(ar', at[scope := |ar|]) == Definitions(ar, at)[scope := value]
  {
  }

  lemma {:induction false} DefinitionsUpdated<V>(ar: seq<UpValue<V>>, at: map<Scope, int>, scope: Scope, value: V)
    requires Indexed(ScopesOf(ar), at) && scope in at
    ensures var ar' := ar[at[scope] := ar[at[scope]].(value := value)];
            Indexed(ScopesOf(ar'), at) && Definitions(ar', at) == Definitions(ar, at)[scope := value]
  {
    var ar' := ar[at[scope] := ar[at[scope]].(value := value)];
    forall s | s in at ensures ScopesOf(ar')[at[s]] == s && ar'[at[s]].value == Definitions(ar, at)[scope := value][s] {
      assert s != scope ==> at[s] != at[scope];
    }
  }

  // ---------------------------------------------------------------- one value per scope

  datatype SetResult = Done | SetFailed

  class ScopedInstance<V(==)> {
    var heads: map<int, int>
    const invtree: ScopedUpValueInvTree<V>
    ghost var at: map<Scope, int>

    ghost predicate Valid()
      reads this, invtree
    {
      IsForest(invtree.ar, at, heads)
    }

    ghost function Contents(): map<Scope, V>
      reads this, invtree
      requires Valid()
    {
      Definitions(invtree.ar, at)
    }

    constructor (nullval: V)
      ensures Valid() && Contents() == map[] && invtree.nullval == nullval && fresh(invtree)
    {
      heads, at := map[], map[];
      invtree := new ScopedUpValueInvTree<V>(nullval);
    }

    /** The last definition of a scope counts. */
    method Set(scope: Scope, value: V) returns (r: SetResult)
      requires Valid() && scope.NonEmpty() && Hierarchical(Contents().Keys + {scope})
      modifies this, invtree
      ensures Valid() && r == Done && Contents() == old(Contents())[scope := value]
    {
      ghost var ar := invtree.ar;
      var ins;
      ins, heads := invtree.Define(heads, scope, value, true, at);
      if scope in at {
        OnlyValue(ar, at, scope, value, heads);
        DefinitionsUpdated(ar, at, scope, value);
      } else {
        DefinitionsGrown(ar, invtree.ar, at, scope, value);
        at := at[scope := |ar|];
      }
      r := if ins.LogicError? || ins.ScopeHierarchyError? then SetFailed else Done;
    }

    method Get(step: int) returns (v: V)
      requires Valid()
      ensures v == Lookup(Contents(), step, invtree.nullval)
      ensures InnermostValue(Contents(), step, invtree.nullval, v)
    {
      v := invtree.nullval;
      match UpperBound(heads, step)
      case Found(e) =>
        CoversFromHead(ScopesOf(invtree.ar), LinksOf(invtree.ar), at, heads, step, e);
        v := invtree.GetInnerValue(heads[e], step, at);
        LookupIsInnermost(Contents(), step, invtree.nullval);
      case NoEnd =>
        CoversFromNone(ScopesOf(invtree.ar), LinksOf(invtree.ar), at, heads, step);
        LookupIsInnermost(Contents(), step, invtree.nullval);
    }

    /** Value of exactly the given scope. */
    method GetThis(scope: Scope) returns (v: V)
      requires Valid()
      ensures v == if scope in Contents() then Contents()[scope] else invtree.nullval
    {
      v := invtree.nullval;
      if scope.end in heads {
        assert IsHead(ScopesOf(invtree.ar), at, scope.end, heads[scope.end]);
        v := invtree.FindUpValue(heads[scope.end], scope, at);
      }
    }
  }

  lemma {:induction false} OnlyValue<V>(ar: seq<UpValue<V>>, at: map<Scope, int>, scope: Scope, value: V,
                                        heads: map<int, int>)
    requires IsForest(ar, at, heads) && scope in at
    ensures IsForest(ar[at[scope] := ar[at[scope]].(value := value)], at, heads)
  {
    ForestFrame(ar, ar[at[scope] := ar[at[scope]].(value := value)], at, heads);
  }

  // ---------------------------------------------------------------- one value per scope and key

  /** The part of the map for one key. */
  function HeadsOf<K(==)>(heads: map<(K, int), int>, key: K): map<int, int> {
    map p | p in heads && p.0 == key :: p.1 := heads[p]
  }

  ghost function AtOf<K(!new)>(at: map<K, map<Scope, int>>, key: K): map<Scope, int> {
    if key in at then at[key] else map[]
  }

  lemma {:induction false} HeadsOfUpdate<K>(heads: map<(K, int), int>, key: K, e: int, h: int)
    ensures HeadsOf(heads[(key, e) := h], key) == HeadsOf(heads, key)[e := h]
    ensures forall k | k != key :: HeadsOf(heads[(key, e) := h], k) == HeadsOf(heads, k)
  {
    var heads' := heads[(key, e) := h];
    forall f | f in HeadsOf(heads, key)[e := h] ensures f in HeadsOf(heads', key) {
      assert (key, f) in heads';
    }
    forall k | k != key ensures HeadsOf(heads', k) == HeadsOf(heads, k) {
      OtherHeads(heads, key, e, h, k);
    }
  }

  lemma {:induction false} OtherHeads<K>(heads: map<(K, int), int>, key: K, e: int, h: int, k: K)
    requires k != key
    ensures HeadsOf(heads[(key, e) := h], k) == HeadsOf(heads, k)
  {
    var heads' := heads[(key, e) := h];
    forall f | f in HeadsOf(heads, k) ensures f in HeadsOf(heads', k) { assert (k, f) in heads'; }
    forall f | f in HeadsOf(heads', k) ensures f in HeadsOf(heads, k) { assert (k, f) in heads; }
  }

  /** The tree of one key inside the common array. */
  ghost predicate TreeOf<K(!new), V>(ar: seq<UpValue<V>>, owner: seq<K>, at: map<K, map<Scope, int>>,
                                     heads: map<(K, int), int>, key: K) {
    && |owner| == |ar|
    && IsForest(ar, AtOf(at, key), HeadsOf(heads, key))
    && forall s | s in AtOf(at, key) :: owner[AtOf(at, key)[s]] == key
  }

  ghost function TreeDefinitions<K(!new), V>(ar: seq<UpValue<V>>, owner: seq<K>, at: map<K, map<Scope, int>>,
                                             heads: map<(K, int), int>, key: K): map<Scope, V> {
    Definitions(ar, AtOf(at, key))
  }

  ghost predicate AllTrees<K(!new), V>(ar: seq<UpValue<V>>, owner: seq<K>, at: map<K, map<Scope, int>>,
                                       heads: map<(K, int), int>) {
    forall key {:trigger TreeOf(ar, owner, at, heads, key)} :: TreeOf(ar, owner, at, heads, key)
  }

  lemma {:induction false} OtherElements<K(!new), V>(ar: seq<UpValue<V>>, ar': seq<UpValue<V>>, owner: seq<K>,
                                                     at: map<K, map<Scope, int>>, heads: map<(K, int), int>, key: K,
                                                     scope: Scope, value: V, k: K)
    requires TreeOf(ar, owner, at, heads, key) && TreeOf(ar, owner, at, heads, k) && k != key
    requires Grown(ar, ar', AtOf(at, key), scope, value)
    ensures forall i | At(ScopesOf(ar), AtOf(at, k), i) :: ar'[i] == ar[i]
  {
    forall i | At(ScopesOf(ar), AtOf(at, k), i) ensures ar'[i] == ar[i] {
      assert owner[i] == k;
    }
  }

  /** A new definition for one key leaves the trees of the others as they are. */
  lemma {:induction false} OtherTree<K(!new), V>(ar: seq<UpValue<V>>, ar': seq<UpValue<V>>, owner: seq<K>,
                                                 at: map<K, map<Scope, int>>, heads: map<(K, int), int>,
                                                 at': map<K, map<Scope, int>>, heads': map<(K, int), int>, key: K, k: K)
    requires TreeOf(ar, owner, at, heads, k) && |ar'| == |ar| + 1
    requires forall i | At(ScopesOf(ar), AtOf(at, k), i) :: ar'[i] == ar[i]
    requires AtOf(at', k) == AtOf(at, k) && HeadsOf(heads', k) == HeadsOf(heads, k)
    ensures TreeOf(ar', owner + [key], at', heads', k)
            && TreeDefinitions(ar', owner + [key], at', heads', k) == TreeDefinitions(ar, owner, at, heads, k)
  {
    ForestFrame(ar, ar', AtOf(at, k), HeadsOf(heads, k));
    SameDefinitions(ar, ar', AtOf(at, k));
  }

  lemma {:induction false} SameDefinitions<V>(ar: seq<UpValue<V>>, ar': seq<UpValue<V>>, at: map<Scope, int>)
    requires Indexed(ScopesOf(ar), at) && |ar'| >= |ar| && forall i | At(ScopesOf(ar), at, i) :: ar'[i] == ar[i]
    ensures Indexed(ScopesOf(ar'), at) && Definitions(ar', at) == Definitions(ar, at)
  {
    forall s | s in at ensures ScopesOf(ar')[at[s]] == s && ar'[at[s]] == ar[at[s]] {
      assert At(ScopesOf(ar), at, at[s]);
    }
  }

  /** All trees after a new definition. */
  lemma {:induction false} TreesGrown<K(!new), V>(ar: seq<UpValue<V>>, ar': seq<UpValue<V>>, owner: seq<K>,
                                                  at: map<K, map<Scope, int>>, heads: map<(K, int), int>, key: K,
                                                  scope: Scope, value: V, hd: map<int, int>)
    requires AllTrees(ar, owner, at, heads) && scope !in AtOf(at, key)
    requires Grown(ar, ar', AtOf(at, key), scope, value) && IsForest(ar', AtOf(at, key)[scope := |ar|], hd)
    requires scope.end in hd && hd == HeadsOf(heads, key)[scope.end := hd[scope.end]]
    ensures var at', heads', owner' := at[key := AtOf(at, key)[scope := |ar|]],
        heads[(key, scope.end) := hd[scope.end]], owner + [key];
            AllTrees(ar', owner', at', heads')
            && forall k :: TreeDefinitions(ar', owner', at', heads', k)
                           == if k == key then TreeDefinitions(ar, owner, at, heads, k)[scope := value] else
                               TreeDefinitions(ar, owner, at, heads, k)
  {
    var at', heads' := at[key := AtOf(at, key)[scope := |ar|]], heads[(key, scope.end) := hd[scope.end]];
    assert TreeOf(ar, owner, at, heads, key);
    HeadsOfUpdate(heads, key, scope.end, hd[scope.end]);
    forall k ensures TreeOf(ar', owner + [key], at', heads', k)
                     && TreeDefinitions(ar', owner + [key], at', heads', k)
                        == if k == key then TreeDefinitions(ar, owner, at, heads, k)[scope := value] else
                            TreeDefinitions(ar, owner, at, heads, k)
    {
      assert TreeOf(ar, owner, at, heads, k);
      if k == key {
        OwnTree(ar, ar', owner, at, heads, key, scope, value, hd);
      } else {
        OtherElements(ar, ar', owner, at, heads, key, scope, value, k);
        OtherTree(ar, ar', owner, at, heads, at', heads', key, k);
      }
    }
  }

  lemma {:induction false} OwnTree<K(!new), V>(ar: seq<UpValue<V>>, ar': seq<UpValue<V>>, owner: seq<K>,
                                               at: map<K, map<Scope, int>>, heads: map<(K, int), int>, key: K,
                                               scope: Scope, value: V, hd: map<int, int>)
    requires TreeOf(ar, owner, at, heads, key) && scope !in AtOf(at, key)
    requires Grown(ar, ar', AtOf(at, key), scope, value) && IsForest(ar', AtOf(at, key)[scope := |ar|], hd)
    requires scope.end in hd && hd == HeadsOf(heads, key)[scope.end := hd[scope.end]]
    ensures var at', heads' := at[key := AtOf(at, key)[scope := |ar|]], heads[(key, scope.end) := hd[scope.end]];
            TreeOf(ar', owner + [key], at', heads', key)
            && TreeDefinitions(ar', owner + [key], at', heads', key)
                == TreeDefinitions(ar, owner, at, heads, key)[scope := value]
  {
    HeadsOfUpdate(heads, key, scope.end, hd[scope.end]);
    DefinitionsGrown(ar, ar', AtOf(at, key), scope, value);
  }

  lemma {:induction false} KnownTree<K>(heads: map<(K, int), int>, key: K, e: int)
    requires e in HeadsOf(heads, key)
    ensures heads[(key, e) := HeadsOf(heads, key)[e]] == heads
  {
  }

  /** The definitions of all keys. */
  ghost function TableOf<K(!new), V>(ar: seq<UpValue<V>>, owner: seq<K>, at: map<K, map<Scope, int>>,
                                     heads: map<(K, int), int>): K -> map<Scope, V> {
    (key: K) => TreeDefinitions(ar, owner, at, heads, key)
  }

  /** All trees after an insertion for one key. */
  ghost predicate AfterInsert<K(!new), V>(ar: seq<UpValue<V>>, owner: seq<K>, at: map<K, map<Scope, int>>,
                                          heads: map<(K, int), int>, ar': seq<UpValue<V>>, owner': seq<K>,
                                          at': map<K, map<Scope, int>>, heads': map<(K, int), int>, key: K,
                                          scope: Scope, value: V)
  {
    forall k {:trigger TreeDefinitions(ar', owner', at', heads', k)} ::
      var was := TreeDefinitions(ar, owner, at, heads, k);
      TreeDefinitions(ar', owner', at', heads', k) == if k == key && scope !in was then was[scope := value] else was
  }

  /** The earlier value, if there is one. */
  ghost predicate Reports<K(!new), V>(ar: seq<UpValue<V>>, owner: seq<K>, at: map<K, map<Scope, int>>,
                                      heads: map<(K, int), int>, key: K, scope: Scope, r: InsertResult<V>)
  {
    var was := TreeDefinitions(ar, owner, at, heads, key);
    if scope in was then r == Known(was[scope]) else r.Inserted?
  }

  lemma {:induction false} TreesAfter<K(!new), V>(ar: seq<UpValue<V>>, owner: seq<K>, at: map<K, map<Scope, int>>,
                                                  heads: map<(K, int), int>, ar': seq<UpValue<V>>, hd: map<int, int>,
                                                  key: K, scope: Scope, value: V, r: InsertResult<V>)
    returns (owner': seq<K>, at': map<K, map<Scope, int>>, heads': map<(K, int), int>)
    requires AllTrees(ar, owner, at, heads)
        && Defined(ar, AtOf(at, key), HeadsOf(heads, key), scope, value, false, ar', hd, r)
    ensures heads' == heads[(key, scope.end) := hd[scope.end]]
    ensures AllTrees(ar', owner', at', heads')
        && AfterInsert(ar, owner, at, heads, ar', owner', at', heads', key, scope, value)
    ensures Reports(ar, owner, at, heads, key, scope, r)
  {
    assert TreeOf(ar, owner, at, heads, key);
    owner', at', heads' := owner, at, heads[(key, scope.end) := hd[scope.end]];
    if scope in AtOf(at, key) {
      KnownTree(heads, key, scope.end);
    } else {
      owner', at' := owner + [key], at[key := AtOf(at, key)[scope := |ar|]];
      TreesGrown(ar, ar', owner, at, heads, key, scope, value, hd);
    }
  }

  class ScopedMap<K(==,!new), V(==)> {
    var heads: map<(K, int), int>
    const invtree: ScopedUpValueInvTree<V>
    ghost var at: map<K, map<Scope, int>>
    ghost var owner: seq<K>

    ghost predicate Valid()
      reads this, invtree
    {
      AllTrees(invtree.ar, owner, at, heads)
    }

    ghost function Contents(key: K): map<Scope, V>
      reads this, invtree
      requires Valid()
    {
      TreeDefinitions(invtree.ar, owner, at, heads, key)
    }

    constructor (nullval: V)
      ensures Valid() && (forall key :: Contents(key) == map[]) && invtree.nullval == nullval && fresh(invtree)
    {
      heads, at, owner := map[], map[], [];
      invtree := new ScopedUpValueInvTree<V>(nullval);
    }

    ghost function Table(): (t: K -> map<Scope, V>)
      reads this, invtree
      requires Valid()
      ensures forall key :: t(key) == Contents(key)
    {
      TableOf(invtree.ar, owner, at, heads)
    }

    /** The part common to Set and GetOrSet: the first definition of a scope counts. */
    method Insert(scope: Scope, key: K, value: V) returns (r: InsertResult<V>)
      requires Valid() && scope.NonEmpty() && Hierarchical(Contents(key).Keys + {scope})
      modifies this, invtree
      ensures AllTrees(invtree.ar, owner, at, heads)
      ensures AfterInsert(old(invtree.ar), old(owner), old(at), old(heads), invtree.ar, owner, at, heads, key, scope,
          value)
      ensures Reports(old(invtree.ar), old(owner), old(at), old(heads), key, scope, r)
    {
      assert TreeOf(invtree.ar, owner, at, heads, key);
      ghost var ar := invtree.ar;
      var hd;
      r, hd := invtree.Define(HeadsOf(heads, key), scope, value, false, AtOf(at, key));
      ghost var owner', at', heads' := TreesAfter(ar, owner, at, heads, invtree.ar, hd, key, scope, value, r);
      heads := heads[(key, scope.end) := hd[scope.end]];
      owner, at := owner', at';
    }

    /** True if the scope had no value for the key; an earlier definition is kept. */
    method Set(scope: Scope, key: K, value: V) returns (r: bool)
      requires Valid() && scope.NonEmpty() && Hierarchical(Contents(key).Keys + {scope})
      modifies this, invtree
      ensures Valid() && r == (scope !in old(Contents(key)))
      ensures Contents(key) == if r then old(Contents(key))[scope := value] else old(Contents(key))
      ensures forall k | k != key :: Contents(k) == old(Contents(k))
    {
      var ins := Insert(scope, key, value);
      r := ins.Inserted?;
    }

    /** The earlier value of the scope for the key, or the null value if it is defined now. */
    method GetOrSet(scope: Scope, key: K, value: V) returns (v: V)
      requires Valid() && scope.NonEmpty() && Hierarchical(Contents(key).Keys + {scope})
      modifies this, invtree
      ensures Valid()
      ensures v == if scope in old(Contents(key)) then old(Contents(key))[scope] else invtree.nullval
      ensures Contents(key) == if scope in old(Contents(key)) then old(Contents(key)) else
          old(Contents(key))[scope := value]
      ensures forall k | k != key :: Contents(k) == old(Contents(k))
    {
      var ins := Insert(scope, key, value);
      v := if ins.Known? then ins.was else invtree.nullval;
    }

    method Get(step: int, key: K) returns (v: V)
      requires Valid()
      ensures v == Lookup(Contents(key), step, invtree.nullval)
      ensures InnermostValue(Contents(key), step, invtree.nullval, v)
    {
      assert TreeOf(invtree.ar, owner, at, heads, key);
      ghost var a := AtOf(at, key);
      LookupIsInnermost(Contents(key), step, invtree.nullval);
      v := invtree.nullval;
      match UpperBound(HeadsOf(heads, key), step)
      case Found(e) =>
        CoversFromHead(ScopesOf(invtree.ar), LinksOf(invtree.ar), a, HeadsOf(heads, key), step, e);
        v := invtree.GetInnerValue(heads[(key, e)], step, a);
      case NoEnd =>
        CoversFromNone(ScopesOf(invtree.ar), LinksOf(invtree.ar), a, HeadsOf(heads, key), step);
    }

    /** Value of exactly the given scope. */
    method GetDef(scope: Scope, key: K) returns (v: V)
      requires Valid()
      ensures v == if scope in Contents(key) then Contents(key)[scope] else invtree.nullval
    {
      assert TreeOf(invtree.ar, owner, at, heads, key);
      v := invtree.nullval;
      if (key, scope.end) in heads {
        assert IsHead(ScopesOf(invtree.ar), AtOf(at, key), scope.end, HeadsOf(heads, key)[scope.end]);
        v := invtree.FindUpValue(heads[(key, scope.end)], scope, AtOf(at, key));
      }
    }

    /** Index of the innermost definition covering the step, where the way up to the outer ones begins. */
    method MatchRange(step: int, key: K) returns (ai: int)
      requires Valid()
      ensures if ai == -1 then forall c | c in Contents(key) :: !c.Covers(step)
              else At(ScopesOf(invtree.ar), AtOf(at, key), ai)
                   && Innermost(Contents(key).Keys, step, invtree.ar[ai].scope)
    {
      assert TreeOf(invtree.ar, owner, at, heads, key);
      ghost var a := AtOf(at, key);
      match UpperBound(HeadsOf(heads, key), step)
      case Found(e) =>
        CoversFromHead(ScopesOf(invtree.ar), LinksOf(invtree.ar), a, HeadsOf(heads, key), step, e);
        ai := invtree.First(heads[(key, e)], step, a);
      case NoEnd =>
        CoversFromNone(ScopesOf(invtree.ar), LinksOf(invtree.ar), a, HeadsOf(heads, key), step);
        ai := -1;
    }
  }
}
