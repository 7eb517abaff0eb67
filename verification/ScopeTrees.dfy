/** The tree displaying the hierarchy of the defined scopes, built from the uplink chains. */
module ScopeTrees {
  import opened Guards
  import opened Scopes
  import opened ScopeForest
  import opened InvTree
  import opened ScopedMaps
  import Trees

  const ROOT: Scope := Scope.Scope(0, MAX_STEP)

  datatype TreeNode<V> = TreeNode(scope: Scope, value: V)

  /** Every scope the constructor makes lies inside the root scope. */
  ghost predicate InsideRoot(S: set<Scope>) {
    forall s | s in S :: ROOT.Contains(s)
  }

  /** The node of a scope: its number, the scope and value of its item, and its parent the node of the innermost
      enclosing scope. */
  ghost predicate NodeOk<V>(items: seq<TreeNode<V>>, place: seq<Trees.Place>, idx: map<Scope, nat>,
                            defs: map<Scope, V>, s: Scope)
    requires |place| == |items|
  {
    && s in idx && 0 < idx[s] <= |items| && items[idx[s] - 1].scope == s
    && (s != ROOT ==> s in defs && items[idx[s] - 1].value == defs[s]
                      && exists p :: p in idx && Parent(defs.Keys + {ROOT}, s, p) && place[idx[s] - 1].parent == idx[p])
  }

  /** The tree holds the scopes of C and the root, and nothing else; with a scope it holds those around it. */
  ghost predicate Built<V>(items: seq<TreeNode<V>>, place: seq<Trees.Place>, idx: map<Scope, nat>, defs: map<Scope, V>,
                           C: set<Scope>, nullval: V) {
    forall z: int {:trigger Look(z)} :: Look(z) ==> BuiltParts(items, place, idx, defs, C, nullval)
  }

  ghost predicate BuiltParts<V>(items: seq<TreeNode<V>>, place: seq<Trees.Place>, idx: map<Scope, nat>,
                                defs: map<Scope, V>, C: set<Scope>, nullval: V) {
    && |place| == |items| > 0 && C <= defs.Keys && idx.Keys == C + {ROOT} && idx[ROOT] == 1
    && (forall s {:trigger NodeOk(items, place, idx, defs, s)} | s in idx :: NodeOk(items, place, idx, defs, s))
    && ItemsKnown(items, idx) && UpClosed(defs.Keys, C) && RootValue(items, defs, C, nullval)
  }

  lemma {:induction false} BuiltStart<V>(defs: map<Scope, V>, nullval: V, place: seq<Trees.Place>)
    requires |place| == 1
    ensures Built([TreeNode(ROOT, nullval)], place, map[ROOT := 1], defs, {}, nullval)
  {
    assert NodeOk([TreeNode(ROOT, nullval)], place, map[ROOT := 1], defs, ROOT);
  }

  /** A new scope below the node of its innermost enclosing one. */
  lemma {:induction false} BuiltChild<V>(items: seq<TreeNode<V>>, place: seq<Trees.Place>, idx: map<Scope, nat>,
                                         defs: map<Scope, V>, C: set<Scope>, nullval: V, s: Scope, p: Scope, pos: nat)
    requires Built(items, place, idx, defs, C, nullval) && s in defs && s !in idx && p in idx
        && Parent(defs.Keys + {ROOT}, s, p)
    requires forall t | t in defs && Encloses(t, s) :: t in C
    ensures Built(items + [TreeNode(s, defs[s])], place + [Trees.Place(idx[p], pos)], idx[s := |items| + 1], defs,
        C + {s}, nullval)
  {
    assert Look(0);
    var items', place', idx' := items + [TreeNode(s, defs[s])], place + [Trees.Place(idx[p], pos)],
        idx[s := |items| + 1];
    forall t | t in idx' ensures NodeOk(items', place', idx', defs, t) {
      if t == s {
        NewNodeOk(items, place, idx, defs, s, p, pos);
      } else {
        assert NodeOk(items, place, idx, defs, t);
        NodeKept(items, place, idx, defs, t, s, TreeNode(s, defs[s]), Trees.Place(idx[p], pos));
      }
    }
    ItemsMore(items, idx, s, TreeNode(s, defs[s]));
    UpClosedMore(defs.Keys, C, s);
    RootItem(items, C, s, TreeNode(s, defs[s]), defs, nullval);
  }

  lemma {:induction false} NewNodeOk<V>(items: seq<TreeNode<V>>, place: seq<Trees.Place>, idx: map<Scope, nat>,
                                        defs: map<Scope, V>, s: Scope, p: Scope, pos: nat)
    requires |place| == |items| && s in defs && s !in idx && p in idx && Parent(defs.Keys + {ROOT}, s, p)
    ensures NodeOk(items + [TreeNode(s, defs[s])], place + [Trees.Place(idx[p], pos)], idx[s := |items| + 1], defs, s)
  {
    var place', idx' := place + [Trees.Place(idx[p], pos)], idx[s := |items| + 1];
    assert p in idx' && idx'[p] == idx[p] && place'[idx'[s] - 1].parent == idx'[p];
  }

  ghost predicate ItemsKnown<V>(items: seq<TreeNode<V>>, idx: map<Scope, nat>) {
    forall c {:trigger items[c]} :: 0 <= c < |items| ==> items[c].scope in idx && idx[items[c].scope] == c + 1
  }

  lemma {:induction false} ItemsMore<V>(items: seq<TreeNode<V>>, idx: map<Scope, nat>, s: Scope, node: TreeNode<V>)
    requires ItemsKnown(items, idx) && s !in idx && node.scope == s
    ensures ItemsKnown(items + [node], idx[s := |items| + 1])
  {
    var items', idx' := items + [node], idx[s := |items| + 1];
    forall c | 0 <= c < |items'| ensures items'[c].scope in idx' && idx'[items'[c].scope] == c + 1 {
      if c < |items| { assert items'[c] == items[c]; }
    }
  }

  lemma {:induction false} UpClosedMore(S: set<Scope>, C: set<Scope>, s: Scope)
    requires UpClosed(S, C) && forall t | t in S && Encloses(t, s) :: t in C
    ensures UpClosed(S, C + {s})
  {
  }

  ghost predicate RootValue<V>(items: seq<TreeNode<V>>, defs: map<Scope, V>, C: set<Scope>, nullval: V)
    requires |items| > 0 && C <= defs.Keys
  {
    items[0].value == if ROOT in C then defs[ROOT] else nullval
  }

  lemma {:induction false} RootItem<V>(items: seq<TreeNode<V>>, C: set<Scope>, s: Scope, node: TreeNode<V>,
                                       defs: map<Scope, V>, nullval: V)
    requires |items| > 0 && C <= defs.Keys && RootValue(items, defs, C, nullval) && s != ROOT && s in defs
    ensures C + {s} <= defs.Keys && RootValue(items + [node], defs, C + {s}, nullval)
  {
  }

  lemma {:induction false} NodeKept<V>(items: seq<TreeNode<V>>, place: seq<Trees.Place>, idx: map<Scope, nat>,
                                       defs: map<Scope, V>, t: Scope, s: Scope, node: TreeNode<V>, at: Trees.Place)
    requires |place| == |items| && NodeOk(items, place, idx, defs, t) && s !in idx
    ensures NodeOk(items + [node], place + [at], idx[s := |items| + 1], defs, t)
  {
    var items', place', idx' := items + [node], place + [at], idx[s := |items| + 1];
    assert idx'[t] == idx[t] && items'[idx[t] - 1] == items[idx[t] - 1] && place'[idx[t] - 1] == place[idx[t] - 1];
    if t != ROOT {
      var q :| q in idx && Parent(defs.Keys + {ROOT}, t, q) && place[idx[t] - 1].parent == idx[q];
      assert q in idx' && idx'[q] == idx[q];
    }
  }

  /** The root gets its value when its own definition is met. */
  lemma {:induction false} BuiltRoot<V>(items: seq<TreeNode<V>>, place: seq<Trees.Place>, idx: map<Scope, nat>,
                                        defs: map<Scope, V>, C: set<Scope>, nullval: V)
    requires |items| > 0 && Built(items, place, idx, defs, C, nullval) && ROOT in defs && InsideRoot(defs.Keys)
    ensures Built(items[0 := items[0].(value := defs[ROOT])], place, idx, defs, C + {ROOT}, nullval)
  {
    assert Look(0);
    var items' := items[0 := items[0].(value := defs[ROOT])];
    forall t | t in idx ensures NodeOk(items', place, idx, defs, t) {
      assert NodeOk(items, place, idx, defs, t) && NodeOk(items, place, idx, defs, ROOT);
    }
  }

  /** With a scope the ones around it are in C. */
  ghost predicate UpClosed(S: set<Scope>, C: set<Scope>) {
    forall s, t | s in C && t in S && Encloses(t, s) :: t in C
  }

  // ---------------------------------------------------------------- walking up to what is known

  /** The indices follow the uplinks. */
  ghost predicate IsChain(ss: seq<Scope>, up: seq<int>, at: map<Scope, int>, stk: seq<int>)
    requires |up| == |ss|
  {
    forall k {:trigger ChainElem(ss, up, at, stk, k)} :: 0 <= k < |stk| ==> ChainElem(ss, up, at, stk, k)
  }

  ghost predicate ChainElem(ss: seq<Scope>, up: seq<int>, at: map<Scope, int>, stk: seq<int>, k: int)
    requires |up| == |ss| && 0 <= k < |stk|
  {
    At(ss, at, stk[k]) && (k > 0 ==> 0 <= stk[k - 1] < |ss| && up[stk[k - 1]] == stk[k])
  }

  ghost predicate AllNew(ss: seq<Scope>, known: set<Scope>, stk: seq<int>) {
    forall k :: 0 <= k < |stk| ==> 0 <= stk[k] < |ss| && ss[stk[k]] !in known
  }

  ghost predicate OnStack(ss: seq<Scope>, stk: seq<int>, c: Scope) {
    exists k :: 0 <= k < |stk| && 0 <= stk[k] < |ss| && ss[stk[k]] == c
  }

  lemma {:induction false} OnStackSnoc(ss: seq<Scope>, stk: seq<int>, i: int, c: Scope)
    requires 0 <= i < |ss|
    ensures OnStack(ss, stk + [i], c) <==> OnStack(ss, stk, c) || ss[i] == c
  {
    var stk' := stk + [i];
    assert stk'[|stk|] == i;
    if k :| 0 <= k < |stk| && 0 <= stk[k] < |ss| && ss[stk[k]] == c { assert stk'[k] == stk[k]; }
  }

  /** The scopes of stk, inner to outer, are new; what contains the head is among them or on the chain from ai on. */
  ghost predicate Climbed(ss: seq<Scope>, up: seq<int>, at: map<Scope, int>, known: set<Scope>, h: Scope,
                          stk: seq<int>, ai: int) {
    forall z: int {:trigger Look(z)} :: Look(z) ==> ClimbedParts(ss, up, at, known, h, stk, ai)
  }

  ghost predicate ClimbedParts(ss: seq<Scope>, up: seq<int>, at: map<Scope, int>, known: set<Scope>, h: Scope,
                               stk: seq<int>, ai: int) {
    && Linked(ss, up, at) && (ai == -1 || At(ss, at, ai))
    && IsChain(ss, up, at, stk) && AllNew(ss, known, stk)
    && (stk != [] ==> up[stk[|stk| - 1]] == ai)
    && (forall c {:trigger OnStack(ss, stk, c)} | c in at && c.Contains(h) ::
        OnStack(ss, stk, c) || (ai >= 0 && c.Contains(ss[ai])))
  }

  lemma {:induction false} ClimbedNext(ss: seq<Scope>, up: seq<int>, at: map<Scope, int>, known: set<Scope>, h: Scope,
                                       stk: seq<int>, ai: int)
    requires Climbed(ss, up, at, known, h, stk, ai) && 0 <= ai < |ss| == |up| && ss[ai] !in known
    ensures Climbed(ss, up, at, known, h, stk + [ai], up[ai])
    ensures (up[ai] == -1 || At(ss, at, up[ai])) && ChainLength(ss, at, up[ai]) < ChainLength(ss, at, ai)
  {
    assert Look(0);
    ChainShrinks(ss, at, ai, if At(ss, at, up[ai]) then up[ai] else -1);
    var stk' := stk + [ai];
    assert Uplink(ss, at, at.Keys, ss[ai], up[ai]);
    forall k | 0 <= k < |stk'| ensures ChainElem(ss, up, at, stk', k) {
      if k < |stk| { assert ChainElem(ss, up, at, stk, k); } else if k > 0 { assert ChainElem(ss, up, at, stk, k - 1); }
    }
    forall c | c in at && c.Contains(h) ensures OnStack(ss, stk', c) || (up[ai] >= 0 && c.Contains(ss[up[ai]])) {
      OnStackSnoc(ss, stk, ai, c);
      assert OnStack(ss, stk, c) || c.Contains(ss[ai]);
    }
  }

  lemma {:induction false} ClimbedStart(ss: seq<Scope>, up: seq<int>, at: map<Scope, int>, known: set<Scope>, i: int)
    requires IsIndex(ss, up, at) && At(ss, at, i)
    ensures Climbed(ss, up, at, known, ss[i], [], i)
  {
  }

  /** All links lead to the innermost enclosing scopes, unfolded only where Look is mentioned. */
  ghost predicate IsIndex(ss: seq<Scope>, up: seq<int>, at: map<Scope, int>) {
    forall z: int {:trigger Look(z)} :: Look(z) ==> Linked(ss, up, at)
  }

  /** The parent, with the root around everything. */
  lemma {:induction false} ParentOf(ss: seq<Scope>, up: seq<int>, at: map<Scope, int>, i: int)
    requires Linked(ss, up, at) && At(ss, at, i) && InsideRoot(at.Keys) && ss[i] != ROOT
    ensures Parent(at.Keys + {ROOT}, ss[i], if up[i] >= 0 then ss[up[i]] else ROOT)
    ensures up[i] >= 0 ==> At(ss, at, up[i]) && Encloses(ss[up[i]], ss[i])
  {
    assert Uplink(ss, at, at.Keys, ss[i], up[i]);
  }

  /** The scopes of stk are still to be put into the tree, the last of them below the node of P. */
  ghost predicate Pending(ss: seq<Scope>, up: seq<int>, at: map<Scope, int>, idx: map<Scope, nat>, C: set<Scope>,
                          h: Scope, stk: seq<int>, P: Scope, ndidx: nat) {
    forall z: int {:trigger Look(z)} :: Look(z) ==> PendingParts(ss, up, at, idx, C, h, stk, P, ndidx)
  }

  ghost predicate PendingParts(ss: seq<Scope>, up: seq<int>, at: map<Scope, int>, idx: map<Scope, nat>, C: set<Scope>,
                               h: Scope, stk: seq<int>, P: Scope, ndidx: nat) {
    && Linked(ss, up, at) && P in idx && idx[P] == ndidx && (P in C || (P == ROOT && ROOT !in at))
    && IsChain(ss, up, at, stk) && AllNew(ss, idx.Keys, stk)
    && (stk != [] ==> Parent(at.Keys + {ROOT}, ss[stk[|stk| - 1]], P))
    && (forall c {:trigger OnStack(ss, stk, c)} | c in at && c.Contains(h) :: OnStack(ss, stk, c) || c in C)
  }

  lemma {:induction false} PendingStart(ss: seq<Scope>, up: seq<int>, at: map<Scope, int>, idx: map<Scope, nat>,
                                        C: set<Scope>, h: Scope, stk: seq<int>, ai: int, P: Scope)
    requires Climbed(ss, up, at, idx.Keys, h, stk, ai) && InsideRoot(at.Keys) && ROOT in idx && h in at
        && UpClosed(at.Keys, C)
    requires if ai >= 0 then ai < |ss| && P == ss[ai] && P in idx && P in C else P == ROOT
    ensures Pending(ss, up, at, idx, C, h, stk, P, idx[P])
  {
    assert Look(0);
    if stk != [] {
      assert ChainElem(ss, up, at, stk, |stk| - 1);
      ParentOf(ss, up, at, stk[|stk| - 1]);
    }
    if ai < 0 { RootNotOnChain(ss, up, at, idx.Keys, h, stk); }
    forall c | c in at && c.Contains(h) ensures OnStack(ss, stk, c) || c in C {
      assert OnStack(ss, stk, c) || (ai >= 0 && c.Contains(P));
      assert ai >= 0 && c.Contains(P) ==> c == P || Encloses(c, P);
    }
  }

  /** A chain walked to its end without meeting the known root does not hold it. */
  lemma {:induction false} RootNotOnChain(ss: seq<Scope>, up: seq<int>, at: map<Scope, int>, known: set<Scope>,
                                          h: Scope, stk: seq<int>)
    requires Climbed(ss, up, at, known, h, stk, -1) && InsideRoot(at.Keys) && ROOT in known && h in at
    ensures ROOT !in at
  {
    assert Look(0);
    assert ROOT.Contains(h);
    assert !OnStack(ss, stk, ROOT);
  }

  lemma {:induction false} PendingTop(ss: seq<Scope>, up: seq<int>, at: map<Scope, int>, idx: map<Scope, nat>,
                                      C: set<Scope>, h: Scope, stk: seq<int>, P: Scope, ndidx: nat)
    requires Pending(ss, up, at, idx, C, h, stk, P, ndidx) && stk != [] && InsideRoot(at.Keys) && UpClosed(at.Keys, C)
    ensures var i := stk[|stk| - 1];
            At(ss, at, i) && ss[i] in at && at[ss[i]] == i && ss[i] !in idx && P in idx && idx[P] == ndidx
                && Parent(at.Keys + {ROOT}, ss[i], P)
            && forall t | t in at && Encloses(t, ss[i]) :: t in C
  {
    assert Look(0);
    var i := stk[|stk| - 1];
    assert ChainElem(ss, up, at, stk, |stk| - 1);
    forall t | t in at && Encloses(t, ss[i]) ensures t in C {
      AboveParent(at.Keys, ss[i], P, t);
      assert P in C ==> t == P || Encloses(t, P);
    }
  }

  lemma {:induction false} AboveParent(S: set<Scope>, s: Scope, p: Scope, t: Scope)
    requires Parent(S + {ROOT}, s, p) && t in S && Encloses(t, s)
    ensures t.Contains(p)
  {
    assert t in S + {ROOT};
  }

  lemma {:induction false} PendingPop(ss: seq<Scope>, up: seq<int>, at: map<Scope, int>, idx: map<Scope, nat>,
                                      C: set<Scope>, h: Scope, stk: seq<int>, P: Scope, n: nat)
    requires stk != [] && P in idx && Pending(ss, up, at, idx, C, h, stk, P, idx[P]) && InsideRoot(at.Keys)
        && ROOT in idx
    requires 0 <= stk[|stk| - 1] < |ss|
    ensures var s := ss[stk[|stk| - 1]]; Pending(ss, up, at, idx[s := n], C + {s}, h, stk[..|stk| - 1], s, n)
  {
    assert Look(0);
    var m := |stk| - 1;
    var s, stk' := ss[stk[m]], stk[..m];
    assert ChainElem(ss, up, at, stk, m);
    if m > 0 {
      assert ChainElem(ss, up, at, stk, m - 1);
      ParentOf(ss, up, at, stk[m - 1]);
    }
    ChainDiffers(ss, up, at, stk);
    forall k | 0 <= k < |stk'| ensures ChainElem(ss, up, at, stk', k) {
      assert ChainElem(ss, up, at, stk, k);
    }
    assert stk == stk' + [stk[m]];
    forall c | c in at && c.Contains(h) ensures OnStack(ss, stk', c) || c in C + {s} {
      OnStackSnoc(ss, stk', stk[m], c);
      assert OnStack(ss, stk, c) || c in C;
    }
  }

  /** The scopes on a chain differ. */
  lemma {:induction false} ChainDiffers(ss: seq<Scope>, up: seq<int>, at: map<Scope, int>, stk: seq<int>)
    requires Linked(ss, up, at) && IsChain(ss, up, at, stk) && stk != [] && AllNew(ss, {}, stk)
    ensures forall k :: 0 <= k < |stk| - 1 ==> Encloses(ss[stk[|stk| - 1]], ss[stk[k]])
    decreases |stk|
  {
    var m := |stk| - 1;
    assert ChainElem(ss, up, at, stk, m);
    if m > 0 {
      assert ChainElem(ss, up, at, stk, m - 1);
      forall k | 0 <= k < m ensures ChainElem(ss, up, at, stk[..m], k) {
        assert ChainElem(ss, up, at, stk, k);
      }
      ChainDiffers(ss, up, at, stk[..m]);
      assert Uplink(ss, at, at.Keys, ss[stk[m - 1]], up[stk[m - 1]]);
      forall k | 0 <= k < m ensures Encloses(ss[stk[m]], ss[stk[k]]) {
        if k < m - 1 { assert stk[..m][k] == stk[k]; }
      }
    }
  }

  lemma {:induction false} BuiltFacts<V>(items: seq<TreeNode<V>>, place: seq<Trees.Place>, idx: map<Scope, nat>,
                                         defs: map<Scope, V>, C: set<Scope>, nullval: V)
    requires Built(items, place, idx, defs, C, nullval)
    ensures ROOT in idx && idx[ROOT] == 1 && idx.Keys == C + {ROOT} && UpClosed(defs.Keys, C) && |items| > 0
  {
    assert Look(0);
  }

  lemma {:induction false} PendingEnd(ss: seq<Scope>, up: seq<int>, at: map<Scope, int>, idx: map<Scope, nat>,
                                      C: set<Scope>, h: Scope, P: Scope, ndidx: nat)
    requires Pending(ss, up, at, idx, C, h, [], P, ndidx)
    ensures forall c | c in at && c.Contains(h) :: c in C
  {
    assert Look(0);
    forall c | c in at && c.Contains(h) ensures c in C {
      assert !OnStack(ss, [], c);
    }
  }

  lemma {:induction false} KnownIndex<V>(items: seq<TreeNode<V>>, place: seq<Trees.Place>, idx: map<Scope, nat>,
                                         defs: map<Scope, V>, C: set<Scope>, nullval: V, s: Scope)
    requires Built(items, place, idx, defs, C, nullval) && s in idx
    ensures 0 < idx[s] <= |items|
  {
    assert Look(0);
    assert NodeOk(items, place, idx, defs, s);
  }

  // ---------------------------------------------------------------- the builder

  ghost function Nodes<V>(ar: seq<Trees.Node<TreeNode<V>>>): seq<TreeNode<V>> {
    Trees.ItemsOf(ar)
  }

  datatype BuildResult = Done | LogicError

  class ScopeHierarchyTreeBuilder<V(==,0)> {
    const tree: Trees.Tree<TreeNode<V>>
    var scope2nodeidx: map<Scope, nat>
    const nullval: V

    ghost predicate Valid(defs: map<Scope, V>, C: set<Scope>)
      reads this, tree
    {
      tree.Valid() && Built(Nodes(tree.ar), tree.place, scope2nodeidx, defs, C, nullval)
    }

    constructor (nullval: V, ghost defs: map<Scope, V>)
      ensures Valid(defs, {}) && fresh(tree) && this.nullval == nullval
    {
      tree := new Trees.Tree<TreeNode<V>>(TreeNode(ROOT, nullval));
      scope2nodeidx := map[ROOT := 1];
      this.nullval := nullval;
      new;
      BuiltStart(defs, nullval, tree.place);
      assert Nodes(tree.ar) == [TreeNode(ROOT, nullval)];
    }

    /** Put the new scopes collected into the tree, outer to inner, beginning below the node of the scope P. */
    method InsertNew(ar: seq<UpValue<V>>, ndidx0: nat, stk0: seq<int>, ghost at: map<Scope, int>, ghost h: Scope,
                     ghost P0: Scope, ghost C: set<Scope>)
      returns (ghost C': set<Scope>)
      requires InsideRoot(at.Keys) && Definitions(ar, at).Keys == at.Keys && Valid(Definitions(ar, at), C)
      requires Pending(ScopesOf(ar), LinksOf(ar), at, scope2nodeidx, C, h, stk0, P0, ndidx0)
      modifies this, tree
      ensures Valid(Definitions(ar, at), C') && C <= C' && forall c | c in at && c.Contains(h) :: c in C'
    {
      ghost var ss, up, defs, P := ScopesOf(ar), LinksOf(ar), Definitions(ar, at), P0;
      C' := C;
      var stk, ndidx := stk0, ndidx0;
      ghost var items, place, idx := Nodes(tree.ar), tree.place, scope2nodeidx;
      while stk != []
        invariant tree.Valid() && items == Nodes(tree.ar) && place == tree.place && idx == scope2nodeidx
            && |tree.ar| == |items|
        invariant Built(items, place, idx, defs, C', nullval) && C <= C'
            && Pending(ss, up, at, idx, C', h, stk, P, ndidx)
        decreases |stk|
      {
        var i := stk[|stk| - 1];
        BuiltFacts(items, place, idx, defs, C', nullval);
        PendingTop(ss, up, at, idx, C', h, stk, P, ndidx);
        KnownIndex(items, place, idx, defs, C', nullval, P);
        ghost var pos, node := |tree.kids[ndidx - 1]|, TreeNode(ss[i], defs[ss[i]]);
        BuiltChild(items, place, idx, defs, C', nullval, ss[i], P, pos);
        var added := tree.AddChild(ndidx, TreeNode(ar[i].scope, ar[i].value));
        PendingPop(ss, up, at, idx, C', h, stk, P, |items| + 1);
        items, place, idx := items + [node], place + [Trees.Place(idx[P], pos)], idx[ss[i] := |items| + 1];
        assert items == Nodes(tree.ar);
        ndidx := added.index;
        scope2nodeidx := scope2nodeidx[ar[i].scope := ndidx];
        C', P := C' + {ss[i]}, ss[i];
        stk := stk[..|stk| - 1];
      }
      PendingEnd(ss, up, at, idx, C', h, P, ndidx);
    }

    /** Put the scopes of a chain into the tree that are not there yet. */
    method Insert(ar: seq<UpValue<V>>, head: int, ghost at: map<Scope, int>, ghost C: set<Scope>)
      returns (r: BuildResult, ghost C': set<Scope>)
      requires IsIndex(ScopesOf(ar), LinksOf(ar), at) && Definitions(ar, at).Keys == at.Keys && InsideRoot(at.Keys)
          && At(ScopesOf(ar), at, head) && Valid(Definitions(ar, at), C)
      modifies this, tree
      ensures r == BuildResult.Done && Valid(Definitions(ar, at), C') && C <= C'
      ensures forall c | c in at && c.Contains(ar[head].scope) :: c in C'
    {
      ghost var ss, up, defs := ScopesOf(ar), LinksOf(ar), Definitions(ar, at);
      C' := C;
      var stk: seq<int> := [];
      var ndidx := 1;
      var ai := head;
      ClimbedStart(ss, up, at, scope2nodeidx.Keys, head);
      while ai >= 0 && ar[ai].scope !in scope2nodeidx
        invariant (ai == -1 || At(ss, at, ai))
        invariant Climbed(ss, up, at, scope2nodeidx.Keys, ss[head], stk, ai)
        invariant C' == C && Valid(defs, C)
        decreases ChainLength(ss, at, ai)
      {
        ClimbedNext(ss, up, at, scope2nodeidx.Keys, ss[head], stk, ai);
        stk := stk + [ai];
        ai := ar[ai].prev;
      }
      if ai >= 0 {
        ndidx := scope2nodeidx[ar[ai].scope];
        KnownNode(Nodes(tree.ar), tree.place, scope2nodeidx, defs, C, nullval, ar[ai].scope);
        assert ar[ai].value == defs[ar[ai].scope] && tree.ar[ndidx - 1].item == Nodes(tree.ar)[ndidx - 1];
        if tree.ar[ndidx - 1].item.value != ar[ai].value {
          if ndidx == 1 && tree.ar[ndidx - 1].item.value == nullval {
            tree.SetItem(1, tree.ar[0].item.(value := ar[ai].value));
          } else {
            return BuildResult.LogicError, C';
          }
        }
        C' := C + {ar[ai].scope};
      }
      ghost var P := if ai >= 0 then ss[ai] else ROOT;
      BuiltFacts(Nodes(tree.ar), tree.place, scope2nodeidx, defs, C', nullval);
      PendingStart(ss, up, at, scope2nodeidx, C', ss[head], stk, ai, P);
      C' := InsertNew(ar, ndidx, stk, at, ss[head], P, C');
      r := BuildResult.Done;
    }
  }

  /** A scope that is in the tree has its value there, except for the root before its own definition has been met. */
  lemma {:induction false} KnownNode<V>(items: seq<TreeNode<V>>, place: seq<Trees.Place>, idx: map<Scope, nat>,
                                        defs: map<Scope, V>, C: set<Scope>, nullval: V, s: Scope)
    requires Built(items, place, idx, defs, C, nullval) && s in idx && s in defs && InsideRoot(defs.Keys)
    ensures 0 < idx[s] <= |items|
    ensures if items[idx[s] - 1].value == defs[s] then Built(items, place, idx, defs, C + {s}, nullval)
            else idx[s] == 1 && items[0].value == nullval
                 && Built(items[0 := items[0].(value := defs[s])], place, idx, defs, C + {s}, nullval)
  {
    assert Look(0);
    assert NodeOk(items, place, idx, defs, s) && NodeOk(items, place, idx, defs, ROOT);
    if s == ROOT {
      BuiltRoot(items, place, idx, defs, C, nullval);
      assert items[0].value == defs[s] ==> items[0 := items[0].(value := defs[ROOT])] == items;
    } else {
      assert s in C && C + {s} == C;
    }
  }

  // ---------------------------------------------------------------- the tree of a map

  /** The tree holds every defined scope exactly once, below the node of the innermost defined scope around it or else
      below the root. */
  ghost predicate IsHierarchyTree<V>(items: seq<TreeNode<V>>, place: seq<Trees.Place>, idx: map<Scope, nat>,
                                     defs: map<Scope, V>, nullval: V) {
    && |place| == |items| > 0 && idx.Keys == defs.Keys + {ROOT} && idx[ROOT] == 1
    && items[0].scope == Scope.Scope(0, 0x7fff_ffff)
    && (forall c {:trigger items[c]} :: 0 <= c < |items| ==> items[c].scope in idx && idx[items[c].scope] == c + 1)
    && (forall s {:trigger NodeOk(items, place, idx, defs, s)} | s in idx :: NodeOk(items, place, idx, defs, s))
    && items[0].value == if ROOT in defs then defs[ROOT] else nullval
  }

  lemma {:induction false} AllBuilt<V>(items: seq<TreeNode<V>>, place: seq<Trees.Place>, idx: map<Scope, nat>,
                                       defs: map<Scope, V>, C: set<Scope>, nullval: V)
    requires Built(items, place, idx, defs, C, nullval) && C == defs.Keys
    ensures IsHierarchyTree(items, place, idx, defs, nullval)
  {
    assert Look(0);
    assert NodeOk(items, place, idx, defs, ROOT);
  }

  /** The scopes that end up to e are in C. */
  ghost predicate DoneUpTo(at: map<Scope, int>, C: set<Scope>, e: int) {
    forall s | s in at && s.end <= e :: s in C
  }

  /** The scopes of the chains from the heads with the next end on. */
  lemma {:induction false} NextDone(ss: seq<Scope>, up: seq<int>, at: map<Scope, int>, heads: map<int, int>,
                                    C: set<Scope>, b: int, e: int, C': set<Scope>)
    requires Forest(ss, up, at, heads) && DoneUpTo(at, C, b) && LeastEnd(heads, b, e) && C <= C' && At(ss, at, heads[e])
    requires forall c | c in at && c.Contains(ss[heads[e]]) :: c in C'
    ensures DoneUpTo(at, C', e)
  {
    assert IsHead(ss, at, e, heads[e]);
    forall s | s in at && s.end <= e ensures s in C' {
      assert s.end in heads;
    }
  }

  /** The forest of a map, unfolded only where Look is mentioned. */
  ghost predicate Frozen<V>(ar: seq<UpValue<V>>, at: map<Scope, int>, heads: map<int, int>) {
    forall z: int {:trigger Look(z)} :: Look(z) ==> IsForest(ar, at, heads) && InsideRoot(at.Keys)
  }

  lemma {:induction false} FrozenFacts<V>(ar: seq<UpValue<V>>, at: map<Scope, int>, heads: map<int, int>)
    requires Frozen(ar, at, heads)
    ensures IsIndex(ScopesOf(ar), LinksOf(ar), at) && InsideRoot(at.Keys) && Definitions(ar, at).Keys == at.Keys
        && DoneUpTo(at, {}, 0)
  {
    assert Look(0);
    NoneDone(at);
  }

  lemma {:induction false} FrozenHead<V>(ar: seq<UpValue<V>>, at: map<Scope, int>, heads: map<int, int>, e: int)
    requires Frozen(ar, at, heads) && e in heads
    ensures At(ScopesOf(ar), at, heads[e]) && e <= MAX_STEP
  {
    assert Look(0);
    assert IsHead(ScopesOf(ar), at, e, heads[e]);
  }

  lemma {:induction false} FrozenNext<V>(ar: seq<UpValue<V>>, at: map<Scope, int>, heads: map<int, int>, C: set<Scope>,
                                         b: int, e: int, C': set<Scope>)
    requires Frozen(ar, at, heads) && DoneUpTo(at, C, b) && LeastEnd(heads, b, e) && C <= C'
        && At(ScopesOf(ar), at, heads[e])
    requires forall c | c in at && c.Contains(ar[heads[e]].scope) :: c in C'
    ensures DoneUpTo(at, C', e)
  {
    assert Look(0);
    NextDone(ScopesOf(ar), LinksOf(ar), at, heads, C, b, e, C');
  }

  lemma {:induction false} FrozenEnd<V>(ar: seq<UpValue<V>>, at: map<Scope, int>, heads: map<int, int>, C: set<Scope>,
                                        b: int, items: seq<TreeNode<V>>, place: seq<Trees.Place>, idx: map<Scope, nat>,
                                        nullval: V)
    requires Frozen(ar, at, heads) && DoneUpTo(at, C, b) && (forall f | f in heads :: f <= b)
        && Built(items, place, idx, Definitions(ar, at), C, nullval)
    ensures IsHierarchyTree(items, place, idx, Definitions(ar, at), nullval)
  {
    assert Look(0);
    EverythingDone(ScopesOf(ar), at, heads, C, b);
    AllBuilt(items, place, idx, Definitions(ar, at), C, nullval);
  }

  /** The hierarchy of the defined scopes as a tree. */
  method GetTree<V(==,0)>(inst: ScopedInstance<V>) returns (tree: Trees.Tree<TreeNode<V>>, ghost idx: map<Scope, nat>)
    requires inst.Valid() && InsideRoot(inst.Contents().Keys)
    ensures fresh(tree) && tree.Valid() && IsHierarchyTree(Nodes(tree.ar), tree.place, idx, inst.Contents(),
        inst.invtree.nullval)
  {
    tree, idx := BuildTree(inst.invtree.ar, inst.heads, inst.invtree.nullval, inst.at);
  }

  method BuildTree<V(==,0)>(ar: seq<UpValue<V>>, heads: map<int, int>, nullval: V, ghost at: map<Scope, int>)
    returns (tree: Trees.Tree<TreeNode<V>>, ghost idx: map<Scope, nat>)
    requires Frozen(ar, at, heads)
    ensures fresh(tree) && tree.Valid() && IsHierarchyTree(Nodes(tree.ar), tree.place, idx, Definitions(ar, at),
        nullval)
  {
    ghost var defs, C, b := Definitions(ar, at), {}, 0;
    FrozenFacts(ar, at, heads);
    var builder := new ScopeHierarchyTreeBuilder<V>(nullval, defs);
    var mi := UpperBound(heads, 0);
    while mi.Found?
      invariant fresh(builder) && fresh(builder.tree) && builder.nullval == nullval && builder.Valid(defs, C)
      invariant DoneUpTo(at, C, b) && match mi case Found(e) =>
          LeastEnd(heads, b, e) case NoEnd => forall f | f in heads :: f <= b
      decreases MAX_STEP - b
    {
      FrozenHead(ar, at, heads, mi.e);
      ghost var C0 := C;
      var r;
      r, C := builder.Insert(ar, heads[mi.e], at, C);
      FrozenNext(ar, at, heads, C0, b, mi.e, C);
      b := mi.e;
      mi := UpperBound(heads, mi.e);
    }
    tree, idx := builder.tree, builder.scope2nodeidx;
    FrozenEnd(ar, at, heads, C, b, Nodes(tree.ar), tree.place, idx, nullval);
  }

  lemma {:induction false} NoneDone(at: map<Scope, int>)
    requires InsideRoot(at.Keys) && Hierarchical(at.Keys)
    ensures DoneUpTo(at, {}, 0)
  {
    forall s | s in at ensures s.end > 0 {
      assert s.NonEmpty() && ROOT.Contains(s);
    }
  }

  lemma {:induction false} EverythingDone(ss: seq<Scope>, at: map<Scope, int>, heads: map<int, int>, C: set<Scope>,
                                          b: int)
    requires HeadsOk(ss, at, heads) && DoneUpTo(at, C, b) && C <= at.Keys && forall f | f in heads :: f <= b
    ensures C == at.Keys
  {
  }
}
