/** From merged states to the conditions of the parser theorems. */
module TableFacts {
  import opened Grammar
  import opened FirstSets
  import opened Tables
  import opened FollowSets
  import opened Items
  import opened Closure
  import opened States
  import opened Lalr
  import opened LalrProperties

  ghost function CoresMap(m: Merge): map<nat, set<Core>> {
    map n | n in m.states :: CoresOf(m.states[n])
  }

  ghost function LooksAt(inv: seq<set<nat>>, s: set<Item>, c: Core): set<nat> {
    set i, a | i in s && CoreOf(i) == c && i.follow < |inv| && a in inv[i.follow] :: a
  }

  ghost function LooksMap(m: Merge): Lookaheads {
    map n | n in m.states :: map c | c in CoresOf(m.states[n]) :: LooksAt(m.inv, m.states[n], c)
  }

  lemma {:induction false} HasItemIsLook(m: Merge, n: nat, c: Core, a: nat)
    ensures HasItem(LooksMap(m), n, c, a) <==> n in m.states && HasLook(m.inv, m.states[n], c, a)
  {
    if n in m.states && HasLook(m.inv, m.states[n], c, a) {
      var i :| i in m.states[n] && CoreOf(i) == c && LookIn(m.inv, i, a);
      assert c in CoresOf(m.states[n]) && a in LooksAt(m.inv, m.states[n], c);
    }
    if HasItem(LooksMap(m), n, c, a) {
      var i :| i in m.states[n] && CoreOf(i) == c && i.follow < |m.inv| && a in m.inv[i.follow];
      assert LookIn(m.inv, i, a);
    }
  }

  lemma {:induction false} CoresKnown(g: Productions, nofTerminals: nat, m: Merge, n: nat)
    requires MergeOk(g, nofTerminals, m) && n in m.states
    ensures CoresInRange(g, CoresOf(m.states[n])) && FollowsKnown(m.inv, m.states[n])
  {
    StateCores(g, nofTerminals, m, n);
    assert m.a0.states[n - 1] in m.a0.states;
    assert KnownState(false, g, m.inv0, m.a0.states[n - 1]);
    assert StateMerged(m.inv0, m.a0.numbers, m.a1.numbers.Keys, m.inv, n, m.states[n]);
  }

  // ---------------------------------------------------------------- transitions

  lemma {:induction false} TransitionOfGoto(g: Productions, nofTerminals: nat, m: Merge, n: nat, x: Symbol, k: nat)
    requires MergeOk(g, nofTerminals, m) && GotoNumber(g, m, n, x, k)
    ensures Transition(g, CoresMap(m), n, x, k)
  {
    StatesTotal(g, nofTerminals, m, n - 1);
    StatesTotal(g, nofTerminals, m, k - 1);
    StateCores(g, nofTerminals, m, n);
    StateCores(g, nofTerminals, m, k);
    var s, t := m.a0.states[n - 1], m.a0.states[k - 1];
    KernelOfGoto(g, m, s, x, t);
    KernelOfStart(g, nofTerminals, m);
    forall c | c in CoresOf(t) && c.pos > 0 ensures Core(c.prod, c.pos - 1) in CoresOf(s)
        && DotBefore(g, Core(c.prod, c.pos - 1), x) {
      assert c in KernelOf(CoresOf(t));
      var i :| i in s && DotBefore(g, CoreOf(i), x) && c == Core(i.prod, i.pos + 1);
      assert CoreOf(i) in CoresOf(s);
    }
  }

  /** The kernel-keyed map from calculateLalr1TransitionItemGotoMap. */
  type GotoMap = map<set<Core>, nat>

  ghost predicate GotoMapOk(m: Merge, gm: GotoMap) {
    forall n {:trigger KernelOf(CoresOf(m.states[n]))} | n in m.states ::
        KernelOf(CoresOf(m.states[n])) in gm && gm[KernelOf(CoresOf(m.states[n]))] == n
  }

  /** The kernel a state leads to over x. */
  ghost function SuccessorCores(g: Productions, s: set<Item>, x: Symbol): set<Core> {
    set i | i in s && DotBefore(g, CoreOf(i), x) :: Advance(CoreOf(i))
  }

  lemma {:induction false} SuccessorCoresAreGoto(g: Productions, s: set<Item>, t: set<Item>, x: Symbol)
    requires CoresOf(s) == CoresOf(t)
    ensures SuccessorCores(g, s, x) == CoresOf(GotoItems(g, t, x))
  {
    forall c | c in SuccessorCores(g, s, x) ensures c in CoresOf(GotoItems(g, t, x)) {
      var i :| i in s && DotBefore(g, CoreOf(i), x) && c == Advance(CoreOf(i));
      assert CoreOf(i) in CoresOf(t);
      var j :| j in t && CoreOf(j) == CoreOf(i);
      assert Item(j.prod, j.pos + 1, j.follow) in GotoItems(g, t, x);
    }
    forall c | c in CoresOf(GotoItems(g, t, x)) ensures c in SuccessorCores(g, s, x) {
      var j :| j in t && DotBefore(g, CoreOf(j), x) && c == Core(j.prod, j.pos + 1);
      assert CoreOf(j) in CoresOf(s);
      var i :| i in s && CoreOf(i) == CoreOf(j);
    }
  }

  /** The LR(0) goto of a merged state, by number. */
  lemma {:induction false} Lr0Goto(g: Productions, nofTerminals: nat, m: Merge, n: nat, x: Symbol) returns (k: nat)
    requires MergeOk(g, nofTerminals, m) && n in m.states && x in GotoSymbols(g, m.states[n])
    ensures GotoNumber(g, m, n, x, k)
  {
    StateCores(g, nofTerminals, m, n);
    var s := m.a0.states[n - 1];
    assert s in m.a0.states;
    GotoNotEmpty(g, m.states[n], x);
    GotoCores(g, m.states[n], s, x);
    var t := GotoOf(false, g, m.inv0, m.nodes, m.a0.states, s, x);
    var i :| 0 <= i < |m.a0.states| && m.a0.states[i] == t;
    k := i + 1;
  }

  lemma {:induction false} KernelOfSuccessor(g: Productions, nofTerminals: nat, m: Merge, n: nat, x: Symbol, k: nat)
    requires MergeOk(g, nofTerminals, m) && n in m.states && GotoNumber(g, m, n, x, k)
    ensures k in m.states && KernelOf(CoresOf(m.states[k])) == SuccessorCores(g, m.states[n], x)
  {
    StateCores(g, nofTerminals, m, n);
    StatesTotal(g, nofTerminals, m, k - 1);
    StateCores(g, nofTerminals, m, k);
    KernelOfGoto(g, m, m.a0.states[n - 1], x, m.a0.states[k - 1]);
    SuccessorCoresAreGoto(g, m.states[n], m.a0.states[n - 1], x);
  }

  /** The kernel-keyed lookup always succeeds and yields the LR(0) goto. */
  lemma {:induction false} ShiftTarget(g: Productions, nofTerminals: nat, m: Merge, gm: GotoMap, n: nat, x: Symbol)
    requires MergeOk(g, nofTerminals, m) && GotoMapOk(m, gm) && n in m.states && x in GotoSymbols(g, m.states[n])
    ensures SuccessorCores(g, m.states[n], x) in gm
    ensures GotoNumber(g, m, n, x, gm[SuccessorCores(g, m.states[n], x)])
  {
    var k := Lr0Goto(g, nofTerminals, m, n, x);
    KernelOfSuccessor(g, nofTerminals, m, n, x, k);
  }

  // ---------------------------------------------------------------- fronts

  lemma {:induction false} FrontExpected(g: Productions, nofTerminals: nat, m: Merge, n: nat, p: nat)
    requires MergeOk(g, nofTerminals, m) && n in m.states && Core(p, 0) in CoresOf(m.states[n])
    ensures Expected(g, CoresMap(m), n, p)
  {
    StateCores(g, nofTerminals, m, n);
    var t := m.a0.states[n - 1];
    var ts := START;
    if n > 1 {
      var s, x := Origin(g, nofTerminals, m, n - 1);
      ts := GotoItems(g, s, x);
    }
    StateClosureCores(false, g, m.inv0, m.nodes, ts, t);
    if p == 0 {
      StartInKernel(g, nofTerminals, ts, t, Core(0, 0));
    } else {
      assert Core(p, 0) !in CoresOf(ts);
      ClosureAddsFronts(g, CoresOf(ts), CoresOf(t), Core(p, 0));
    }
  }

  // ---------------------------------------------------------------- items of one state spell the same

  lemma {:induction false} SamePosSamePrefix(g: Productions, nofTerminals: nat, m: Merge, k: nat, c: Core, d: Core)
    requires MergeOk(g, nofTerminals, m) && k < |m.a0.states|
    requires c in CoresOf(m.a0.states[k]) && d in CoresOf(m.a0.states[k]) && c.pos == d.pos
    ensures InRange(g, c) && InRange(g, d) && g[c.prod].right[..c.pos] == g[d.prod].right[..d.pos]
    decreases k
  {
    StateInRange(g, nofTerminals, m, k);
    if c.pos > 0 {
      var j, x := OriginOf(g, nofTerminals, m, k, c);
      PredecessorCore(g, m, m.a0.states[j], x, m.a0.states[k], c);
      PredecessorCore(g, m, m.a0.states[j], x, m.a0.states[k], d);
      SamePosSamePrefix(g, nofTerminals, m, j, Core(c.prod, c.pos - 1), Core(d.prod, d.pos - 1));
      PrefixSnoc(g[c.prod].right, g[d.prod].right, c.pos);
    }
  }

  lemma {:induction false} PrefixSnoc(a: seq<Symbol>, b: seq<Symbol>, n: nat)
    requires 0 < n <= |a| && n <= |b| && a[..n - 1] == b[..n - 1] && a[n - 1] == b[n - 1]
    ensures a[..n] == b[..n]
  {
    assert a[..n] == a[..n - 1] + [a[n - 1]];
    assert b[..n] == b[..n - 1] + [b[n - 1]];
  }

  lemma {:induction false} StateInRange(g: Productions, nofTerminals: nat, m: Merge, k: nat)
    requires MergeOk(g, nofTerminals, m) && k < |m.a0.states|
    ensures CoresInRange(g, CoresOf(m.a0.states[k]))
  {
    assert m.a0.states[k] in m.a0.states && KnownState(false, g, m.inv0, m.a0.states[k]);
  }

  /** A state with something left of a dot was reached from an earlier one. */
  lemma {:induction false} OriginOf(g: Productions, nofTerminals: nat, m: Merge, k: nat, c: Core)
    returns (j: nat, x: Symbol)
    requires MergeOk(g, nofTerminals, m) && k < |m.a0.states| && c in CoresOf(m.a0.states[k]) && c.pos > 0
    ensures j < k && IsGoto(false, g, m.inv0, m.nodes, m.a0.states[j], x, m.a0.states[k])
  {
    KernelOfStart(g, nofTerminals, m);
    assert c in KernelOf(CoresOf(m.a0.states[k]));
    assert HasOrigin(false, g, m.inv0, m.nodes, m.a0.states, k);
    var i, y :| 0 <= i < k && IsGoto(false, g, m.inv0, m.nodes, m.a0.states[i], y, m.a0.states[k]);
    j, x := i, y;
  }

  lemma {:induction false} PredecessorCore(g: Productions, m: Merge, s: set<Item>, x: Symbol, t: set<Item>, c: Core)
    requires IsGoto(false, g, m.inv0, m.nodes, s, x, t) && c in CoresOf(t) && c.pos > 0
    ensures Core(c.prod, c.pos - 1) in CoresOf(s) && DotBefore(g, Core(c.prod, c.pos - 1), x)
  {
    KernelOfGoto(g, m, s, x, t);
    assert c in KernelOf(CoresOf(t));
    var i :| i in s && DotBefore(g, CoreOf(i), x) && c == Core(i.prod, i.pos + 1);
    assert CoreOf(i) in CoresOf(s);
  }

  /** All items of a state with something left of the dot have the same symbol there. */
  lemma {:induction false} SameSymbolBefore(g: Productions, nofTerminals: nat, m: Merge, n: nat, c: Core, d: Core)
    requires MergeOk(g, nofTerminals, m) && n in m.states && c in CoresOf(m.states[n]) && d in CoresOf(m.states[n])
        && c.pos > 0 && d.pos > 0
    ensures InRange(g, c) && InRange(g, d) && g[c.prod].right[c.pos - 1] == g[d.prod].right[d.pos - 1]
  {
    StateCores(g, nofTerminals, m, n);
    StateInRange(g, nofTerminals, m, n - 1);
    var j, x := OriginOf(g, nofTerminals, m, n - 1, c);
    PredecessorCore(g, m, m.a0.states[j], x, m.a0.states[n - 1], c);
    PredecessorCore(g, m, m.a0.states[j], x, m.a0.states[n - 1], d);
  }

  /** The start item begins in state 1 only. */
  lemma {:induction false} StartItemFirst(g: Productions, nofTerminals: nat, m: Merge, k: nat)
    requires MergeOk(g, nofTerminals, m) && k < |m.a0.states| && Core(0, 0) in CoresOf(m.a0.states[k])
    ensures k == 0
  {
    if k > 0 {
      var s, x := Origin(g, nofTerminals, m, k);
      StateClosureCores(false, g, m.inv0, m.nodes, GotoItems(g, s, x), m.a0.states[k]);
      StartInKernel(g, nofTerminals, GotoItems(g, s, x), m.a0.states[k], Core(0, 0));
    }
  }

  /** Two complete items of a state with heads, lengths and priorities alike belong to the same production. */
  lemma {:induction false} CompleteItemsDiffer(g: Productions, nofTerminals: nat, m: Merge, n: nat, p: nat, q: nat)
    requires MergeOk(g, nofTerminals, m) && n in m.states && p < |g| && q < |g|
    requires Core(p, |g[p].right|) in CoresOf(m.states[n]) && Core(q, |g[q].right|) in CoresOf(m.states[n])
    requires g[p].left == g[q].left && |g[p].right| == |g[q].right| && g[p].priority == g[q].priority
    ensures p == q
  {
    StateCores(g, nofTerminals, m, n);
    SamePosSamePrefix(g, nofTerminals, m, n - 1, Core(p, |g[p].right|), Core(q, |g[q].right|));
    assert g[p].right[..|g[p].right|] == g[p].right && g[q].right[..|g[q].right|] == g[q].right;
    assert SameRule(g[p], g[q]) && SameRule(g[q], g[p]);
  }

  // ---------------------------------------------------------------- what can follow, by trees

  lemma {:induction false} FrontierPositive(g: Productions, nofTerminals: nat, t: Tree, a: nat)
    requires WellFormed(g, nofTerminals) && Valid(g, t) && SymbolOk(g, nofTerminals, Root(g, t)) && T(a) in Frontier(t)
    ensures a > 0
    decreases t, 1, 0
  {
    if t.Node? {
      forall i | 0 <= i < |t.kids| ensures SymbolOk(g, nofTerminals, Root(g, t.kids[i])) {
        assert Roots(g, t.kids)[i] == g[t.prod].right[i];
      }
      FrontierAllPositive(g, nofTerminals, t.kids, a);
    }
  }

  lemma {:induction false} FrontierAllPositive(g: Productions, nofTerminals: nat, ts: seq<Tree>, a: nat)
    requires WellFormed(g, nofTerminals) && ValidAll(g, ts)
        && (forall i :: 0 <= i < |ts| ==> SymbolOk(g, nofTerminals, Root(g, ts[i])))
    requires T(a) in FrontierAll(ts)
    ensures a > 0
    decreases ts, 0, |ts|
  {
    assert ts[0] in ts;
    assert ValidAll(g, ts[1..]) by { forall t | t in ts[1..] ensures Valid(g, t) { assert t in ts; } }
    if T(a) in Frontier(ts[0]) {
      FrontierPositive(g, nofTerminals, ts[0], a);
    } else {
      FrontierAllPositive(g, nofTerminals, ts[1..], a);
    }
  }

  lemma {:induction false} ForestOffers(g: Productions, nofTerminals: nat, c: Core, ts: seq<Tree>, a: nat, b: nat)
    requires WellFormed(g, nofTerminals) && c.prod < |g| && c.pos < |g[c.prod].right|
    requires Roots(g, ts) == g[c.prod].right[c.pos + 1..] && ForestStartsWith(g, ts, a, b)
    ensures (b != 0 && FirstSeq(g, g[c.prod].right[c.pos + 1..], b))
        || (b == a && NullableSeq(g, g[c.prod].right[c.pos + 1..]))
  {
    if FrontierAll(ts) == [] {
      ForestNullable(g, ts);
    } else {
      forall i | 0 <= i < |ts| ensures SymbolOk(g, nofTerminals, Root(g, ts[i])) {
        assert Roots(g, ts)[i] == g[c.prod].right[c.pos + 1 + i];
      }
      FrontierAllPositive(g, nofTerminals, ts, b);
      ForestFirst(g, ts, b);
    }
  }

  lemma {:induction false} ClosureFollowsHolds(g: Productions, nofTerminals: nat, m: Merge, n: nat, c: Core, a: nat,
                                               q: nat, ts: seq<Tree>, b: nat)
    requires MergeOk(g, nofTerminals, m)
    ensures ClosureFollows(g, LooksMap(m), n, c, a, q, ts, b)
  {
    HasItemIsLook(m, n, c, a);
    if HasItem(LooksMap(m), n, c, a) && q < |g| && DotBefore(g, c, N(g[q].left))
       && Roots(g, ts) == g[c.prod].right[c.pos + 1..] && ForestStartsWith(g, ts, a, b) {
      ForestOffers(g, nofTerminals, c, ts, a, b);
      MergedClosure(g, nofTerminals, m, n, c, a, q, b);
      HasItemIsLook(m, n, Core(q, 0), b);
    }
  }
}
