/** What the merged states guarantee: the facts the tables and the parser theorems rest on. */
module LalrProperties {
  import opened Grammar
  import opened FirstSets
  import opened Tables
  import opened FollowSets
  import opened Items
  import opened Closure
  import opened States
  import opened Lalr

  /** The merged states together with the enumerations they were merged from. */
  datatype Merge = Merge(inv0: seq<set<nat>>, nodes: NodeMap, a0: Assignments, a1: Assignments, inv: seq<set<nat>>,
      states: StateMap)

  ghost predicate MergeOk(g: Productions, nofTerminals: nat, m: Merge) {
    && WellFormed(g, nofTerminals) && SetsOk(nofTerminals, m.inv0) && SetsOk(nofTerminals, m.inv) && m.inv0 <= m.inv
    && NodesOk(g, nofTerminals, m.inv0, m.nodes)
    && Enumerated(false, g, m.inv0, m.nodes, m.a0.states) && Numbering(m.a0.numbers, m.a0.states)
    && Enumerated(true, g, m.inv0, m.nodes, m.a1.states) && Numbering(m.a1.numbers, m.a1.states)
    && MapMerged(m.inv0, m.a0.numbers, m.a1.numbers.Keys, m.inv, m.states)
  }

  lemma {:induction false} IndexOf(a: Assignments, s: set<Item>) returns (k: nat)
    requires Numbering(a.numbers, a.states) && s in a.numbers
    ensures k < |a.states| && a.states[k] == s && a.numbers[s] == k + 1
  {
    assert s in Members(a.states);
    k :| 0 <= k < |a.states| && a.states[k] == s;
    assert NumberedAt(a.numbers, a.states, k);
  }

  lemma {:induction false} Listed(a: Assignments, k: nat)
    requires Numbering(a.numbers, a.states) && k < |a.states|
    ensures a.states[k] in a.numbers && a.numbers[a.states[k]] == k + 1
  {
    assert NumberedAt(a.numbers, a.states, k);
  }

  /** The merged states are numbered like the LR(0) states and have their cores. */
  lemma {:induction false} StateCores(g: Productions, nofTerminals: nat, m: Merge, n: nat)
    requires MergeOk(g, nofTerminals, m) && n in m.states
    ensures 1 <= n <= |m.a0.states| && CoresOf(m.states[n]) == CoresOf(m.a0.states[n - 1])
  {
    var s :| s in m.a1.numbers.Keys && NumberOf(m.a0.numbers, s) == n;
    assert StateMerged(m.inv0, m.a0.numbers, m.a1.numbers.Keys, m.inv, n, m.states[n]);
    NumbersKnown(g, m.inv0, m.nodes, m.a0, m.a1, s);
    var k := IndexOf(m.a0, Lr0Of(s));
    CoresOfLr0(s);
  }

  lemma {:induction false} StatesTotal(g: Productions, nofTerminals: nat, m: Merge, k: nat)
    requires MergeOk(g, nofTerminals, m) && k < |m.a0.states|
    ensures k + 1 in m.states
  {
    var t := m.a0.states[k];
    assert t in m.a0.states;
    var s := Lr0StateIsHit(g, m.inv0, m.nodes, m.a0.states, m.a1.states, t);
    Listed(m.a0, k);
    assert s in Members(m.a1.states);
    assert NumberOf(m.a0.numbers, s) == k + 1;
  }

  /** A lookahead of a merged state comes from one of the LR(1) states merged into it, and the other way round. */
  lemma {:induction false} LookFromLr1(g: Productions, nofTerminals: nat, m: Merge, n: nat, c: Core, a: nat)
    returns (s: set<Item>)
    requires MergeOk(g, nofTerminals, m) && n in m.states && HasLook(m.inv, m.states[n], c, a)
    ensures s in m.a1.states && NumberOf(m.a0.numbers, s) == n && HasLook(m.inv0, s, c, a)
    ensures KnownState(true, g, m.inv0, s) && CoresOf(s) == CoresOf(m.states[n])
  {
    assert StateMerged(m.inv0, m.a0.numbers, m.a1.numbers.Keys, m.inv, n, m.states[n]);
    assert GroupHasLook(m.inv0, m.a0.numbers, m.a1.numbers.Keys, n, c, a);
    s :| s in m.a1.numbers.Keys && NumberOf(m.a0.numbers, s) == n && HasLook(m.inv0, s, c, a);
    assert s in Members(m.a1.states);
    assert KnownState(true, g, m.inv0, s);
  }

  lemma {:induction false} LookToMerged(g: Productions, nofTerminals: nat, m: Merge, s: set<Item>, c: Core, a: nat)
    requires MergeOk(g, nofTerminals, m) && s in m.a1.states && HasLook(m.inv0, s, c, a)
    ensures NumberOf(m.a0.numbers, s) in m.states && HasLook(m.inv, m.states[NumberOf(m.a0.numbers, s)], c, a)
  {
    assert s in Members(m.a1.states);
    var n := NumberOf(m.a0.numbers, s);
    assert n in m.states;
    assert StateMerged(m.inv0, m.a0.numbers, m.a1.numbers.Keys, m.inv, n, m.states[n]);
    assert GroupHasLook(m.inv0, m.a0.numbers, m.a1.numbers.Keys, n, c, a);
  }

  // ---------------------------------------------------------------- one LR(1) closure

  lemma {:induction false} FollowCarried(g: Productions, inv: seq<set<nat>>, rt: set<Item>, fo: map<nat, nat>, c: Core,
                                         n: nat, a: nat)
    requires HandlesKnown(inv, fo) && (forall i | i in rt ::
        i.prod < |g| && g[i.prod].left in fo && i.follow == fo[g[i.prod].left])
    requires c in CoresOf(rt) && c.prod < |g| && g[c.prod].left == n && (n, a) in FollowsOf(inv, fo)
    ensures HasLook(inv, rt, c, a)
  {
    var i :| i in rt && CoreOf(i) == c;
    assert LookIn(inv, i, a);
  }

  /** The closure keeps the lookaheads of its kernel. */
  lemma {:induction false} ClosureKeepsLooks(g: Productions, inv: seq<set<nat>>, nodes: NodeMap, ts: set<Item>,
                                             rt: set<Item>, c: Core, a: nat)
    requires IsLr1Closure(g, inv, nodes, ts, rt) && ItemsKnown(g, inv, ts) && HasLook(inv, ts, c, a)
    ensures HasLook(inv, rt, c, a)
  {
    var fo :| Lr1ClosureBy(g, inv, nodes, ts, rt, fo);
    var i :| i in ts && CoreOf(i) == c && LookIn(inv, i, a);
    assert c in CoresOf(ts);
    assert (g[i.prod].left, a) in InheritedSeeds(g, inv, ts);
    FollowCarried(g, inv, rt, fo, c, g[i.prod].left, a);
  }

  /** The closure gives a production called for by an item everything that FIRST of the rest offers. */
  lemma {:induction false} ClosureCallsFirst(g: Productions, nofTerminals: nat, inv: seq<set<nat>>, nodes: NodeMap,
                                             ts: set<Item>, rt: set<Item>, c: Core, q: nat, b: nat)
    requires IsLr1Closure(g, inv, nodes, ts, rt) && NodesOk(g, nofTerminals, inv, nodes) && c in CoresOf(rt)
    requires q < |g| && DotBefore(g, c, N(g[q].left)) && FirstSeq(g, g[c.prod].right[c.pos + 1..], b)
    ensures HasLook(inv, rt, Core(q, 0), b)
  {
    var fo :| Lr1ClosureBy(g, inv, nodes, ts, rt, fo);
    var cl := CoresOf(rt);
    assert Core(q, 0) in cl;
    assert NodeOk(g, nofTerminals, inv, nodes, c.prod, c.pos);
    assert b in inv[nodes[(c.prod, c.pos)].handle];
    assert (g[q].left, b) in NodeSeeds(g, inv, nodes, cl);
    FollowCarried(g, inv, rt, fo, Core(q, 0), g[q].left, b);
  }

  /** And the item's own lookaheads, where the rest can vanish. */
  lemma {:induction false} ClosurePassesLook(g: Productions, nofTerminals: nat, inv: seq<set<nat>>, nodes: NodeMap,
                                             ts: set<Item>, rt: set<Item>, c: Core, a: nat, q: nat)
    requires IsLr1Closure(g, inv, nodes, ts, rt) && NodesOk(g, nofTerminals, inv, nodes) && HasLook(inv, rt, c, a)
    requires q < |g| && DotBefore(g, c, N(g[q].left)) && NullableSeq(g, g[c.prod].right[c.pos + 1..])
    ensures HasLook(inv, rt, Core(q, 0), a)
  {
    var fo :| Lr1ClosureBy(g, inv, nodes, ts, rt, fo);
    var i :| i in rt && CoreOf(i) == c && LookIn(inv, i, a);
    var cl := CoresOf(rt);
    assert c in cl && Core(q, 0) in cl;
    assert NodeOk(g, nofTerminals, inv, nodes, c.prod, c.pos);
    assert (g[c.prod].left, g[q].left) in Edges(g, nodes, cl);
    assert (g[c.prod].left, a) in FollowsOf(inv, fo);
    FollowCarried(g, inv, rt, fo, Core(q, 0), g[q].left, a);
  }

  /** The start symbol is never behind a dot, so its follow set stays what the kernel says. */
  lemma {:induction false} ClosureStartFollow(g: Productions, nofTerminals: nat, inv: seq<set<nat>>, nodes: NodeMap,
                                              ts: set<Item>, rt: set<Item>, pos: nat, a: nat)
    requires WellFormed(g, nofTerminals) && IsLr1Closure(g, inv, nodes, ts, rt) && HasLook(inv, rt, Core(0, pos), a)
    requires ItemsKnown(g, inv, ts) && forall i | i in ts && i.prod == 0 :: inv[i.follow] == {0}
    ensures a == 0
  {
    var fo :| Lr1ClosureBy(g, inv, nodes, ts, rt, fo);
    var i :| i in rt && CoreOf(i) == Core(0, pos) && LookIn(inv, i, a);
    assert (1, a) in FollowsOf(inv, fo);
    var seeds, edges := Seeds(g, inv, nodes, ts, CoresOf(rt)), Edges(g, nodes, CoresOf(rt));
    var allowed := set p | p in FollowsOf(inv, fo) && (p.0 == 1 ==> p.1 == 0);
    StartNotSeeded(g, nofTerminals, inv, nodes, ts, CoresOf(rt));
    assert Solves(seeds, edges, allowed);
  }

  lemma {:induction false} StartNotSeeded(g: Productions, nofTerminals: nat, inv: seq<set<nat>>, nodes: NodeMap,
                                          ts: set<Item>, cl: set<Core>)
    requires WellFormed(g, nofTerminals) && ItemsKnown(g, inv, ts) && forall i | i in ts && i.prod == 0 ::
        inv[i.follow] == {0}
    ensures forall p | p in Seeds(g, inv, nodes, ts, cl) && p.0 == 1 :: p.1 == 0
    ensures forall e | e in Edges(g, nodes, cl) :: e.1 != 1
  {
    forall c | ExpectsNode(g, nodes, c) ensures g[c.prod].right[c.pos].n != 1 {
      assert SymbolOk(g, nofTerminals, g[c.prod].right[c.pos]);
    }
    forall i | i in ts && g[i.prod].left == 1 ensures i.prod == 0 {}
  }

  /** Items of production 0 have the follow set {$}. */
  ghost predicate StartLooks(inv: seq<set<nat>>, s: set<Item>) {
    forall i | i in s && i.prod == 0 :: i.follow < |inv| && inv[i.follow] == {0}
  }

  lemma {:induction false} ClosureStartLooks(g: Productions, nofTerminals: nat, inv: seq<set<nat>>, nodes: NodeMap,
                                             ts: set<Item>, rt: set<Item>)
    requires WellFormed(g, nofTerminals) && IsLr1Closure(g, inv, nodes, ts, rt) && ItemsKnown(g, inv, ts)
        && StartLooks(inv, ts)
    ensures StartLooks(inv, rt)
  {
    var fo :| Lr1ClosureBy(g, inv, nodes, ts, rt, fo);
    forall i | i in rt && i.prod == 0 ensures i.follow < |inv| && inv[i.follow] == {0} {
      var c := CoreOf(i);
      StartInKernel(g, nofTerminals, ts, rt, c);
      var j :| j in ts && CoreOf(j) == c;
      assert LookIn(inv, j, 0) && HasLook(inv, ts, c, 0);
      ClosureKeepsLooks(g, inv, nodes, ts, rt, c, 0);
      var k :| k in rt && CoreOf(k) == c && LookIn(inv, k, 0);
      assert k.follow == i.follow == fo[1];
      forall a | a in inv[i.follow] ensures a == 0 {
        assert LookIn(inv, i, a) && HasLook(inv, rt, c, a);
        ClosureStartFollow(g, nofTerminals, inv, nodes, ts, rt, i.pos, a);
      }
      assert inv[i.follow] == {0};
    }
  }

  /** Production 0 is never added by a closure. */
  lemma {:induction false} StartInKernel(g: Productions, nofTerminals: nat, ts: set<Item>, rt: set<Item>, c: Core)
    requires WellFormed(g, nofTerminals) && IsClosure(g, CoresOf(ts), CoresOf(rt)) && c in CoresOf(rt) && c.prod == 0
    ensures c in CoresOf(ts)
  {
    forall d ensures !DotBefore(g, d, N(g[0].left)) {
      StartNotBehindDot(g, nofTerminals, d);
    }
    if c !in CoresOf(ts) {
      ClosureAddsFronts(g, CoresOf(ts), CoresOf(rt), c);
    }
  }

  lemma {:induction false} StartNotBehindDot(g: Productions, nofTerminals: nat, d: Core)
    requires WellFormed(g, nofTerminals)
    ensures !DotBefore(g, d, N(1))
  {
    assert d.prod < |g| && d.pos < |g[d.prod].right| ==> SymbolOk(g, nofTerminals, g[d.prod].right[d.pos]);
  }

  ghost predicate Lr1StateOk(g: Productions, inv: seq<set<nat>>, nodes: NodeMap, s: set<Item>) {
    StartLooks(inv, s) && exists ts :: ItemsKnown(g, inv, ts) && IsLr1Closure(g, inv, nodes, ts, s)
  }

  lemma {:induction false} Lr1StatesOk(g: Productions, nofTerminals: nat, inv: seq<set<nat>>, nodes: NodeMap,
                                       list: seq<set<Item>>, k: nat)
    requires WellFormed(g, nofTerminals) && SetsOk(nofTerminals, inv) && Enumerated(true, g, inv, nodes, list)
        && k < |list|
    ensures Lr1StateOk(g, inv, nodes, list[k])
    decreases k
  {
    var ts := START;
    if k > 0 {
      assert HasOrigin(true, g, inv, nodes, list, k);
      var j, x :| 0 <= j < k && IsGoto(true, g, inv, nodes, list[j], x, list[k]);
      Lr1StatesOk(g, nofTerminals, inv, nodes, list, j);
      assert list[j] in list && KnownState(true, g, inv, list[j]);
      ts := GotoItems(g, list[j], x);
    }
    ClosureStartLooks(g, nofTerminals, inv, nodes, ts, list[k]);
  }

  lemma {:induction false} Lr1StateIsOk(g: Productions, nofTerminals: nat, m: Merge, s: set<Item>)
    requires MergeOk(g, nofTerminals, m) && s in m.a1.states
    ensures Lr1StateOk(g, m.inv0, m.nodes, s)
  {
    var k :| 0 <= k < |m.a1.states| && m.a1.states[k] == s;
    Lr1StatesOk(g, nofTerminals, m.inv0, m.nodes, m.a1.states, k);
  }

  // ---------------------------------------------------------------- merged states

  /** The LR(0) state k is the goto of the LR(0) state n over x. */
  ghost predicate GotoNumber(g: Productions, m: Merge, n: nat, x: Symbol, k: nat) {
    && 1 <= n <= |m.a0.states| && 1 <= k <= |m.a0.states|
    && IsGoto(false, g, m.inv0, m.nodes, m.a0.states[n - 1], x, m.a0.states[k - 1])
  }

  lemma {:induction false} GotoLookOfLr1(g: Productions, m: Merge, s: set<Item>, x: Symbol, t: set<Item>, c: Core,
                                         a: nat)
    requires IsGoto(true, g, m.inv0, m.nodes, s, x, t) && ItemsKnown(g, m.inv0, s) && HasLook(m.inv0, s, c, a)
        && DotBefore(g, c, x)
    ensures HasLook(m.inv0, t, Advance(c), a)
  {
    var i :| i in s && CoreOf(i) == c && LookIn(m.inv0, i, a);
    var j := Item(i.prod, i.pos + 1, i.follow);
    assert j in GotoItems(g, s, x) && LookIn(m.inv0, j, a) && CoreOf(j) == Advance(c);
    GotoItemsKnown(g, m.inv0, s, x);
    ClosureKeepsLooks(g, m.inv0, m.nodes, GotoItems(g, s, x), t, Advance(c), a);
  }

  /** The LR(1) state reached has the number of the LR(0) state reached. */
  lemma {:induction false} GotoNumberOfLr1(g: Productions, nofTerminals: nat, m: Merge, n: nat, x: Symbol, k: nat,
                                           s: set<Item>, t: set<Item>)
    requires MergeOk(g, nofTerminals, m) && GotoNumber(g, m, n, x, k)
    requires t in m.a1.states && IsGoto(true, g, m.inv0, m.nodes, s, x, t) && CoresOf(s) == CoresOf(m.a0.states[n - 1])
    ensures NumberOf(m.a0.numbers, t) == k
  {
    GotosAgree(true, false, g, m.inv0, m.nodes, s, x, t, m.a0.states[n - 1], m.a0.states[k - 1]);
    assert m.a0.states[k - 1] in m.a0.states;
    assert KnownState(false, g, m.inv0, m.a0.states[k - 1]);
    SameCoresSameState(t, m.a0.states[k - 1]);
    Listed(m.a0, k - 1);
  }

  /** Moving the dot keeps the lookahead. */
  lemma {:induction false} MergedGoto(g: Productions, nofTerminals: nat, m: Merge, n: nat, x: Symbol, k: nat, c: Core,
                                      a: nat)
    requires MergeOk(g, nofTerminals, m) && GotoNumber(g, m, n, x, k) && n in m.states
    requires HasLook(m.inv, m.states[n], c, a) && DotBefore(g, c, x)
    ensures k in m.states && HasLook(m.inv, m.states[k], Advance(c), a)
  {
    var s := LookFromLr1(g, nofTerminals, m, n, c, a);
    StateCores(g, nofTerminals, m, n);
    var i :| i in s && CoreOf(i) == c;
    assert x in GotoSymbols(g, s);
    var t := GotoOf(true, g, m.inv0, m.nodes, m.a1.states, s, x);
    GotoLookOfLr1(g, m, s, x, t, c, a);
    GotoNumberOfLr1(g, nofTerminals, m, n, x, k, s, t);
    LookToMerged(g, nofTerminals, m, t, Advance(c), a);
  }

  /** A core of a merged state is one of each LR(1) state merged into it. */
  lemma {:induction false} CoreFromLr1(g: Productions, nofTerminals: nat, m: Merge, n: nat) returns (s: set<Item>)
    requires MergeOk(g, nofTerminals, m) && n in m.states
    ensures s in m.a1.states && NumberOf(m.a0.numbers, s) == n && CoresOf(s) == CoresOf(m.states[n])
  {
    s :| s in m.a1.numbers.Keys && NumberOf(m.a0.numbers, s) == n;
    assert StateMerged(m.inv0, m.a0.numbers, m.a1.numbers.Keys, m.inv, n, m.states[n]);
    assert s in Members(m.a1.states);
    NumbersKnown(g, m.inv0, m.nodes, m.a0, m.a1, s);
    var k := IndexOf(m.a0, Lr0Of(s));
    StateCores(g, nofTerminals, m, n);
    CoresOfLr0(s);
  }

  /** A production called for has as lookaheads all that FIRST of the rest behind the dot offers, the end marker
      included. */
  lemma {:induction false} MergedFirst(g: Productions, nofTerminals: nat, m: Merge, n: nat, c: Core, q: nat, b: nat)
    requires MergeOk(g, nofTerminals, m) && n in m.states && c in CoresOf(m.states[n])
    requires q < |g| && DotBefore(g, c, N(g[q].left)) && FirstSeq(g, g[c.prod].right[c.pos + 1..], b)
    ensures HasLook(m.inv, m.states[n], Core(q, 0), b)
  {
    var s := CoreFromLr1(g, nofTerminals, m, n);
    Lr1StateIsOk(g, nofTerminals, m, s);
    var ts :| ItemsKnown(g, m.inv0, ts) && IsLr1Closure(g, m.inv0, m.nodes, ts, s);
    ClosureCallsFirst(g, nofTerminals, m.inv0, m.nodes, ts, s, c, q, b);
    LookToMerged(g, nofTerminals, m, s, Core(q, 0), b);
  }

  /** A production called for has every lookahead the calling item offers it. */
  lemma {:induction false} MergedClosure(g: Productions, nofTerminals: nat, m: Merge, n: nat, c: Core, a: nat, q: nat,
                                         b: nat)
    requires MergeOk(g, nofTerminals, m) && n in m.states
    requires HasLook(m.inv, m.states[n], c, a) && q < |g| && DotBefore(g, c, N(g[q].left))
    requires FirstSeq(g, g[c.prod].right[c.pos + 1..], b) || (b == a && NullableSeq(g, g[c.prod].right[c.pos + 1..]))
    ensures HasLook(m.inv, m.states[n], Core(q, 0), b)
  {
    if FirstSeq(g, g[c.prod].right[c.pos + 1..], b) {
      var i :| i in m.states[n] && CoreOf(i) == c;
      MergedFirst(g, nofTerminals, m, n, c, q, b);
    } else {
      var s := LookFromLr1(g, nofTerminals, m, n, c, a);
      Lr1StateIsOk(g, nofTerminals, m, s);
      var ts :| ItemsKnown(g, m.inv0, ts) && IsLr1Closure(g, m.inv0, m.nodes, ts, s);
      ClosurePassesLook(g, nofTerminals, m.inv0, m.nodes, ts, s, c, a, q);
      LookToMerged(g, nofTerminals, m, s, Core(q, 0), a);
    }
  }

  /** The start item is in state 1 with lookahead $. */
  lemma {:induction false} MergedStart(g: Productions, nofTerminals: nat, m: Merge)
    requires MergeOk(g, nofTerminals, m)
    ensures 1 in m.states && HasLook(m.inv, m.states[1], Core(0, 0), 0)
  {
    var s, t := m.a1.states[0], m.a0.states[0];
    assert LookIn(m.inv0, Item(0, 0, 0), 0) && HasLook(m.inv0, START, Core(0, 0), 0);
    ClosureKeepsLooks(g, m.inv0, m.nodes, START, s, Core(0, 0), 0);
    StateClosureCores(true, g, m.inv0, m.nodes, START, s);
    StateClosureCores(false, g, m.inv0, m.nodes, START, t);
    ClosureUnique(g, CoresOf(START), CoresOf(s), CoresOf(t));
    assert t in m.a0.states && KnownState(false, g, m.inv0, t);
    SameCoresSameState(s, t);
    Listed(m.a0, 0);
    assert s in m.a1.states;
    LookToMerged(g, nofTerminals, m, s, Core(0, 0), 0);
  }

  /** An item of production 0 carries exactly the handle of {$}. */
  lemma {:induction false} MergedStartFollow(g: Productions, nofTerminals: nat, m: Merge, n: nat, i: Item)
    requires MergeOk(g, nofTerminals, m) && n in m.states && i in m.states[n] && i.prod == 0
    ensures i.follow == 0
  {
    assert StateMerged(m.inv0, m.a0.numbers, m.a1.numbers.Keys, m.inv, n, m.states[n]);
    var c := CoreOf(i);
    forall a | a in m.inv[i.follow] ensures a == 0 {
      assert LookIn(m.inv, i, a) && HasLook(m.inv, m.states[n], c, a);
      var s := LookFromLr1(g, nofTerminals, m, n, c, a);
      Lr1StateIsOk(g, nofTerminals, m, s);
    }
    HasStartLook(g, nofTerminals, m, n, c);
    var j :| j in m.states[n] && CoreOf(j) == c && LookIn(m.inv, j, 0);
    assert j == i && m.inv[i.follow] == {0};
  }

  lemma {:induction false} HasStartLook(g: Productions, nofTerminals: nat, m: Merge, n: nat, c: Core)
    requires MergeOk(g, nofTerminals, m) && n in m.states && c in CoresOf(m.states[n]) && c.prod == 0
    ensures HasLook(m.inv, m.states[n], c, 0)
  {
    var s :| s in m.a1.numbers.Keys && NumberOf(m.a0.numbers, s) == n;
    assert StateMerged(m.inv0, m.a0.numbers, m.a1.numbers.Keys, m.inv, n, m.states[n]);
    assert s in Members(m.a1.states);
    Lr1StateIsOk(g, nofTerminals, m, s);
    var i :| i in s && CoreOf(i) == c;
    assert LookIn(m.inv0, i, 0) && HasLook(m.inv0, s, c, 0);
    LookToMerged(g, nofTerminals, m, s, c, 0);
  }

  // ---------------------------------------------------------------- kernels identify states

  function KernelOf(cs: set<Core>): set<Core> {
    set c | c in cs && c.pos > 0
  }

  lemma {:induction false} KernelOfGoto(g: Productions, m: Merge, s: set<Item>, x: Symbol, t: set<Item>)
    requires IsGoto(false, g, m.inv0, m.nodes, s, x, t)
    ensures KernelOf(CoresOf(t)) == CoresOf(GotoItems(g, s, x)) != {}
  {
    var kernel := CoresOf(GotoItems(g, s, x));
    forall c | c in kernel ensures c.pos > 0 {}
    forall c | c in KernelOf(CoresOf(t)) ensures c in kernel {
      if c !in kernel { ClosureAddsFronts(g, kernel, CoresOf(t), c); }
    }
    var i :| i in GotoItems(g, s, x);
    assert CoreOf(i) in kernel;
  }

  lemma {:induction false} KernelOfStart(g: Productions, nofTerminals: nat, m: Merge)
    requires MergeOk(g, nofTerminals, m)
    ensures KernelOf(CoresOf(m.a0.states[0])) == {}
    ensures Core(0, 0) in CoresOf(m.a0.states[0])
  {
    var cl := CoresOf(m.a0.states[0]);
    StateClosureCores(false, g, m.inv0, m.nodes, START, m.a0.states[0]);
    assert CoreOf(Item(0, 0, 0)) in CoresOf(START);
    forall c | c in cl ensures c.pos == 0 {
      if c !in CoresOf(START) { ClosureAddsFronts(g, CoresOf(START), cl, c); }
    }
  }

  /** Different LR(0) states have different kernels. */
  lemma {:induction false} KernelsDiffer(g: Productions, nofTerminals: nat, m: Merge, j: nat, k: nat)
    requires MergeOk(g, nofTerminals, m) && j < |m.a0.states| && k < |m.a0.states|
    requires KernelOf(CoresOf(m.a0.states[j])) == KernelOf(CoresOf(m.a0.states[k]))
    ensures j == k
  {
    KernelOfStart(g, nofTerminals, m);
    if j > 0 { var s, x := Origin(g, nofTerminals, m, j); KernelOfGoto(g, m, s, x, m.a0.states[j]); }
    if k > 0 { var s, x := Origin(g, nofTerminals, m, k); KernelOfGoto(g, m, s, x, m.a0.states[k]); }
    if j > 0 && k > 0 {
      SameKernelSameState(g, nofTerminals, m, j, k);
    }
  }

  lemma {:induction false} Origin(g: Productions, nofTerminals: nat, m: Merge, k: nat) returns (s: set<Item>, x: Symbol)
    requires MergeOk(g, nofTerminals, m) && 0 < k < |m.a0.states|
    ensures IsGoto(false, g, m.inv0, m.nodes, s, x, m.a0.states[k]) && s in m.a0.states[..k]
  {
    assert HasOrigin(false, g, m.inv0, m.nodes, m.a0.states, k);
    var j, y :| 0 <= j < k && IsGoto(false, g, m.inv0, m.nodes, m.a0.states[j], y, m.a0.states[k]);
    s, x := m.a0.states[j], y;
    assert m.a0.states[..k][j] == s;
  }

  lemma {:induction false} SameKernelSameState(g: Productions, nofTerminals: nat, m: Merge, j: nat, k: nat)
    requires MergeOk(g, nofTerminals, m) && 0 < j < |m.a0.states| && 0 < k < |m.a0.states|
    requires KernelOf(CoresOf(m.a0.states[j])) == KernelOf(CoresOf(m.a0.states[k]))
    ensures j == k
  {
    var s, t := m.a0.states[j], m.a0.states[k];
    var s1, x1 := Origin(g, nofTerminals, m, j);
    var s2, x2 := Origin(g, nofTerminals, m, k);
    KernelOfGoto(g, m, s1, x1, s);
    KernelOfGoto(g, m, s2, x2, t);
    ClosureUnique(g, KernelOf(CoresOf(s)), CoresOf(s), CoresOf(t));
    SameLr0Cores(g, nofTerminals, m, j, k);
  }

  lemma {:induction false} SameLr0Cores(g: Productions, nofTerminals: nat, m: Merge, j: nat, k: nat)
    requires MergeOk(g, nofTerminals, m) && j < |m.a0.states| && k < |m.a0.states|
        && CoresOf(m.a0.states[j]) == CoresOf(m.a0.states[k])
    ensures j == k
  {
    var s, t := m.a0.states[j], m.a0.states[k];
    assert s in m.a0.states && t in m.a0.states;
    assert KnownState(false, g, m.inv0, s) && KnownState(false, g, m.inv0, t);
    SameCoresSameState(s, t);
    SameCoresSameState(t, t);
    assert Differ(m.a0.states, j, k) && Differ(m.a0.states, k, j);
  }
}
