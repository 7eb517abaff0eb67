/** When the items the builder makes fit their packed form. */
module PackingLimits {
  import opened Guards
  import opened Sets
  import opened Grammar
  import opened BuildErrors
  import opened FirstSets
  import opened Tables
  import opened FollowSets
  import opened Items
  import opened Closure
  import opened States
  import opened Lalr
  import opened LalrProperties
  import opened TableFacts
  import opened LookaheadBounds

  ghost predicate AllWithinLimits(s: set<Item>) {
    forall i | i in s :: WithinLimits(i)
  }

  /** Every item of every enumerated and every merged state fits. */
  ghost predicate Packable(m: Merge) {
    && (forall s | s in m.a0.states :: AllWithinLimits(s))
    && (forall s | s in m.a1.states :: AllWithinLimits(s))
    && (forall n | n in m.states :: AllWithinLimits(m.states[n]))
  }

  /** The boundaries for the number and the length of productions. */
  predicate Small(g: Productions) {
    |g| < MAX_NOF_PRODUCTIONS && forall p | p in g :: |p.right| < MAX_PRODUCTION_LENGTH
  }

  /** What stands behind the nonterminals has at most as many different FIRST sets as there are handles. */
  ghost predicate FewFollowSets(g: Productions, nofTerminals: nat) {
    |NodeSets(g, nofTerminals)| <= MAX_TERMINAL
  }

  ghost predicate AllReachable(g: Productions) {
    forall p | 0 <= p < |g| :: Reachable(g, g[p].left)
  }

  /** The sets behind the nonterminals of reachable productions are among the first ones, as many as there are
      handles. */
  ghost predicate FollowSetsFit(g: Productions, nofTerminals: nat) {
    forall p: nat, i: nat {:trigger AmongFirst(g, nofTerminals, p, i, MAX_TERMINAL)} |
      NonterminalAt(g, p, i) && Reachable(g, g[p].left) :: AmongFirst(g, nofTerminals, p, i, MAX_TERMINAL)
  }

  /** How the handles of a build come from the grammar. */
  ghost predicate HandlesOf(g: Productions, nofTerminals: nat, m: Merge) {
    && InOrder(g, nofTerminals, m.nodes)
    && (|m.inv| <= |NodeSets(g, nofTerminals)| || |m.inv| <= MAX_TERMINAL - 1)
    && (Overflowing(g, m.nodes) ==> ItemsFrom(m.states, m.a1.numbers.Keys))
  }

  lemma {:induction false} KnownItemsFit(g: Productions, inv: seq<set<nat>>, s: set<Item>)
    requires Small(g) && ItemsKnown(g, inv, s) && |inv| <= MAX_TERMINAL
    ensures AllWithinLimits(s)
  {
    forall i | i in s ensures WithinLimits(i) {
      assert InRange(g, CoreOf(i)) && g[i.prod] in g;
    }
  }

  lemma {:induction false} FewSetsPackable(g: Productions, nofTerminals: nat, m: Merge)
    requires MergeOk(g, nofTerminals, m) && Small(g) && |m.inv| <= MAX_TERMINAL
    ensures Packable(m)
  {
    forall s | s in m.a0.states ensures AllWithinLimits(s) {
      assert KnownState(false, g, m.inv0, s);
      KnownItemsFit(g, m.inv0, s);
    }
    forall s | s in m.a1.states ensures AllWithinLimits(s) {
      assert KnownState(true, g, m.inv0, s);
      KnownItemsFit(g, m.inv0, s);
    }
    forall n | n in m.states ensures AllWithinLimits(m.states[n]) {
      CoresKnown(g, nofTerminals, m, n);
      forall i | i in m.states[n] ensures InRange(g, CoreOf(i)) { assert CoreOf(i) in CoresOf(m.states[n]); }
      KnownItemsFit(g, m.inv, m.states[n]);
    }
  }

  /** A handle beyond the limits gets into a state whenever its node is in a reachable production. */
  lemma {:induction false} LargeHandleUsed(g: Productions, nofTerminals: nat, m: Merge, p: nat, i: nat, h: nat)
    requires MergeOk(g, nofTerminals, m) && HasHandle(g, m.nodes, p, i, h) && h >= MAX_TERMINAL
        && Reachable(g, g[p].left)
    ensures !Packable(m)
  {
    var d: nat :| ReachableWithin(g, g[p].left, d);
    var k := FrontReached(g, nofTerminals, m, p, d);
    var n := CoreMoved(g, nofTerminals, m, k, p, i);
    LargeHandleAt(g, nofTerminals, m, p, i, h, n);
  }

  lemma {:induction false} LargeHandleAt(g: Productions, nofTerminals: nat, m: Merge, p: nat, i: nat, h: nat, n: nat)
    requires MergeOk(g, nofTerminals, m) && HasHandle(g, m.nodes, p, i, h) && h >= MAX_TERMINAL
    requires n in m.states && Core(p, i) in CoresOf(m.states[n])
    ensures !Packable(m)
  {
    var s := CoreFromLr1(g, nofTerminals, m, n);
    Lr1StateIsOk(g, nofTerminals, m, s);
    var ts :| ItemsKnown(g, m.inv0, ts) && IsLr1Closure(g, m.inv0, m.nodes, ts, s);
    var item := DirectItem(g, nofTerminals, m.inv0, m.nodes, ts, s, p, i, h);
    assert !WithinLimits(item);
  }

  lemma {:induction false} DirectItem(g: Productions, nofTerminals: nat, inv: seq<set<nat>>, nodes: NodeMap,
                                      ts: set<Item>, s: set<Item>, p: nat, i: nat, h: nat) returns (item: Item)
    requires WellFormed(g, nofTerminals) && IsLr1Closure(g, inv, nodes, ts, s) && Core(p, i) in CoresOf(s)
    requires HasHandle(g, nodes, p, i, h) && h >= MAX_TERMINAL
    ensures item in s && item.follow == h
  {
    var fo :| Lr1ClosureBy(g, inv, nodes, ts, s, fo);
    assert Overflowing(g, nodes);
    assert ExpectsNode(g, nodes, Core(p, i)) && HasFollow(fo, g[p].right[i].n, h);
    assert SymbolOk(g, nofTerminals, g[p].right[i]);
    var q :| 0 <= q < |g| && g[q].left == g[p].right[i].n;
    assert DotBefore(g, Core(p, i), N(g[q].left)) && Core(q, 0) in CoresOf(s);
    item :| item in s && CoreOf(item) == Core(q, 0);
  }

  // ---------------------------------------------------------------- where the handles of the items come from

  /** The handle of $, or that of a node of a reachable production. */
  ghost predicate FromNode(g: Productions, nodes: NodeMap, h: nat) {
    h == 0 || exists p: nat, i: nat :: HasHandle(g, nodes, p, i, h) && Reachable(g, g[p].left)
  }

  ghost predicate FollowsFromNodes(g: Productions, nodes: NodeMap, s: set<Item>) {
    forall i | i in s && i.prod < |g| :: FromNode(g, nodes, i.follow)
  }

  lemma {:induction false} ClosureFromNodes(g: Productions, nofTerminals: nat, inv: seq<set<nat>>, nodes: NodeMap,
                                            ts: set<Item>, rt: set<Item>)
    requires NodesOk(g, nofTerminals, inv, nodes) && Overflowing(g, nodes)
    requires FollowsFromNodes(g, nodes, ts) && CoresReachable(g, CoresOf(rt)) && IsLr1Closure(g, inv, nodes, ts, rt)
    ensures FollowsFromNodes(g, nodes, rt)
  {
    var fo :| Lr1ClosureBy(g, inv, nodes, ts, rt, fo);
    forall i | i in rt && i.prod < |g| ensures FromNode(g, nodes, i.follow) {
      assert CoreOf(i) in CoresOf(rt);
      if CoreOf(i) in CoresOf(ts) {
        var j :| j in ts && CoreOf(j) == CoreOf(i);
        assert HasFollow(fo, g[j.prod].left, j.follow);
      } else {
        ClosureAddsFronts(g, CoresOf(ts), CoresOf(rt), CoreOf(i));
        var d :| d in CoresOf(rt) && DotBefore(g, d, N(g[i.prod].left));
        assert NodeOk(g, nofTerminals, inv, nodes, d.prod, d.pos);
        assert HasFollow(fo, g[d.prod].right[d.pos].n, nodes[(d.prod, d.pos)].handle);
        assert HasHandle(g, nodes, d.prod, d.pos, i.follow);
      }
    }
  }

  lemma {:induction false} Lr1StatesFromNodes(g: Productions, nofTerminals: nat, m: Merge, k: nat)
    requires MergeOk(g, nofTerminals, m) && Overflowing(g, m.nodes) && k < |m.a1.states|
    ensures FollowsFromNodes(g, m.nodes, m.a1.states[k])
    decreases k
  {
    var ts, s := START, m.a1.states[k];
    if k > 0 {
      assert HasOrigin(true, g, m.inv0, m.nodes, m.a1.states, k);
      var j, x :| 0 <= j < k && IsGoto(true, g, m.inv0, m.nodes, m.a1.states[j], x, s);
      Lr1StatesFromNodes(g, nofTerminals, m, j);
      ts := GotoItems(g, m.a1.states[j], x);
      GotoFromNodes(g, m.nodes, m.a1.states[j], x);
    }
    Lr1StatesInFollow(g, nofTerminals, m, k);
    InFollowReachable(g, m.inv0, s);
    ClosureFromNodes(g, nofTerminals, m.inv0, m.nodes, ts, s);
  }

  lemma {:induction false} InFollowReachable(g: Productions, inv: seq<set<nat>>, s: set<Item>)
    requires InFollow(g, inv, s)
    ensures CoresReachable(g, CoresOf(s))
  {
  }

  lemma {:induction false} GotoFromNodes(g: Productions, nodes: NodeMap, s: set<Item>, x: Symbol)
    requires FollowsFromNodes(g, nodes, s)
    ensures FollowsFromNodes(g, nodes, GotoItems(g, s, x))
  {
  }

  lemma {:induction false} NodeHandleFits(g: Productions, nofTerminals: nat, m: Merge, h: nat)
    requires MergeOk(g, nofTerminals, m) && HandlesOf(g, nofTerminals, m) && FollowSetsFit(g, nofTerminals)
        && FromNode(g, m.nodes, h)
    ensures h < MAX_TERMINAL
  {
    if h > 0 {
      var p: nat, i: nat :| HasHandle(g, m.nodes, p, i, h) && Reachable(g, g[p].left);
      assert AmongFirst(g, nofTerminals, p, i, MAX_TERMINAL);
      HandleBelow(g, nofTerminals, m.inv0, m.nodes, p, i, MAX_TERMINAL);
    }
  }

  lemma {:induction false} Lr1ItemsFit(g: Productions, nofTerminals: nat, m: Merge, s: set<Item>)
    requires MergeOk(g, nofTerminals, m) && HandlesOf(g, nofTerminals, m) && FollowSetsFit(g, nofTerminals) && Small(g)
    requires Overflowing(g, m.nodes) && s in m.a1.states
    ensures AllWithinLimits(s)
  {
    var k :| 0 <= k < |m.a1.states| && m.a1.states[k] == s;
    Lr1StatesFromNodes(g, nofTerminals, m, k);
    assert KnownState(true, g, m.inv0, s);
    forall i | i in s ensures WithinLimits(i) {
      assert InRange(g, CoreOf(i)) && g[i.prod] in g;
      NodeHandleFits(g, nofTerminals, m, i.follow);
    }
  }

  lemma {:induction false} OverflowingFits(g: Productions, nofTerminals: nat, m: Merge)
    requires MergeOk(g, nofTerminals, m) && HandlesOf(g, nofTerminals, m) && FollowSetsFit(g, nofTerminals) && Small(g)
    requires Overflowing(g, m.nodes)
    ensures Packable(m)
  {
    forall s | s in m.a0.states ensures AllWithinLimits(s) {
      assert KnownState(false, g, m.inv0, s);
      forall i | i in s ensures WithinLimits(i) { assert InRange(g, CoreOf(i)) && g[i.prod] in g; }
    }
    forall s | s in m.a1.states ensures AllWithinLimits(s) { Lr1ItemsFit(g, nofTerminals, m, s); }
    forall n | n in m.states ensures AllWithinLimits(m.states[n]) {
      assert AllFrom(m.states[n], m.a1.numbers.Keys);
      forall i | i in m.states[n] ensures WithinLimits(i) {
        assert ItemFrom(m.a1.numbers.Keys, i);
        var s :| s in m.a1.numbers.Keys && i in s;
        assert s in Members(m.a1.states);
        Lr1ItemsFit(g, nofTerminals, m, s);
      }
    }
  }

  lemma {:induction false} NotOverflowing(g: Productions, nofTerminals: nat, m: Merge)
    requires HandlesOf(g, nofTerminals, m)
    ensures |m.inv| <= MAX_TERMINAL || Overflowing(g, m.nodes)
  {
    if |NodeSets(g, nofTerminals)| > MAX_TERMINAL {
      assert FirstUse(g, nofTerminals, m.nodes, MAX_TERMINAL);
      var p: nat, i: nat :| HasHandle(g, m.nodes, p, i, MAX_TERMINAL);
    }
  }

  /** The items of a build fit their packed form if and only if the sets behind the nonterminals of reachable
      productions are among the first ones. */
  lemma {:induction false} PackableExactly(g: Productions, nofTerminals: nat, m: Merge)
    requires MergeOk(g, nofTerminals, m) && HandlesOf(g, nofTerminals, m) && Small(g)
    ensures Packable(m) <==> FollowSetsFit(g, nofTerminals)
  {
    if !Overflowing(g, m.nodes) {
      NotOverflowing(g, nofTerminals, m);
      FewSetsPackable(g, nofTerminals, m);
    } else if FollowSetsFit(g, nofTerminals) {
      OverflowingFits(g, nofTerminals, m);
    }
    if Packable(m) {
      forall p: nat, i: nat | NonterminalAt(g, p, i) && Reachable(g, g[p].left)
          ensures AmongFirst(g, nofTerminals, p, i, MAX_TERMINAL) {
        HandleBelow(g, nofTerminals, m.inv0, m.nodes, p, i, MAX_TERMINAL);
        if m.nodes[(p, i)].handle >= MAX_TERMINAL { LargeHandleUsed(g, nofTerminals, m, p, i, m.nodes[(p, i)].handle); }
      }
    }
  }

  // ---------------------------------------------------------------- the number of sets as the condition

  lemma {:induction false} BeforeGrows(g: Productions, nofTerminals: nat, p: nat, i: nat, q: nat, j: nat)
    requires Before(p, i, q, j) || (p, i) == (q, j)
    ensures SetsBefore(g, nofTerminals, p, i) <= SetsBefore(g, nofTerminals, q, j)
    ensures |SetsBefore(g, nofTerminals, p, i)| <= |SetsBefore(g, nofTerminals, q, j)|
  {
    SubsetSize(SetsBefore(g, nofTerminals, p, i), SetsBefore(g, nofTerminals, q, j));
  }

  /** A set is new where it stands first. */
  lemma {:induction false} StandsFirst(g: Productions, nofTerminals: nat, p: nat, i: nat) returns (q: nat, j: nat)
    requires NonterminalAt(g, p, i) && RestSet(g, nofTerminals, p, i + 1) != {0}
    ensures SameRest(g, nofTerminals, p, i, q, j)
        && RestSet(g, nofTerminals, p, i + 1) !in SetsBefore(g, nofTerminals, q, j)
    decreases p, i
  {
    var s := RestSet(g, nofTerminals, p, i + 1);
    if s in SetsBefore(g, nofTerminals, p, i) {
      var p', i' :| 0 <= p' < |g| && 0 <= i' < |g[p'].right| && g[p'].right[i'].N? && Before(p', i', p, i)
          && s == RestSet(g, nofTerminals, p', i' + 1);
      q, j := StandsFirst(g, nofTerminals, p', i');
    } else {
      q, j := p, i;
    }
  }

  lemma {:induction false} FewSetsFit(g: Productions, nofTerminals: nat, p: nat, i: nat)
    requires FewFollowSets(g, nofTerminals) && NonterminalAt(g, p, i)
    ensures AmongFirst(g, nofTerminals, p, i, MAX_TERMINAL)
  {
    var s := RestSet(g, nofTerminals, p, i + 1);
    if s != {0} {
      var q, j := StandsFirst(g, nofTerminals, p, i);
      assert s in NodeSets(g, nofTerminals);
      assert SetsBefore(g, nofTerminals, q, j) <= NodeSets(g, nofTerminals) - {s};
      SubsetSize(SetsBefore(g, nofTerminals, q, j), NodeSets(g, nofTerminals) - {s});
    }
  }

  lemma {:induction false} OneMoreSet(g: Productions, nofTerminals: nat, p: nat, i: nat)
    requires p < |g| && i < |g[p].right|
    ensures |SetsBefore(g, nofTerminals, p, i + 1)| <= |SetsBefore(g, nofTerminals, p, i)| + 1
    ensures |SetsBefore(g, nofTerminals, p, i + 1)| > |SetsBefore(g, nofTerminals, p, i)| ==>
              NonterminalAt(g, p, i) && RestSet(g, nofTerminals, p, i + 1) !in SetsBefore(g, nofTerminals, p, i)
  {
    if g[p].right[i].N? {
      SetsBeforeNode(g, nofTerminals, p, i);
      if RestSet(g, nofTerminals, p, i + 1) in SetsBefore(g, nofTerminals, p, i) {
        assert SetsBefore(g, nofTerminals, p, i + 1) == SetsBefore(g, nofTerminals, p, i);
      }
    } else {
      SetsBeforeOther(g, nofTerminals, p, i);
    }
  }

  ghost predicate FewBefore(g: Productions, nofTerminals: nat, p: nat, i: nat) {
    forall z: int {:trigger Look(z)} :: Look(z) ==> |SetsBefore(g, nofTerminals, p, i)| <= MAX_TERMINAL
  }

  /** The position at which the number of sets exceeds the limit. */
  ghost predicate Crosses(g: Productions, nofTerminals: nat, p: nat, i: nat) {
    NonterminalAt(g, p, i) && |SetsBefore(g, nofTerminals, p, i)| == MAX_TERMINAL
        && RestSet(g, nofTerminals, p, i + 1) !in SetsBefore(g, nofTerminals, p, i)
  }

  lemma {:induction false} NextPosition(g: Productions, nofTerminals: nat, p: nat, i: nat)
    requires p < |g| && i < |g[p].right| && FewBefore(g, nofTerminals, p, i) && !Crosses(g, nofTerminals, p, i)
    ensures FewBefore(g, nofTerminals, p, i + 1)
  {
    assert Look(0);
    OneMoreSet(g, nofTerminals, p, i);
  }

  lemma {:induction false} NextProduction(g: Productions, nofTerminals: nat, p: nat)
    requires p < |g| && FewBefore(g, nofTerminals, p, |g[p].right|)
    ensures FewBefore(g, nofTerminals, p + 1, 0)
    ensures p + 1 == |g| ==> FewFollowSets(g, nofTerminals)
  {
    assert Look(0);
    SetsBeforeOther(g, nofTerminals, p, |g[p].right|);
  }

  lemma {:induction false} Crossing(g: Productions, nofTerminals: nat, p0: nat, i0: nat) returns (p: nat, i: nat)
    requires p0 < |g| && i0 <= |g[p0].right| && FewBefore(g, nofTerminals, p0, i0) && !FewFollowSets(g, nofTerminals)
    ensures Crosses(g, nofTerminals, p, i)
    decreases |g| - p0, |g[p0].right| - i0
  {
    if i0 == |g[p0].right| {
      NextProduction(g, nofTerminals, p0);
      p, i := Crossing(g, nofTerminals, p0 + 1, 0);
    } else if Crosses(g, nofTerminals, p0, i0) {
      p, i := p0, i0;
    } else {
      NextPosition(g, nofTerminals, p0, i0);
      p, i := Crossing(g, nofTerminals, p0, i0 + 1);
    }
  }

  lemma {:induction false} ManySetsDoNotFit(g: Productions, nofTerminals: nat)
    requires |g| > 0 && AllReachable(g) && !FewFollowSets(g, nofTerminals)
    ensures !FollowSetsFit(g, nofTerminals)
  {
    assert SetsBefore(g, nofTerminals, 0, 0) == {{0}};
    var p, i := Crossing(g, nofTerminals, 0, 0);
    if AmongFirst(g, nofTerminals, p, i, MAX_TERMINAL) {
      var q: nat, j: nat :| SameRest(g, nofTerminals, p, i, q, j) && |SetsBefore(g, nofTerminals, q, j)| < MAX_TERMINAL;
      if !Before(q, j, p, i) { BeforeGrows(g, nofTerminals, p, i, q, j); }
    }
  }

  /** With few sets they all fit, and where all productions are reachable only then. */
  lemma {:induction false} CountDecides(g: Productions, nofTerminals: nat)
    requires |g| > 0
    ensures FewFollowSets(g, nofTerminals) ==> FollowSetsFit(g, nofTerminals)
    ensures AllReachable(g) && FollowSetsFit(g, nofTerminals) ==> FewFollowSets(g, nofTerminals)
  {
    if FewFollowSets(g, nofTerminals) {
      forall p: nat, i: nat | NonterminalAt(g, p, i) ensures AmongFirst(g, nofTerminals, p, i, MAX_TERMINAL) {
        FewSetsFit(g, nofTerminals, p, i);
      }
    } else if AllReachable(g) {
      ManySetsDoNotFit(g, nofTerminals);
    }
  }
}
