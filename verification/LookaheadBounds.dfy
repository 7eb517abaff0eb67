/** The lookaheads of the merged states lie between the canonical LR(1) lookaheads and FOLLOW; over all states they
    are FOLLOW. */
module LookaheadBounds {
  import opened Grammar
  import opened FirstSets
  import opened Tables
  import opened FollowSets
  import opened Items
  import opened Closure
  import opened States
  import opened Lalr
  import opened LalrProperties
  import opened TableFacts

  // ---------------------------------------------------------------- lower bound

  /** In front of lookahead b, the rest of the right side behind the dot's nonterminal offers the terminal a. */
  ghost predicate Offers(g: Productions, c: Core, b: nat, a: nat)
    requires c.prod < |g| && c.pos < |g[c.prod].right|
  {
    var rest := g[c.prod].right[c.pos + 1..];
    (a != 0 && FirstSeq(g, rest, a)) || (a == b && NullableSeq(g, rest))
  }

  /** The item c with lookahead a is valid for the viable prefix: the canonical LR(1) items, in at most d steps. */
  ghost predicate Canonical(g: Productions, prefix: seq<Symbol>, c: Core, a: nat, d: nat)
    decreases d
  {
    || (prefix == [] && c == Core(0, 0) && a == 0)
    || (d > 0 && c.pos > 0 && prefix != [] && DotBefore(g, Core(c.prod, c.pos - 1), prefix[|prefix| - 1])
        && Canonical(g, prefix[..|prefix| - 1], Core(c.prod, c.pos - 1), a, d - 1))
    || (d > 0 && c.pos == 0 && c.prod < |g| && exists p, b ::
          Canonical(g, prefix, p, b, d - 1) && DotBefore(g, p, N(g[c.prod].left)) && Offers(g, p, b, a))
  }

  /** The viable prefix leads to state n. */
  ghost predicate LeadsTo(g: Productions, m: Merge, prefix: seq<Symbol>, n: nat)
    decreases |prefix|
  {
    if prefix == [] then n == 1
    else exists k: nat, x: Symbol :: x == prefix[|prefix| - 1] && GotoNumber(g, m, k, x, n)
                                     && LeadsTo(g, m, prefix[..|prefix| - 1], k)
  }

  lemma {:induction false} LeadsToOne(g: Productions, nofTerminals: nat, m: Merge, prefix: seq<Symbol>, n: nat, n': nat)
    requires MergeOk(g, nofTerminals, m) && LeadsTo(g, m, prefix, n) && LeadsTo(g, m, prefix, n')
    ensures n == n'
    decreases |prefix|
  {
    if prefix != [] {
      var shorter, x := prefix[..|prefix| - 1], prefix[|prefix| - 1];
      var k: nat, y: Symbol :| y == x && GotoNumber(g, m, k, y, n) && LeadsTo(g, m, shorter, k);
      var k': nat, y': Symbol :| y' == x && GotoNumber(g, m, k', y', n') && LeadsTo(g, m, shorter, k');
      LeadsToOne(g, nofTerminals, m, shorter, k, k');
      SameGoto(g, nofTerminals, m, k, x, n, n');
    }
  }

  lemma {:induction false} SameGoto(g: Productions, nofTerminals: nat, m: Merge, k: nat, x: Symbol, n: nat, n': nat)
    requires MergeOk(g, nofTerminals, m) && GotoNumber(g, m, k, x, n) && GotoNumber(g, m, k, x, n')
    ensures n == n'
  {
    GotosAgree(false, false, g, m.inv0, m.nodes, m.a0.states[k - 1], x, m.a0.states[n - 1], m.a0.states[k - 1],
        m.a0.states[n' - 1]);
    KernelsDiffer(g, nofTerminals, m, n - 1, n' - 1);
  }

  lemma {:induction false} LookStepped(g: Productions, nofTerminals: nat, m: Merge, prefix: seq<Symbol>, k: nat,
                                       c: Core, a: nat) returns (n: nat)
    requires MergeOk(g, nofTerminals, m) && k in m.states && HasLook(m.inv, m.states[k], c, a)
    requires prefix != [] && DotBefore(g, c, prefix[|prefix| - 1]) && LeadsTo(g, m, prefix[..|prefix| - 1], k)
    ensures LeadsTo(g, m, prefix, n) && n in m.states && HasLook(m.inv, m.states[n], Advance(c), a)
  {
    var x := prefix[|prefix| - 1];
    var i :| i in m.states[k] && CoreOf(i) == c;
    n := CoreStepped(g, nofTerminals, m, k, c, x);
    MergedGoto(g, nofTerminals, m, k, x, n, c, a);
  }

  lemma {:induction false} CanonicalCaller(g: Productions, prefix: seq<Symbol>, c: Core, a: nat, d: nat)
    returns (p: Core, b: nat)
    requires Canonical(g, prefix, c, a, d) && c.pos == 0 && !(prefix == [] && c == Core(0, 0) && a == 0)
    ensures d > 0 && c.prod < |g| && Canonical(g, prefix, p, b, d - 1) && DotBefore(g, p, N(g[c.prod].left))
        && Offers(g, p, b, a)
  {
    p, b :| Canonical(g, prefix, p, b, d - 1) && DotBefore(g, p, N(g[c.prod].left)) && Offers(g, p, b, a);
  }

  lemma {:induction false} OfferTaken(g: Productions, nofTerminals: nat, m: Merge, n: nat, p: Core, b: nat, q: nat,
                                      a: nat)
    requires MergeOk(g, nofTerminals, m) && n in m.states && HasLook(m.inv, m.states[n], p, b)
    requires q < |g| && DotBefore(g, p, N(g[q].left)) && Offers(g, p, b, a)
    ensures HasLook(m.inv, m.states[n], Core(q, 0), a)
  {
    MergedClosure(g, nofTerminals, m, n, p, b, q, a);
  }

  /** Every canonical LR(1) lookahead of an item, for any viable prefix, is a lookahead of it in the state the prefix
      leads to. */
  lemma {:induction false} CanonicalLookaheadsKept(g: Productions, nofTerminals: nat, m: Merge, prefix: seq<Symbol>,
                                                   c: Core, a: nat, d: nat) returns (n: nat)
    requires MergeOk(g, nofTerminals, m) && Canonical(g, prefix, c, a, d)
    ensures LeadsTo(g, m, prefix, n) && n in m.states && HasLook(m.inv, m.states[n], c, a)
    decreases d
  {
    if prefix == [] && c == Core(0, 0) && a == 0 {
      MergedStart(g, nofTerminals, m);
      n := 1;
    } else if c.pos > 0 {
      var before := Core(c.prod, c.pos - 1);
      var k := CanonicalLookaheadsKept(g, nofTerminals, m, prefix[..|prefix| - 1], before, a, d - 1);
      n := LookStepped(g, nofTerminals, m, prefix, k, before, a);
    } else {
      var p, b := CanonicalCaller(g, prefix, c, a, d);
      n := CanonicalLookaheadsKept(g, nofTerminals, m, prefix, p, b, d - 1);
      OfferTaken(g, nofTerminals, m, n, p, b, c.prod, a);
    }
  }

  /** A canonical LR(1) lookahead of an item for some viable prefix that leads to state n: what LALR(1) asks for. */
  ghost predicate CanonicalLook(g: Productions, m: Merge, n: nat, c: Core, a: nat) {
    exists prefix: seq<Symbol>, d: nat :: LeadsTo(g, m, prefix, n) && Canonical(g, prefix, c, a, d)
  }

  lemma {:induction false} CanonicalLookKept(g: Productions, nofTerminals: nat, m: Merge, n: nat, c: Core, a: nat)
    requires MergeOk(g, nofTerminals, m) && CanonicalLook(g, m, n, c, a)
    ensures n in m.states && HasLook(m.inv, m.states[n], c, a)
  {
    var prefix: seq<Symbol>, d: nat :| LeadsTo(g, m, prefix, n) && Canonical(g, prefix, c, a, d);
    var k := CanonicalLookaheadsKept(g, nofTerminals, m, prefix, c, a, d);
    LeadsToOne(g, nofTerminals, m, prefix, n, k);
  }

  // ---------------------------------------------------------------- upper bound

  ghost predicate StandsAt(g: Productions, n: nat, p: nat, i: nat) {
    NonterminalAt(g, p, i) && g[p].right[i] == N(n)
  }

  ghost predicate ReachableWithin(g: Productions, n: nat, d: nat)
    decreases d
  {
    n == 1 || (d > 0 && exists p: nat, i: nat :: StandsAt(g, n, p, i) && ReachableWithin(g, g[p].left, d - 1))
  }

  /** The nonterminal occurs in a sentential form. */
  ghost predicate Reachable(g: Productions, n: nat) {
    exists d: nat :: ReachableWithin(g, n, d)
  }

  /** In a reachable production, a is in FIRST of what stands behind n. */
  ghost predicate FollowBy(g: Productions, n: nat, a: nat, p: nat, i: nat) {
    StandsAt(g, n, p, i) && Reachable(g, g[p].left) && FirstSeq(g, g[p].right[i + 1..], a)
  }

  ghost predicate VanishesBehind(g: Productions, n: nat, p: nat, i: nat) {
    StandsAt(g, n, p, i) && NullableSeq(g, g[p].right[i + 1..])
  }

  ghost predicate FollowWithin(g: Productions, n: nat, a: nat, d: nat)
    decreases d
  {
    || (n == 1 && a == 0)
    || exists p: nat, i: nat :: FollowBy(g, n, a, p, i)
                                || (d > 0 && VanishesBehind(g, n, p, i) && FollowWithin(g, g[p].left, a, d - 1))
  }

  /** The terminal a can follow the nonterminal n in a sentential form. For the end marker this goes beyond FOLLOW,
      because FIRST of a rest can have it (EndMarked) where the rest cannot vanish. */
  ghost predicate Follow(g: Productions, n: nat, a: nat) {
    exists d: nat :: FollowWithin(g, n, a, d)
  }

  /** The follow sets of the items lie in FOLLOW of their heads, and these are reachable. */
  ghost predicate InFollow(g: Productions, inv: seq<set<nat>>, s: set<Item>) {
    forall i | i in s && i.prod < |g| :: Reachable(g, g[i.prod].left) && forall a: nat | LookIn(inv, i, a) ::
                                         Follow(g, g[i.prod].left, a)
  }

  ghost predicate CoresReachable(g: Productions, cs: set<Core>) {
    forall c | c in cs && c.prod < |g| :: Reachable(g, g[c.prod].left)
  }

  lemma {:induction false} ReachableNext(g: Productions, n: nat, p: nat, i: nat)
    requires StandsAt(g, n, p, i) && Reachable(g, g[p].left)
    ensures Reachable(g, n)
  {
    var d: nat :| ReachableWithin(g, g[p].left, d);
    assert ReachableWithin(g, n, d + 1);
  }

  lemma {:induction false} ClosureReachable(g: Productions, kernel: set<Core>, cl: set<Core>)
    requires IsClosure(g, kernel, cl) && CoresReachable(g, kernel)
    ensures CoresReachable(g, cl)
  {
    var reached := set c | c in cl && (c.prod < |g| ==> Reachable(g, g[c.prod].left));
    forall c, q: nat | c in reached && q < |g| && DotBefore(g, c, N(g[q].left)) ensures Core(q, 0) in reached {
      assert c in cl;
      ReachableNext(g, g[q].left, c.prod, c.pos);
    }
    assert Closed(g, reached);
    assert cl <= reached;
  }

  lemma {:induction false} FollowInherited(g: Productions, n: nat, a: nat, p: nat, i: nat)
    requires VanishesBehind(g, n, p, i) && Follow(g, g[p].left, a)
    ensures Follow(g, n, a)
  {
    var d: nat :| FollowWithin(g, g[p].left, a, d);
    assert FollowWithin(g, n, a, d + 1);
  }

  lemma {:induction false} NodeSeedFollows(g: Productions, nofTerminals: nat, inv: seq<set<nat>>, nodes: NodeMap,
                                           cl: set<Core>, n: nat, a: nat)
    requires NodesOk(g, nofTerminals, inv, nodes) && CoresReachable(g, cl) && (n, a) in NodeSeeds(g, inv, nodes, cl)
    ensures Follow(g, n, a)
  {
    var c :| c in cl && ExpectsNode(g, nodes, c) && nodes[(c.prod, c.pos)].handle < |inv|
        && a in inv[nodes[(c.prod, c.pos)].handle]
             && g[c.prod].right[c.pos].n == n;
    assert NodeOk(g, nofTerminals, inv, nodes, c.prod, c.pos);
    assert FollowBy(g, n, a, c.prod, c.pos);
    assert FollowWithin(g, n, a, 0);
  }

  lemma {:induction false} EdgeFollows(g: Productions, nofTerminals: nat, inv: seq<set<nat>>, nodes: NodeMap,
                                       cl: set<Core>, e: (nat, nat), a: nat)
    requires NodesOk(g, nofTerminals, inv, nodes) && e in Edges(g, nodes, cl) && Follow(g, e.0, a)
    ensures Follow(g, e.1, a)
  {
    var c :| c in cl && ExpectsNode(g, nodes, c) && nodes[(c.prod, c.pos)].inherit
        && e == (g[c.prod].left, g[c.prod].right[c.pos].n);
    assert NodeOk(g, nofTerminals, inv, nodes, c.prod, c.pos);
    FollowInherited(g, e.1, a, c.prod, c.pos);
  }

  lemma {:induction false} ClosureInFollow(g: Productions, nofTerminals: nat, inv: seq<set<nat>>, nodes: NodeMap,
                                           ts: set<Item>, rt: set<Item>)
    requires NodesOk(g, nofTerminals, inv, nodes) && ItemsKnown(g, inv, ts) && InFollow(g, inv, ts)
        && IsLr1Closure(g, inv, nodes, ts, rt)
    ensures InFollow(g, inv, rt)
  {
    var fo :| Lr1ClosureBy(g, inv, nodes, ts, rt, fo);
    ClosureReachable(g, CoresOf(ts), CoresOf(rt));
    var seeds, edges := Seeds(g, inv, nodes, ts, CoresOf(rt)), Edges(g, nodes, CoresOf(rt));
    var allowed := set p | p in FollowsOf(inv, fo) && Follow(g, p.0, p.1);
    forall p | p in seeds ensures p in allowed { SeedFollows(g, nofTerminals, inv, nodes, ts, CoresOf(rt), p); }
    forall e, a: nat | e in edges && (e.0, a) in allowed ensures (e.1, a) in allowed {
      EdgeFollows(g, nofTerminals, inv, nodes, CoresOf(rt), e, a);
    }
    assert Solves(seeds, edges, allowed);
    forall i | i in rt && i.prod < |g| ensures Reachable(g, g[i.prod].left) { assert CoreOf(i) in CoresOf(rt); }
    forall i, a: nat | i in rt && i.prod < |g| && LookIn(inv, i, a) ensures Follow(g, g[i.prod].left, a) {
      assert (g[i.prod].left, a) in FollowsOf(inv, fo);
    }
  }

  lemma {:induction false} SeedFollows(g: Productions, nofTerminals: nat, inv: seq<set<nat>>, nodes: NodeMap,
                                       ts: set<Item>, cl: set<Core>, p: (nat, nat))
    requires NodesOk(g, nofTerminals, inv, nodes) && InFollow(g, inv, ts) && CoresReachable(g, cl)
        && p in Seeds(g, inv, nodes, ts, cl)
    ensures Follow(g, p.0, p.1)
  {
    if p in InheritedSeeds(g, inv, ts) {
      var i :| i in ts && i.prod < |g| && i.follow < |inv| && p.1 in inv[i.follow] && g[i.prod].left == p.0;
      assert LookIn(inv, i, p.1);
    } else {
      NodeSeedFollows(g, nofTerminals, inv, nodes, cl, p.0, p.1);
    }
  }

  lemma {:induction false} GotoInFollow(g: Productions, inv: seq<set<nat>>, s: set<Item>, x: Symbol)
    requires InFollow(g, inv, s)
    ensures InFollow(g, inv, GotoItems(g, s, x))
  {
    forall i | i in GotoItems(g, s, x) && i.prod < |g|
      ensures Reachable(g, g[i.prod].left) && forall a: nat | LookIn(inv, i, a) :: Follow(g, g[i.prod].left, a)
    {
      var j :| j in s && DotBefore(g, CoreOf(j), x) && i == Item(j.prod, j.pos + 1, j.follow);
      assert forall a :: LookIn(inv, i, a) <==> LookIn(inv, j, a);
    }
  }

  lemma {:induction false} StartInFollow(g: Productions, nofTerminals: nat, inv: seq<set<nat>>)
    requires WellFormed(g, nofTerminals) && SetsOk(nofTerminals, inv)
    ensures InFollow(g, inv, START)
  {
    assert ReachableWithin(g, 1, 0) && FollowWithin(g, 1, 0, 0);
  }

  lemma {:induction false} Lr1StatesInFollow(g: Productions, nofTerminals: nat, m: Merge, k: nat)
    requires MergeOk(g, nofTerminals, m) && k < |m.a1.states|
    ensures InFollow(g, m.inv0, m.a1.states[k])
    decreases k
  {
    var ts := START;
    if k > 0 {
      assert HasOrigin(true, g, m.inv0, m.nodes, m.a1.states, k);
      var j, x :| 0 <= j < k && IsGoto(true, g, m.inv0, m.nodes, m.a1.states[j], x, m.a1.states[k]);
      Lr1StatesInFollow(g, nofTerminals, m, j);
      assert m.a1.states[j] in m.a1.states && KnownState(true, g, m.inv0, m.a1.states[j]);
      ts := GotoItems(g, m.a1.states[j], x);
      GotoInFollow(g, m.inv0, m.a1.states[j], x);
    } else {
      StartInFollow(g, nofTerminals, m.inv0);
    }
    ClosureInFollow(g, nofTerminals, m.inv0, m.nodes, ts, m.a1.states[k]);
  }

  /** Every lookahead of a merged state is in FOLLOW of the item's head. */
  lemma {:induction false} MergedLookaheadsInFollow(g: Productions, nofTerminals: nat, m: Merge, n: nat, c: Core,
                                                    a: nat)
    requires MergeOk(g, nofTerminals, m) && n in m.states && HasLook(m.inv, m.states[n], c, a)
    ensures c.prod < |g| && Follow(g, g[c.prod].left, a)
  {
    var s := LookFromLr1(g, nofTerminals, m, n, c, a);
    var k :| 0 <= k < |m.a1.states| && m.a1.states[k] == s;
    Lr1StatesInFollow(g, nofTerminals, m, k);
    var i :| i in s && CoreOf(i) == c && LookIn(m.inv0, i, a);
    assert InRange(g, CoreOf(i));
  }

  // ---------------------------------------------------------------- over all states the lookaheads are FOLLOW

  /** Moving the dot to position pos, with the lookahead if there is one. */
  lemma {:induction false} CoreMoved(g: Productions, nofTerminals: nat, m: Merge, k: nat, p: nat, pos: nat)
    returns (n: nat)
    requires MergeOk(g, nofTerminals, m) && k in m.states && Core(p, 0) in CoresOf(m.states[k]) && p < |g|
        && pos <= |g[p].right|
    ensures n in m.states && Core(p, pos) in CoresOf(m.states[n])
    ensures forall a | HasLook(m.inv, m.states[k], Core(p, 0), a) :: HasLook(m.inv, m.states[n], Core(p, pos), a)
    decreases pos
  {
    n := k;
    if pos > 0 {
      var j := CoreMoved(g, nofTerminals, m, k, p, pos - 1);
      var x := g[p].right[pos - 1];
      n := CoreStepped(g, nofTerminals, m, j, Core(p, pos - 1), x);
      forall a | HasLook(m.inv, m.states[k], Core(p, 0), a) ensures HasLook(m.inv, m.states[n], Core(p, pos), a) {
        MergedGoto(g, nofTerminals, m, j, x, n, Core(p, pos - 1), a);
      }
    }
  }

  lemma {:induction false} CoreStepped(g: Productions, nofTerminals: nat, m: Merge, j: nat, c: Core, x: Symbol)
    returns (n: nat)
    requires MergeOk(g, nofTerminals, m) && j in m.states && c in CoresOf(m.states[j]) && DotBefore(g, c, x)
    ensures GotoNumber(g, m, j, x, n) && n in m.states && Advance(c) in CoresOf(m.states[n])
  {
    var i :| i in m.states[j] && CoreOf(i) == c;
    assert x in GotoSymbols(g, m.states[j]);
    n := Lr0Goto(g, nofTerminals, m, j, x);
    KernelOfSuccessor(g, nofTerminals, m, j, x, n);
    assert Advance(c) in SuccessorCores(g, m.states[j], x);
  }

  lemma {:induction false} FrontBroughtIn(g: Productions, nofTerminals: nat, m: Merge, n: nat, c: Core, q: nat)
    requires MergeOk(g, nofTerminals, m) && n in m.states && c in CoresOf(m.states[n]) && q < |g|
        && DotBefore(g, c, N(g[q].left))
    ensures Core(q, 0) in CoresOf(m.states[n])
  {
    var s := CoreFromLr1(g, nofTerminals, m, n);
    Lr1StateIsOk(g, nofTerminals, m, s);
    var ts :| ItemsKnown(g, m.inv0, ts) && IsLr1Closure(g, m.inv0, m.nodes, ts, s);
    var fo :| Lr1ClosureBy(g, m.inv0, m.nodes, ts, s, fo);
  }

  /** Every reachable production is begun in some state. */
  lemma {:induction false} FrontReached(g: Productions, nofTerminals: nat, m: Merge, q: nat, d: nat) returns (n: nat)
    requires MergeOk(g, nofTerminals, m) && q < |g| && ReachableWithin(g, g[q].left, d)
    ensures n in m.states && Core(q, 0) in CoresOf(m.states[n])
    decreases d
  {
    if g[q].left == 1 {
      MergedStart(g, nofTerminals, m);
      n := 1;
    } else {
      var p: nat, i: nat :| StandsAt(g, g[q].left, p, i) && ReachableWithin(g, g[p].left, d - 1);
      var k := FrontReached(g, nofTerminals, m, p, d - 1);
      n := CoreMoved(g, nofTerminals, m, k, p, i);
      FrontBroughtIn(g, nofTerminals, m, n, Core(p, i), q);
    }
  }

  lemma {:induction false} FollowReached(g: Productions, nofTerminals: nat, m: Merge, q: nat, a: nat, d: nat)
    returns (n: nat)
    requires MergeOk(g, nofTerminals, m) && q < |g| && FollowWithin(g, g[q].left, a, d)
    ensures n in m.states && HasLook(m.inv, m.states[n], Core(q, 0), a)
    decreases d
  {
    if g[q].left == 1 && a == 0 {
      MergedStart(g, nofTerminals, m);
      n := 1;
    } else {
      var p: nat, i: nat :| FollowBy(g, g[q].left, a, p, i)
          || (d > 0 && VanishesBehind(g, g[q].left, p, i) && FollowWithin(g, g[p].left, a, d - 1));
      if FollowBy(g, g[q].left, a, p, i) {
        var d': nat :| ReachableWithin(g, g[p].left, d');
        var k := FrontReached(g, nofTerminals, m, p, d');
        n := CoreMoved(g, nofTerminals, m, k, p, i);
        MergedFirst(g, nofTerminals, m, n, Core(p, i), q, a);
      } else {
        var k := FollowReached(g, nofTerminals, m, p, a, d - 1);
        var j :| j in m.states[k] && CoreOf(j) == Core(p, 0);
        n := CoreMoved(g, nofTerminals, m, k, p, i);
        MergedClosure(g, nofTerminals, m, n, Core(p, i), a, q, a);
      }
    }
  }

  /** Some state has the lookahead on an item of the production p. */
  ghost predicate IsLookahead(m: Merge, p: nat, a: nat) {
    exists n, c :: n in m.states && HasLook(m.inv, m.states[n], c, a) && c.prod == p
  }

  /** Over all states, the lookaheads of a production are exactly FOLLOW of its head. */
  lemma {:induction false} LookaheadsAreFollow(g: Productions, nofTerminals: nat, m: Merge, p: nat, a: nat)
    requires MergeOk(g, nofTerminals, m) && p < |g|
    ensures IsLookahead(m, p, a) <==> Follow(g, g[p].left, a)
  {
    if IsLookahead(m, p, a) {
      var n, c :| n in m.states && HasLook(m.inv, m.states[n], c, a) && c.prod == p;
      MergedLookaheadsInFollow(g, nofTerminals, m, n, c, a);
    }
    if Follow(g, g[p].left, a) {
      var d: nat :| FollowWithin(g, g[p].left, a, d);
      var n := FollowReached(g, nofTerminals, m, p, a, d);
    }
  }

  // ---------------------------------------------------------------- the end marker as a lookahead

  ghost predicate EndsWithin(g: Productions, n: nat, d: nat)
    decreases d
  {
    n == 1 || (d > 0 && exists p: nat, i: nat :: VanishesBehind(g, n, p, i) && EndsWithin(g, g[p].left, d - 1))
  }

  /** The nonterminal can stand at the end of a sentential form: the end marker is in its FOLLOW. */
  ghost predicate CanEnd(g: Productions, n: nat) {
    exists d: nat :: EndsWithin(g, n, d)
  }

  /** Wherever FIRST of a rest has the end marker, the nonterminal in front of it can end a sentential form. */
  ghost predicate EndMarkersProper(g: Productions) {
    forall n: nat, p: nat, i: nat | FollowBy(g, n, 0, p, i) :: CanEnd(g, n)
  }

  lemma {:induction false} CanEndNext(g: Productions, n: nat, p: nat, i: nat)
    requires VanishesBehind(g, n, p, i) && CanEnd(g, g[p].left)
    ensures CanEnd(g, n)
  {
    var d: nat :| EndsWithin(g, g[p].left, d);
    assert EndsWithin(g, n, d + 1);
  }

  lemma {:induction false} ProperFollowEnds(g: Productions, n: nat, d: nat)
    requires EndMarkersProper(g) && FollowWithin(g, n, 0, d)
    ensures CanEnd(g, n)
    decreases d
  {
    if n == 1 {
      assert EndsWithin(g, n, 0);
    } else {
      var p: nat, i: nat :| FollowBy(g, n, 0, p, i)
          || (d > 0 && VanishesBehind(g, n, p, i) && FollowWithin(g, g[p].left, 0, d - 1));
      if !FollowBy(g, n, 0, p, i) {
        ProperFollowEnds(g, g[p].left, d - 1);
        CanEndNext(g, n, p, i);
      }
    }
  }

  /** What can end a sentential form has the end marker as a lookahead, so none is missing. */
  lemma {:induction false} EndsAreFollowed(g: Productions, n: nat, d: nat)
    requires EndsWithin(g, n, d)
    ensures Follow(g, n, 0)
    decreases d
  {
    if n == 1 {
      assert FollowWithin(g, n, 0, 0);
    } else {
      var p: nat, i: nat :| VanishesBehind(g, n, p, i) && EndsWithin(g, g[p].left, d - 1);
      EndsAreFollowed(g, g[p].left, d - 1);
      FollowInherited(g, n, 0, p, i);
    }
  }

  /** The end marker is a lookahead of exactly the productions whose heads can end a sentential form,
      if and only if the grammar is such that no rest has it in FIRST elsewhere. */
  lemma {:induction false} EndLookaheadsExact(g: Productions, nofTerminals: nat, m: Merge)
    requires MergeOk(g, nofTerminals, m)
    ensures (forall p | 0 <= p < |g| :: IsLookahead(m, p, 0) <==> CanEnd(g, g[p].left)) <==> EndMarkersProper(g)
  {
    forall p: nat | p < |g| ensures IsLookahead(m, p, 0) <==> Follow(g, g[p].left, 0) {
      LookaheadsAreFollow(g, nofTerminals, m, p, 0);
    }
    forall n: nat | CanEnd(g, n) ensures Follow(g, n, 0) {
      var d: nat :| EndsWithin(g, n, d);
      EndsAreFollowed(g, n, d);
    }
    if EndMarkersProper(g) {
      forall n: nat | Follow(g, n, 0) ensures CanEnd(g, n) {
        var d: nat :| FollowWithin(g, n, 0, d);
        ProperFollowEnds(g, n, d);
      }
    }
    if forall p | 0 <= p < |g| :: IsLookahead(m, p, 0) <==> CanEnd(g, g[p].left) {
      forall n: nat, p: nat, i: nat | FollowBy(g, n, 0, p, i) ensures CanEnd(g, n) {
        assert FollowWithin(g, n, 0, 0);
        assert SymbolOk(g, nofTerminals, g[p].right[i]);
        var q :| 0 <= q < |g| && g[q].left == n;
      }
    }
  }

  /** A lookahead of a production is one of its complete item in some state. */
  lemma {:induction false} LookaheadReduces(g: Productions, nofTerminals: nat, m: Merge, p: nat, a: nat)
    returns (n: nat)
    requires MergeOk(g, nofTerminals, m) && p < |g| && IsLookahead(m, p, a)
    ensures n in m.states && HasLook(m.inv, m.states[n], Core(p, |g[p].right|), a)
  {
    LookaheadsAreFollow(g, nofTerminals, m, p, a);
    var d: nat :| FollowWithin(g, g[p].left, a, d);
    var k := FollowReached(g, nofTerminals, m, p, a, d);
    var i :| i in m.states[k] && CoreOf(i) == Core(p, 0);
    n := CoreMoved(g, nofTerminals, m, k, p, |g[p].right|);
  }

  /** The complete items with the end marker, wherever they meet others, are those of productions whose heads can end a
      sentential form, if and only if the grammar is proper in this sense. */
  lemma {:induction false} EndReductionsExact(g: Productions, nofTerminals: nat, m: Merge)
    requires MergeOk(g, nofTerminals, m)
    ensures EndMarkersProper(g) <==>
            forall n, p: nat | n in m.states && p < |g| && HasLook(m.inv, m.states[n], Core(p, |g[p].right|), 0) ::
                CanEnd(g, g[p].left)
  {
    EndLookaheadsExact(g, nofTerminals, m);
    if EndMarkersProper(g) {
      forall n, p: nat | n in m.states && p < |g| && HasLook(m.inv, m.states[n], Core(p, |g[p].right|), 0)
          ensures CanEnd(g, g[p].left) {
        assert IsLookahead(m, p, 0);
      }
    } else {
      var p :| 0 <= p < |g| && !(IsLookahead(m, p, 0) <==> CanEnd(g, g[p].left));
      if CanEnd(g, g[p].left) {
        var d: nat :| EndsWithin(g, g[p].left, d);
        EndsAreFollowed(g, g[p].left, d);
        LookaheadsAreFollow(g, nofTerminals, m, p, 0);
      } else {
        var n := LookaheadReduces(g, nofTerminals, m, p, 0);
      }
    }
  }

  /** Canonical LR(1) has the end marker only where a sentential form can end. */
  lemma {:induction false} CanonicalEnds(g: Productions, nofTerminals: nat, prefix: seq<Symbol>, c: Core, d: nat)
    requires WellFormed(g, nofTerminals) && Canonical(g, prefix, c, 0, d)
    ensures c.prod < |g| && CanEnd(g, g[c.prod].left)
    decreases d
  {
    if prefix == [] && c == Core(0, 0) {
      assert EndsWithin(g, 1, 0);
    } else if c.pos > 0 {
      CanonicalEnds(g, nofTerminals, prefix[..|prefix| - 1], Core(c.prod, c.pos - 1), d - 1);
    } else {
      var p, b := CanonicalCaller(g, prefix, c, 0, d);
      CanonicalEnds(g, nofTerminals, prefix, p, d - 1);
      CanEndNext(g, g[c.prod].left, p.prod, p.pos);
    }
  }

  // ---------------------------------------------------------------- there is an accept state

  lemma {:induction false} AcceptStateExists(g: Productions, nofTerminals: nat, m: Merge) returns (n: nat)
    requires MergeOk(g, nofTerminals, m)
    ensures n in m.states && Item(0, |g[0].right|, 0) in m.states[n]
  {
    MergedStart(g, nofTerminals, m);
    var j :| j in m.states[1] && CoreOf(j) == Core(0, 0);
    n := CoreMoved(g, nofTerminals, m, 1, 0, |g[0].right|);
    var i :| i in m.states[n] && CoreOf(i) == Core(0, |g[0].right|);
    MergedStartFollow(g, nofTerminals, m, n, i);
  }
}
