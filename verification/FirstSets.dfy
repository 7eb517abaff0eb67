/** Nullable nonterminals and FIRST sets, proved against parse trees. */
module FirstSets {
  import opened Grammar
  import opened BuildErrors

  ghost predicate Nullable(g: Productions, n: nat) {
    exists t: Tree :: EmptyTree(g, n, t)
  }

  ghost predicate EmptyTree(g: Productions, n: nat, t: Tree) {
    Valid(g, t) && Root(g, t) == N(n) && Frontier(t) == []
  }

  /** The nonterminal derives a sentential form that starts with the terminal. */
  ghost predicate First(g: Productions, n: nat, a: nat) {
    exists t: Tree :: StartTree(g, n, a, t)
  }

  ghost predicate StartTree(g: Productions, n: nat, a: nat, t: Tree) {
    Valid(g, t) && Root(g, t) == N(n) && Frontier(t) != [] && Frontier(t)[0] == T(a)
  }

  ghost predicate NullableSymbol(g: Productions, s: Symbol) {
    s.N? && Nullable(g, s.n)
  }

  ghost predicate NullableSeq(g: Productions, syms: seq<Symbol>) {
    forall s | s in syms :: NullableSymbol(g, s)
  }

  /** In a production of n, a nonterminal stands behind elements that can all vanish. */
  ghost predicate LeadsOn(g: Productions, n: nat, p: nat, i: nat) {
    p < |g| && g[p].left == n && i < |g[p].right| && g[p].right[i].N? && NullableSeq(g, g[p].right[..i])
  }

  ghost predicate EndWithin(g: Productions, n: nat, d: nat)
    decreases d
  {
    Nullable(g, n) || (d > 0 && exists p: nat, i: nat :: LeadsOn(g, n, p, i) && EndWithin(g, g[p].right[i].n, d - 1))
  }

  /** From n, a nonterminal that can vanish is reached over elements behind vanishing ones only.
      These are the nonterminals with the end marker in their FIRST set, and not all of them can vanish. */
  ghost predicate EndMarked(g: Productions, n: nat) {
    exists d: nat :: EndWithin(g, n, d)
  }

  /** The content of the FIRST sets: textbook FIRST for terminals, and the rule above for the end marker. */
  ghost predicate InFirst(g: Productions, n: nat, a: nat) {
    if a == 0 then EndMarked(g, n) else First(g, n, a)
  }

  ghost predicate FirstSymbol(g: Productions, s: Symbol, a: nat) {
    s == T(a) || (s.N? && InFirst(g, s.n, a))
  }

  /** FIRST of a symbol string. */
  ghost predicate FirstSeq(g: Productions, syms: seq<Symbol>, a: nat) {
    exists i :: 0 <= i < |syms| && FirstAt(g, syms, i, a)
  }

  ghost predicate FirstAt(g: Productions, syms: seq<Symbol>, i: nat, a: nat)
    requires i < |syms|
  {
    NullableSeq(g, syms[..i]) && FirstSymbol(g, syms[i], a)
  }

  // ---------------------------------------------------------------- forests

  lemma {:induction false} ForestCons(g: Productions, t: Tree, ts: seq<Tree>, syms: seq<Symbol>)
    requires Valid(g, t) && ValidAll(g, ts) && syms != [] && Root(g, t) == syms[0] && Roots(g, ts) == syms[1..]
    ensures ValidAll(g, [t] + ts) && Roots(g, [t] + ts) == syms
    ensures FrontierAll([t] + ts) == Frontier(t) + FrontierAll(ts)
  {
    assert ([t] + ts)[1..] == ts;
    assert Roots(g, [t] + ts) == [Root(g, t)] + Roots(g, ts);
  }

  /** Some forest over the symbols, each left as a leaf. */
  lemma {:induction false} LeafForest(g: Productions, syms: seq<Symbol>) returns (ts: seq<Tree>)
    ensures ValidAll(g, ts) && Roots(g, ts) == syms && FrontierAll(ts) == syms
    decreases |syms|
  {
    if syms == [] {
      ts := [];
    } else {
      ts := LeafForest(g, syms[1..]);
      ForestCons(g, Leaf(syms[0]), ts, syms);
      ts := [Leaf(syms[0])] + ts;
    }
  }

  lemma {:induction false} EmptyForest(g: Productions, syms: seq<Symbol>) returns (ts: seq<Tree>)
    requires NullableSeq(g, syms)
    ensures ValidAll(g, ts) && Roots(g, ts) == syms && FrontierAll(ts) == []
    decreases |syms|
  {
    if syms == [] {
      ts := [];
    } else {
      assert syms[0] in syms;
      var t :| EmptyTree(g, syms[0].n, t);
      ts := EmptyForest(g, syms[1..]);
      ForestCons(g, t, ts, syms);
      ts := [t] + ts;
    }
  }

  lemma {:induction false} SymbolTree(g: Productions, s: Symbol, a: nat) returns (t: Tree)
    requires FirstSymbol(g, s, a) && a != 0
    ensures Valid(g, t) && Root(g, t) == s && Frontier(t) != [] && Frontier(t)[0] == T(a)
  {
    if s == T(a) {
      t := Leaf(s);
    } else {
      t :| StartTree(g, s.n, a, t);
    }
  }

  lemma {:induction false} StartForest(g: Productions, syms: seq<Symbol>, i: nat, a: nat) returns (ts: seq<Tree>)
    requires i < |syms| && FirstAt(g, syms, i, a) && a != 0
    ensures ValidAll(g, ts) && Roots(g, ts) == syms && FrontierAll(ts) != [] && FrontierAll(ts)[0] == T(a)
    decreases i
  {
    if i == 0 {
      var t := SymbolTree(g, syms[0], a);
      ts := LeafForest(g, syms[1..]);
      ForestCons(g, t, ts, syms);
      ts := [t] + ts;
    } else {
      assert syms[..i][0] in syms[..i];
      var t :| EmptyTree(g, syms[0].n, t);
      NullableTail(g, syms, i);
      ts := StartForest(g, syms[1..], i - 1, a);
      ForestCons(g, t, ts, syms);
      ts := [t] + ts;
    }
  }

  lemma {:induction false} NullableTail(g: Productions, syms: seq<Symbol>, i: nat)
    requires 0 < i <= |syms| && NullableSeq(g, syms[..i])
    ensures NullableSeq(g, syms[1..][..i - 1])
  {
    forall s | s in syms[1..][..i - 1] ensures NullableSymbol(g, s) { assert s in syms[..i]; }
  }

  /** A production whose right side is nullable, or starts with a, makes its head so. */
  lemma {:induction false} NullableByProduction(g: Productions, p: nat)
    requires p < |g| && NullableSeq(g, g[p].right)
    ensures Nullable(g, g[p].left)
  {
    var ts := EmptyForest(g, g[p].right);
    assert EmptyTree(g, g[p].left, Node(p, ts));
  }

  lemma {:induction false} FirstByProduction(g: Productions, p: nat, i: nat, a: nat)
    requires p < |g| && i < |g[p].right| && FirstAt(g, g[p].right, i, a)
    requires g[p].right[i] != T(0)
    ensures InFirst(g, g[p].left, a)
  {
    if a == 0 {
      var n := g[p].right[i].n;
      var d: nat :| EndWithin(g, n, d);
      assert LeadsOn(g, g[p].left, p, i);
      assert EndWithin(g, g[p].left, d + 1);
    } else {
      var ts := StartForest(g, g[p].right, i, a);
      assert StartTree(g, g[p].left, a, Node(p, ts));
    }
  }

  /** A forest with an empty frontier has nullable roots; otherwise its first terminal is in FIRST of its roots. */
  lemma {:induction false} ForestNullable(g: Productions, ts: seq<Tree>)
    requires ValidAll(g, ts) && FrontierAll(ts) == []
    ensures NullableSeq(g, Roots(g, ts))
    decreases |ts|
  {
    if ts != [] {
      assert ts[0] in ts;
      assert ValidAll(g, ts[1..]) by { forall t | t in ts[1..] ensures Valid(g, t) { assert t in ts; } }
      ForestNullable(g, ts[1..]);
      assert Frontier(ts[0]) == [];
      RootOfNode(g, ts[0]);
      assert EmptyTree(g, Root(g, ts[0]).n, ts[0]);
      assert Roots(g, ts) == [Root(g, ts[0])] + Roots(g, ts[1..]);
    }
  }

  lemma {:induction false} RootOfNode(g: Productions, t: Tree)
    requires Valid(g, t)
    ensures t.Leaf? ==> Frontier(t) == [t.sym]
    ensures t.Node? ==> Root(g, t) == N(g[t.prod].left)
  {
  }

  lemma {:induction false} ForestFirst(g: Productions, ts: seq<Tree>, a: nat)
    requires ValidAll(g, ts) && FrontierAll(ts) != [] && FrontierAll(ts)[0] == T(a) && a != 0
    ensures FirstSeq(g, Roots(g, ts), a)
    decreases |ts|
  {
    assert ts[0] in ts;
    var syms := Roots(g, ts);
    RootOfNode(g, ts[0]);
    if Frontier(ts[0]) != [] {
      if ts[0].Node? { assert StartTree(g, g[ts[0].prod].left, a, ts[0]); }
      assert FirstAt(g, syms, 0, a);
    } else {
      assert EmptyTree(g, syms[0].n, ts[0]);
      assert ValidAll(g, ts[1..]) by { forall t | t in ts[1..] ensures Valid(g, t) { assert t in ts; } }
      ForestFirst(g, ts[1..], a);
      assert Roots(g, ts[1..]) == syms[1..];
      var i :| 0 <= i < |syms[1..]| && FirstAt(g, syms[1..], i, a);
      assert syms[..i + 1] == [syms[0]] + syms[1..][..i];
      assert FirstAt(g, syms, i + 1, a);
    }
  }

  // ---------------------------------------------------------------- getNullableNonterminalSet

  predicate AllIn(syms: seq<Symbol>, rt: set<nat>) {
    forall s | s in syms :: s.N? && s.n in rt
  }

  ghost predicate NullableClosed(g: Productions, upTo: nat, rt: set<nat>)
    requires upTo <= |g|
  {
    forall p :: 0 <= p < upTo && AllIn(g[p].right, rt) ==> g[p].left in rt
  }

  lemma {:induction false} ClosedCoversTree(g: Productions, rt: set<nat>, t: Tree)
    requires NullableClosed(g, |g|, rt) && Valid(g, t) && Frontier(t) == []
    ensures t.Node? && g[t.prod].left in rt
    decreases t, 1, 0
  {
    ClosedCoversForest(g, rt, t.kids);
  }

  lemma {:induction false} ClosedCoversForest(g: Productions, rt: set<nat>, ts: seq<Tree>)
    requires NullableClosed(g, |g|, rt) && ValidAll(g, ts) && FrontierAll(ts) == []
    ensures AllIn(Roots(g, ts), rt)
    decreases ts, 0, |ts|
  {
    if ts != [] {
      assert ts[0] in ts;
      assert ValidAll(g, ts[1..]) by { forall t | t in ts[1..] ensures Valid(g, t) { assert t in ts; } }
      ClosedCoversTree(g, rt, ts[0]);
      ClosedCoversForest(g, rt, ts[1..]);
      assert Roots(g, ts) == [Root(g, ts[0])] + Roots(g, ts[1..]);
    }
  }

  function Heads(g: Productions): set<nat> {
    set p | 0 <= p < |g| :: g[p].left
  }

  /** The scan over a right side: does it consist of nonterminals already in the set? */
  method ScanNullable(right: seq<Symbol>, rt: set<nat>) returns (all: bool)
    ensures all <==> AllIn(right, rt)
  {
    var ei := 0;
    while ei != |right| && right[ei].N? && right[ei].n in rt
      invariant 0 <= ei <= |right|
      invariant AllIn(right[..ei], rt)
    {
      assert right[..ei + 1] == right[..ei] + [right[ei]];
      ei := ei + 1;
    }
    assert right[..|right|] == right;
    assert ei < |right| ==> right[ei] in right;
    all := ei == |right|;
  }

  lemma {:induction false} AllInNullable(g: Productions, rt: set<nat>, p: nat)
    requires p < |g| && AllIn(g[p].right, rt) && forall n | n in rt :: Nullable(g, n)
    ensures Nullable(g, g[p].left)
  {
    NullableByProduction(g, p);
  }

  method GetNullableNonterminalSet(g: Productions) returns (rt: set<nat>)
    ensures forall n: nat :: n in rt <==> Nullable(g, n)
  {
    rt := {};
    var changed := true;
    while changed
      invariant forall n | n in rt :: Nullable(g, n)
      invariant rt <= Heads(g)
      invariant !changed ==> NullableClosed(g, |g|, rt)
      decreases Heads(g) - rt, changed
    {
      changed := false;
      ghost var before := rt;
      for p := 0 to |g|
        invariant forall n | n in rt :: Nullable(g, n)
        invariant before <= rt <= Heads(g)
        invariant changed <==> rt != before
        invariant !changed ==> NullableClosed(g, p, rt)
      {
        var all := ScanNullable(g[p].right, rt);
        if all {
          AllInNullable(g, rt, p);
          changed := changed || g[p].left !in rt;
          rt := rt + {g[p].left};
        }
      }
      assert rt != before ==> Heads(g) - rt < Heads(g) - before;
    }
    forall n: nat | Nullable(g, n) ensures n in rt {
      var t :| EmptyTree(g, n, t);
      ClosedCoversTree(g, rt, t);
    }
  }

  // ---------------------------------------------------------------- getNonTerminalFirstSetMap

  type FirstMap = map<nat, set<nat>>

  function Content(rt: FirstMap, n: nat): set<nat> {
    if n in rt then rt[n] else {}
  }

  /** What one pass over element i of production p establishes. */
  ghost predicate FirstClosedAt(g: Productions, nullable: set<nat>, rt: FirstMap, p: nat, i: nat)
    requires p < |g| && i < |g[p].right|
  {
    AllIn(g[p].right[..i], nullable) ==>
      match g[p].right[i]
      case T(a) => a in Content(rt, g[p].left)
      case N(n) => Content(rt, n) <= Content(rt, g[p].left)
  }

  ghost predicate FirstClosed(g: Productions, nullable: set<nat>, rt: FirstMap, upTo: nat)
    requires upTo <= |g|
  {
    forall p, i {:trigger FirstClosedAt(g, nullable, rt, p, i)} ::
      0 <= p < upTo && 0 <= i < |g[p].right| ==> FirstClosedAt(g, nullable, rt, p, i)
  }

  ghost predicate FirstSound(g: Productions, nofTerminals: nat, rt: FirstMap) {
    forall n, a | n in rt && a in rt[n] :: a <= nofTerminals && InFirst(g, n, a)
  }

  ghost predicate NullableExact(g: Productions, nullable: set<nat>) {
    forall n: nat :: n in nullable <==> Nullable(g, n)
  }

  predicate Grows(a: FirstMap, b: FirstMap) {
    a.Keys <= b.Keys && forall n | n in a :: a[n] <= b[n]
  }

  predicate SameContent(a: FirstMap, b: FirstMap) {
    forall n | n in b :: Content(a, n) == b[n]
  }

  function Pairs(rt: FirstMap): set<(nat, nat)> {
    set n, a | n in rt && a in rt[n] :: (n, a)
  }

  /** A pass that reports a change has filled in something, or met a nonterminal with no entry yet. */
  ghost predicate Progress(g: Productions, before: FirstMap, after: FirstMap) {
    || Pairs(before) < Pairs(after)
    || exists n: nat :: n !in before && HasProduction(g, n)
  }

  lemma {:induction false} GrowsPairs(a: FirstMap, b: FirstMap)
    requires Grows(a, b)
    ensures Pairs(a) <= Pairs(b)
    ensures !SameContent(a, b) ==> Pairs(a) < Pairs(b)
  {
    if !SameContent(a, b) {
      var n :| n in b && Content(a, n) != b[n];
      var x :| x in b[n] && x !in Content(a, n);
      assert (n, x) in Pairs(b) && (n, x) !in Pairs(a);
    }
  }

  lemma {:induction false} FirstElementSound(g: Productions, nofTerminals: nat, nullable: set<nat>, rt: FirstMap,
                                             p: nat, i: nat)
    requires WellFormed(g, nofTerminals) && NullableExact(g, nullable) && FirstSound(g, nofTerminals, rt)
    requires p < |g| && i < |g[p].right| && AllIn(g[p].right[..i], nullable)
    ensures g[p].right[i].T? ==> g[p].right[i].t <= nofTerminals && InFirst(g, g[p].left, g[p].right[i].t)
    ensures g[p].right[i].N? ==> forall a | a in Content(rt, g[p].right[i].n) :: InFirst(g, g[p].left, a)
    ensures g[p].right[i].N? ==> HasProduction(g, g[p].right[i].n)
  {
    assert SymbolOk(g, nofTerminals, g[p].right[i]);
    if g[p].right[i].T? {
      assert FirstAt(g, g[p].right, i, g[p].right[i].t);
      FirstByProduction(g, p, i, g[p].right[i].t);
    } else {
      forall a | a in Content(rt, g[p].right[i].n) ensures InFirst(g, g[p].left, a) {
        assert FirstAt(g, g[p].right, i, a);
        FirstByProduction(g, p, i, a);
      }
    }
  }

  /** The contribution of one right-side element to the FIRST set of the head. */
  method AddElement(g: Productions, ghost nofTerminals: nat, nullable: set<nat>, rt: FirstMap, p: nat, i: nat)
    returns (rt': FirstMap, changed: bool)
    requires WellFormed(g, nofTerminals) && NullableExact(g, nullable) && FirstSound(g, nofTerminals, rt)
    requires p < |g| && i < |g[p].right| && AllIn(g[p].right[..i], nullable)
    ensures FirstSound(g, nofTerminals, rt') && Grows(rt, rt') && g[p].left in rt' && rt'.Keys == rt.Keys + {g[p].left}
    ensures !changed ==> SameContent(rt, rt') && FirstClosedAt(g, nullable, rt', p, i)
    ensures changed ==> Progress(g, rt, rt')
  {
    FirstElementSound(g, nofTerminals, nullable, rt, p, i);
    var left := g[p].left;
    match g[p].right[i]
    case T(a) =>
      rt' := rt[left := Content(rt, left) + {a}];
      changed := a !in Content(rt, left);
      GrowsPairs(rt, rt');
      assert rt'[left] == Content(rt, left) + {a};
    case N(n) =>
      if n in rt {
        rt' := rt[left := Content(rt, left) + rt[n]];
        changed := Content(rt, left) != rt'[left];
        GrowsPairs(rt, rt');
      } else {
        rt' := rt[left := Content(rt, left)];
        changed := true;
      }
  }

  lemma {:induction false} ProgressTrans(g: Productions, a: FirstMap, b: FirstMap, c: FirstMap)
    requires Grows(a, b) && Grows(b, c)
    ensures Grows(a, c)
    ensures Progress(g, a, b) || Progress(g, b, c) ==> Progress(g, a, c)
    ensures SameContent(a, b) && SameContent(b, c) ==> SameContent(a, c)
  {
    GrowsPairs(a, b);
    GrowsPairs(b, c);
  }

  /** The state of a pass over the first upTo elements of production p. */
  ghost predicate Added(g: Productions, nofTerminals: nat, nullable: set<nat>, rt: FirstMap, rt': FirstMap, p: nat,
                        upTo: nat, changed: bool)
    requires p < |g| && upTo <= |g[p].right|
  {
    && FirstSound(g, nofTerminals, rt') && Grows(rt, rt')
    && (if changed then Progress(g, rt, rt') else SameContent(rt, rt'))
    && (!changed ==> forall i :: 0 <= i < upTo ==> FirstClosedAt(g, nullable, rt', p, i))
  }

  lemma {:induction false} AddedStep(g: Productions, nofTerminals: nat, nullable: set<nat>, rt: FirstMap,
                                     rt': FirstMap, next: FirstMap, p: nat, ei: nat, changed: bool, more: bool)
    requires p < |g| && ei < |g[p].right| && Added(g, nofTerminals, nullable, rt, rt', p, ei, changed)
    requires FirstSound(g, nofTerminals, next) && Grows(rt', next)
    requires if more then Progress(g, rt', next) else SameContent(rt', next) && FirstClosedAt(g, nullable, next, p, ei)
    ensures Added(g, nofTerminals, nullable, rt, next, p, ei + 1, changed || more)
  {
    ProgressTrans(g, rt, rt', next);
    if !changed { ClosedStays(g, nullable, rt', next, p, ei); }
  }

  /** When the visit stops at an element that cannot vanish, nothing behind it contributes. */
  lemma {:induction false} AddedStop(g: Productions, nofTerminals: nat, nullable: set<nat>, rt: FirstMap,
                                     rt': FirstMap, p: nat, ei: nat, changed: bool)
    requires p < |g| && ei < |g[p].right| && Added(g, nofTerminals, nullable, rt, rt', p, ei + 1, changed)
    requires !(g[p].right[ei].N? && g[p].right[ei].n in nullable)
    ensures Added(g, nofTerminals, nullable, rt, rt', p, |g[p].right|, changed)
    ensures !AllIn(g[p].right, nullable)
  {
    assert g[p].right[ei] in g[p].right[..ei + 1];
    VanishStops(g[p].right, ei, nullable);
    ClosedBehind(g, nullable, rt', p, ei);
  }

  method AddEndMarker(g: Productions, ghost nofTerminals: nat, nullable: set<nat>, rt: FirstMap, rt': FirstMap, p: nat,
                      changed: bool)
    returns (next: FirstMap, changed': bool)
    requires p < |g| && Added(g, nofTerminals, nullable, rt, rt', p, |g[p].right|, changed)
    requires NullableExact(g, nullable) && AllIn(g[p].right, nullable)
    ensures Added(g, nofTerminals, nullable, rt, next, p, |g[p].right|, changed')
    ensures next.Keys == rt'.Keys + {g[p].left} && 0 in next[g[p].left]
  {
    var left := g[p].left;
    AllInNullable(g, nullable, p);
    assert EndWithin(g, left, 0);
    next := rt'[left := Content(rt', left) + {0}];
    changed' := changed || 0 !in Content(rt', left);
    GrowsPairs(rt', next);
    ProgressTrans(g, rt, rt', next);
    if !changed { ClosedStays(g, nullable, rt', next, p, |g[p].right|); }
    assert next[left] == Content(rt', left) + {0};
  }

  /** One production: elements are visited as long as everything before them can vanish. */
  method AddProduction(g: Productions, ghost nofTerminals: nat, nullable: set<nat>, rt: FirstMap, p: nat)
    returns (rt': FirstMap, changed: bool, vanishes: bool)
    requires WellFormed(g, nofTerminals) && NullableExact(g, nullable) && FirstSound(g, nofTerminals, rt)
    requires p < |g|
    ensures Added(g, nofTerminals, nullable, rt, rt', p, |g[p].right|, changed)
    ensures rt'.Keys == rt.Keys + {g[p].left}
    ensures vanishes <==> AllIn(g[p].right, nullable)
    ensures vanishes ==> 0 in rt'[g[p].left]
  {
    var right := g[p].right;
    var ei := 0;
    rt', changed := rt, false;
    while ei != |right|
      invariant 0 <= ei <= |right|
      invariant Added(g, nofTerminals, nullable, rt, rt', p, ei, changed)
      invariant rt'.Keys == if ei > 0 then rt.Keys + {g[p].left} else rt.Keys
      invariant AllIn(right[..ei], nullable)
    {
      var next, more := AddElement(g, nofTerminals, nullable, rt', p, ei);
      AddedStep(g, nofTerminals, nullable, rt, rt', next, p, ei, changed, more);
      rt', changed := next, changed || more;
      if !(right[ei].N? && right[ei].n in nullable) {
        AddedStop(g, nofTerminals, nullable, rt, rt', p, ei, changed);
        return rt', changed, false;
      }
      assert right[..ei + 1] == right[..ei] + [right[ei]];
      ei := ei + 1;
    }
    assert right[..ei] == right;
    rt', changed := AddEndMarker(g, nofTerminals, nullable, rt, rt', p, changed);
    vanishes := true;
  }

  lemma {:induction false} ClosedStays(g: Productions, nullable: set<nat>, a: FirstMap, b: FirstMap, p: nat, upTo: nat)
    requires p < |g| && upTo <= |g[p].right| && Grows(a, b)
    requires forall i :: 0 <= i < upTo ==> FirstClosedAt(g, nullable, a, p, i)
    ensures SameContent(a, b) ==> forall i :: 0 <= i < upTo ==> FirstClosedAt(g, nullable, b, p, i)
  {
    if SameContent(a, b) {
      SameContentEverywhere(a, b);
      forall i | 0 <= i < upTo ensures FirstClosedAt(g, nullable, b, p, i) {
        assert FirstClosedAt(g, nullable, a, p, i);
      }
    }
  }

  lemma {:induction false} SameContentEverywhere(a: FirstMap, b: FirstMap)
    requires Grows(a, b) && SameContent(a, b)
    ensures forall n: nat :: Content(a, n) == Content(b, n)
  {
  }

  lemma {:induction false} VanishStops(right: seq<Symbol>, ei: nat, nullable: set<nat>)
    requires ei < |right| && !AllIn(right[..ei + 1], nullable)
    ensures !AllIn(right, nullable)
    ensures forall i :: ei < i < |right| ==> !AllIn(right[..i], nullable)
  {
    var s :| s in right[..ei + 1] && !(s.N? && s.n in nullable);
    assert s in right;
    forall i | ei < i < |right| ensures !AllIn(right[..i], nullable) {
      assert right[..ei + 1] == right[..i][..ei + 1];
      assert s in right[..i];
    }
  }

  lemma {:induction false} ClosedBehind(g: Productions, nullable: set<nat>, rt: FirstMap, p: nat, ei: nat)
    requires p < |g| && ei < |g[p].right| && !AllIn(g[p].right[..ei + 1], nullable)
    ensures forall i :: ei < i < |g[p].right| ==> FirstClosedAt(g, nullable, rt, p, i)
  {
    VanishStops(g[p].right, ei, nullable);
  }

  lemma {:induction false} ClosedCoversFirst(g: Productions, nullable: set<nat>, rt: FirstMap, t: Tree, a: nat)
    requires NullableExact(g, nullable) && FirstClosed(g, nullable, rt, |g|)
    requires Valid(g, t) && Frontier(t) != [] && Frontier(t)[0] == T(a)
    ensures t.Node? ==> a in Content(rt, g[t.prod].left)
    decreases t, 1, 0
  {
    if t.Node? {
      var i := ClosedCoversForestFirst(g, nullable, rt, t.kids, a);
      assert Roots(g, t.kids)[..i] == g[t.prod].right[..i];
      assert FirstClosedAt(g, nullable, rt, t.prod, i);
    }
  }

  lemma {:induction false} ClosedCoversForestFirst(g: Productions, nullable: set<nat>, rt: FirstMap, ts: seq<Tree>,
                                                   a: nat) returns (i: nat)
    requires NullableExact(g, nullable) && FirstClosed(g, nullable, rt, |g|)
    requires ValidAll(g, ts) && FrontierAll(ts) != [] && FrontierAll(ts)[0] == T(a)
    ensures i < |ts| && AllIn(Roots(g, ts)[..i], nullable)
    ensures match Roots(g, ts)[i] case T(b) => b == a case N(n) => a in Content(rt, n)
    decreases ts, 0, |ts|
  {
    assert ts[0] in ts;
    RootOfNode(g, ts[0]);
    if Frontier(ts[0]) != [] {
      ClosedCoversFirst(g, nullable, rt, ts[0], a);
      i := 0;
    } else {
      assert ValidAll(g, ts[1..]) by { forall t | t in ts[1..] ensures Valid(g, t) { assert t in ts; } }
      i := ClosedCoversForestFirst(g, nullable, rt, ts[1..], a);
      assert EmptyTree(g, Root(g, ts[0]).n, ts[0]);
      assert Roots(g, ts) == [Root(g, ts[0])] + Roots(g, ts[1..]);
      assert Roots(g, ts)[..i + 1] == [Root(g, ts[0])] + Roots(g, ts[1..])[..i];
      i := i + 1;
    }
  }

  function AllPairs(g: Productions, nofTerminals: nat): set<(nat, nat)> {
    set n, a | n in Heads(g) && 0 <= a <= nofTerminals :: (n, a)
  }

  lemma {:induction false} PairsBounded(g: Productions, nofTerminals: nat, rt: FirstMap)
    requires FirstSound(g, nofTerminals, rt) && rt.Keys <= Heads(g)
    ensures Pairs(rt) <= AllPairs(g, nofTerminals)
  {
  }

  ghost predicate HeadsUpTo(g: Productions, p: nat, rt: FirstMap)
    requires p <= |g|
  {
    rt.Keys <= Heads(g) && forall q :: 0 <= q < p ==> g[q].left in rt
  }

  method GetNonTerminalFirstSetMap(g: Productions, ghost nofTerminals: nat, nullable: set<nat>)
    returns (r: Result<FirstMap>)
    requires WellFormed(g, nofTerminals) && NullableExact(g, nullable)
    ensures r.Ok?
    ensures r.value.Keys == Heads(g)
    ensures forall n, a | n in r.value && a in r.value[n] :: a <= nofTerminals
    ensures forall n: nat, a: nat :: a in Content(r.value, n) <==> InFirst(g, n, a)
  {
    var rt: FirstMap := map[];
    var verify: set<nat> := {};
    var changed := true;
    while changed
      invariant FirstSound(g, nofTerminals, rt) && rt.Keys <= Heads(g) && verify <= nullable
      invariant !changed ==> FirstClosed(g, nullable, rt, |g|) && HeadsUpTo(g, |g|, rt)
      invariant !changed ==> VerifiedUpTo(g, |g|, nullable, verify) && EndsUpTo(g, |g|, nullable, rt)
      decreases Heads(g) - rt.Keys, AllPairs(g, nofTerminals) - Pairs(rt), changed
    {
      ghost var before := rt;
      rt, verify, changed := FirstPass(g, nofTerminals, nullable, rt, verify);
      PassDecreases(g, nofTerminals, before, rt, changed);
    }
    HeadsComplete(g, rt);
    VerifiedIsNullable(g, nullable, verify);
    if verify != nullable {
      return Err(LogicError);
    }
    FixpointIsFirst(g, nofTerminals, nullable, rt);
    return Ok(rt);
  }

  ghost predicate VerifiedUpTo(g: Productions, upTo: nat, nullable: set<nat>, verify: set<nat>)
    requires upTo <= |g|
  {
    forall p :: 0 <= p < upTo && AllIn(g[p].right, nullable) ==> g[p].left in verify
  }

  /** The heads of the productions seen so far that can vanish have the end marker. */
  ghost predicate EndsUpTo(g: Productions, upTo: nat, nullable: set<nat>, rt: FirstMap)
    requires upTo <= |g|
  {
    forall p :: 0 <= p < upTo && AllIn(g[p].right, nullable) ==> 0 in Content(rt, g[p].left)
  }

  /** The state of a pass over the first upTo productions. */
  ghost predicate Passed(g: Productions, nofTerminals: nat, nullable: set<nat>, rt0: FirstMap, rt: FirstMap,
                         verify: set<nat>, upTo: nat, changed: bool)
    requires upTo <= |g|
  {
    && FirstSound(g, nofTerminals, rt) && HeadsUpTo(g, upTo, rt) && Grows(rt0, rt)
    && (if changed then Progress(g, rt0, rt) else FirstClosed(g, nullable, rt, upTo))
    && verify <= nullable && VerifiedUpTo(g, upTo, nullable, verify) && EndsUpTo(g, upTo, nullable, rt)
  }

  lemma {:induction false} PassedStep(g: Productions, nofTerminals: nat, nullable: set<nat>, rt0: FirstMap,
                                      rt: FirstMap, next: FirstMap, verify: set<nat>, p: nat, changed: bool,
                                      more: bool, vanishes: bool)
    requires NullableExact(g, nullable) && p < |g| && Passed(g, nofTerminals, nullable, rt0, rt, verify, p, changed)
    requires Added(g, nofTerminals, nullable, rt, next, p, |g[p].right|, more) && next.Keys == rt.Keys + {g[p].left}
    requires (vanishes <==> AllIn(g[p].right, nullable)) && (vanishes ==> 0 in next[g[p].left])
    ensures Passed(g, nofTerminals, nullable, rt0, next, if vanishes then verify + {g[p].left} else
        verify, p + 1, changed || more)
  {
    ProgressTrans(g, rt0, rt, next);
    if !changed && !more {
      FirstClosedExtends(g, nullable, rt, next, p);
    }
    if vanishes {
      AllInNullable(g, nullable, p);
    }
    assert EndsUpTo(g, p + 1, nullable, next) by { EndsStep(g, nullable, rt, next, p); }
  }

  lemma {:induction false} EndsStep(g: Productions, nullable: set<nat>, rt: FirstMap, next: FirstMap, p: nat)
    requires p < |g| && EndsUpTo(g, p, nullable, rt) && Grows(rt, next)
    requires AllIn(g[p].right, nullable) ==> 0 in Content(next, g[p].left)
    ensures EndsUpTo(g, p + 1, nullable, next)
  {
    forall q | 0 <= q < p + 1 && AllIn(g[q].right, nullable) ensures 0 in Content(next, g[q].left) {
      if q < p { assert 0 in Content(rt, g[q].left); }
    }
  }

  /** One pass over all productions. */
  method FirstPass(g: Productions, ghost nofTerminals: nat, nullable: set<nat>, rt0: FirstMap, verify0: set<nat>)
    returns (rt: FirstMap, verify: set<nat>, changed: bool)
    requires WellFormed(g, nofTerminals) && NullableExact(g, nullable)
    requires FirstSound(g, nofTerminals, rt0) && rt0.Keys <= Heads(g) && verify0 <= nullable
    ensures Passed(g, nofTerminals, nullable, rt0, rt, verify, |g|, changed)
  {
    rt, verify, changed := rt0, verify0, false;
    for p := 0 to |g|
      invariant Passed(g, nofTerminals, nullable, rt0, rt, verify, p, changed)
    {
      var next, more, vanishes := AddProduction(g, nofTerminals, nullable, rt, p);
      PassedStep(g, nofTerminals, nullable, rt0, rt, next, verify, p, changed, more, vanishes);
      if vanishes {
        verify := verify + {g[p].left};
      }
      rt, changed := next, changed || more;
    }
  }

  lemma {:induction false} FirstClosedExtends(g: Productions, nullable: set<nat>, a: FirstMap, b: FirstMap, p: nat)
    requires p < |g| && Grows(a, b) && SameContent(a, b) && FirstClosed(g, nullable, a, p)
    requires forall i :: 0 <= i < |g[p].right| ==> FirstClosedAt(g, nullable, b, p, i)
    ensures FirstClosed(g, nullable, b, p + 1)
  {
    SameContentEverywhere(a, b);
    forall q, i | 0 <= q < p + 1 && 0 <= i < |g[q].right| ensures FirstClosedAt(g, nullable, b, q, i) {
      if q < p { assert FirstClosedAt(g, nullable, a, q, i); }
    }
  }

  lemma {:induction false} PassDecreases(g: Productions, nofTerminals: nat, before: FirstMap, after: FirstMap,
                                         changed: bool)
    requires FirstSound(g, nofTerminals, after) && HeadsUpTo(g, |g|, after) && Grows(before, after)
    requires changed ==> Progress(g, before, after)
    ensures changed ==> Heads(g) - after.Keys < Heads(g) - before.Keys
                        || (Heads(g) - after.Keys == Heads(g) - before.Keys
                            && AllPairs(g, nofTerminals) - Pairs(after) < AllPairs(g, nofTerminals) - Pairs(before))
    ensures !changed ==> Heads(g) - after.Keys < Heads(g) - before.Keys
                         || (Heads(g) - after.Keys == Heads(g) - before.Keys
                             && AllPairs(g, nofTerminals) - Pairs(after) <= AllPairs(g, nofTerminals) - Pairs(before))
  {
    GrowsPairs(before, after);
    PairsBounded(g, nofTerminals, after);
    HeadsComplete(g, after);
  }

  lemma {:induction false} HeadsComplete(g: Productions, rt: FirstMap)
    requires HeadsUpTo(g, |g|, rt)
    ensures rt.Keys == Heads(g)
  {
  }

  /** A nonterminal that can vanish heads a production all of whose elements can. */
  lemma {:induction false} NullableHead(g: Productions, n: nat) returns (p: nat)
    requires Nullable(g, n)
    ensures p < |g| && g[p].left == n && NullableSeq(g, g[p].right)
  {
    var t :| EmptyTree(g, n, t);
    p := t.prod;
    ForestNullable(g, t.kids);
  }

  lemma {:induction false} NullableAllIn(g: Productions, nullable: set<nat>, syms: seq<Symbol>)
    requires NullableExact(g, nullable)
    ensures AllIn(syms, nullable) <==> NullableSeq(g, syms)
  {
    if NullableSeq(g, syms) {
      forall s | s in syms ensures s.N? && s.n in nullable { assert NullableSymbol(g, s); }
    }
  }

  lemma {:induction false} VerifiedIsNullable(g: Productions, nullable: set<nat>, verify: set<nat>)
    requires NullableExact(g, nullable) && verify <= nullable && VerifiedUpTo(g, |g|, nullable, verify)
    ensures verify == nullable
  {
    forall n | n in nullable ensures n in verify {
      var p := NullableHead(g, n);
      NullableAllIn(g, nullable, g[p].right);
    }
  }

  lemma {:induction false} ClosedCoversEnd(g: Productions, nullable: set<nat>, rt: FirstMap, n: nat, d: nat)
    requires NullableExact(g, nullable) && FirstClosed(g, nullable, rt, |g|) && EndsUpTo(g, |g|, nullable, rt)
    requires EndWithin(g, n, d)
    ensures 0 in Content(rt, n)
    decreases d
  {
    if Nullable(g, n) {
      var p := NullableHead(g, n);
      NullableAllIn(g, nullable, g[p].right);
    } else {
      var p: nat, i: nat :| LeadsOn(g, n, p, i) && EndWithin(g, g[p].right[i].n, d - 1);
      ClosedCoversEnd(g, nullable, rt, g[p].right[i].n, d - 1);
      NullableAllIn(g, nullable, g[p].right[..i]);
      assert FirstClosedAt(g, nullable, rt, p, i);
    }
  }

  lemma {:induction false} FixpointIsFirst(g: Productions, nofTerminals: nat, nullable: set<nat>, rt: FirstMap)
    requires NullableExact(g, nullable) && FirstSound(g, nofTerminals, rt)
    requires FirstClosed(g, nullable, rt, |g|) && EndsUpTo(g, |g|, nullable, rt)
    ensures forall n: nat, a: nat :: a in Content(rt, n) <==> InFirst(g, n, a)
  {
    forall n: nat, a: nat | InFirst(g, n, a) ensures a in Content(rt, n) {
      if a == 0 {
        var d: nat :| EndWithin(g, n, d);
        ClosedCoversEnd(g, nullable, rt, n, d);
      } else {
        var t :| StartTree(g, n, a, t);
        ClosedCoversFirst(g, nullable, rt, t, a);
      }
    }
  }
}
