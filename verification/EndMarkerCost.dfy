/** What a stray end marker costs: an LALR(1) grammar that gets a conflict, or loses its accept entry. */
module EndMarkerCost {
  import opened Grammar
  import opened FirstSets
  import opened Tables
  import opened FollowSets
  import opened Items
  import opened States
  import opened Lalr
  import opened LalrProperties
  import opened TableFacts
  import opened LookaheadBounds
  import opened ActionTables
  import opened StateActions
  import opened Conflicts
  import opened Driver
  import opened AutomatonBuild

  /** S = Z, Z = "1", Z = P A, P = Z, A = B "2", B = , with priorities for S and P. */
  function Costly(ps: Priority, pp: Priority): Productions {
    [Rule(1, [N(2)]).(priority := ps), Rule(2, [T(1)]), Rule(2, [N(3), N(4)]), Rule(3, [N(2)]).(priority := pp),
     Rule(4, [N(5), T(2)]), Rule(5, [])]
  }

  lemma {:induction false} CostlyWellFormed(ps: Priority, pp: Priority)
    ensures WellFormed(Costly(ps, pp), 2)
  {
    var g := Costly(ps, pp);
    assert g[1].left == 2 && g[3].left == 3 && g[4].left == 4 && g[5].left == 5;
    assert HasProduction(g, 2) && HasProduction(g, 3) && HasProduction(g, 4) && HasProduction(g, 5);
    forall p, i | 0 <= p < |g| && 0 <= i < |g[p].right| ensures SymbolOk(g, 2, g[p].right[i]) {
      assert g[p].right[i] in [N(2), T(1), N(3), N(4), N(5), T(2)];
    }
  }

  // ---------------------------------------------------------------- what can follow

  lemma {:induction false} CostlyNullable(ps: Priority, pp: Priority)
    ensures Nullable(Costly(ps, pp), 5) && !Nullable(Costly(ps, pp), 4)
  {
    var g := Costly(ps, pp);
    NullableByProduction(g, 5);
    assert g[4].right[1] in g[4].right;
    if Nullable(g, 4) { var p := NullableHead(g, 4); }
  }

  /** What A can begin with, the end marker copied from B included. */
  lemma {:induction false} BehindP(ps: Priority, pp: Priority)
    ensures var g := Costly(ps, pp); FirstSeq(g, [N(4)], 0) && FirstSeq(g, [N(4)], 2) && !NullableSeq(g, [N(4)])
  {
    var g := Costly(ps, pp);
    CostlyNullable(ps, pp);
    assert EndWithin(g, 5, 0) && LeadsOn(g, 4, 4, 0) && EndWithin(g, 4, 1);
    assert g[4].right[..1] == [N(5)] && FirstAt(g, g[4].right, 1, 2);
    FirstByProduction(g, 4, 1, 2);
    assert [N(4)][..0] == [] && FirstAt(g, [N(4)], 0, 0) && FirstAt(g, [N(4)], 0, 2);
    assert N(4) in [N(4)];
  }

  lemma {:induction false} PStands(ps: Priority, pp: Priority, p: nat, i: nat)
    requires StandsAt(Costly(ps, pp), 3, p, i)
    ensures p == 2 && i == 0 && Costly(ps, pp)[2].right[1..] == [N(4)]
  {
    assert p < 6 && i < 2;
  }

  /** No sentential form ends with P. */
  lemma {:induction false} PCannotEnd(ps: Priority, pp: Priority)
    ensures !CanEnd(Costly(ps, pp), 3)
  {
    var g := Costly(ps, pp);
    BehindP(ps, pp);
    forall d: nat ensures !EndsWithin(g, 3, d) {
      forall p: nat, i: nat ensures !VanishesBehind(g, 3, p, i) {
        if StandsAt(g, 3, p, i) { PStands(ps, pp, p, i); }
      }
    }
  }

  // ---------------------------------------------------------------- the conflict

  /** In the start state P is begun with the end marker and with "2" as lookaheads. */
  lemma {:induction false} PBegun(ps: Priority, pp: Priority, m: Merge)
    requires MergeOk(Costly(ps, pp), 2, m)
    ensures 1 in m.states && forall a | a in {0, 2} :: HasLook(m.inv, m.states[1], Core(3, 0), a)
  {
    var g := Costly(ps, pp);
    MergedStart(g, 2, m);
    assert g[0].right[1..] == [] && g[2].right[1..] == [N(4)];
    MergedClosure(g, 2, m, 1, Core(0, 0), 0, 2, 0);
    BehindP(ps, pp);
    MergedClosure(g, 2, m, 1, Core(2, 0), 0, 3, 0);
    MergedClosure(g, 2, m, 1, Core(2, 0), 0, 3, 2);
  }

  lemma {:induction false} AcceptStateIsGoto(ps: Priority, pp: Priority, m: Merge, n: nat)
    requires MergeOk(Costly(ps, pp), 2, m) && n in m.states && IsAcceptState(Costly(ps, pp), m.states[n])
    ensures GotoNumber(Costly(ps, pp), m, 1, N(2), n)
  {
    var g := Costly(ps, pp);
    var c := Core(0, 1);
    assert CoreOf(Item(0, 1, 0)) in CoresOf(m.states[n]);
    StateCores(g, 2, m, n);
    var j, x := OriginOf(g, 2, m, n - 1, c);
    PredecessorCore(g, m, m.a0.states[j], x, m.a0.states[n - 1], c);
    StartItemFirst(g, 2, m, j);
  }

  /** The accept state also holds the complete item of P, with the end marker and "2". */
  lemma {:induction false} Meet(ps: Priority, pp: Priority, m: Merge, n: nat)
    requires MergeOk(Costly(ps, pp), 2, m) && n in m.states && IsAcceptState(Costly(ps, pp), m.states[n])
    ensures var g := Costly(ps, pp); ReducesBy(g, m, n, 0, 0) && ReducesBy(g, m, n, 0, 3) && ReducesBy(g, m, n, 2, 3)
  {
    var g := Costly(ps, pp);
    PBegun(ps, pp, m);
    MergedStart(g, 2, m);
    AcceptStateIsGoto(ps, pp, m, n);
    OverZ(g, m, n, 0, 0);
    OverZ(g, m, n, 3, 0);
    OverZ(g, m, n, 3, 2);
  }

  /** Moving the dot over Z completes the productions that consist of it. */
  lemma {:induction false} OverZ(g: Productions, m: Merge, n: nat, p: nat, a: nat)
    requires MergeOk(g, 2, m) && GotoNumber(g, m, 1, N(2), n) && p < |g| && g[p].right == [N(2)]
    requires 1 in m.states && HasLook(m.inv, m.states[1], Core(p, 0), a)
    ensures ReducesBy(g, m, n, a, p)
  {
    MergedGoto(g, 2, m, 1, N(2), n, Core(p, 0), a);
  }

  /** So no build of this grammar is clean, whatever the priorities. */
  lemma {:induction false} NeverConflictFree(ps: Priority, pp: Priority, m: Merge)
    requires MergeOk(Costly(ps, pp), 2, m)
    ensures !ConflictFree(Costly(ps, pp), m)
  {
    var g := Costly(ps, pp);
    var n := AcceptStateExists(g, 2, m);
    Meet(ps, pp, m, n);
    assert CallsFor(g, m, n, 0, ProductionAction(g, 0)) && CallsFor(g, m, n, 0, ProductionAction(g, 3));
    assert !OneAction(g, m, n, 0);
  }

  // ---------------------------------------------------------------- LALR(1) sees no conflict

  /** What the items of a state call for with the lookaheads of LALR(1). */
  ghost predicate ProperCalls(g: Productions, m: Merge, n: nat, a: nat, act: Action) {
    || (exists k: nat :: ShiftsTo(g, m, n, a, k) && act == Shift(k))
    || (exists p: nat :: ProperReduction(g, m, n, a, p) && act == ProductionAction(g, p))
  }

  ghost predicate ProperReduction(g: Productions, m: Merge, n: nat, a: nat, p: nat) {
    p < |g| && CanonicalLook(g, m, n, Core(p, |g[p].right|), a)
  }

  lemma {:induction false} OnlyTwoBehindB(ps: Priority, pp: Priority, a: nat)
    ensures var g := Costly(ps, pp); FirstSeq(g, [T(2)], a) ==> a == 2
    ensures !NullableSeq(Costly(ps, pp), [T(2)])
  {
    assert T(2) in [T(2)];
  }

  lemma {:induction false} FirstOfA(ps: Priority, pp: Priority, a: nat)
    requires InFirst(Costly(ps, pp), 4, a)
    ensures a == 0 || a == 2
  {
    var g := Costly(ps, pp);
    if a != 0 {
      var t :| StartTree(g, 4, a, t);
      assert t.prod == 4;
      ForestFirst(g, t.kids, a);
      var i :| 0 <= i < 2 && FirstAt(g, g[4].right, i, a);
      if i == 0 { FirstOfB(ps, pp, a); }
    }
  }

  lemma {:induction false} FirstOfB(ps: Priority, pp: Priority, a: nat)
    ensures !First(Costly(ps, pp), 5, a)
  {
    var g := Costly(ps, pp);
    if First(g, 5, a) {
      var t :| StartTree(g, 5, a, t);
      EmptyFrontier(ps, pp, t);
    }
  }

  lemma {:induction false} EmptyFrontier(ps: Priority, pp: Priority, t: Tree)
    requires Valid(Costly(ps, pp), t) && Root(Costly(ps, pp), t) == N(5)
    ensures Frontier(t) == [] || Frontier(t) == [N(5)]
  {
    if t.Node? { assert t.prod == 5 && t.kids == []; }
  }

  /** Nothing but the end marker and "2" follows a nonterminal, the end marker does not follow B, and "2" not S. */
  lemma {:induction false} CostlyFollow(ps: Priority, pp: Priority, n: nat, a: nat, d: nat)
    requires FollowWithin(Costly(ps, pp), n, a, d)
    ensures (a == 0 || a == 2) && (n == 5 ==> a == 2) && (n == 1 ==> a == 0)
    decreases d
  {
    var g := Costly(ps, pp);
    if !(n == 1 && a == 0) {
      var p: nat, i: nat :| FollowBy(g, n, a, p, i)
          || (d > 0 && VanishesBehind(g, n, p, i) && FollowWithin(g, g[p].left, a, d - 1));
      assert p == 0 || p == 2 || p == 3 || p == 4;
      var rest := g[p].right[i + 1..];
      OnlyTwoBehindB(ps, pp, a);
      assert rest == [] || rest == [N(4)] || rest == [T(2)];
      if FollowBy(g, n, a, p, i) {
        var j :| 0 <= j < |rest| && FirstAt(g, rest, j, a);
        if rest == [N(4)] { FirstOfA(ps, pp, a); }
      } else {
        CostlyFollow(ps, pp, g[p].left, a, d - 1);
      }
    }
  }

  lemma {:induction false} ProperLook(ps: Priority, pp: Priority, m: Merge, n: nat, p: nat, a: nat)
    requires MergeOk(Costly(ps, pp), 2, m) && ProperReduction(Costly(ps, pp), m, n, a, p)
    ensures var g := Costly(ps, pp);
            && n in m.states && Core(p, |g[p].right|) in CoresOf(m.states[n]) && (a == 0 || a == 2)
            && (p == 0 ==> a == 0) && (p == 3 ==> a == 2) && (p == 5 ==> a == 2)
  {
    var g := Costly(ps, pp);
    var c := Core(p, |g[p].right|);
    CanonicalLookKept(g, 2, m, n, c, a);
    var i :| i in m.states[n] && CoreOf(i) == c;
    MergedLookaheadsInFollow(g, 2, m, n, c, a);
    var d: nat :| FollowWithin(g, g[p].left, a, d);
    CostlyFollow(ps, pp, g[p].left, a, d);
    if p == 3 && a == 0 {
      var prefix: seq<Symbol>, d': nat :| LeadsTo(g, m, prefix, n) && Canonical(g, prefix, c, a, d');
      CanonicalEnds(g, 2, prefix, c, d');
      PCannotEnd(ps, pp);
    }
  }

  lemma {:induction false} BeforeAB(ps: Priority, pp: Priority, c: Core)
    ensures DotBefore(Costly(ps, pp), c, N(5)) ==> c == Core(4, 0)
    ensures DotBefore(Costly(ps, pp), c, N(4)) ==> c == Core(2, 1)
  {
    assert c.prod < 6 && c.pos < |Costly(ps, pp)[c.prod].right| ==> c.pos < 2;
  }

  /** Where B is begun, P stands left of the dot. */
  lemma {:induction false} BehindPOnly(ps: Priority, pp: Priority, m: Merge, n: nat)
    requires MergeOk(Costly(ps, pp), 2, m) && n in m.states && Core(5, 0) in CoresOf(m.states[n])
    ensures Core(2, 1) in CoresOf(m.states[n])
  {
    var g := Costly(ps, pp);
    FrontExpected(g, 2, m, n, 5);
    var c :| c in CoresMap(m)[n] && DotBefore(g, c, N(5));
    BeforeAB(ps, pp, c);
    FrontExpected(g, 2, m, n, 4);
    var d :| d in CoresMap(m)[n] && DotBefore(g, d, N(4));
    BeforeAB(ps, pp, d);
  }

  /** Two complete items of a state are those of S and P, or the same. */
  lemma {:induction false} CompletePairs(ps: Priority, pp: Priority, m: Merge, n: nat, p: nat, q: nat)
    requires MergeOk(Costly(ps, pp), 2, m) && n in m.states && p < 6 && q < 6
    requires var g := Costly(ps, pp); Core(p, |g[p].right|) in CoresOf(m.states[n])
                                      && Core(q, |g[q].right|) in CoresOf(m.states[n])
    ensures p == q || {p, q} == {0, 3}
  {
    var g := Costly(ps, pp);
    if p == 5 || q == 5 {
      BehindPOnly(ps, pp, m, n);
      var r := if p == 5 then q else p;
      if r != 5 { SameSymbolBefore(g, 2, m, n, Core(r, |g[r].right|), Core(2, 1)); }
    } else {
      SameSymbolBefore(g, 2, m, n, Core(p, |g[p].right|), Core(q, |g[q].right|));
    }
  }

  lemma {:induction false} ShiftPlace(ps: Priority, pp: Priority, m: Merge, n: nat, a: nat, k: nat)
    requires MergeOk(Costly(ps, pp), 2, m) && ShiftsTo(Costly(ps, pp), m, n, a, k) && (a == 0 || a == 2)
    ensures Core(4, 1) in CoresOf(m.states[n])
  {
    var g := Costly(ps, pp);
    var i :| i in m.states[n] && i.prod < |g| && i.pos < |g[i.prod].right| && g[i.prod].right[i.pos] == T(a);
    ShiftItems(ps, pp, i.prod, i.pos, a);
    assert CoreOf(i) == Core(4, 1);
  }

  /** No complete item shares a state with A = B . "2". */
  lemma {:induction false} BehindBAlone(ps: Priority, pp: Priority, m: Merge, n: nat, p: nat)
    requires MergeOk(Costly(ps, pp), 2, m) && n in m.states && Core(4, 1) in CoresOf(m.states[n]) && p < 6
    ensures Core(p, |Costly(ps, pp)[p].right|) !in CoresOf(m.states[n])
  {
    var g := Costly(ps, pp);
    if Core(p, |g[p].right|) in CoresOf(m.states[n]) {
      if p == 5 { BehindPOnly(ps, pp, m, n); }
      SameSymbolBefore(g, 2, m, n, Core(4, 1), if p == 5 then Core(2, 1) else Core(p, |g[p].right|));
    }
  }

  lemma {:induction false} NoShiftReduce(ps: Priority, pp: Priority, m: Merge, n: nat, a: nat, k: nat, p: nat)
    requires MergeOk(Costly(ps, pp), 2, m) && ShiftsTo(Costly(ps, pp), m, n, a, k)
    ensures !ProperReduction(Costly(ps, pp), m, n, a, p)
  {
    if ProperReduction(Costly(ps, pp), m, n, a, p) {
      ProperLook(ps, pp, m, n, p, a);
      ShiftPlace(ps, pp, m, n, a, k);
      BehindBAlone(ps, pp, m, n, p);
    }
  }

  lemma {:induction false} ShiftItems(ps: Priority, pp: Priority, p: nat, i: nat, a: nat)
    requires var g := Costly(ps, pp); p < |g| && i < |g[p].right| && g[p].right[i] == T(a) && (a == 0 || a == 2)
    ensures p == 4 && i == 1
  {
    assert p < 6 && i < 2;
  }

  lemma {:induction false} OneReduction(ps: Priority, pp: Priority, m: Merge, n: nat, a: nat, p: nat, q: nat)
    requires MergeOk(Costly(ps, pp), 2, m) && ProperReduction(Costly(ps, pp), m, n, a, p)
        && ProperReduction(Costly(ps, pp), m, n, a, q)
    ensures p == q
  {
    ProperLook(ps, pp, m, n, p, a);
    ProperLook(ps, pp, m, n, q, a);
    CompletePairs(ps, pp, m, n, p, q);
  }

  /** With the lookaheads of LALR(1) no terminal calls for two actions in any state. */
  lemma {:induction false} CostlyIsLalr1(ps: Priority, pp: Priority, m: Merge, n: nat, a: nat, x: Action, y: Action)
    requires MergeOk(Costly(ps, pp), 2, m) && ProperCalls(Costly(ps, pp), m, n, a, x)
        && ProperCalls(Costly(ps, pp), m, n, a, y)
    ensures x == y
  {
    var g := Costly(ps, pp);
    forall k: nat, p: nat ensures !(ShiftsTo(g, m, n, a, k) && ProperReduction(g, m, n, a, p)) {
      if ShiftsTo(g, m, n, a, k) { NoShiftReduce(ps, pp, m, n, a, k, p); }
    }
    forall p: nat, q: nat | ProperReduction(g, m, n, a, p) && ProperReduction(g, m, n, a, q) ensures p == q {
      OneReduction(ps, pp, m, n, a, p, q);
    }
    forall j: nat, k: nat | ShiftsTo(g, m, n, a, j) && ShiftsTo(g, m, n, a, k) ensures j == k {
      OneGoto(g, m, n, T(a), j, k);
    }
  }

  lemma {:induction false} OneGoto(g: Productions, m: Merge, n: nat, x: Symbol, j: nat, k: nat)
    requires MergeOk(g, 2, m) && GotoNumber(g, m, n, x, j) && GotoNumber(g, m, n, x, k)
    ensures j == k
  {
    SameGoto(g, 2, m, n, x, j, k);
  }

  // ---------------------------------------------------------------- the accept entry

  /** The handle of P's complete item in the accept state. */
  lemma {:induction false} HandleOfP(ps: Priority, pp: Priority, m: Merge, n: nat) returns (f: nat)
    requires MergeOk(Costly(ps, pp), 2, m) && n in m.states && IsAcceptState(Costly(ps, pp), m.states[n])
    ensures f > 0 && f < |m.inv| && 0 in m.inv[f] && ReductionOf(Costly(ps, pp), m.states[n], f, 3)
  {
    var g, s := Costly(ps, pp), m.states[n];
    Meet(ps, pp, m, n);
    var i :| i in s && CoreOf(i) == Core(3, 1) && LookIn(m.inv, i, 0);
    var j :| j in s && CoreOf(j) == Core(3, 1) && LookIn(m.inv, j, 2);
    OneItem(g, m, n, i, j);
    f := i.follow;
    assert m.inv[0] == {0};
    forall k | k in s && CompleteItem(g, k) && k.follow == f ensures 3 <= k.prod {
      assert CoreOf(k) in CoresOf(s) && CoreOf(i) in CoresOf(s);
      CompletePairs(ps, pp, m, n, k.prod, 3);
      if k.prod == 0 { MergedStartFollow(g, 2, m, n, k); }
    }
  }

  lemma {:induction false} OneItem(g: Productions, m: Merge, n: nat, i: Item, j: Item)
    requires MergeOk(g, 2, m) && n in m.states && i in m.states[n] && j in m.states[n] && CoreOf(i) == CoreOf(j)
    ensures i == j
  {
    assert StateMerged(m.inv0, m.a0.numbers, m.a1.numbers.Keys, m.inv, n, m.states[n]);
  }

  lemma {:induction false} OtherHandles(ps: Priority, pp: Priority, m: Merge, n: nat, e: nat)
    requires MergeOk(Costly(ps, pp), 2, m) && n in m.states && IsAcceptState(Costly(ps, pp), m.states[n])
    requires Displaces(Costly(ps, pp), m, m.states[n], e)
    ensures Beats(pp, ps)
  {
    var g, s := Costly(ps, pp), m.states[n];
    var p :| p > 0 && ReductionOf(g, s, e, p) && Beats(g[p].priority, g[0].priority);
    assert CoreOf(Item(0, 1, 0)) in CoresOf(s) && CoreOf(Item(p, |g[p].right|, e)) in CoresOf(s);
    CompletePairs(ps, pp, m, n, p, 0);
  }

  /** The accept entry is lost exactly if the priority of P beats that of S. */
  lemma {:induction false} AcceptLostExactly(ps: Priority, pp: Priority, m: Merge)
    requires MergeOk(Costly(ps, pp), 2, m)
    ensures AcceptKept(Costly(ps, pp), m) <==> !Beats(pp, ps)
  {
    var g := Costly(ps, pp);
    if Beats(pp, ps) {
      forall n | n in m.states && IsAcceptState(g, m.states[n])
          ensures !NoneDisplaces(g, m, m.states[n], GetReduceFollow(g, m.states[n])) {
        var f := HandleOfP(ps, pp, m, n);
        assert Displaces(g, m, m.states[n], f);
        assert CompleteItem(g, Item(3, 1, f)) && f in GetReduceFollow(g, m.states[n]);
      }
    } else {
      var n := AcceptStateExists(g, 2, m);
      forall e | e in GetReduceFollow(g, m.states[n]) ensures !Displaces(g, m, m.states[n], e) {
        if Displaces(g, m, m.states[n], e) { OtherHandles(ps, pp, m, n, e); }
      }
    }
  }

  /** The grammar is well-formed and the string "1" can be derived. */
  lemma {:induction false} OneIsDerivable(ps: Priority, pp: Priority)
    ensures WellFormed(Costly(ps, pp), 2)
    ensures var g, kids := Costly(ps, pp), [Node(1, [Leaf(T(1))])];
        Valid(g, Node(0, kids)) && FrontierAll(kids) == [T(1)]
  {
    CostlyWellFormed(ps, pp);
    var g, kids := Costly(ps, pp), [Node(1, [Leaf(T(1))])];
    assert Roots(g, [Leaf(T(1))]) == [T(1)] && Valid(g, kids[0]);
    assert Roots(g, kids) == [N(2)];
    assert FrontierAll([Leaf(T(1))]) == [T(1)];
    assert kids[1..] == [];
  }

  /** With the priority of P beating that of S, tables with accept entries as built accept neither "1" nor anything
      else. */
  lemma {:induction false} CostlyAcceptsNothing(ps: Priority, pp: Priority, m: Merge, tb: Tables, keywords: set<int>,
                                                lexems: seq<Lexem>, eof: Lexem, fuel: nat)
    requires MergeOk(Costly(ps, pp), 2, m) && (HasAccept(tb) <==> AcceptKept(Costly(ps, pp), m)) && Beats(pp, ps)
    ensures !Run(tb, keywords, INITIAL, lexems, eof, fuel, []).Finished?
    ensures exists kids :: Valid(Costly(ps, pp), Node(0, kids)) && FrontierAll(kids) == [T(1)]
  {
    AcceptLostExactly(ps, pp, m);
    OneIsDerivable(ps, pp);
    NothingAccepted(tb, keywords, INITIAL, lexems, eof, fuel, []);
  }
}
