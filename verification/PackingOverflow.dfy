/** A grammar inside all complexity boundaries whose items do not fit their packed form. */
module PackingOverflow {
  import opened Sets
  import opened Grammar
  import opened BuildErrors
  import opened FirstSets
  import opened FollowSets
  import opened LookaheadBounds
  import opened PackingLimits
  import opened AutomatonBuild

  const HEADS: nat := 200
  const TERMINALS: nat := 1001

  /** H = v E M u1 E M u2 E M u3 E M u4, with terminals of its own. */
  function Wide(k: nat): Production {
    var v := 5 * k + 1;
    Rule(2, [T(v), N(3), N(4), T(v + 1), N(3), N(4), T(v + 2), N(3), N(4), T(v + 3), N(3), N(4), T(v + 4)])
  }

  /** S = H x, the wide productions of H, E = , M = . */
  const WIDE: Productions := [Rule(1, [N(2), T(TERMINALS)])] + seq(HEADS, k requires 0 <= k < HEADS => Wide(k))
      + [Rule(3, []), Rule(4, [])]

  lemma {:induction false} WideShape()
    ensures |WIDE| == HEADS + 3
    ensures WIDE[0] == Rule(1, [N(2), T(TERMINALS)]) && WIDE[HEADS + 1] == Rule(3, []) && WIDE[HEADS + 2] == Rule(4, [])
    ensures forall k | 0 <= k < HEADS :: WIDE[k + 1] == Wide(k)
    ensures forall p: nat | 0 < p <= HEADS :: WIDE[p] == Wide(p - 1)
  {
  }

  lemma {:induction false} WideProduced()
    ensures HasProduction(WIDE, 2) && HasProduction(WIDE, 3) && HasProduction(WIDE, 4)
  {
    WideShape();
    assert WIDE[1].left == 2 && WIDE[HEADS + 1].left == 3 && WIDE[HEADS + 2].left == 4;
  }

  lemma {:induction false} WideSymbolOk(p: nat, i: nat)
    requires p < |WIDE| && i < |WIDE[p].right|
    ensures SymbolOk(WIDE, TERMINALS, WIDE[p].right[i])
  {
    WideShape();
    WideProduced();
  }

  lemma {:induction false} WideDistinct(p: nat, q: nat)
    requires p < q < |WIDE|
    ensures !SameRule(WIDE[p], WIDE[q])
  {
    WideShape();
    if 0 < p && q <= HEADS {
      assert WIDE[p].right[0] == T(5 * (p - 1) + 1) && WIDE[q].right[0] == T(5 * (q - 1) + 1);
    }
  }

  lemma {:induction false} WideWellFormed()
    ensures WellFormed(WIDE, TERMINALS)
  {
    WideShape();
    forall p, i | 0 <= p < |WIDE| && 0 <= i < |WIDE[p].right| ensures SymbolOk(WIDE, TERMINALS, WIDE[p].right[i]) {
      WideSymbolOk(p, i);
    }
    forall p, q | 0 <= p < q < |WIDE| ensures !SameRule(WIDE[p], WIDE[q]) { WideDistinct(p, q); }
  }

  lemma {:induction false} WideInsideBoundaries()
    ensures CheckComplexity(WIDE, TERMINALS).Ok?
  {
    WideShape();
    forall p | p in WIDE ensures ProductionFits(p) {
      var k :| 0 <= k < |WIDE| && WIDE[k] == p;
    }
  }

  lemma {:induction false} WideReachable()
    ensures AllReachable(WIDE)
  {
    WideShape();
    assert ReachableWithin(WIDE, 1, 0);
    assert StandsAt(WIDE, 2, 0, 0);
    assert ReachableWithin(WIDE, 2, 1);
    assert StandsAt(WIDE, 3, 1, 1) && StandsAt(WIDE, 4, 1, 2);
    assert ReachableWithin(WIDE, 3, 2) && ReachableWithin(WIDE, 4, 2);
  }

  // ---------------------------------------------------------------- the sets behind the nonterminals

  lemma {:induction false} FirstOfTerminalFront(g: Productions, syms: seq<Symbol>, u: nat)
    requires |syms| > 0 && syms[0] == T(u)
    ensures forall a: nat :: FirstSeq(g, syms, a) <==> a == u
  {
    assert syms[..0] == [];
    assert FirstAt(g, syms, 0, u);
    forall a: nat | FirstSeq(g, syms, a) ensures a == u {
      var i :| 0 <= i < |syms| && FirstAt(g, syms, i, a);
      NotBehind(g, syms, 0, i);
    }
  }

  lemma {:induction false} FrontierOfM(t: Tree)
    requires Valid(WIDE, t) && Root(WIDE, t) == N(4)
    ensures Frontier(t) == [] || Frontier(t) == [N(4)]
  {
    WideShape();
    if t.Node? { assert t.prod == HEADS + 2 && t.kids == []; }
  }

  /** M has the end marker in FIRST, and nothing else. */
  lemma {:induction false} FirstOfM(a: nat)
    ensures InFirst(WIDE, 4, a) <==> a == 0
    ensures Nullable(WIDE, 4)
  {
    WideShape();
    NullableByProduction(WIDE, HEADS + 2);
    assert EndWithin(WIDE, 4, 0);
    if a != 0 && First(WIDE, 4, a) {
      var t :| StartTree(WIDE, 4, a, t);
      FrontierOfM(t);
    }
  }

  lemma {:induction false} FirstBehindE(syms: seq<Symbol>, u: nat)
    requires |syms| > 1 && syms[0] == N(4) && syms[1] == T(u)
    ensures forall a: nat :: FirstSeq(WIDE, syms, a) <==> a == 0 || a == u
  {
    assert syms[..0] == [] && syms[..1] == [N(4)];
    FirstOfM(0);
    assert FirstAt(WIDE, syms, 0, 0) && FirstAt(WIDE, syms, 1, u);
    forall a: nat | FirstSeq(WIDE, syms, a) ensures a == 0 || a == u {
      var i :| 0 <= i < |syms| && FirstAt(WIDE, syms, i, a);
      NotBehind(WIDE, syms, 1, i);
      FirstOfM(a);
    }
  }

  /** The terminals u in their order. */
  function U(n: nat): nat {
    5 * (n / 4) + 2 + n % 4
  }

  /** Two sets for each of them. */
  function Behind(n: nat): set<nat> {
    if n % 2 == 0 then {U(n / 2)} else {0, U(n / 2)}
  }

  /** The position in front of which the set stands. */
  function Position(n: nat): nat {
    3 * (n / 2 % 4) + if n % 2 == 0 then 2 else 1
  }

  lemma {:induction false} WideAt(n: nat)
    requires n < 8 * HEADS
    ensures var right := Wide(n / 8).right; var i := Position(n);
            i < (if n % 2 == 0 then 12 else 11) && |right| == 13 && right[i] == (if n % 2 == 0 then N(4) else N(3))
            && (if n % 2 == 0 then right[i + 1] == T(U(n / 2)) else right[i + 1] == N(4) && right[i + 2] == T(U(n / 2)))
  {
    var k, j := n / 8, n / 2 % 4;
    assert n / 2 / 4 == k && U(n / 2) == 5 * k + 2 + j;
    assert j == 0 || j == 1 || j == 2 || j == 3;
  }

  lemma {:induction false} BehindIsFirst(syms: seq<Symbol>, n: nat)
    requires |syms| > 0 && if n % 2 == 0 then syms[0] == T(U(n / 2)) else
        |syms| > 1 && syms[0] == N(4) && syms[1] == T(U(n / 2))
    ensures forall a: nat :: FirstSeq(WIDE, syms, a) <==> a in Behind(n)
  {
    if n % 2 == 0 { FirstOfTerminalFront(WIDE, syms, U(n / 2)); } else { FirstBehindE(syms, U(n / 2)); }
  }

  lemma {:induction false} BehindIsNodeSet(n: nat)
    requires n < 8 * HEADS
    ensures Behind(n) in NodeSets(WIDE, TERMINALS)
  {
    var p, i := n / 8 + 1, Position(n);
    WideAt(n);
    assert WIDE[p] == Wide(n / 8) by { WideShape(); }
    assert |WIDE| == HEADS + 3 by { WideShape(); }
    var syms := WIDE[p].right[i + 1..];
    assert syms[0] == WIDE[p].right[i + 1] && (n % 2 == 1 ==> syms[1] == WIDE[p].right[i + 2]);
    BehindIsFirst(syms, n);
    assert U(n / 2) <= TERMINALS;
    assert RestSet(WIDE, TERMINALS, p, i + 1) == Behind(n);
  }

  lemma {:induction false} BehindInjective(m: nat, n: nat)
    requires Behind(m) == Behind(n)
    ensures m == n
  {
    assert U(m / 2) in Behind(n) && U(n / 2) in Behind(m) && (0 in Behind(m) <==> 0 in Behind(n));
    assert U(m / 2) == U(n / 2) ==> m / 2 == n / 2;
  }

  ghost function Family(n: nat): set<set<nat>> {
    set i | 0 <= i < n :: Behind(i)
  }

  lemma {:induction false} FamilyNext(n: nat)
    ensures Family(n + 1) == Family(n) + {Behind(n)}
  {
  }

  lemma {:induction false} BehindIsNew(n: nat)
    ensures Behind(n) !in Family(n)
  {
    if Behind(n) in Family(n) {
      var i :| 0 <= i < n && Behind(i) == Behind(n);
      BehindInjective(i, n);
    }
  }

  lemma {:induction false} FamilySize(n: nat)
    ensures |Family(n)| == n
    decreases n
  {
    if n > 0 {
      FamilySize(n - 1);
      FamilyNext(n - 1);
      BehindIsNew(n - 1);
    }
  }

  /** The grammar has more than 1600 such sets. */
  lemma {:induction false} WideHasManySets()
    ensures !FewFollowSets(WIDE, TERMINALS)
  {
    forall s | s in Family(8 * HEADS) ensures s in NodeSets(WIDE, TERMINALS) {
      var i :| 0 <= i < 8 * HEADS && s == Behind(i);
      BehindIsNodeSet(i);
    }
    FamilySize(8 * HEADS);
    SubsetSize(Family(8 * HEADS), NodeSets(WIDE, TERMINALS));
  }

  /** So the boundaries let a well-formed grammar pass for which the items do not all fit. */
  lemma {:induction false} BoundariesDoNotSuffice()
    ensures WellFormed(WIDE, TERMINALS) && CheckComplexity(WIDE, TERMINALS).Ok? && !FollowSetsFit(WIDE, TERMINALS)
  {
    WideWellFormed();
    WideInsideBoundaries();
    WideReachable();
    WideHasManySets();
    ManySetsDoNotFit(WIDE, TERMINALS);
  }
}
