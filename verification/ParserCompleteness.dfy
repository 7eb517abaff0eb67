/** On complete tables the driver accepts every derivable string, reducing in post-order. */
module ParserCompleteness {
  import opened Grammar
  import opened Tables
  import opened Driver

  /** The terminal the driver sees next. */
  function NextId(rest: seq<Lexem>): int {
    if rest == [] then 0 else rest[0].id
  }

  /** The stack grew by one entry per tree, nothing below changed. */
  ghost predicate Grown(before: Config, after: Config, n: nat) {
    |after.stack| == |before.stack| + n && before.stack <= after.stack && before.stack != []
  }

  /** k steps lead from one configuration to another. */
  ghost predicate Reaches(tb: Tables, keywords: set<int>, eof: Lexem, cfg: Config, rest: seq<Lexem>, k: nat,
                          cfg': Config, rest': seq<Lexem>, taken: seq<Action>)
    requires cfg.stack != [] && cfg'.stack != []
  {
    forall fuel: nat, log ::
      Run(tb, keywords, cfg, rest, eof, k + fuel, log) == Run(tb, keywords, cfg', rest', eof, fuel, log + taken)
  }

  lemma {:induction false} ReachesTrans(tb: Tables, keywords: set<int>, eof: Lexem, a: Config, ra: seq<Lexem>, k: nat,
                                        b: Config, rb: seq<Lexem>, t1: seq<Action>, m: nat, c: Config, rc: seq<Lexem>,
                                        t2: seq<Action>)
    requires a.stack != [] && b.stack != [] && c.stack != []
    requires Reaches(tb, keywords, eof, a, ra, k, b, rb, t1) && Reaches(tb, keywords, eof, b, rb, m, c, rc, t2)
    ensures Reaches(tb, keywords, eof, a, ra, k + m, c, rc, t1 + t2)
  {
    forall fuel: nat, log
      ensures Run(tb, keywords, a, ra, eof, k + m + fuel, log) == Run(tb, keywords, c, rc, eof, fuel, log + (t1 + t2))
    {
      assert Run(tb, keywords, a, ra, eof, k + (m + fuel), log) == Run(tb, keywords, b, rb, eof, m + fuel, log + t1);
      assert log + t1 + t2 == log + (t1 + t2);
    }
  }

  lemma {:induction false} ShiftReaches(tb: Tables, keywords: set<int>, eof: Lexem, cfg: Config, rest: seq<Lexem>,
                                        s: nat)
    returns (cfg': Config)
    requires cfg.stack != [] && rest != [] && rest[0].id > 0
    requires (Top(cfg), rest[0].id) in tb.actions && tb.actions[(Top(cfg), rest[0].id)] == Shift(s)
    ensures Grown(cfg, cfg', 1) && Top(cfg') == s
    ensures Reaches(tb, keywords, eof, cfg, rest, 1, cfg', rest[1..], [])
  {
    cfg' := Feed(tb, keywords, cfg, rest[0]).cfg;
    forall fuel: nat, log
      ensures Run(tb, keywords, cfg, rest, eof, 1 + fuel, log) == Run(tb, keywords, cfg', rest[1..], eof, fuel,
          log + [])
    {
      assert log + [] + [] == log + [] == log;
    }
  }

  lemma {:induction false} ReduceReaches(g: Productions, tb: Tables, keywords: set<int>, eof: Lexem, base: Config,
                                         cfg: Config, rest: seq<Lexem>, p: nat, s: nat)
    returns (cfg': Config)
    requires 0 < p < |g| && Grown(base, cfg, |g[p].right|) && Positive(rest) && eof.id == 0
    requires (Top(cfg), NextId(rest)) in tb.actions && tb.actions[(Top(cfg), NextId(rest))] == ProductionAction(g, p)
    requires (Top(base), g[p].left) in tb.gotos && tb.gotos[(Top(base), g[p].left)] == s
    ensures Grown(base, cfg', 1) && Top(cfg') == s
    ensures Reaches(tb, keywords, eof, cfg, rest, 1, cfg', rest, [ProductionAction(g, p)])
  {
    var lexem := if rest == [] then eof else rest[0];
    var n := |g[p].right|;
    assert cfg.stack[..|cfg.stack| - n] == base.stack;
    cfg' := Feed(tb, keywords, cfg, lexem).cfg;
    forall fuel: nat, log
      ensures Run(tb, keywords, cfg, rest, eof, 1 + fuel, log) == Run(tb, keywords, cfg', rest, eof, fuel,
          log + [ProductionAction(g, p)])
    {
      assert rest != [] ==> rest[0] in rest;
    }
  }

  lemma {:induction false} GotoStep(g: Productions, tb: Tables, la: Lookaheads, s: nat, c: Core, a: nat, x: Symbol)
    returns (t: nat)
    requires CompleteTables(g, tb, la) && HasItem(la, s, c, a) && DotBefore(g, c, x)
    ensures Successor(tb, s, x) == t && HasItem(la, t, Advance(c), a)
  {
    assert GotoFollows(g, tb, la, s, c, a);
    t := Successor(tb, s, x);
  }

  /** Lookahead condition for parsing one subtree under an item: the rest of the item's right side
      can be filled in so that the next terminal comes first. */
  ghost predicate LookaheadFits(g: Productions, c: Core, a: nat, ts: seq<Tree>, b: nat) {
    && c.prod < |g| && c.pos < |g[c.prod].right|
    && Roots(g, ts) == g[c.prod].right[c.pos + 1..]
    && ForestStartsWith(g, ts, a, b)
  }

  /** Parsing one tree under an item that expects its root pushes one entry. */
  lemma {:induction false} ParseTree(g: Productions, nofTerminals: nat, tb: Tables, la: Lookaheads, keywords: set<int>,
                                     eof: Lexem, cfg: Config, t: Tree, toks: seq<Lexem>, rest: seq<Lexem>, c: Core,
                                     a: nat, ts: seq<Tree>)
    returns (k: nat, cfg': Config)
    requires WellFormed(g, nofTerminals) && CompleteTables(g, tb, la) && eof.id == 0
    requires Positive(toks) && Positive(rest)
    requires Valid(g, t) && Frontier(t) == Ids(toks)
    requires cfg.stack != [] && HasItem(la, Top(cfg), c, a) && DotBefore(g, c, Root(g, t))
    requires NextId(rest) >= 0 && LookaheadFits(g, c, a, ts, NextId(rest))
    ensures Grown(cfg, cfg', 1) && HasItem(la, Top(cfg'), Advance(c), a)
    ensures forall p | p in PostOrder(t) :: p < |g|
    ensures Reaches(tb, keywords, eof, cfg, toks + rest, k, cfg', rest, ProductionActions(g, PostOrder(t)))
    decreases t, 1, 0
  {
    match t
    case Leaf(s) =>
      assert Ids(toks)[0] == s == T(toks[0].id);
      assert toks + rest == [toks[0]] + rest && toks[0] in toks;
      var to := GotoStep(g, tb, la, Top(cfg), c, a, s);
      cfg' := ShiftReaches(tb, keywords, eof, cfg, toks + rest, to);
      k := 1;
      assert (toks + rest)[1..] == rest;
      assert ProductionActions(g, PostOrder(t)) == [];
    case Node(q, kids) =>
      StartNotOnRight(g, nofTerminals, c, q);
      var b := NextId(rest);
      assert ClosureFollows(g, la, Top(cfg), c, a, q, ts, b);
      var k1, cfg1 := ParseForest(g, nofTerminals, tb, la, keywords, eof, cfg, kids, toks, rest, Core(q, 0), b);
      assert ReduceFollows(g, tb, la, Top(cfg1), Core(q, |g[q].right|), b);
      var to := GotoStep(g, tb, la, Top(cfg), c, a, N(g[q].left));
      cfg' := ReduceReaches(g, tb, keywords, eof, cfg, cfg1, rest, q, to);
      ReachesTrans(tb, keywords, eof, cfg, toks + rest, k1, cfg1, rest, ProductionActions(g, PostOrderAll(kids)), 1,
          cfg', rest, [ProductionAction(g, q)]);
      k := k1 + 1;
      assert ProductionActions(g, PostOrder(t)) == ProductionActions(g, PostOrderAll(kids)) + [ProductionAction(g, q)];
  }

  lemma {:induction false} StartNotOnRight(g: Productions, nofTerminals: nat, c: Core, q: nat)
    requires WellFormed(g, nofTerminals) && q < |g| && DotBefore(g, c, N(g[q].left))
    ensures q != 0
  {
    assert SymbolOk(g, nofTerminals, g[c.prod].right[c.pos]);
  }

  /** Parsing a forest moves the dot to the end. */
  lemma {:induction false} ParseForest(g: Productions, nofTerminals: nat, tb: Tables, la: Lookaheads,
                                       keywords: set<int>, eof: Lexem, cfg: Config, ts: seq<Tree>, toks: seq<Lexem>,
                                       rest: seq<Lexem>, c: Core, a: nat)
    returns (k: nat, cfg': Config)
    requires WellFormed(g, nofTerminals) && CompleteTables(g, tb, la) && eof.id == 0
    requires Positive(toks) && Positive(rest)
    requires ValidAll(g, ts) && FrontierAll(ts) == Ids(toks)
    requires cfg.stack != [] && HasItem(la, Top(cfg), c, a) && InRange(g, c) && Roots(g, ts) == g[c.prod].right[c.pos..]
    requires NextId(rest) == a
    ensures Grown(cfg, cfg', |ts|) && HasItem(la, Top(cfg'), Core(c.prod, |g[c.prod].right|), a)
    ensures forall p | p in PostOrderAll(ts) :: p < |g|
    ensures Reaches(tb, keywords, eof, cfg, toks + rest, k, cfg', rest, ProductionActions(g, PostOrderAll(ts)))
    decreases ts, 0, |ts|
  {
    if ts == [] {
      k, cfg' := 0, cfg;
      assert toks + rest == rest;
      assert c == Core(c.prod, |g[c.prod].right|);
      ReachesRefl(tb, keywords, eof, cfg, rest);
      assert ProductionActions(g, PostOrderAll(ts)) == [];
    } else {
      var t, more := ts[0], ts[1..];
      var n := |Frontier(t)|;
      var toks1, toks2 := toks[..n], toks[n..];
      assert toks == toks1 + toks2;
      SplitIds(toks, n, Frontier(t), FrontierAll(more));
      HeadFits(g, c, a, ts, toks2, rest);
      var k1, cfg1 := ParseTree(g, nofTerminals, tb, la, keywords, eof, cfg, t, toks1, toks2 + rest, c, a, more);
      var k2, cfg2 := ParseForest(g, nofTerminals, tb, la, keywords, eof, cfg1, more, toks2, rest, Advance(c), a);
      k, cfg' := k1 + k2, cfg2;
      assert toks1 + (toks2 + rest) == toks + rest;
      ReachesTrans(tb, keywords, eof, cfg, toks + rest, k1, cfg1, toks2 + rest, ProductionActions(g, PostOrder(t)),
                   k2, cfg2, rest, ProductionActions(g, PostOrderAll(more)));
      ActionsJoin(g, PostOrder(t), PostOrderAll(more));
    }
  }

  lemma {:induction false} ActionsJoin(g: Productions, ps: seq<nat>, qs: seq<nat>)
    requires (forall p | p in ps :: p < |g|) && forall p | p in qs :: p < |g|
    ensures (forall p | p in ps + qs :: p < |g|) && ProductionActions(g, ps + qs) == ProductionActions(g, ps)
        + ProductionActions(g, qs)
  {
    forall p | p in ps + qs ensures p < |g| { assert p in ps || p in qs; }
  }

  lemma {:induction false} ReachesRefl(tb: Tables, keywords: set<int>, eof: Lexem, cfg: Config, rest: seq<Lexem>)
    requires cfg.stack != []
    ensures Reaches(tb, keywords, eof, cfg, rest, 0, cfg, rest, [])
  {
    forall fuel: nat, log: seq<Action>
      ensures Run(tb, keywords, cfg, rest, eof, 0 + fuel, log) == Run(tb, keywords, cfg, rest, eof, fuel, log + [])
    {
      assert log + [] == log;
    }
  }

  lemma {:induction false} SplitIds(toks: seq<Lexem>, n: nat, f1: seq<Symbol>, f2: seq<Symbol>)
    requires Positive(toks) && n == |f1| && Ids(toks) == f1 + f2
    ensures n <= |toks| && Positive(toks[..n]) && Positive(toks[n..])
    ensures Ids(toks[..n]) == f1 && Ids(toks[n..]) == f2
  {
    assert |toks| == |f1| + |f2|;
    forall x | x in toks[..n] ensures x.id > 0 { assert x in toks; }
    forall x | x in toks[n..] ensures x.id > 0 { assert x in toks; }
    forall i | 0 <= i < n ensures Ids(toks[..n])[i] == f1[i] { assert Ids(toks)[i] == (f1 + f2)[i]; }
    forall i | 0 <= i < |f2| ensures Ids(toks[n..])[i] == f2[i] { assert Ids(toks)[n + i] == (f1 + f2)[n + i]; }
  }

  lemma {:induction false} HeadFits(g: Productions, c: Core, a: nat, ts: seq<Tree>, toks2: seq<Lexem>, rest: seq<Lexem>)
    requires ts != [] && ValidAll(g, ts) && InRange(g, c) && Roots(g, ts) == g[c.prod].right[c.pos..]
    requires Positive(toks2) && Positive(rest) && FrontierAll(ts[1..]) == Ids(toks2) && NextId(rest) == a
    ensures DotBefore(g, c, Root(g, ts[0])) && Valid(g, ts[0]) && ValidAll(g, ts[1..])
    ensures InRange(g, Advance(c)) && Roots(g, ts[1..]) == g[c.prod].right[c.pos + 1..]
    ensures Positive(toks2 + rest) && NextId(toks2 + rest) >= 0
    ensures LookaheadFits(g, c, a, ts[1..], NextId(toks2 + rest))
  {
    var right := g[c.prod].right;
    assert ts[0] in ts && right[c.pos..][0] == Roots(g, ts)[0];
    forall t | t in ts[1..] ensures Valid(g, t) { assert t in ts; }
    assert Roots(g, ts[1..]) == Roots(g, ts)[1..] == right[c.pos + 1..];
    assert (toks2 + rest) != [] ==> (toks2 + rest)[0] in toks2 + rest;
    if toks2 != [] { assert Ids(toks2)[0] == T(toks2[0].id); }
  }

  /** Completeness: every string of lexems derivable from the start production is accepted in finitely
      many steps, and the reductions are the post-order of its parse tree. */
  lemma {:induction false} DerivableIsAccepted(g: Productions, nofTerminals: nat, tb: Tables, la: Lookaheads,
                                               keywords: set<int>, eof: Lexem, kids: seq<Tree>, toks: seq<Lexem>)
    returns (fuel: nat)
    requires WellFormed(g, nofTerminals) && CompleteTables(g, tb, la) && eof.id == 0
    requires Positive(toks) && Valid(g, Node(0, kids)) && FrontierAll(kids) == Ids(toks)
    ensures forall p | p in PostOrder(Node(0, kids)) :: p < |g|
    ensures var r := Run(tb, keywords, INITIAL, toks, eof, fuel, []);
            r.Finished? && r.log == ProductionActions(g, PostOrder(Node(0, kids)))
  {
    assert g[0].right[0..] == g[0].right;
    var k, cfg := ParseForest(g, nofTerminals, tb, la, keywords, eof, INITIAL, kids, toks, [], Core(0, 0), 0);
    fuel := k + 1;
    var ps := PostOrderAll(kids);
    assert toks + [] == toks;
    RunOn(tb, keywords, eof, toks, k, cfg, ProductionActions(g, ps));
    AcceptStep(g, tb, la, keywords, eof, cfg, ProductionActions(g, ps));
    ActionsJoin(g, ps, [0]);
    assert ProductionActions(g, [0]) == [ProductionAction(g, 0)];
  }

  lemma {:induction false} RunOn(tb: Tables, keywords: set<int>, eof: Lexem, toks: seq<Lexem>, k: nat, cfg: Config,
                                 taken: seq<Action>)
    requires cfg.stack != [] && Reaches(tb, keywords, eof, INITIAL, toks, k, cfg, [], taken)
    ensures Run(tb, keywords, INITIAL, toks, eof, k + 1, []) == Run(tb, keywords, cfg, [], eof, 1, taken)
  {
    assert [] + taken == taken;
    assert Run(tb, keywords, INITIAL, toks, eof, k + 1, []) == Run(tb, keywords, cfg, [], eof, 1, [] + taken);
  }

  /** The last step of a run on complete tables. */
  lemma {:induction false} AcceptStep(g: Productions, tb: Tables, la: Lookaheads, keywords: set<int>, eof: Lexem,
                                      cfg: Config, log: seq<Action>)
    requires CompleteTables(g, tb, la) && eof.id == 0 && Grown(INITIAL, cfg, |g[0].right|)
        && HasItem(la, Top(cfg), Core(0, |g[0].right|), 0)
    ensures var r := Run(tb, keywords, cfg, [], eof, 1, log); r.Finished? && r.log == log + [ProductionAction(g, 0)]
  {
    assert ReduceFollows(g, tb, la, Top(cfg), Core(0, |g[0].right|), 0);
    assert cfg.stack[0] == INITIAL.stack[0];
  }
}
