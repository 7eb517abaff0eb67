/** The action and goto tables, and what it means for them to describe a grammar. */
module Tables {
  import opened Grammar

  datatype Action =
    | Shift(state: nat)
    | Reduce(nonterminal: nat, scopeflag: ScopeFlag, call: nat, count: nat)
    | Accept(nonterminal: nat, scopeflag: ScopeFlag, call: nat, count: nat)

  /** actions: (state, terminal) -> action; gotos: (state, nonterminal) -> state. */
  datatype Tables = Tables(actions: map<(nat, int), Action>, gotos: map<(nat, nat), nat>)

  /** A production with a dot in front of its element number pos. */
  datatype Core = Core(prod: nat, pos: nat)

  predicate InRange(g: Productions, c: Core) {
    c.prod < |g| && c.pos <= |g[c.prod].right|
  }

  /** The symbol behind the dot is x. */
  predicate DotBefore(g: Productions, c: Core, x: Symbol) {
    c.prod < |g| && c.pos < |g[c.prod].right| && g[c.prod].right[c.pos] == x
  }

  function Advance(c: Core): Core {
    Core(c.prod, c.pos + 1)
  }

  /** The table entry that reduces by production p. */
  function ProductionAction(g: Productions, p: nat): Action
    requires p < |g|
  {
    var d := g[p];
    if p == 0 then Accept(d.left, d.scope, d.callidx, |d.right|)
    else Reduce(d.left, d.scope, d.callidx, |d.right|)
  }

  function ProductionActions(g: Productions, ps: seq<nat>): (r: seq<Action>)
    requires forall p | p in ps :: p < |g|
    ensures |r| == |ps|
  {
    seq(|ps|, i requires 0 <= i < |ps| => assert ps[i] in ps; ProductionAction(g, ps[i]))
  }

  // ---------------------------------------------------------------- tables that never accept too much

  /** Every item of state t with something left of the dot has x there and comes from an item of state s. */
  ghost predicate Transition(g: Productions, cores: map<nat, set<Core>>, s: nat, x: Symbol, t: nat) {
    && s in cores && t in cores && t != 1
    && forall c | c in cores[t] && c.pos > 0 ::
        Core(c.prod, c.pos - 1) in cores[s] && DotBefore(g, Core(c.prod, c.pos - 1), x)
  }

  ghost predicate SoundAction(g: Productions, cores: map<nat, set<Core>>, s: nat, a: int, act: Action) {
    match act
    case Shift(t) => a > 0 && Transition(g, cores, s, T(a), t)
    case Reduce(_, _, _, _) => s in cores && exists c :: c in cores[s] && c.prod != 0 && SameReduction(g, c, act)
    case Accept(_, _, _, _) => a == 0 && s in cores && |g| > 0 && Core(0, |g[0].right|) in cores[s]
                               && act == Accept(g[0].left, g[0].scope, g[0].callidx, |g[0].right|)
  }

  ghost predicate SameReduction(g: Productions, c: Core, act: Action) {
    && c.prod < |g| && c.pos == |g[c.prod].right|
    && act == Reduce(g[c.prod].left, g[c.prod].scope, g[c.prod].callidx, |g[c.prod].right|)
  }

  /** Only the start state may begin production 0; any other production begins where its head is expected. */
  ghost predicate Expected(g: Productions, cores: map<nat, set<Core>>, s: nat, p: nat)
    requires s in cores
  {
    if p == 0 then s == 1
    else p < |g| && exists c :: c in cores[s] && DotBefore(g, c, N(g[p].left))
  }

  ghost predicate SoundTables(g: Productions, tb: Tables, cores: map<nat, set<Core>>) {
    && |g| > 0 && g[0].left == 1
    && 1 in cores
    && (forall c | c in cores[1] :: c.pos == 0)
    && (forall s, p | s in cores && Core(p, 0) in cores[s] :: Expected(g, cores, s, p))
    && (forall s, c, n: nat | s in cores && c in cores[s] && DotBefore(g, c, N(n)) :: (s, n) in tb.gotos)
    && (forall s, a | (s, a) in tb.actions :: SoundAction(g, cores, s, a, tb.actions[(s, a)]))
    && (forall s, n | (s, n) in tb.gotos :: Transition(g, cores, s, N(n), tb.gotos[(s, n)]))
  }

  // ---------------------------------------------------------------- tables that never reject too much

  /** state -> item -> lookahead terminals */
  type Lookaheads = map<nat, map<Core, set<nat>>>

  ghost predicate HasItem(la: Lookaheads, s: nat, c: Core, a: nat) {
    s in la && c in la[s] && a in la[s][c]
  }

  function Successor(tb: Tables, s: nat, x: Symbol): (r: int)
    ensures r >= -1
  {
    match x
    case T(a) => if (s, a) in tb.actions && tb.actions[(s, a)].Shift? then tb.actions[(s, a)].state else -1
    case N(n) => if (s, n) in tb.gotos then tb.gotos[(s, n)] else -1
  }

  /** The forest ts, followed by the terminal a, starts with the terminal b. */
  ghost predicate ForestStartsWith(g: Productions, ts: seq<Tree>, a: nat, b: nat) {
    && ValidAll(g, ts)
    && AllTerminal(FrontierAll(ts))
    && (FrontierAll(ts) + [T(a)])[0] == T(b)
  }

  ghost predicate ItemsInRange(g: Productions, la: Lookaheads) {
    forall s, c | s in la && c in la[s] :: InRange(g, c)
  }

  /** Moving the dot over a symbol follows the tables and keeps the lookahead. */
  ghost predicate GotoFollows(g: Productions, tb: Tables, la: Lookaheads, s: nat, c: Core, a: nat) {
    HasItem(la, s, c, a) && c.prod < |g| && c.pos < |g[c.prod].right| ==>
      var t := Successor(tb, s, g[c.prod].right[c.pos]);
      t >= 0 && HasItem(la, t, Advance(c), a)
  }

  /** A nonterminal behind the dot brings in its production q with every terminal that can follow it here. */
  ghost predicate ClosureFollows(g: Productions, la: Lookaheads, s: nat, c: Core, a: nat, q: nat, ts: seq<Tree>,
      b: nat) {
    && HasItem(la, s, c, a) && q < |g| && DotBefore(g, c, N(g[q].left))
    && Roots(g, ts) == g[c.prod].right[c.pos + 1..] && ForestStartsWith(g, ts, a, b)
    ==> HasItem(la, s, Core(q, 0), b)
  }

  ghost predicate ReduceFollows(g: Productions, tb: Tables, la: Lookaheads, s: nat, c: Core, a: nat) {
    HasItem(la, s, c, a) && c.prod < |g| && c.pos == |g[c.prod].right| ==>
      (s, a) in tb.actions && tb.actions[(s, a)] == ProductionAction(g, c.prod)
  }

  ghost predicate CompleteTables(g: Productions, tb: Tables, la: Lookaheads) {
    && |g| > 0
    && HasItem(la, 1, Core(0, 0), 0)
    && ItemsInRange(g, la)
    && (forall s: nat, c, a: nat {:trigger GotoFollows(g, tb, la, s, c, a)} :: GotoFollows(g, tb, la, s, c, a))
    && (forall s: nat, c, a: nat, q: nat, ts, b: nat {:trigger ClosureFollows(g, la, s, c, a, q, ts, b)} ::
          ClosureFollows(g, la, s, c, a, q, ts, b))
    && (forall s: nat, c, a: nat {:trigger ReduceFollows(g, tb, la, s, c, a)} :: ReduceFollows(g, tb, la, s, c, a))
  }
}
