/** Whatever the driver accepts on sound tables is derivable from the start production, and its reductions are the
    post-order of a parse tree. */
module ParserSoundness {
  import opened Guards
  import opened Grammar
  import opened Tables
  import opened Driver

  function States(stack: seq<Entry>): (r: seq<nat>)
    ensures |r| == |stack|
  {
    seq(|stack|, i requires 0 <= i < |stack| => stack[i].state)
  }

  /** The states are linked by transitions over the roots of the trees. */
  ghost predicate Linked(g: Productions, cores: map<nat, set<Core>>, states: seq<nat>, trees: seq<Tree>) {
    && |states| == |trees| + 1
    && states[0] == 1
    && ValidAll(g, trees)
    && forall i :: 0 <= i < |trees| ==> Transition(g, cores, states[i], Root(g, trees[i]), states[i + 1])
  }

  lemma {:induction false} LinkedPrefix(g: Productions, cores: map<nat, set<Core>>, states: seq<nat>, trees: seq<Tree>,
                                        k: nat)
    requires Linked(g, cores, states, trees) && k <= |trees|
    ensures Linked(g, cores, states[..k + 1], trees[..k])
  {
    forall t | t in trees[..k] ensures Valid(g, t) { assert t in trees; }
  }

  lemma {:induction false} LinkedAppend(g: Productions, cores: map<nat, set<Core>>, states: seq<nat>, trees: seq<Tree>,
                                        s: nat, t: Tree)
    requires Linked(g, cores, states, trees) && Valid(g, t)
    requires Transition(g, cores, states[|states| - 1], Root(g, t), s)
    ensures Linked(g, cores, states + [s], trees + [t])
  {
  }

  /** The stack spells the symbols left of the dot of every item of the top state, and the state below them contains
      the item with the dot moved to the front. */
  lemma {:induction false} StackSpellsItem(g: Productions, tb: Tables, cores: map<nat, set<Core>>, states: seq<nat>,
                                           trees: seq<Tree>, c: Core)
    requires SoundTables(g, tb, cores) && Linked(g, cores, states, trees)
    requires states[|trees|] in cores && c in cores[states[|trees|]]
    ensures c.pos > 0 ==> c.prod < |g| && c.pos <= |g[c.prod].right|
    ensures c.pos <= |trees|
    ensures c.pos > 0 ==> Roots(g, trees[|trees| - c.pos..]) == g[c.prod].right[..c.pos]
    ensures states[|trees| - c.pos] in cores && Core(c.prod, 0) in cores[states[|trees| - c.pos]]
    decreases c.pos
  {
    if c.pos > 0 {
      var n := |trees|;
      assert n > 0;
      assert Transition(g, cores, states[n - 1], Root(g, trees[n - 1]), states[n]);
      var d := Core(c.prod, c.pos - 1);
      LinkedPrefix(g, cores, states, trees, n - 1);
      StackSpellsItem(g, tb, cores, states[..n], trees[..n - 1], d);
      RootsOfSuffix(g, trees, c.pos, g[c.prod].right);
    }
  }

  lemma {:induction false} RootsOfSuffix(g: Productions, trees: seq<Tree>, k: nat, right: seq<Symbol>)
    requires 0 < k <= |trees| && k <= |right|
    requires k > 1 ==> Roots(g, trees[..|trees| - 1][|trees| - 1 - (k - 1)..]) == right[..k - 1]
    requires Root(g, trees[|trees| - 1]) == right[k - 1]
    ensures Roots(g, trees[|trees| - k..]) == right[..k]
  {
    var n := |trees|;
    var a, b := Roots(g, trees[n - k..]), right[..k];
    forall i | 0 <= i < k ensures a[i] == b[i] {
      if i < k - 1 {
        var p := trees[..n - 1][n - 1 - (k - 1)..];
        assert p[i] == trees[n - k..][i];
        assert Roots(g, p)[i] == right[..k - 1][i];
      }
    }
  }

  /** What holds between two steps: the stack carries a forest whose frontier is what was shifted,
      whose post-order is what was reduced. */
  ghost predicate Carries(g: Productions, cores: map<nat, set<Core>>, cfg: Config, trees: seq<Tree>,
                          shifted: seq<Symbol>, log: seq<Action>) {
    && cfg.stack != [] && cfg.stack[0].nodes == []
    && Linked(g, cores, States(cfg.stack), trees) && Read(g, trees, shifted, log)
  }

  ghost predicate Read(g: Productions, trees: seq<Tree>, shifted: seq<Symbol>, log: seq<Action>) {
    forall z: int {:trigger Look(z)} :: Look(z) ==>
      && FrontierAll(trees) == shifted && (forall p | p in PostOrderAll(trees) :: p < |g|)
      && ProductionActions(g, PostOrderAll(trees)) == log
  }

  lemma {:induction false} ShiftRead(g: Productions, trees: seq<Tree>, shifted: seq<Symbol>, log: seq<Action>,
                                     x: Symbol)
    requires Read(g, trees, shifted, log)
    ensures Read(g, trees + [Leaf(x)], shifted + [x], log)
  {
    assert Look(0);
    FrontierAllAppend(trees, Leaf(x));
    assert PostOrderAll(trees + [Leaf(x)]) == PostOrderAll(trees);
  }

  lemma {:induction false} ShiftCarries(g: Productions, tb: Tables, cores: map<nat, set<Core>>, cfg: Config,
                                        trees: seq<Tree>, shifted: seq<Symbol>, log: seq<Action>, e: Entry, a: nat)
    requires SoundTables(g, tb, cores) && Carries(g, cores, cfg, trees, shifted, log)
    requires (Top(cfg), a) in tb.actions && tb.actions[(Top(cfg), a)] == Shift(e.state)
    ensures Carries(g, cores, cfg.(stack := cfg.stack + [e]), trees + [Leaf(T(a))], shifted + [T(a)], log)
    ensures a > 0
  {
    assert SoundAction(g, cores, Top(cfg), a, tb.actions[(Top(cfg), a)]);
    LinkedAppend(g, cores, States(cfg.stack), trees, e.state, Leaf(T(a)));
    assert States(cfg.stack + [e]) == States(cfg.stack) + [e.state];
    ShiftRead(g, trees, shifted, log, T(a));
  }

  /** The trees of a complete item can be folded into one. */
  lemma {:induction false} FoldTrees(g: Productions, tb: Tables, cores: map<nat, set<Core>>, states: seq<nat>,
                                     trees: seq<Tree>, p: nat)
    requires SoundTables(g, tb, cores) && Linked(g, cores, states, trees)
    requires p < |g| && states[|trees|] in cores && Core(p, |g[p].right|) in cores[states[|trees|]]
    ensures |g[p].right| <= |trees|
    ensures var k := |trees| - |g[p].right|;
            && Valid(g, Node(p, trees[k..])) && states[k] in cores && Core(p, 0) in cores[states[k]]
  {
    StackSpellsItem(g, tb, cores, states, trees, Core(p, |g[p].right|));
    var k := |trees| - |g[p].right|;
    forall t | t in trees[k..] ensures Valid(g, t) { assert t in trees; }
    assert g[p].right == g[p].right[..|g[p].right|];
  }

  lemma {:induction false} FoldRead(g: Productions, trees: seq<Tree>, k: nat, p: nat, shifted: seq<Symbol>,
                                    log: seq<Action>)
    requires p < |g| && k <= |trees| && Read(g, trees, shifted, log)
    ensures Read(g, trees[..k] + [Node(p, trees[k..])], shifted, log + [ProductionAction(g, p)])
  {
    assert Look(0);
    var node := Node(p, trees[k..]);
    assert trees == trees[..k] + trees[k..];
    FrontierAllConcat(trees[..k], trees[k..]);
    FrontierAllAppend(trees[..k], node);
    assert PostOrderAll(trees[..k] + [node]) == PostOrderAll(trees) + [p];
    LogAppend(g, PostOrderAll(trees), p, log);
  }

  lemma {:induction false} FoldLinked(g: Productions, tb: Tables, cores: map<nat, set<Core>>, stack: seq<Entry>,
                                      trees: seq<Tree>, k: nat, node: Tree, e: Entry)
    requires SoundTables(g, tb, cores) && Linked(g, cores, States(stack), trees) && k <= |trees| && Valid(g, node)
    requires Root(g, node).N? && (stack[k].state, Root(g, node).n) in tb.gotos
        && tb.gotos[(stack[k].state, Root(g, node).n)] == e.state
    ensures Linked(g, cores, States(stack[..k + 1] + [e]), trees[..k] + [node])
  {
    var states := States(stack);
    LinkedPrefix(g, cores, states, trees, k);
    LinkedAppend(g, cores, states[..k + 1], trees[..k], e.state, node);
    assert States(stack[..k + 1] + [e]) == states[..k + 1] + [e.state];
  }

  /** A reduction folds the trees of a complete item into one. */
  lemma {:induction false} ReduceCarries(g: Productions, tb: Tables, cores: map<nat, set<Core>>, cfg: Config,
                                         trees: seq<Tree>, shifted: seq<Symbol>, log: seq<Action>, p: nat, e: Entry)
    requires SoundTables(g, tb, cores) && Carries(g, cores, cfg, trees, shifted, log)
    requires p < |g| && Top(cfg) in cores && Core(p, |g[p].right|) in cores[Top(cfg)] && p != 0
    requires |g[p].right| < |cfg.stack|
    requires var s := cfg.stack[|cfg.stack| - |g[p].right| - 1].state;
        (s, g[p].left) in tb.gotos && tb.gotos[(s, g[p].left)] == e.state
    ensures |g[p].right| <= |trees|
    ensures var k := |trees| - |g[p].right|; var node := Node(p, trees[k..]);
            Carries(g, cores, cfg.(stack := cfg.stack[..|cfg.stack| - |g[p].right|] + [e]), trees[..k] + [node],
                shifted, log + [ProductionAction(g, p)])
  {
    FoldTrees(g, tb, cores, States(cfg.stack), trees, p);
    var k := |trees| - |g[p].right|;
    FoldLinked(g, tb, cores, cfg.stack, trees, k, Node(p, trees[k..]), e);
    FoldRead(g, trees, k, p, shifted, log);
  }

  lemma {:induction false} LogAppend(g: Productions, ps: seq<nat>, p: nat, log: seq<Action>)
    requires p < |g| && (forall x | x in ps :: x < |g|) && ProductionActions(g, ps) == log
    ensures (forall x | x in ps + [p] :: x < |g|)
    ensures ProductionActions(g, ps + [p]) == log + [ProductionAction(g, p)]
  {
  }

  /** The parse tree of an accepting run. */
  ghost predicate ParseOf(g: Productions, t: Tree, shifted: seq<Symbol>, log: seq<Action>) {
    && |g| > 0
    && t.Node? && t.prod == 0 && Valid(g, t)
    && Frontier(t) == shifted
    && (forall p | p in PostOrder(t) :: p < |g|)
    && ProductionActions(g, PostOrder(t)) == log
    && RightmostDerivation(g, [N(g[0].left)], Reverse(PostOrder(t)), shifted)
  }

  lemma {:induction false} AcceptYieldsParse(g: Productions, tb: Tables, cores: map<nat, set<Core>>, cfg: Config,
                                             trees: seq<Tree>, shifted: seq<Symbol>, log: seq<Action>)
    requires SoundTables(g, tb, cores) && Carries(g, cores, cfg, trees, shifted, log) && AllTerminal(shifted)
    requires Top(cfg) in cores && Core(0, |g[0].right|) in cores[Top(cfg)]
    requires |cfg.stack| - |g[0].right| == 1
    ensures ParseOf(g, Node(0, trees), shifted, log + [ProductionAction(g, 0)])
  {
    FoldTrees(g, tb, cores, States(cfg.stack), trees, 0);
    assert trees[0..] == trees;
    assert Look(0);
    LogAppend(g, PostOrderAll(trees), 0, log);
    TreeIsRightmostDerivation(g, Node(0, trees));
  }

  /** The last trees have become the kids of a node for production p. */
  ghost predicate Folded(g: Productions, trees: seq<Tree>, p: nat, trees': seq<Tree>) {
    && p < |g| && |g[p].right| <= |trees|
    && var k := |trees| - |g[p].right|; trees' == trees[..k] + [Node(p, trees[k..])]
  }

  /** A step that keeps the lexem keeps the forest, up to folding. */
  lemma {:induction false} AgainCarries(g: Productions, tb: Tables, cores: map<nat, set<Core>>, keywords: set<int>,
                                        cfg: Config, lexem: Lexem, trees: seq<Tree>, shifted: seq<Symbol>,
                                        log: seq<Action>)
    returns (p: nat, trees': seq<Tree>)
    requires SoundTables(g, tb, cores) && Carries(g, cores, cfg, trees, shifted, log)
    requires Feed(tb, keywords, cfg, lexem).Again?
    ensures Folded(g, trees, p, trees') && ReductionTaken(tb, cfg, lexem) == [ProductionAction(g, p)] && p > 0
    ensures Carries(g, cores, Feed(tb, keywords, cfg, lexem).cfg, trees', shifted, log + ReductionTaken(tb, cfg, lexem))
  {
    var key := (Top(cfg), lexem.id);
    var act := tb.actions[key];
    assert SoundAction(g, cores, Top(cfg), lexem.id, act);
    var c :| c in cores[Top(cfg)] && c.prod != 0 && SameReduction(g, c, act);
    var cfg' := Feed(tb, keywords, cfg, lexem).cfg;
    assert act == ProductionAction(g, c.prod);
    p := c.prod;
    var k := |cfg.stack| - act.count;
    var e := cfg'.stack[k];
    ReduceCarries(g, tb, cores, cfg, trees, shifted, log, p, e);
    trees' := trees[..|trees| - act.count] + [Node(p, trees[|trees| - act.count..])];
    assert cfg'.stack == cfg.stack[..k] + [e];
  }

  lemma {:induction false} ConsumedCarries(g: Productions, tb: Tables, cores: map<nat, set<Core>>, keywords: set<int>,
                                           cfg: Config, lexem: Lexem, trees: seq<Tree>, shifted: seq<Symbol>,
                                           log: seq<Action>)
    returns (trees': seq<Tree>)
    requires SoundTables(g, tb, cores) && Carries(g, cores, cfg, trees, shifted, log)
    requires Feed(tb, keywords, cfg, lexem).Consumed?
    ensures lexem.id > 0 && ReductionTaken(tb, cfg, lexem) == [] && trees' == trees + [Leaf(T(lexem.id))]
    ensures Carries(g, cores, Feed(tb, keywords, cfg, lexem).cfg, trees', shifted + [T(lexem.id)], log)
  {
    assert SoundAction(g, cores, Top(cfg), lexem.id, tb.actions[(Top(cfg), lexem.id)]);
    var cfg' := Feed(tb, keywords, cfg, lexem).cfg;
    ShiftCarries(g, tb, cores, cfg, trees, shifted, log, cfg'.stack[|cfg.stack|], lexem.id);
    trees' := trees + [Leaf(T(lexem.id))];
  }

  lemma {:induction false} AcceptedParse(g: Productions, tb: Tables, cores: map<nat, set<Core>>, keywords: set<int>,
                                         cfg: Config, lexem: Lexem, trees: seq<Tree>, shifted: seq<Symbol>,
                                         log: seq<Action>)
    requires SoundTables(g, tb, cores) && Carries(g, cores, cfg, trees, shifted, log) && AllTerminal(shifted)
    requires Feed(tb, keywords, cfg, lexem).Accepted?
    ensures lexem.id == 0
    ensures ParseOf(g, Node(0, trees), shifted, log + ReductionTaken(tb, cfg, lexem))
  {
    assert SoundAction(g, cores, Top(cfg), lexem.id, tb.actions[(Top(cfg), lexem.id)]);
    AcceptYieldsParse(g, tb, cores, cfg, trees, shifted, log);
  }

  /** The run has parsed what was shifted and the rest. */
  ghost predicate ParsedBy(g: Productions, t: Tree, shifted: seq<Symbol>, rest: seq<Lexem>, r: Outcome) {
    forall z: int {:trigger Look(z)} :: Look(z) ==>
      Positive(rest) && r.Finished? && ParseOf(g, t, shifted + Ids(rest), r.log)
  }

  lemma {:induction false} ParsedAtEnd(g: Productions, t: Tree, shifted: seq<Symbol>, r: Outcome)
    requires r.Finished? && ParseOf(g, t, shifted, r.log)
    ensures ParsedBy(g, t, shifted, [], r)
  {
    assert shifted + Ids([]) == shifted;
  }

  lemma {:induction false} ParsedBefore(g: Productions, t: Tree, shifted: seq<Symbol>, rest: seq<Lexem>, r: Outcome)
    requires rest != [] && rest[0].id > 0 && ParsedBy(g, t, shifted + [T(rest[0].id)], rest[1..], r)
    ensures ParsedBy(g, t, shifted, rest, r)
  {
    assert Look(0);
    assert rest == [rest[0]] + rest[1..];
    assert shifted + [T(rest[0].id)] + Ids(rest[1..]) == shifted + Ids(rest);
  }

  /** Soundness: for any grammar and any conflict resolution, an accepted run has read a string
      derivable from the start production, and its reductions are the post-order of a parse tree of it. */
  lemma {:induction false} AcceptedIsDerivable(g: Productions, tb: Tables, cores: map<nat, set<Core>>,
                                               keywords: set<int>, cfg: Config, rest: seq<Lexem>, eof: Lexem,
                                               fuel: nat, trees: seq<Tree>, shifted: seq<Symbol>, log: seq<Action>)
    returns (t: Tree)
    requires SoundTables(g, tb, cores) && Carries(g, cores, cfg, trees, shifted, log) && AllTerminal(shifted)
    requires Run(tb, keywords, cfg, rest, eof, fuel, log).Finished?
    ensures ParsedBy(g, t, shifted, rest, Run(tb, keywords, cfg, rest, eof, fuel, log))
    decreases fuel
  {
    var lexem := if rest == [] then eof else rest[0];
    var r, log' := Feed(tb, keywords, cfg, lexem), log + ReductionTaken(tb, cfg, lexem);
    if r.Again? {
      var p, trees' := AgainCarries(g, tb, cores, keywords, cfg, lexem, trees, shifted, log);
      t := AcceptedIsDerivable(g, tb, cores, keywords, r.cfg, rest, eof, fuel - 1, trees', shifted, log');
    } else if r.Consumed? {
      var trees' := ConsumedCarries(g, tb, cores, keywords, cfg, lexem, trees, shifted, log);
      assert log + [] == log;
      t := AcceptedIsDerivable(g, tb, cores, keywords, r.cfg, rest[1..], eof, fuel - 1, trees', shifted + [T(lexem.id)],
          log');
      ParsedBefore(g, t, shifted, rest, Run(tb, keywords, cfg, rest, eof, fuel, log));
    } else {
      AcceptedParse(g, tb, cores, keywords, cfg, lexem, trees, shifted, log);
      t := Node(0, trees);
      ParsedAtEnd(g, t, shifted, Run(tb, keywords, cfg, rest, eof, fuel, log));
    }
  }

  /** The reduction of a complete item always finds its entries and its goto. */
  lemma {:induction false} ReductionSucceeds(g: Productions, tb: Tables, cores: map<nat, set<Core>>, cfg: Config,
                          trees: seq<Tree>, shifted: seq<Symbol>, log: seq<Action>, p: nat)
    requires SoundTables(g, tb, cores) && Carries(g, cores, cfg, trees, shifted, log)
    requires 0 < p < |g| && Top(cfg) in cores && Core(p, |g[p].right|) in cores[Top(cfg)]
    ensures |g[p].right| < |cfg.stack|
    ensures (cfg.stack[|cfg.stack| - |g[p].right| - 1].state, g[p].left) in tb.gotos
  {
    FoldTrees(g, tb, cores, States(cfg.stack), trees, p);
    var s := States(cfg.stack)[|trees| - |g[p].right|];
    assert Expected(g, cores, s, p);
  }

  lemma {:induction false} AcceptSucceeds(g: Productions, tb: Tables, cores: map<nat, set<Core>>, cfg: Config,
                       trees: seq<Tree>, shifted: seq<Symbol>, log: seq<Action>)
    requires SoundTables(g, tb, cores) && Carries(g, cores, cfg, trees, shifted, log)
    requires Top(cfg) in cores && Core(0, |g[0].right|) in cores[Top(cfg)]
    ensures |cfg.stack| - |g[0].right| == 1
  {
    FoldTrees(g, tb, cores, States(cfg.stack), trees, 0);
    var states, k := States(cfg.stack), |trees| - |g[0].right|;
    assert Expected(g, cores, states[k], 0);
    StartOnlyAtBottom(g, cores, states, trees, k);
  }

  lemma {:induction false} StartOnlyAtBottom(g: Productions, cores: map<nat, set<Core>>, states: seq<nat>,
                                             trees: seq<Tree>, k: nat)
    requires Linked(g, cores, states, trees) && k <= |trees|
    ensures k > 0 ==> states[k] != 1
  {
    assert k > 0 ==> Transition(g, cores, states[k - 1], Root(g, trees[k - 1]), states[k - 1 + 1]);
  }

  /** A step on sound tables fails only where the table has no entry for the lexem. */
  lemma {:induction false} StepFailsOnlyOnUnexpectedToken(g: Productions, tb: Tables, cores: map<nat, set<Core>>,
        keywords: set<int>, cfg: Config, lexem: Lexem, trees: seq<Tree>, shifted: seq<Symbol>, log: seq<Action>)
    requires SoundTables(g, tb, cores) && Carries(g, cores, cfg, trees, shifted, log)
    requires Feed(tb, keywords, cfg, lexem).Failed?
    ensures Feed(tb, keywords, cfg, lexem).error == UnexpectedTokenNotOneOf
    ensures (Top(cfg), lexem.id) !in tb.actions
  {
    var key := (Top(cfg), lexem.id);
    if key in tb.actions {
      var act := tb.actions[key];
      assert SoundAction(g, cores, Top(cfg), lexem.id, act);
      if act.Reduce? {
        var c :| c in cores[Top(cfg)] && c.prod != 0 && SameReduction(g, c, act);
        ReductionSucceeds(g, tb, cores, cfg, trees, shifted, log, c.prod);
      } else if act.Accept? {
        AcceptSucceeds(g, tb, cores, cfg, trees, shifted, log);
      }
    }
  }

  /** The end marker is not shifted, and the only failures are an unexpected token and a bad character. */
  predicate FailsOnInput(r: Outcome) {
    match r
    case Rejected(e) => e == UnexpectedTokenNotOneOf || e == BadCharacterInGrammarDef
    case EndShifted => false
    case OutOfFuel => true
    case Finished(_, _, _) => true
  }

  /** Over every run on sound tables the only failures are an unexpected token and a bad character:
      the driver's own consistency checks never fire, and the end marker is never shifted. */
  lemma {:induction false} RunFailsOnlyOnInput(g: Productions, tb: Tables, cores: map<nat, set<Core>>,
                                               keywords: set<int>, cfg: Config, rest: seq<Lexem>, eof: Lexem,
                                               fuel: nat, trees: seq<Tree>, shifted: seq<Symbol>, log: seq<Action>)
    requires SoundTables(g, tb, cores) && Carries(g, cores, cfg, trees, shifted, log)
    requires eof.id == 0
    ensures FailsOnInput(Run(tb, keywords, cfg, rest, eof, fuel, log))
    decreases fuel
  {
    if fuel > 0 && !(rest != [] && rest[0].id <= 0) {
      var lexem := if rest == [] then eof else rest[0];
      var r, log' := Feed(tb, keywords, cfg, lexem), log + ReductionTaken(tb, cfg, lexem);
      if r.Again? {
        var p, trees' := AgainCarries(g, tb, cores, keywords, cfg, lexem, trees, shifted, log);
        RunFailsOnlyOnInput(g, tb, cores, keywords, r.cfg, rest, eof, fuel - 1, trees', shifted, log');
      } else if r.Consumed? {
        var trees' := ConsumedCarries(g, tb, cores, keywords, cfg, lexem, trees, shifted, log);
        if rest != [] {
          assert log + [] == log;
          RunFailsOnlyOnInput(g, tb, cores, keywords, r.cfg, rest[1..], eof, fuel - 1, trees',
              shifted + [T(lexem.id)], log');
        }
      } else if r.Failed? {
        StepFailsOnlyOnUnexpectedToken(g, tb, cores, keywords, cfg, lexem, trees, shifted, log);
      }
    }
  }

  /** A bad character is only reported for a lexem that is one. */
  lemma {:induction false} NoBadCharacter(tb: Tables, keywords: set<int>, cfg: Config, rest: seq<Lexem>, eof: Lexem,
                                          fuel: nat, log: seq<Action>)
    requires cfg.stack != [] && Positive(rest)
    ensures Run(tb, keywords, cfg, rest, eof, fuel, log) != Rejected(BadCharacterInGrammarDef)
    decreases fuel
  {
    if fuel > 0 {
      var lexem := if rest == [] then eof else rest[0];
      FeedNeverBadCharacter(tb, keywords, cfg, lexem);
      var r, log' := Feed(tb, keywords, cfg, lexem), log + ReductionTaken(tb, cfg, lexem);
      if r.Again? {
        NoBadCharacter(tb, keywords, r.cfg, rest, eof, fuel - 1, log');
      } else if r.Consumed? && rest != [] {
        NoBadCharacter(tb, keywords, r.cfg, rest[1..], eof, fuel - 1, log');
      }
    }
  }

  lemma {:induction false} FeedNeverBadCharacter(tb: Tables, keywords: set<int>, cfg: Config, lexem: Lexem)
    requires cfg.stack != []
    ensures match Feed(tb, keywords, cfg, lexem) case Failed(e) =>
        e != BadCharacterInGrammarDef case Consumed(c) =>
            c.stack != [] case Again(c) => c.stack != [] case Accepted(_, _) => true
  {
  }

  lemma {:induction false} InitialCarries(g: Productions, tb: Tables, cores: map<nat, set<Core>>)
    requires SoundTables(g, tb, cores)
    ensures Carries(g, cores, INITIAL, [], [], [])
  {
    assert States(INITIAL.stack) == [1];
  }
}
