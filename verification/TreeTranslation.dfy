/** The AST of an accepted run is a translation of its parse tree: tokens for the leaves, call structures for the
    productions with a call, with the lines and scope steps counted from left to right. */
module TreeTranslation {
  import opened Guards
  import opened Grammar
  import opened Tables
  import opened Driver
  import opened EmittedScopes
  import opened ParserSoundness

  // ---------------------------------------------------------------- the translation

  /** AST nodes, the line of the last token and the scope counter behind them. */
  datatype Made = Made(nodes: seq<AstNode>, line: int, step: nat)

  /** A keyword leaves nothing, any other lexem its token. A production with a call makes one structure of what its
      elements left, on the line of the last token, with the step counted or the scope from the first element on. */
  function Ast(g: Productions, keywords: set<int>, t: Tree, lexems: seq<Lexem>, line: int, step: nat): Made
    requires |lexems| == |Frontier(t)|
    decreases t, 1
  {
    match t
    case Leaf(_) =>
      var x := lexems[0];
      if x.id in keywords then Made([], line, step) else Made([TokenNode(x.name, x.value, x.line)], x.line, step)
    case Node(p, kids) =>
      var row := AstAll(g, keywords, kids, lexems, line, step);
      if p >= |g| || g[p].callidx == 0 then row
      else match g[p].scope
        case NoScope => Made([CallNode(g[p].callidx, row.line, AtStep(row.step), row.nodes)], row.line, row.step)
        case Step => Made([CallNode(g[p].callidx, row.line, AtStep(row.step + 1), row.nodes)], row.line, row.step + 1)
        case Scope =>
          Made([CallNode(g[p].callidx, row.line, InScope(step, row.step + 1), row.nodes)], row.line, row.step + 1)
  }

  function AstAll(g: Productions, keywords: set<int>, ts: seq<Tree>, lexems: seq<Lexem>, line: int, step: nat): Made
    requires |lexems| == |FrontierAll(ts)|
    decreases ts, 0
  {
    if ts == [] then Made([], line, step)
    else
      var k := |Frontier(ts[0])|;
      var first := Ast(g, keywords, ts[0], lexems[..k], line, step);
      var rest := AstAll(g, keywords, ts[1..], lexems[k..], first.line, first.step);
      Made(first.nodes + rest.nodes, rest.line, rest.step)
  }

  // ---------------------------------------------------------------- the stack of a run

  /** The line of the last token and the scope counter between two entries. */
  datatype Mark = Mark(line: int, step: nat)

  /** The entry holds the translation of its tree, the counter before it, and leads from one mark to the next. */
  ghost predicate EntryBuilt(g: Productions, keywords: set<int>, e: Entry, t: Tree, part: seq<Lexem>, before: Mark,
                             after: Mark) {
    && |part| == |Frontier(t)| && e.scopecnt == before.step
    && Ast(g, keywords, t, part, before.line, before.step) == Made(e.nodes, after.line, after.step)
  }

  /** Above the bottom the entries hold the translations of their trees, one behind the other. */
  ghost predicate Built(g: Productions, keywords: set<int>, es: seq<Entry>, ts: seq<Tree>, parts: seq<seq<Lexem>>,
                        marks: seq<Mark>) {
    && |es| == |marks| == |ts| + 1 && |parts| == |ts| && es[0].nodes == [] && marks[0] == Mark(0, 0)
    && forall i {:trigger parts[i]} :: 0 <= i < |ts| ==>
         EntryBuilt(g, keywords, es[i + 1], ts[i], parts[i], marks[i], marks[i + 1])
  }

  function Join(parts: seq<seq<Lexem>>): seq<Lexem> {
    if parts == [] then [] else parts[0] + Join(parts[1..])
  }

  lemma {:induction false} JoinAppend(parts: seq<seq<Lexem>>, part: seq<Lexem>)
    ensures Join(parts + [part]) == Join(parts) + part
    decreases |parts|
  {
    if parts == [] {
      assert [part][1..] == [] && parts + [part] == [part];
    } else {
      assert (parts + [part])[1..] == parts[1..] + [part];
      JoinAppend(parts[1..], part);
    }
  }

  lemma {:induction false} JoinSuffix(parts: seq<seq<Lexem>>, k: nat)
    requires k <= |parts|
    ensures Join(parts[..k] + [Join(parts[k..])]) == Join(parts)
    decreases k
  {
    if k == 0 {
      assert parts[0..] == parts && parts[..0] + [Join(parts)] == [Join(parts)] && [Join(parts)][1..] == [];
    } else {
      assert (parts[..k] + [Join(parts[k..])])[1..] == parts[1..][..k - 1] + [Join(parts[1..][k - 1..])];
      JoinSuffix(parts[1..], k - 1);
    }
  }

  /** Consecutive entries from number k on make the translation of their trees. */
  lemma {:induction false} RowBuilt(g: Productions, keywords: set<int>, es: seq<Entry>, ts: seq<Tree>,
                                    parts: seq<seq<Lexem>>, marks: seq<Mark>, k: nat)
    requires Built(g, keywords, es, ts, parts, marks) && k <= |ts|
    ensures |Join(parts[k..])| == |FrontierAll(ts[k..])|
    ensures AstAll(g, keywords, ts[k..], Join(parts[k..]), marks[k].line, marks[k].step)
        == Made(NodesOf(es[k + 1..]), marks[|ts|].line, marks[|ts|].step)
    decreases |ts| - k
  {
    if k < |ts| {
      RowBuilt(g, keywords, es, ts, parts, marks, k + 1);
      assert EntryBuilt(g, keywords, es[k + 1], ts[k], parts[k], marks[k], marks[k + 1]);
      RowOneMore(g, keywords, ts[k..], parts[k..], marks[k], marks[k + 1], es[k + 1].nodes) by {
        assert ts[k..][1..] == ts[k + 1..] && parts[k..][1..] == parts[k + 1..];
      }
      assert ts[k..][1..] == ts[k + 1..] && parts[k..][1..] == parts[k + 1..];
      assert es[k + 1..] == [es[k + 1]] + es[k + 2..];
      NodesConcat([es[k + 1]], es[k + 2..]);
      NodesOfOne(es[k + 1]);
    }
  }

  lemma {:induction false} NodesOfOne(e: Entry)
    ensures NodesOf([e]) == e.nodes
  {
    assert [e][..0] == [] && NodesOf([]) == [];
  }

  lemma {:induction false} RowOneMore(g: Productions, keywords: set<int>, ts: seq<Tree>, parts: seq<seq<Lexem>>,
                                      before: Mark, after: Mark, nodes: seq<AstNode>)
    requires ts != [] && |parts| == |ts| && |Join(parts[1..])| == |FrontierAll(ts[1..])|
    requires |parts[0]| == |Frontier(ts[0])|
        && Ast(g, keywords, ts[0], parts[0], before.line, before.step) == Made(nodes, after.line, after.step)
    ensures |Join(parts)| == |FrontierAll(ts)|
    ensures var rest := AstAll(g, keywords, ts[1..], Join(parts[1..]), after.line, after.step);
            AstAll(g, keywords, ts, Join(parts), before.line, before.step)
            == Made(nodes + rest.nodes, rest.line, rest.step)
  {
    var x, y := parts[0], Join(parts[1..]);
    assert (x + y)[..|x|] == x && (x + y)[|x|..] == y;
  }

  // ---------------------------------------------------------------- steps and runs

  ghost predicate ConfigBuilt(g: Productions, keywords: set<int>, cfg: Config, ts: seq<Tree>, parts: seq<seq<Lexem>>,
                              marks: seq<Mark>) {
    Built(g, keywords, cfg.stack, ts, parts, marks) && marks[|ts|] == Mark(cfg.line, cfg.scopestep)
  }

  lemma {:induction false} BuiltPush(g: Productions, keywords: set<int>, es: seq<Entry>, ts: seq<Tree>,
                                     parts: seq<seq<Lexem>>, marks: seq<Mark>, e: Entry, t: Tree, part: seq<Lexem>,
                                     after: Mark)
    requires Built(g, keywords, es, ts, parts, marks) && EntryBuilt(g, keywords, e, t, part, marks[|ts|], after)
    ensures Built(g, keywords, es + [e], ts + [t], parts + [part], marks + [after])
  {
    forall i | 0 <= i < |ts + [t]|
      ensures EntryBuilt(g, keywords, (es + [e])[i + 1], (ts + [t])[i], (parts + [part])[i], (marks + [after])[i],
        (marks + [after])[i + 1])
    {
      if i < |ts| { assert EntryBuilt(g, keywords, es[i + 1], ts[i], parts[i], marks[i], marks[i + 1]); }
    }
  }

  lemma {:induction false} BuiltPrefix(g: Productions, keywords: set<int>, es: seq<Entry>, ts: seq<Tree>,
                                       parts: seq<seq<Lexem>>, marks: seq<Mark>, k: nat)
    requires Built(g, keywords, es, ts, parts, marks) && k <= |ts|
    ensures Built(g, keywords, es[..k + 1], ts[..k], parts[..k], marks[..k + 1])
  {
    forall i | 0 <= i < k
      ensures EntryBuilt(g, keywords, es[..k + 1][i + 1], ts[..k][i], parts[..k][i], marks[..k + 1][i],
        marks[..k + 1][i + 1])
    {
      assert EntryBuilt(g, keywords, es[i + 1], ts[i], parts[i], marks[i], marks[i + 1]);
    }
  }

  lemma {:induction false} ConsumedBuilt(g: Productions, tb: Tables, keywords: set<int>, cfg: Config, lexem: Lexem,
                                         ts: seq<Tree>, parts: seq<seq<Lexem>>, marks: seq<Mark>)
    returns (parts': seq<seq<Lexem>>, marks': seq<Mark>)
    requires cfg.stack != [] && ConfigBuilt(g, keywords, cfg, ts, parts, marks) && lexem.id > 0
    requires Feed(tb, keywords, cfg, lexem).Consumed?
    ensures ConfigBuilt(g, keywords, Feed(tb, keywords, cfg, lexem).cfg, ts + [Leaf(T(lexem.id))], parts', marks')
    ensures Join(parts') == Join(parts) + [lexem]
  {
    var c := Feed(tb, keywords, cfg, lexem).cfg;
    var after := Mark(c.line, c.scopestep);
    parts', marks' := parts + [[lexem]], marks + [after];
    JoinAppend(parts, [lexem]);
    BuiltPush(g, keywords, cfg.stack, ts, parts, marks, c.stack[|cfg.stack|], Leaf(T(lexem.id)), [lexem], after);
  }

  /** What a reduction leaves is the translation of the node it makes. */
  lemma {:induction false} ReducedBuilt(g: Productions, keywords: set<int>, cfg: Config, ts: seq<Tree>,
                                        parts: seq<seq<Lexem>>, marks: seq<Mark>, p: nat, e: Entry)
    requires ConfigBuilt(g, keywords, cfg, ts, parts, marks) && p < |g| && |g[p].right| <= |ts|
    requires var d := g[p];
             && e.nodes == ReducedNodes(cfg, d.scope, d.callidx, |d.right|)
             && e.scopecnt == ScopeStart(cfg, |d.right|)
    ensures var d := g[p]; var k := |ts| - |d.right|;
            EntryBuilt(g, keywords, e, Node(p, ts[k..]), Join(parts[k..]), marks[k],
                Mark(cfg.line, NextScopestep(cfg, d.scope, d.callidx)))
  {
    var k := |ts| - |g[p].right|;
    RowBuilt(g, keywords, cfg.stack, ts, parts, marks, k);
    if k < |ts| { assert EntryBuilt(g, keywords, cfg.stack[k + 1], ts[k], parts[k], marks[k], marks[k + 1]); }
  }

  lemma {:induction false} AgainBuilt(g: Productions, tb: Tables, keywords: set<int>, cfg: Config, lexem: Lexem,
                                      ts: seq<Tree>, parts: seq<seq<Lexem>>, marks: seq<Mark>, p: nat, ts': seq<Tree>)
    returns (parts': seq<seq<Lexem>>, marks': seq<Mark>)
    requires cfg.stack != [] && ConfigBuilt(g, keywords, cfg, ts, parts, marks)
    requires Feed(tb, keywords, cfg, lexem).Again? && Folded(g, ts, p, ts') && p > 0
        && ReductionTaken(tb, cfg, lexem) == [ProductionAction(g, p)]
    ensures ConfigBuilt(g, keywords, Feed(tb, keywords, cfg, lexem).cfg, ts', parts', marks')
    ensures Join(parts') == Join(parts)
  {
    var c := Feed(tb, keywords, cfg, lexem).cfg;
    var k := |ts| - |g[p].right|;
    var e, after := c.stack[k + 1], Mark(c.line, c.scopestep);
    assert tb.actions[(Top(cfg), lexem.id)] == ProductionAction(g, p);
    assert c.stack == cfg.stack[..k + 1] + [e];
    ReducedBuilt(g, keywords, cfg, ts, parts, marks, p, e);
    parts', marks' := parts[..k] + [Join(parts[k..])], marks[..k + 1] + [after];
    JoinSuffix(parts, k);
    BuiltPrefix(g, keywords, cfg.stack, ts, parts, marks, k);
    BuiltPush(g, keywords, cfg.stack[..k + 1], ts[..k], parts[..k], marks[..k + 1], e, Node(p, ts[k..]),
      Join(parts[k..]), after);
  }

  /** The AST delivered is the translation of the tree. */
  ghost predicate Translated(g: Productions, keywords: set<int>, t: Tree, lexems: seq<Lexem>, nodes: seq<AstNode>,
                             step: nat) {
    |lexems| == |Frontier(t)|
    && var m := Ast(g, keywords, t, lexems, 0, 0); nodes == m.nodes && step == m.step
  }

  lemma {:induction false} AcceptedBuilt(g: Productions, tb: Tables, keywords: set<int>, cfg: Config, lexem: Lexem,
                                         ts: seq<Tree>, parts: seq<seq<Lexem>>, marks: seq<Mark>)
    requires |g| > 0 && cfg.stack != [] && ConfigBuilt(g, keywords, cfg, ts, parts, marks) && |g[0].right| == |ts|
    requires (Top(cfg), lexem.id) in tb.actions && tb.actions[(Top(cfg), lexem.id)] == ProductionAction(g, 0)
    requires Feed(tb, keywords, cfg, lexem).Accepted?
    ensures var r := Feed(tb, keywords, cfg, lexem);
            Translated(g, keywords, Node(0, ts), Join(parts), r.nodes, r.scopestep)
  {
    var d := g[0];
    ReducedBuilt(g, keywords, cfg, ts, parts, marks, 0,
      Entry(0, ReducedNodes(cfg, d.scope, d.callidx, |d.right|), ScopeStart(cfg, |d.right|)));
    assert ts[0..] == ts && parts[0..] == parts;
  }

  lemma {:induction false} AcceptedAction(g: Productions, tb: Tables, cores: map<nat, set<Core>>, keywords: set<int>,
                                          cfg: Config, lexem: Lexem, trees: seq<Tree>, shifted: seq<Symbol>,
                                          log: seq<Action>)
    requires SoundTables(g, tb, cores) && Carries(g, cores, cfg, trees, shifted, log)
    requires Feed(tb, keywords, cfg, lexem).Accepted?
    ensures tb.actions[(Top(cfg), lexem.id)] == ProductionAction(g, 0) && |trees| == |g[0].right|
  {
    assert SoundAction(g, cores, Top(cfg), lexem.id, tb.actions[(Top(cfg), lexem.id)]);
  }

  /** Between two steps, after the lexems read. */
  ghost predicate Ongoing(g: Productions, cores: map<nat, set<Core>>, keywords: set<int>, cfg: Config,
                          read: seq<Lexem>, log: seq<Action>) {
    Positive(read) && exists ts, parts, marks {:trigger ConfigBuilt(g, keywords, cfg, ts, parts, marks)} ::
      Carries(g, cores, cfg, ts, Ids(read), log) && ConfigBuilt(g, keywords, cfg, ts, parts, marks)
      && Join(parts) == read
  }

  /** The AST delivered is the translation of a parse tree of the lexems, the one whose post-order are the
      reductions. */
  ghost predicate Delivers(g: Productions, keywords: set<int>, lexems: seq<Lexem>, log: seq<Action>,
                           nodes: seq<AstNode>, step: nat) {
    Positive(lexems) && exists t {:trigger Translated(g, keywords, t, lexems, nodes, step)} ::
      ParseOf(g, t, Ids(lexems), log) && Translated(g, keywords, t, lexems, nodes, step)
  }

  lemma {:induction false} AgainGoesOn(g: Productions, tb: Tables, cores: map<nat, set<Core>>, keywords: set<int>,
                                       cfg: Config, lexem: Lexem, read: seq<Lexem>, log: seq<Action>)
    requires SoundTables(g, tb, cores) && cfg.stack != [] && Ongoing(g, cores, keywords, cfg, read, log)
    requires Feed(tb, keywords, cfg, lexem).Again?
    ensures Ongoing(g, cores, keywords, Feed(tb, keywords, cfg, lexem).cfg, read, log + ReductionTaken(tb, cfg, lexem))
  {
    var ts, parts, marks :| Carries(g, cores, cfg, ts, Ids(read), log)
        && ConfigBuilt(g, keywords, cfg, ts, parts, marks)
        && Join(parts) == read;
    var p, ts' := AgainCarries(g, tb, cores, keywords, cfg, lexem, ts, Ids(read), log);
    var parts', marks' := AgainBuilt(g, tb, keywords, cfg, lexem, ts, parts, marks, p, ts');
  }

  lemma {:induction false} ConsumedGoesOn(g: Productions, tb: Tables, cores: map<nat, set<Core>>, keywords: set<int>,
                                          cfg: Config, lexem: Lexem, read: seq<Lexem>, log: seq<Action>)
    requires SoundTables(g, tb, cores) && cfg.stack != [] && Ongoing(g, cores, keywords, cfg, read, log)
    requires Feed(tb, keywords, cfg, lexem).Consumed?
    ensures Ongoing(g, cores, keywords, Feed(tb, keywords, cfg, lexem).cfg, read + [lexem],
        log + ReductionTaken(tb, cfg, lexem))
  {
    var ts, parts, marks :| Carries(g, cores, cfg, ts, Ids(read), log)
        && ConfigBuilt(g, keywords, cfg, ts, parts, marks)
        && Join(parts) == read;
    var ts' := ConsumedCarries(g, tb, cores, keywords, cfg, lexem, ts, Ids(read), log);
    var parts', marks' := ConsumedBuilt(g, tb, keywords, cfg, lexem, ts, parts, marks);
    assert log + [] == log && Ids(read + [lexem]) == Ids(read) + [T(lexem.id)];
  }

  lemma {:induction false} AcceptedDelivers(g: Productions, tb: Tables, cores: map<nat, set<Core>>, keywords: set<int>,
                                            cfg: Config, lexem: Lexem, read: seq<Lexem>, log: seq<Action>)
    requires SoundTables(g, tb, cores) && cfg.stack != [] && Ongoing(g, cores, keywords, cfg, read, log)
    requires Feed(tb, keywords, cfg, lexem).Accepted?
    ensures var r := Feed(tb, keywords, cfg, lexem);
            lexem.id == 0
            && Delivers(g, keywords, read, log + ReductionTaken(tb, cfg, lexem), r.nodes, r.scopestep)
  {
    var ts, parts, marks :| Carries(g, cores, cfg, ts, Ids(read), log)
        && ConfigBuilt(g, keywords, cfg, ts, parts, marks)
        && Join(parts) == read;
    AcceptedParse(g, tb, cores, keywords, cfg, lexem, ts, Ids(read), log);
    AcceptedAction(g, tb, cores, keywords, cfg, lexem, ts, Ids(read), log);
    AcceptedBuilt(g, tb, keywords, cfg, lexem, ts, parts, marks);
  }

  ghost predicate OutcomeDelivers(g: Productions, keywords: set<int>, lexems: seq<Lexem>, r: Outcome) {
    forall z: int {:trigger Look(z)} :: Look(z) ==>
      r.Finished? && Delivers(g, keywords, lexems, r.log, r.nodes, r.scopestep)
  }

  lemma {:induction false} RunDelivers(g: Productions, tb: Tables, cores: map<nat, set<Core>>, keywords: set<int>,
                                       cfg: Config, rest: seq<Lexem>, eof: Lexem, fuel: nat, log: seq<Action>,
                                       read: seq<Lexem>)
    requires SoundTables(g, tb, cores) && cfg.stack != [] && Ongoing(g, cores, keywords, cfg, read, log)
    requires Run(tb, keywords, cfg, rest, eof, fuel, log).Finished?
    ensures OutcomeDelivers(g, keywords, read + rest, Run(tb, keywords, cfg, rest, eof, fuel, log))
    decreases fuel
  {
    var lexem := if rest == [] then eof else rest[0];
    var r, log' := Feed(tb, keywords, cfg, lexem), log + ReductionTaken(tb, cfg, lexem);
    if r.Again? {
      AgainGoesOn(g, tb, cores, keywords, cfg, lexem, read, log);
      RunDelivers(g, tb, cores, keywords, r.cfg, rest, eof, fuel - 1, log', read);
    } else if r.Consumed? {
      ConsumedGoesOn(g, tb, cores, keywords, cfg, lexem, read, log);
      RunDelivers(g, tb, cores, keywords, r.cfg, rest[1..], eof, fuel - 1, log', read + [lexem]);
      assert read + [lexem] + rest[1..] == read + rest;
    } else {
      AcceptedDelivers(g, tb, cores, keywords, cfg, lexem, read, log);
      assert read + [] == read;
    }
  }

  /** Every run accepted on sound tables delivers the translation of a parse tree of its lexems. */
  lemma {:induction false} FinishedRunIsTranslated(g: Productions, tb: Tables, cores: map<nat, set<Core>>,
                                                   keywords: set<int>, lexems: seq<Lexem>, eof: Lexem, fuel: nat)
    requires SoundTables(g, tb, cores) && Run(tb, keywords, INITIAL, lexems, eof, fuel, []).Finished?
    ensures var r := Run(tb, keywords, INITIAL, lexems, eof, fuel, []);
            Delivers(g, keywords, lexems, r.log, r.nodes, r.scopestep)
  {
    InitialCarries(g, tb, cores);
    assert ConfigBuilt(g, keywords, INITIAL, [], [], [Mark(0, 0)]);
    RunDelivers(g, tb, cores, keywords, INITIAL, lexems, eof, fuel, [], []);
    assert Look(0);
    assert [] + lexems == lexems;
  }
}
