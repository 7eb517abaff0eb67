/** Invariants of the driver over every run: scopes of emitted nodes nest, no token is lost or invented. */
module EmittedScopes {
  import opened Grammar
  import opened Tables
  import opened Driver
  import opened Scopes

  // ---------------------------------------------------------------- nesting of a node, a row of nodes, the stack

  /** Everything recorded in the node lies between lo and hi; what is below a scoped node lies inside its scope. */
  ghost predicate Nested(n: AstNode, lo: nat, hi: nat)
    decreases n, 1
  {
    match n
    case TokenNode(_, _, _) => lo <= hi
    case CallNode(_, _, AtStep(step), args) => lo <= step <= hi && RowNested(args, lo, step)
    case CallNode(_, _, InScope(start, end), args) => lo <= start < end <= hi && RowNested(args, start, end - 1)
  }

  /** Consecutive nodes lie in consecutive ranges of scope steps. */
  ghost predicate RowNested(ns: seq<AstNode>, lo: nat, hi: nat)
    decreases ns, 0
  {
    if ns == [] then lo <= hi
    else exists mid: nat :: mid <= hi && Nested(ns[0], lo, mid) && RowNested(ns[1..], mid, hi)
  }

  /** Scope counters do not decrease up the stack; the nodes of an entry lie between its counter and the next one. */
  ghost predicate StackNested(es: seq<Entry>, hi: nat)
    decreases |es|
  {
    es == [] ||
    var last := es[|es| - 1];
    last.scopecnt <= hi && RowNested(last.nodes, last.scopecnt, hi) && StackNested(es[..|es| - 1], last.scopecnt)
  }

  lemma {:induction false} NestedRange(n: AstNode, lo: nat, hi: nat)
    requires Nested(n, lo, hi)
    ensures lo <= hi
    decreases n, 1
  {
  }

  lemma {:induction false} RowRange(ns: seq<AstNode>, lo: nat, hi: nat)
    requires RowNested(ns, lo, hi)
    ensures lo <= hi
    decreases |ns|
  {
    if ns != [] {
      var mid: nat :| mid <= hi && Nested(ns[0], lo, mid) && RowNested(ns[1..], mid, hi);
      NestedRange(ns[0], lo, mid);
    }
  }

  lemma {:induction false} RowConcat(a: seq<AstNode>, b: seq<AstNode>, lo: nat, mid: nat, hi: nat)
    requires RowNested(a, lo, mid) && RowNested(b, mid, hi)
    ensures RowNested(a + b, lo, hi)
    decreases |a|
  {
    RowRange(b, mid, hi);
    if a == [] {
      assert a + b == b;
      RowLower(b, lo, mid, hi);
    } else {
      var m: nat :| m <= mid && Nested(a[0], lo, m) && RowNested(a[1..], m, mid);
      RowConcat(a[1..], b, m, mid, hi);
      assert (a + b)[1..] == a[1..] + b;
    }
  }

  /** The lower bound may be lowered. */
  lemma {:induction false} NestedLower(n: AstNode, lo: nat, lo': nat, hi: nat)
    requires Nested(n, lo', hi) && lo <= lo'
    ensures Nested(n, lo, hi)
    decreases n, 1
  {
    match n
    case TokenNode(_, _, _) =>
    case CallNode(_, _, AtStep(step), args) => RowLower(args, lo, lo', step);
    case CallNode(_, _, InScope(_, _), _) =>
  }

  lemma {:induction false} RowLower(ns: seq<AstNode>, lo: nat, lo': nat, hi: nat)
    requires RowNested(ns, lo', hi) && lo <= lo'
    ensures RowNested(ns, lo, hi)
    decreases ns, 0
  {
    if ns != [] {
      var mid: nat :| mid <= hi && Nested(ns[0], lo', mid) && RowNested(ns[1..], mid, hi);
      NestedLower(ns[0], lo, lo', mid);
    }
  }

  lemma {:induction false} RowUpper(ns: seq<AstNode>, lo: nat, hi: nat, hi': nat)
    requires RowNested(ns, lo, hi) && hi <= hi'
    ensures RowNested(ns, lo, hi')
    decreases |ns|
  {
    if ns != [] {
      var mid: nat :| mid <= hi && Nested(ns[0], lo, mid) && RowNested(ns[1..], mid, hi);
      RowUpper(ns[1..], mid, hi, hi');
    }
  }

  lemma {:induction false} NodesOfSuffix(es: seq<Entry>, k: nat)
    requires k < |es|
    ensures NodesOf(es[k..]) == NodesOf(es[k..][..|es| - k - 1]) + es[|es| - 1].nodes
    ensures es[k..][..|es| - k - 1] == es[..|es| - 1][k..]
  {
  }

  /** The entries covered by a reduction: their nodes form a row from the first counter on. */
  lemma {:induction false} SuffixNested(es: seq<Entry>, hi: nat, k: nat)
    requires StackNested(es, hi) && k < |es|
    ensures es[k].scopecnt <= hi
    ensures RowNested(NodesOf(es[k..]), es[k].scopecnt, hi) && StackNested(es[..k], es[k].scopecnt)
    decreases |es|
  {
    var n := |es| - 1;
    NodesOfSuffix(es, k);
    if k == n {
      assert es[k..] == [es[n]] && NodesOf(es[k..][..0]) == [];
      assert NodesOf(es[k..]) == es[n].nodes;
    } else {
      SuffixNested(es[..n], es[n].scopecnt, k);
      RowConcat(NodesOf(es[..n][k..]), es[n].nodes, es[k].scopecnt, es[n].scopecnt, hi);
      assert es[..n][..k] == es[..k];
    }
  }

  ghost predicate ConfigNested(cfg: Config) {
    cfg.stack != [] && StackNested(cfg.stack, cfg.scopestep)
  }

  lemma {:induction false} InitialNested()
    ensures ConfigNested(INITIAL)
  {
    assert INITIAL.stack[..0] == [];
  }

  lemma {:induction false} PushNested(es: seq<Entry>, e: Entry, hi: nat)
    requires e.scopecnt <= hi && RowNested(e.nodes, e.scopecnt, hi) && StackNested(es, e.scopecnt)
    ensures StackNested(es + [e], hi)
  {
    assert (es + [e])[..|es|] == es;
  }

  lemma {:induction false} ReducedNested(cfg: Config, flag: ScopeFlag, call: nat, cnt: nat)
    requires ConfigNested(cfg) && cnt < |cfg.stack|
    ensures ScopeStart(cfg, cnt) <= cfg.scopestep
    ensures RowNested(ReducedNodes(cfg, flag, call, cnt), ScopeStart(cfg, cnt), NextScopestep(cfg, flag, call))
    ensures StackNested(cfg.stack[..|cfg.stack| - cnt], ScopeStart(cfg, cnt))
  {
    var k, hi := |cfg.stack| - cnt, cfg.scopestep;
    var args, start, step := NodesOf(cfg.stack[k..]), ScopeStart(cfg, cnt), NextScopestep(cfg, flag, call);
    if cnt == 0 {
      assert cfg.stack[k..] == [] && cfg.stack[..k] == cfg.stack;
    } else {
      SuffixNested(cfg.stack, hi, k);
    }
    RowUpper(args, start, hi, step);
    if call != 0 {
      var n := ReducedNodes(cfg, flag, call, cnt)[0];
      assert ReducedNodes(cfg, flag, call, cnt) == [n] && [n][1..] == [];
      assert Nested(n, start, step);
    }
  }

  /** Every step keeps the nesting. */
  lemma {:induction false} StepNested(tb: Tables, keywords: set<int>, cfg: Config, lexem: Lexem)
    requires ConfigNested(cfg)
    ensures var r := Feed(tb, keywords, cfg, lexem);
            match r
            case Consumed(c) => ConfigNested(c) && c.scopestep == cfg.scopestep
            case Again(c) => ConfigNested(c) && c.scopestep >= cfg.scopestep
            case Accepted(nodes, step) => step >= cfg.scopestep && RowNested(nodes, 0, step)
            case Failed(_) => true
  {
    match Feed(tb, keywords, cfg, lexem)
    case Consumed(c) =>
      var e := c.stack[|cfg.stack|];
      if e.nodes != [] { RowOfToken(e.nodes[0], cfg.scopestep); }
      PushNested(cfg.stack, e, cfg.scopestep);
    case Again(c) =>
      var act := tb.actions[(Top(cfg), lexem.id)];
      ReducedNested(cfg, act.scopeflag, act.call, act.count);
      PushNested(cfg.stack[..|cfg.stack| - act.count], c.stack[|c.stack| - 1], c.scopestep);
    case Accepted(nodes, step) =>
      var act := tb.actions[(Top(cfg), lexem.id)];
      ReducedNested(cfg, act.scopeflag, act.call, act.count);
      RowLower(nodes, 0, ScopeStart(cfg, act.count), step);
    case Failed(_) =>
  }

  lemma {:induction false} RowOfToken(n: AstNode, at: nat)
    requires n.TokenNode?
    ensures RowNested([n], at, at)
  {
    assert [n][1..] == [] && Nested(n, at, at) && RowNested([n][1..], at, at);
    assert Nested([n][0], at, at);
  }

  // ---------------------------------------------------------------- the scopes of a row

  /** Scopes in the order in which the driver attaches them. */
  function Emitted(n: AstNode): seq<Scope>
    decreases n, 1
  {
    match n
    case TokenNode(_, _, _) => []
    case CallNode(_, _, AtStep(_), args) => EmittedAll(args)
    case CallNode(_, _, InScope(start, end), args) => EmittedAll(args) + [Scope.Scope(start, end)]
  }

  function EmittedAll(ns: seq<AstNode>): seq<Scope>
    decreases ns, 0
  {
    if ns == [] then [] else Emitted(ns[0]) + EmittedAll(ns[1..])
  }

  ghost predicate WellNested(ss: seq<Scope>, lo: int, hi: int) {
    && (forall i :: 0 <= i < |ss| ==> lo <= ss[i].start < ss[i].end <= hi)
    && (forall i, j :: 0 <= i < j < |ss| ==> ss[i].end < ss[j].end && Compatible(ss[i], ss[j]))
  }

  lemma {:induction false} WellNestedConcat(a: seq<Scope>, b: seq<Scope>, lo: int, mid: int, hi: int)
    requires WellNested(a, lo, mid) && WellNested(b, mid, hi) && lo <= mid <= hi
    ensures WellNested(a + b, lo, hi)
  {
  }

  lemma {:induction false} NodeEmitsNested(n: AstNode, lo: nat, hi: nat)
    requires Nested(n, lo, hi)
    ensures WellNested(Emitted(n), lo, hi)
    decreases n, 1
  {
    match n
    case TokenNode(_, _, _) =>
    case CallNode(_, _, AtStep(step), args) => RowEmitsNested(args, lo, step);
    case CallNode(_, _, InScope(start, end), args) =>
      RowEmitsNested(args, start, end - 1);
  }

  /** The scopes attached to the nodes of a row are non-empty, pairwise nested or disjoint, with strictly increasing
      ends. */
  lemma {:induction false} RowEmitsNested(ns: seq<AstNode>, lo: nat, hi: nat)
    requires RowNested(ns, lo, hi)
    ensures WellNested(EmittedAll(ns), lo, hi)
    decreases ns, 0
  {
    if ns != [] {
      var mid: nat :| mid <= hi && Nested(ns[0], lo, mid) && RowNested(ns[1..], mid, hi);
      NestedRange(ns[0], lo, mid);
      NodeEmitsNested(ns[0], lo, mid);
      RowEmitsNested(ns[1..], mid, hi);
      WellNestedConcat(Emitted(ns[0]), EmittedAll(ns[1..]), lo, mid, hi);
    }
  }

  /** The scopes of a row meet the precondition of the scope-bound maps. */
  lemma {:induction false} EmittedScopesAreHierarchical(ns: seq<AstNode>, lo: nat, hi: nat)
    requires RowNested(ns, lo, hi)
    ensures Hierarchical(set s | s in EmittedAll(ns))
  {
    RowEmitsNested(ns, lo, hi);
    var ss := EmittedAll(ns);
    forall a, b | a in ss && b in ss ensures Compatible(a, b) {
      var i :| 0 <= i < |ss| && ss[i] == a;
      var j :| 0 <= j < |ss| && ss[j] == b;
    }
  }

  // ---------------------------------------------------------------- steps and scopes below a scoped node

  /** Every extent recorded in the node or below it. */
  function Extents(n: AstNode): set<NodeExtent>
    decreases n, 1
  {
    match n
    case TokenNode(_, _, _) => {}
    case CallNode(_, _, x, args) => {x} + ExtentsAll(args)
  }

  function ExtentsAll(ns: seq<AstNode>): set<NodeExtent>
    decreases ns, 0
  {
    if ns == [] then {} else Extents(ns[0]) + ExtentsAll(ns[1..])
  }

  predicate ExtentWithin(x: NodeExtent, lo: nat, hi: nat) {
    match x
    case AtStep(step) => lo <= step <= hi
    case InScope(start, end) => lo <= start < end <= hi
  }

  lemma {:induction false} NodeExtentsWithin(n: AstNode, lo: nat, hi: nat)
    requires Nested(n, lo, hi)
    ensures forall x | x in Extents(n) :: ExtentWithin(x, lo, hi)
    decreases n, 1
  {
    match n
    case TokenNode(_, _, _) =>
    case CallNode(_, _, AtStep(step), args) => RowExtentsWithin(args, lo, step);
    case CallNode(_, _, InScope(start, end), args) => RowExtentsWithin(args, start, end - 1);
  }

  lemma {:induction false} RowExtentsWithin(ns: seq<AstNode>, lo: nat, hi: nat)
    requires RowNested(ns, lo, hi)
    ensures forall x | x in ExtentsAll(ns) :: ExtentWithin(x, lo, hi)
    decreases ns, 0
  {
    if ns != [] {
      var mid: nat :| mid <= hi && Nested(ns[0], lo, mid) && RowNested(ns[1..], mid, hi);
      NestedRange(ns[0], lo, mid);
      NodeExtentsWithin(ns[0], lo, mid);
      RowExtentsWithin(ns[1..], mid, hi);
    }
  }

  /** Below a scoped node every step is covered by its scope, every scope contained in it. */
  lemma {:induction false} BelowScopedNode(n: AstNode, lo: nat, hi: nat)
    requires Nested(n, lo, hi) && n.CallNode? && n.extent.InScope?
    ensures forall x | x in ExtentsAll(n.args) ::
              var s := Scope.Scope(n.extent.start, n.extent.end);
              match x case AtStep(step) => s.Covers(step) case InScope(a, b) => s.Contains(Scope.Scope(a, b))
  {
    RowExtentsWithin(n.args, n.extent.start, n.extent.end - 1);
  }

  // ---------------------------------------------------------------- tokens

  /** The non-keyword lexems of a forest, left to right. */
  function Tokens(n: AstNode): seq<AstNode>
    decreases n, 1
  {
    match n
    case TokenNode(_, _, _) => [n]
    case CallNode(_, _, _, args) => TokensAll(args)
  }

  function TokensAll(ns: seq<AstNode>): seq<AstNode>
    decreases ns, 0
  {
    if ns == [] then [] else Tokens(ns[0]) + TokensAll(ns[1..])
  }

  lemma {:induction false} TokensConcat(a: seq<AstNode>, b: seq<AstNode>)
    ensures TokensAll(a + b) == TokensAll(a) + TokensAll(b)
    decreases |a|
  {
    if a == [] {
      assert a + b == b;
    } else {
      assert (a + b)[1..] == a[1..] + b;
      TokensConcat(a[1..], b);
    }
  }

  lemma {:induction false} NodesConcat(a: seq<Entry>, b: seq<Entry>)
    ensures NodesOf(a + b) == NodesOf(a) + NodesOf(b)
    decreases |b|
  {
    if b == [] {
      assert a + b == a;
    } else {
      var n := |b| - 1;
      assert (a + b)[..|a + b| - 1] == a + b[..n];
      NodesConcat(a, b[..n]);
    }
  }

  lemma {:induction false} NodesPush(a: seq<Entry>, e: Entry)
    ensures NodesOf(a + [e]) == NodesOf(a) + e.nodes
  {
    assert (a + [e])[..|a|] == a;
  }

  /** What a lexem contributes when it is shifted: keywords nothing. */
  function Contribution(keywords: set<int>, lexem: Lexem): seq<AstNode> {
    if lexem.id in keywords then [] else [LexemNode(lexem)]
  }

  function Contributions(keywords: set<int>, lexems: seq<Lexem>): seq<AstNode> {
    if lexems == [] then [] else Contribution(keywords, lexems[0]) + Contributions(keywords, lexems[1..])
  }

  lemma {:induction false} ReductionKeepsTokens(cfg: Config, flag: ScopeFlag, call: nat, cnt: nat)
    requires cnt < |cfg.stack|
    ensures TokensAll(NodesOf(cfg.stack[..|cfg.stack| - cnt]) + ReducedNodes(cfg, flag, call, cnt))
        == TokensAll(NodesOf(cfg.stack))
  {
    var k := |cfg.stack| - cnt;
    var a, b := NodesOf(cfg.stack[..k]), NodesOf(cfg.stack[k..]);
    assert cfg.stack == cfg.stack[..k] + cfg.stack[k..];
    NodesConcat(cfg.stack[..k], cfg.stack[k..]);
    TokensConcat(a, b);
    TokensConcat(a, ReducedNodes(cfg, flag, call, cnt));
    if call != 0 {
      var n := ReducedNodes(cfg, flag, call, cnt)[0];
      assert TokensAll([n]) == Tokens(n) + TokensAll([n][1..]) && [n][1..] == [];
      assert ReducedNodes(cfg, flag, call, cnt) == [n];
    }
  }

  function StackTokens(cfg: Config): seq<AstNode> {
    TokensAll(NodesOf(cfg.stack))
  }

  ghost predicate TokensKept(keywords: set<int>, cfg: Config, lexem: Lexem, r: FeedResult) {
    match r
    case Consumed(c) => StackTokens(c) == StackTokens(cfg) + Contribution(keywords, lexem)
    case Again(c) => StackTokens(c) == StackTokens(cfg)
    case Accepted(nodes, _) => TokensAll(nodes) == StackTokens(cfg)
    case Failed(_) => true
  }

  /** A step keeps the tokens on the AST stack and adds those of the lexem it consumes. */
  lemma {:induction false} StepKeepsTokens(tb: Tables, keywords: set<int>, cfg: Config, lexem: Lexem)
    requires cfg.stack != []
    ensures TokensKept(keywords, cfg, lexem, Feed(tb, keywords, cfg, lexem))
  {
    match Feed(tb, keywords, cfg, lexem)
    case Consumed(c) =>
      var e := c.stack[|cfg.stack|];
      NodesPush(cfg.stack, e);
      TokensConcat(NodesOf(cfg.stack), e.nodes);
      assert e.nodes == Contribution(keywords, lexem);
      TokensOfContribution(keywords, lexem);
    case Again(c) =>
      var act := tb.actions[(Top(cfg), lexem.id)];
      ReductionKeepsTokens(cfg, act.scopeflag, act.call, act.count);
      NodesPush(cfg.stack[..|cfg.stack| - act.count], c.stack[|c.stack| - 1]);
    case Accepted(nodes, _) =>
      var act := tb.actions[(Top(cfg), lexem.id)];
      ReductionKeepsTokens(cfg, act.scopeflag, act.call, act.count);
      assert cfg.stack[..1] == [cfg.stack[0]] && cfg.stack[..1][..0] == [];
      assert NodesOf(cfg.stack[..1]) == [];
      assert [] + nodes == nodes;
    case Failed(_) =>
  }

  lemma {:induction false} TokensOfContribution(keywords: set<int>, lexem: Lexem)
    ensures TokensAll(Contribution(keywords, lexem)) == Contribution(keywords, lexem)
  {
    if lexem.id !in keywords {
      assert [LexemNode(lexem)][1..] == [];
    }
  }

  /** Over every run that is accepted: everything recorded in the AST nests between 0 and the final scope counter. */
  lemma {:induction false} FinishedRunNests(tb: Tables, keywords: set<int>, cfg: Config, rest: seq<Lexem>, eof: Lexem,
                                            fuel: nat, log: seq<Action>)
    requires ConfigNested(cfg) && Run(tb, keywords, cfg, rest, eof, fuel, log).Finished?
    ensures var r := Run(tb, keywords, cfg, rest, eof, fuel, log); RowNested(r.nodes, 0, r.scopestep)
    decreases fuel
  {
    var lexem := if rest == [] then eof else rest[0];
    var log' := log + ReductionTaken(tb, cfg, lexem);
    StepNested(tb, keywords, cfg, lexem);
    match Feed(tb, keywords, cfg, lexem)
    case Consumed(c) => FinishedRunNests(tb, keywords, c, rest[1..], eof, fuel - 1, log');
    case Again(c) => FinishedRunNests(tb, keywords, c, rest, eof, fuel - 1, log');
    case Accepted(_, _) =>
  }

  lemma {:induction false} ContributionsCons(keywords: set<int>, before: seq<AstNode>, rest: seq<Lexem>)
    requires rest != []
    ensures (before + Contribution(keywords, rest[0])) + Contributions(keywords, rest[1..]) == before
        + Contributions(keywords, rest)
  {
  }

  /** The tokens still to come at a configuration. */
  ghost predicate Expects(keywords: set<int>, cfg: Config, rest: seq<Lexem>, all: seq<AstNode>) {
    all == StackTokens(cfg) + Contributions(keywords, rest)
  }

  lemma {:induction false} StepExpects(tb: Tables, keywords: set<int>, cfg: Config, rest: seq<Lexem>, eof: Lexem,
                                       all: seq<AstNode>)
    requires cfg.stack != [] && Expects(keywords, cfg, rest, all) && (rest != [] ==> rest[0].id > 0)
    ensures match Feed(tb, keywords, cfg, if rest == [] then eof else rest[0])
            case Consumed(c) => rest != [] ==> Expects(keywords, c, rest[1..], all)
            case Again(c) => Expects(keywords, c, rest, all)
            case Accepted(nodes, _) => TokensAll(nodes) == all
            case Failed(_) => true
  {
    var lexem := if rest == [] then eof else rest[0];
    StepKeepsTokens(tb, keywords, cfg, lexem);
    var r := Feed(tb, keywords, cfg, lexem);
    if r.Consumed? && rest != [] {
      ContributionsCons(keywords, StackTokens(cfg), rest);
    } else if r.Accepted? {
      AcceptAtEnd(tb, keywords, cfg, rest, eof);
      assert StackTokens(cfg) + [] == StackTokens(cfg);
    }
  }

  /** A step out of a state of the invariant stays in it, or delivers what is wanted. */
  ghost predicate StepKeeps(tb: Tables, keywords: set<int>, eof: Lexem, inv: (Config, seq<Lexem>) -> bool,
                            goal: seq<AstNode> -> bool, cfg: Config, rest: seq<Lexem>)
    requires cfg.stack != []
  {
    match Feed(tb, keywords, cfg, if rest == [] then eof else rest[0])
    case Consumed(c) => rest != [] ==> inv(c, rest[1..])
    case Again(c) => inv(c, rest)
    case Accepted(nodes, _) => goal(nodes)
    case Failed(_) => true
  }

  /** Induction over the steps of an accepted run. */
  lemma {:induction false} RunInduction(tb: Tables, keywords: set<int>, cfg: Config, rest: seq<Lexem>, eof: Lexem,
                                        fuel: nat, log: seq<Action>, inv: (Config, seq<Lexem>) -> bool,
                                        goal: seq<AstNode> -> bool)
    requires cfg.stack != [] && inv(cfg, rest) && Run(tb, keywords, cfg, rest, eof, fuel, log).Finished?
    requires forall c: Config, more: seq<Lexem> {:trigger inv(c, more)} | c.stack != [] && inv(c, more)
        && (more != [] ==> more[0].id > 0) ::
               StepKeeps(tb, keywords, eof, inv, goal, c, more)
    ensures goal(Run(tb, keywords, cfg, rest, eof, fuel, log).nodes)
    decreases fuel
  {
    var lexem := if rest == [] then eof else rest[0];
    var log' := log + ReductionTaken(tb, cfg, lexem);
    assert StepKeeps(tb, keywords, eof, inv, goal, cfg, rest);
    var r := Feed(tb, keywords, cfg, lexem);
    if r.Consumed? {
      RunInduction(tb, keywords, r.cfg, rest[1..], eof, fuel - 1, log', inv, goal);
    } else if r.Again? {
      RunInduction(tb, keywords, r.cfg, rest, eof, fuel - 1, log', inv, goal);
    }
  }

  /** The nodes are the tokens of the lexems that are no keywords, in their order: at holds the places of these. */
  ghost predicate TokensOf(keywords: set<int>, lexems: seq<Lexem>, nodes: seq<AstNode>, at: seq<nat>) {
    && |at| == |nodes| && Increasing(at) && ArePlaces(keywords, lexems, at) && AllPlaces(keywords, lexems, at)
    && AtPlaces(lexems, nodes, at)
  }

  ghost predicate Increasing(at: seq<nat>) {
    forall i, j | 0 <= i < j < |at| :: at[i] < at[j]
  }

  ghost predicate ArePlaces(keywords: set<int>, lexems: seq<Lexem>, at: seq<nat>) {
    forall i | 0 <= i < |at| :: at[i] < |lexems| && lexems[at[i]].id !in keywords
  }

  ghost predicate AllPlaces(keywords: set<int>, lexems: seq<Lexem>, at: seq<nat>) {
    forall k | 0 <= k < |lexems| && lexems[k].id !in keywords :: exists i :: 0 <= i < |at| && at[i] == k
  }

  ghost predicate AtPlaces(lexems: seq<Lexem>, nodes: seq<AstNode>, at: seq<nat>)
    requires |nodes| == |at|
  {
    forall i | 0 <= i < |at| && at[i] < |lexems| ::
      nodes[i] == TokenNode(lexems[at[i]].name, lexems[at[i]].value, lexems[at[i]].line)
  }

  lemma {:induction false} ContributionsAreTokens(keywords: set<int>, lexems: seq<Lexem>) returns (at: seq<nat>)
    ensures TokensOf(keywords, lexems, Contributions(keywords, lexems), at)
    decreases |lexems|
  {
    if lexems == [] {
      at := [];
    } else {
      var init, last := lexems[..|lexems| - 1], lexems[|lexems| - 1];
      var places := ContributionsAreTokens(keywords, init);
      at := if last.id in keywords then places else places + [|init|];
      assert lexems == init + [last];
      TokensSnoc(keywords, init, last, places);
    }
  }

  lemma {:induction false} TokensSnoc(keywords: set<int>, lexems: seq<Lexem>, last: Lexem, at: seq<nat>)
    requires TokensOf(keywords, lexems, Contributions(keywords, lexems), at)
    ensures TokensOf(keywords, lexems + [last], Contributions(keywords, lexems + [last]),
        if last.id in keywords then at else at + [|lexems|])
  {
    ContributionsSnoc(keywords, lexems, last);
    TokensMore(keywords, lexems, last, Contributions(keywords, lexems), at);
  }

  lemma {:induction false} TokensMore(keywords: set<int>, lexems: seq<Lexem>, last: Lexem, nodes: seq<AstNode>,
                                      at: seq<nat>)
    requires TokensOf(keywords, lexems, nodes, at)
    ensures TokensOf(keywords, lexems + [last], nodes + Contribution(keywords, last),
        if last.id in keywords then at else at + [|lexems|])
  {
    if last.id in keywords {
      PlacesKept(keywords, lexems, last, at);
      assert nodes + Contribution(keywords, last) == nodes;
    } else {
      PlacesKept(keywords, lexems, last, at);
      PlaceAdded(keywords, lexems, last, at);
    }
  }

  lemma {:induction false} PlacesKept(keywords: set<int>, lexems: seq<Lexem>, last: Lexem, at: seq<nat>)
    requires ArePlaces(keywords, lexems, at) && AllPlaces(keywords, lexems, at)
    ensures ArePlaces(keywords, lexems + [last], at)
    ensures last.id in keywords ==> AllPlaces(keywords, lexems + [last], at)
  {
    forall k | 0 <= k < |lexems| && lexems[k].id !in keywords ensures exists i :: 0 <= i < |at| && at[i] == k {
      assert lexems[k].id !in keywords;
    }
  }

  lemma {:induction false} PlaceAdded(keywords: set<int>, lexems: seq<Lexem>, last: Lexem, at: seq<nat>)
    requires Increasing(at) && ArePlaces(keywords, lexems, at) && AllPlaces(keywords, lexems, at)
        && last.id !in keywords
    ensures var at', all := at + [|lexems|], lexems + [last];
            Increasing(at') && ArePlaces(keywords, all, at') && AllPlaces(keywords, all, at')
  {
    var at', all := at + [|lexems|], lexems + [last];
    forall k | 0 <= k < |all| && all[k].id !in keywords ensures exists i :: 0 <= i < |at'| && at'[i] == k {
      if k < |lexems| {
        var i :| 0 <= i < |at| && at[i] == k;
        assert at'[i] == k;
      } else {
        assert at'[|at|] == k;
      }
    }
  }

  lemma {:induction false} ContributionsSnoc(keywords: set<int>, lexems: seq<Lexem>, last: Lexem)
    ensures Contributions(keywords, lexems + [last]) == Contributions(keywords, lexems) + Contribution(keywords, last)
    decreases |lexems|
  {
    if lexems == [] {
      assert [last][1..] == [] && lexems + [last] == [last];
    } else {
      assert (lexems + [last])[1..] == lexems[1..] + [last];
      ContributionsSnoc(keywords, lexems[1..], last);
    }
  }

  /** Over every run that is accepted: the AST holds exactly the lexems that are no keywords, in their order and with
      their names, values and lines. */
  lemma {:induction false} FinishedRunKeepsTokens(tb: Tables, keywords: set<int>, lexems: seq<Lexem>, eof: Lexem,
                                                  fuel: nat) returns (at: seq<nat>)
    requires Run(tb, keywords, INITIAL, lexems, eof, fuel, []).Finished?
    ensures TokensOf(keywords, lexems, TokensAll(Run(tb, keywords, INITIAL, lexems, eof, fuel, []).nodes), at)
  {
    at := ContributionsAreTokens(keywords, lexems);
    var all := Contributions(keywords, lexems);
    var inv := (c: Config, more: seq<Lexem>) => Expects(keywords, c, more, all);
    var goal := (nodes: seq<AstNode>) => TokensAll(nodes) == all;
    forall c: Config, more: seq<Lexem> | c.stack != [] && inv(c, more) && (more != [] ==> more[0].id > 0)
        ensures StepKeeps(tb, keywords, eof, inv, goal, c, more) {
      StepExpects(tb, keywords, c, more, eof, all);
    }
    assert NodesOf(INITIAL.stack) == NodesOf(INITIAL.stack[..0]) + [] == [];
    assert StackTokens(INITIAL) == [] && [] + all == all;
    RunInduction(tb, keywords, INITIAL, lexems, eof, fuel, [], inv, goal);
  }

  /** Acceptance happens at the end of input only. */
  lemma {:induction false} AcceptAtEnd(tb: Tables, keywords: set<int>, cfg: Config, rest: seq<Lexem>, eof: Lexem)
    requires cfg.stack != [] && Feed(tb, keywords, cfg, if rest == [] then eof else rest[0]).Accepted?
    requires rest != [] ==> rest[0].id > 0
    ensures rest == []
  {
  }
}
