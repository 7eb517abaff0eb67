/** The shift/reduce driver on values: a stack whose entries own their segment of the AST stack,
    one step of it, and whole runs. */
module Driver {
  import opened Grammar
  import opened Tables

  datatype Lexem = Lexem(name: string, id: int, value: string, line: int)

  datatype NodeExtent = AtStep(step: nat) | InScope(start: nat, end: nat)

  /** An element of the Lua stack: a non-keyword lexem, or a call structure over sub nodes. */
  datatype AstNode =
    | TokenNode(name: string, value: string, line: int)
    | CallNode(call: nat, line: int, extent: NodeExtent, args: seq<AstNode>)

  datatype Failure =
    | UnexpectedTokenNotOneOf
    | LanguageAutomatonCorrupted
    | LanguageAutomatonMissingGoto
    | LanguageAutomatonUnexpectedAccept
    | BadCharacterInGrammarDef
    | LogicError

  datatype Entry = Entry(state: nat, nodes: seq<AstNode>, scopecnt: nat)

  datatype Config = Config(stack: seq<Entry>, scopestep: nat, line: int)

  const INITIAL := Config([Entry(1, [], 0)], 0, 0)

  function Top(cfg: Config): nat
    requires cfg.stack != []
  {
    cfg.stack[|cfg.stack| - 1].state
  }

  /** The segments of consecutive entries, joined. */
  function NodesOf(es: seq<Entry>): seq<AstNode> {
    if es == [] then [] else NodesOf(es[..|es| - 1]) + es[|es| - 1].nodes
  }

  datatype FeedResult =
    | Failed(error: Failure)
    | Consumed(cfg: Config)
    | Again(cfg: Config)
    | Accepted(nodes: seq<AstNode>, scopestep: nat)

  /** Scope counter at the start of what a reduction of cnt entries covers. */
  function ScopeStart(cfg: Config, cnt: nat): nat
    requires cnt < |cfg.stack|
  {
    if cnt == 0 then cfg.scopestep else cfg.stack[|cfg.stack| - cnt].scopecnt
  }

  function NextScopestep(cfg: Config, flag: ScopeFlag, call: nat): nat {
    if call != 0 && flag != NoScope then cfg.scopestep + 1 else cfg.scopestep
  }

  /** What a reduction of cnt entries leaves on the AST stack in place of their nodes. */
  function ReducedNodes(cfg: Config, flag: ScopeFlag, call: nat, cnt: nat): seq<AstNode>
    requires cnt < |cfg.stack|
  {
    var args := NodesOf(cfg.stack[|cfg.stack| - cnt..]);
    if call == 0 then args
    else
      var step := NextScopestep(cfg, flag, call);
      [CallNode(call, cfg.line, if flag == Scope then InScope(ScopeStart(cfg, cnt), step) else AtStep(step), args)]
  }

  function LexemNode(lexem: Lexem): AstNode {
    TokenNode(lexem.name, lexem.value, lexem.line)
  }

  /** One step of the driver on one lexem. */
  function Feed(tb: Tables, keywords: set<int>, cfg: Config, lexem: Lexem): FeedResult
    requires cfg.stack != []
  {
    if (Top(cfg), lexem.id) !in tb.actions then Failed(UnexpectedTokenNotOneOf)
    else match tb.actions[(Top(cfg), lexem.id)]
      case Shift(s) =>
        if lexem.id in keywords then Consumed(cfg.(stack := cfg.stack + [Entry(s, [], cfg.scopestep)]))
        else Consumed(Config(cfg.stack + [Entry(s, [LexemNode(lexem)], cfg.scopestep)], cfg.scopestep, lexem.line))
      case Reduce(n, flag, call, cnt) => FeedReduce(tb, cfg, n, flag, call, cnt)
      case Accept(_, flag, call, cnt) =>
        if |cfg.stack| <= cnt then Failed(LanguageAutomatonCorrupted)
        else if lexem.id != 0 then Failed(LanguageAutomatonUnexpectedAccept)
        else if |cfg.stack| - cnt != 1 || cfg.stack[0].nodes != [] then Failed(LanguageAutomatonCorrupted)
        else Accepted(ReducedNodes(cfg, flag, call, cnt), NextScopestep(cfg, flag, call))
  }

  function FeedReduce(tb: Tables, cfg: Config, n: nat, flag: ScopeFlag, call: nat, cnt: nat): FeedResult
    requires cfg.stack != []
  {
    if |cfg.stack| <= cnt then Failed(LanguageAutomatonCorrupted)
    else
      var below := cfg.stack[..|cfg.stack| - cnt];
      var s := below[|below| - 1].state;
      if (s, n) !in tb.gotos then Failed(LanguageAutomatonMissingGoto)
      else
        var e := Entry(tb.gotos[(s, n)], ReducedNodes(cfg, flag, call, cnt), ScopeStart(cfg, cnt));
        Again(Config(below + [e], NextScopestep(cfg, flag, call), cfg.line))
  }

  datatype Outcome =
    | OutOfFuel
    | Rejected(error: Failure)
    | EndShifted
    | Finished(nodes: seq<AstNode>, scopestep: nat, log: seq<Action>)

  /** The table entry a step on this lexem looks up, when it reduces. */
  function ReductionTaken(tb: Tables, cfg: Config, lexem: Lexem): seq<Action>
    requires cfg.stack != []
  {
    var key := (Top(cfg), lexem.id);
    if key in tb.actions && !tb.actions[key].Shift? then [tb.actions[key]] else []
  }

  /** Feed the lexems and then the end of input until accepted, collecting the reductions on the way.
      The fuel only bounds the number of steps looked at. */
  function Run(tb: Tables, keywords: set<int>, cfg: Config, rest: seq<Lexem>, eof: Lexem, fuel: nat, log: seq<Action>)
    : Outcome
    requires cfg.stack != []
    decreases fuel
  {
    if fuel == 0 then OutOfFuel
    else if rest != [] && rest[0].id <= 0 then Rejected(BadCharacterInGrammarDef)
    else
      var lexem := if rest == [] then eof else rest[0];
      var log' := log + ReductionTaken(tb, cfg, lexem);
      match Feed(tb, keywords, cfg, lexem)
      case Failed(e) => Rejected(e)
      case Again(c) => Run(tb, keywords, c, rest, eof, fuel - 1, log')
      case Consumed(c) => if rest == [] then EndShifted else Run(tb, keywords, c, rest[1..], eof, fuel - 1, log')
      case Accepted(nodes, step) => Finished(nodes, step, log')
  }

  /** Lexems other than bad characters and the end of input. */
  ghost predicate Positive(lexems: seq<Lexem>) {
    forall x | x in lexems :: x.id > 0
  }

  /** The terminals of the lexems. */
  function Ids(lexems: seq<Lexem>): (r: seq<Symbol>)
    requires forall x | x in lexems :: x.id >= 0
    ensures |r| == |lexems|
  {
    seq(|lexems|, i requires 0 <= i < |lexems| => assert lexems[i] in lexems; T(lexems[i].id))
  }
}
