/** The driver as the program runs it: states index into one shared stack of AST nodes. */
module CompilerContexts {
  import opened Grammar
  import opened Tables
  import opened Driver
  import opened EmittedScopes

  /** Automaton state, first element and number of elements on the Lua stack, scope counter on creation. */
  datatype State = State(index: nat, luastki: nat, luastkn: nat, scopecnt: nat)

  /** Number of AST stack elements the states account for. */
  function Total(ss: seq<State>): nat {
    if ss == [] then 0 else Total(ss[..|ss| - 1]) + ss[|ss| - 1].luastkn
  }

  /** The non-empty ranges of the states tile the AST stack from 1 to its top. */
  ghost predicate Tiled(ss: seq<State>) {
    forall i {:trigger TileAt(ss, i)} :: 0 <= i < |ss| ==> TileAt(ss, i)
  }

  ghost predicate TileAt(ss: seq<State>, i: nat)
    requires i < |ss|
  {
    ss[i].luastki == if ss[i].luastkn == 0 then 0 else Total(ss[..i]) + 1
  }

  /** The stack entries with the nodes they own. */
  function Owned(ss: seq<State>, lua: seq<AstNode>): (es: seq<Entry>)
    requires |lua| == Total(ss)
    ensures |es| == |ss|
    decreases |ss|
  {
    if ss == [] then []
    else
      var last := ss[|ss| - 1];
      var k := |lua| - last.luastkn;
      Owned(ss[..|ss| - 1], lua[..k]) + [Entry(last.index, lua[k..], last.scopecnt)]
  }

  // ---------------------------------------------------------------- stack arithmetic

  lemma {:induction false} TotalPrefix(ss: seq<State>, j: nat, k: nat)
    requires j <= k <= |ss|
    ensures Total(ss[..j]) <= Total(ss[..k])
    decreases k
  {
    if j < k {
      TotalStep(ss, k - 1);
      TotalPrefix(ss, j, k - 1);
    }
  }

  lemma {:induction false} TotalStep(ss: seq<State>, j: nat)
    requires j < |ss|
    ensures Total(ss[..j + 1]) == Total(ss[..j]) + ss[j].luastkn
  {
    assert ss[..j + 1][..j] == ss[..j];
  }

  lemma {:induction false} TiledPrefix(ss: seq<State>, k: nat)
    requires Tiled(ss) && k <= |ss|
    ensures Tiled(ss[..k])
  {
    forall i | 0 <= i < k ensures TileAt(ss[..k], i) {
      assert TileAt(ss, i) && ss[..k][..i] == ss[..i];
    }
  }

  lemma {:induction false} TiledPush(ss: seq<State>, s: State)
    requires Tiled(ss) && s.luastki == (if s.luastkn == 0 then 0 else Total(ss) + 1)
    ensures Tiled(ss + [s]) && Total(ss + [s]) == Total(ss) + s.luastkn
  {
    var ss' := ss + [s];
    assert ss'[..|ss|] == ss;
    forall i | 0 <= i < |ss'| ensures TileAt(ss', i) {
      if i < |ss| { assert TileAt(ss, i) && ss'[..i] == ss[..i]; }
    }
  }

  lemma {:induction false} OwnedPush(ss: seq<State>, lua: seq<AstNode>, s: State, nodes: seq<AstNode>)
    requires |lua| == Total(ss) && s.luastkn == |nodes|
    ensures Total(ss + [s]) == |lua + nodes|
    ensures Owned(ss + [s], lua + nodes) == Owned(ss, lua) + [Entry(s.index, nodes, s.scopecnt)]
  {
    assert (ss + [s])[..|ss|] == ss;
    assert (lua + nodes)[..|lua|] == lua && (lua + nodes)[|lua|..] == nodes;
  }

  lemma {:induction false} OwnedNodes(ss: seq<State>, lua: seq<AstNode>)
    requires |lua| == Total(ss)
    ensures NodesOf(Owned(ss, lua)) == lua
    decreases |ss|
  {
    if ss != [] {
      var k := |lua| - ss[|ss| - 1].luastkn;
      OwnedNodes(ss[..|ss| - 1], lua[..k]);
      assert Owned(ss, lua)[..|ss| - 1] == Owned(ss[..|ss| - 1], lua[..k]);
      assert lua[..k] + lua[k..] == lua;
    }
  }

  lemma {:induction false} OwnedPrefix(ss: seq<State>, lua: seq<AstNode>, k: nat)
    requires |lua| == Total(ss) && k <= |ss|
    ensures Total(ss[..k]) <= |lua|
    ensures Owned(ss[..k], lua[..Total(ss[..k])]) == Owned(ss, lua)[..k]
    decreases |ss|
  {
    if k < |ss| {
      var n := |ss| - 1;
      var m := |lua| - ss[n].luastkn;
      OwnedPrefix(ss[..n], lua[..m], k);
      assert ss[..n][..k] == ss[..k];
      assert lua[..m][..Total(ss[..k])] == lua[..Total(ss[..k])];
    } else {
      assert ss[..k] == ss && lua[..|lua|] == lua && Owned(ss, lua)[..k] == Owned(ss, lua);
    }
  }

  /** Popping count states pops exactly the nodes they own. */
  lemma {:induction false} PopFacts(ss: seq<State>, lua: seq<AstNode>, cfg: Config, count: nat)
    requires |lua| == Total(ss) && count < |ss| && cfg.stack == Owned(ss, lua)
    ensures var k := |ss| - count;
            var t := Total(ss[..k]);
            t <= |lua| && Owned(ss[..k], lua[..t]) == cfg.stack[..k] && NodesOf(cfg.stack[k..]) == lua[t..]
            && ScopeStart(cfg, count) == if count == 0 then cfg.scopestep else ss[k].scopecnt
  {
    OwnedPrefix(ss, lua, |ss| - count);
    SuffixNodes(ss, lua, cfg.stack, |ss| - count);
    if count != 0 { OwnedEntry(ss, lua, |ss| - count); }
  }

  lemma {:induction false} SuffixNodes(ss: seq<State>, lua: seq<AstNode>, es: seq<Entry>, k: nat)
    requires |lua| == Total(ss) && k <= |ss| && es == Owned(ss, lua) && Total(ss[..k]) <= |lua|
        && Owned(ss[..k], lua[..Total(ss[..k])]) == es[..k]
    ensures NodesOf(es[k..]) == lua[Total(ss[..k])..]
  {
    var t := Total(ss[..k]);
    OwnedNodes(ss, lua);
    OwnedNodes(ss[..k], lua[..t]);
    NodesSplit(es, k);
    Suffix(lua, t, NodesOf(es[k..]));
  }

  lemma {:induction false} NodesSplit(es: seq<Entry>, k: nat)
    requires k <= |es|
    ensures NodesOf(es) == NodesOf(es[..k]) + NodesOf(es[k..])
  {
    NodesConcat(es[..k], es[k..]);
    assert es[..k] + es[k..] == es;
  }

  lemma {:induction false} Suffix(lua: seq<AstNode>, t: nat, rest: seq<AstNode>)
    requires t <= |lua| && lua == lua[..t] + rest
    ensures rest == lua[t..]
  {
  }

  // ---------------------------------------------------------------- the index helpers

  /** First free element above the states. */
  method GetNextLuaStackIndex(ss: seq<State>) returns (rt: nat)
    requires Tiled(ss)
    ensures rt == Total(ss) + 1
  {
    rt := 1;
    var si := |ss|;
    assert ss[..si] == ss;
    while si > 0
      invariant 0 <= si <= |ss| && Total(ss[..si]) == Total(ss) && rt == 1
    {
      var st := ss[si - 1];
      TotalStep(ss, si - 1);
      assert TileAt(ss, si - 1);
      if st.luastkn != 0 {
        return st.luastki + st.luastkn;
      }
      si := si - 1;
    }
  }

  lemma {:induction false} LastTile(ss: seq<State>, base: nat, si: nat)
    requires Tiled(ss) && base < si <= |ss|
    ensures Total(ss[..si]) == Total(ss[..si - 1]) + ss[si - 1].luastkn && Total(ss[..base]) <= Total(ss[..si - 1])
    ensures ss[si - 1].luastkn != 0 ==> ss[si - 1].luastki == Total(ss[..si - 1]) + 1
  {
    TotalStep(ss, si - 1);
    TotalPrefix(ss, base, si - 1);
    assert TileAt(ss, si - 1);
  }

  /** Number of elements owned by the topmost nn states. */
  method GetLuaStackReductionSize(ss: seq<State>, nn: nat) returns (size: int)
    requires Tiled(ss) && nn <= |ss|
    ensures size == Total(ss) - Total(ss[..|ss| - nn])
  {
    ghost var base := |ss| - nn;
    var start: nat, end: nat := 0, 0;
    var si := |ss| - nn;
    while si < |ss| && start == 0
      invariant base <= si <= |ss|
      invariant start == 0 ==> Total(ss[..si]) == Total(ss[..base])
      invariant start != 0 ==> start == Total(ss[..base]) + 1 && Total(ss[..si]) > Total(ss[..base])
      decreases |ss| - si
    {
      TotalStep(ss, si);
      assert TileAt(ss, si);
      if ss[si].luastki != 0 {
        start := ss[si].luastki;
      }
      si := si + 1;
    }
    assert ss[..|ss|] == ss;
    TotalPrefix(ss, si, |ss|);
    si := |ss|;
    while si > |ss| - nn && end == 0
      invariant base <= si <= |ss|
      invariant end == 0 ==> Total(ss[..si]) == Total(ss)
      invariant end != 0 ==> end == Total(ss) + 1 && Total(ss) > Total(ss[..base])
      decreases si
    {
      LastTile(ss, base, si);
      if ss[si - 1].luastkn != 0 {
        end := ss[si - 1].luastki + ss[si - 1].luastkn;
      }
      si := si - 1;
    }
    size := end - start;
  }

  /** First and one-past-last element owned by the topmost nn states, both 0 when they own none. */
  method ReductionRange(ss: seq<State>, nn: nat) returns (start: nat, end: nat)
    requires Tiled(ss) && nn <= |ss|
    ensures end - start == Total(ss) - Total(ss[..|ss| - nn])
  {
    ghost var base := |ss| - nn;
    start, end := 0, 0;
    var si := |ss|;
    assert ss[..si] == ss;
    while si > |ss| - nn && end == 0
      invariant base <= si <= |ss|
      invariant end == 0 ==> Total(ss[..si]) == Total(ss)
      invariant end != 0 ==> si > base && end == Total(ss) + 1 && ss[si - 1].luastki != 0
                             && Total(ss[..si]) == Total(ss)
      decreases si, end == 0
    {
      TotalStep(ss, si - 1);
      assert TileAt(ss, si - 1);
      if ss[si - 1].luastki != 0 {
        end := ss[si - 1].luastki + ss[si - 1].luastkn;
      } else {
        si := si - 1;
      }
    }
    ghost var found := end != 0;
    while si > |ss| - nn
      invariant base <= si <= |ss| && found == (end != 0)
      invariant !found ==> si == base && start == 0
      invariant found && start == 0 ==> Total(ss[..si]) == Total(ss) && si > base && ss[si - 1].luastki != 0
      invariant start != 0 ==> start == Total(ss[..si]) + 1
      decreases si
    {
      TotalStep(ss, si - 1);
      assert TileAt(ss, si - 1);
      if ss[si - 1].luastki != 0 {
        start := ss[si - 1].luastki;
      }
      si := si - 1;
    }
  }

  datatype FeedOutcome = FeedFailed(error: Failure) | Fed(consumed: bool)

  /** When a step consumes the lexem, when it is repeated, and how it fails. */
  ghost predicate StepOutcome(tb: Tables, ss: seq<State>, lexem: Lexem, r: FeedOutcome)
    requires ss != []
  {
    var key := (ss[|ss| - 1].index, lexem.id);
    if key !in tb.actions then r == FeedFailed(UnexpectedTokenNotOneOf)
    else match tb.actions[key]
      case Shift(_) => r == Fed(true)
      case Reduce(n, _, _, count) =>
        if |ss| <= count then r == FeedFailed(LanguageAutomatonCorrupted)
        else if (ss[|ss| - count - 1].index, n) !in tb.gotos then r == FeedFailed(LanguageAutomatonMissingGoto)
        else r == Fed(false)
      case Accept(_, _, _, count) =>
        if |ss| <= count then r == FeedFailed(LanguageAutomatonCorrupted)
        else if lexem.id != 0 then r == FeedFailed(LanguageAutomatonUnexpectedAccept)
        else if |ss| != count + 1 || ss[0].luastkn != 0 then r == FeedFailed(LanguageAutomatonCorrupted)
        else r == Fed(true)
  }

  lemma {:induction false} FeedOutcomes(tb: Tables, keywords: set<int>, ss: seq<State>, lua: seq<AstNode>, cfg: Config,
                                        lexem: Lexem)
    requires |lua| == Total(ss) && ss != [] && cfg.stack == Owned(ss, lua)
    ensures StepOutcome(tb, ss, lexem, match Feed(tb, keywords, cfg, lexem)
      case Failed(e) => FeedFailed(e)
      case Consumed(_) => Fed(true)
      case Again(_) => Fed(false)
      case Accepted(_, _) => Fed(true))
  {
    OwnedEntry(ss, lua, |ss| - 1);
    OwnedEntry(ss, lua, 0);
    var key := (Top(cfg), lexem.id);
    if key in tb.actions && tb.actions[key].Reduce? && tb.actions[key].count < |ss| {
      OwnedEntry(ss, lua, |ss| - tb.actions[key].count - 1);
    }
  }

  /** The AST stack and the line after a shift: a token with name, value and line on top, nothing for a keyword. */
  ghost predicate Shifted(keywords: set<int>, lexem: Lexem, before: seq<AstNode>, after: seq<AstNode>, line: int,
                          line': int) {
    if lexem.id in keywords then after == before && line' == line
    else |after| == |before| + 1 && after[..|before|] == before && line' == lexem.line
         && var node := after[|before|];
            node.TokenNode? && node.name == lexem.name && node.value == lexem.value && node.line == lexem.line
  }

  class CompilerContext {
    var stateStack: seq<State>
    var luaStack: seq<AstNode>
    var scopestep: nat
    var line: int

    /** The ranges of the states tile the AST stack. */
    ghost predicate Valid()
      reads this
    {
      stateStack != [] && Tiled(stateStack) && |luaStack| == Total(stateStack)
    }

    ghost function View(): Config
      reads this
      requires |luaStack| == Total(stateStack)
    {
      Config(Owned(stateStack, luaStack), scopestep, line)
    }

    constructor ()
      ensures Valid() && View() == INITIAL
    {
      stateStack, luaStack, scopestep, line := [State(1, 0, 0, 0)], [], 0, 0;
      new;
      assert [State(1, 0, 0, 0)][..0] == [];
      assert TileAt(stateStack, 0);
      assert luaStack[0..] == [];
    }

    /** Replaces the elements of the topmost states by one call structure over them. */
    method LuaReduceStruct(reductionSize: nat, callidx: nat, flag: ScopeFlag, scopeStart: nat,
                           ghost kept: seq<AstNode>, ghost args: seq<AstNode>)
      requires Tiled(stateStack) && reductionSize < |stateStack| && luaStack == kept + args
      requires |args| == Total(stateStack) - Total(stateStack[..|stateStack| - reductionSize])
      modifies this`luaStack, this`scopestep
      ensures scopestep == if flag == NoScope then old(scopestep) else old(scopestep) + 1
      ensures luaStack == kept + [CallNode(callidx, line, if flag == Scope then InScope(scopeStart, scopestep) else
          AtStep(scopestep), args)]
    {
      var start, end := ReductionRange(stateStack, reductionSize);
      var keep := |luaStack| - (end - start);
      var elements := luaStack[keep..];
      assert elements == args && luaStack[..keep] == kept;
      var extent;
      if flag == Scope {
        scopestep := scopestep + 1;
        extent := InScope(scopeStart, scopestep);
      } else {
        if flag == Step { scopestep := scopestep + 1; }
        extent := AtStep(scopestep);
      }
      luaStack := luaStack[..keep] + [CallNode(callidx, line, extent, elements)];
    }

    /** Feed the next lexem: true when it has been consumed. Every step but acceptance keeps the tiling;
        acceptance counts one element more than there is. */
    method FeedLexem(tb: Tables, keywords: set<int>, lexem: Lexem) returns (r: FeedOutcome)
      requires Valid()
      modifies this
      ensures match Feed(tb, keywords, old(View()), lexem)
              case Failed(e) => r == FeedFailed(e)
              case Consumed(c) => r == Fed(true) && Valid() && View() == c
              case Again(c) => r == Fed(false) && Valid() && View() == c
              case Accepted(nodes, step) =>
                r == Fed(true) && luaStack == nodes && scopestep == step
                && stateStack == [State(old(stateStack)[0].index, 1, |nodes| + 1, old(stateStack)[0].scopecnt)]
                    && !Valid()
      ensures StepOutcome(tb, old(stateStack), lexem, r)
      ensures var key := (old(stateStack)[|old(stateStack)| - 1].index, lexem.id);
              key in tb.actions && tb.actions[key].Shift? ==> (
                r == Fed(true) && stateStack != [] && stateStack[|stateStack| - 1].index == tb.actions[key].state
                && scopestep == old(scopestep) && Shifted(keywords, lexem, old(luaStack), luaStack, old(line), line))
    {
      var key := (stateStack[|stateStack| - 1].index, lexem.id);
      ghost var cfg := View();
      assert Top(cfg) == key.0;
      FeedOutcomes(tb, keywords, stateStack, luaStack, cfg, lexem);
      if key !in tb.actions {
        return FeedFailed(UnexpectedTokenNotOneOf);
      }
      match tb.actions[key]
      case Shift(s) =>
        ShiftLexem(s, keywords, lexem);
        return Fed(true);
      case Reduce(n, flag, call, count) =>
        r := ReduceTop(tb, n, flag, call, count, cfg);
      case Accept(n, flag, call, count) =>
        r := AcceptTop(flag, call, count, lexem);
    }

    method ShiftLexem(s: nat, keywords: set<int>, lexem: Lexem)
      requires Valid()
      modifies this
      ensures Valid() && scopestep == old(scopestep) && stateStack[|stateStack| - 1].index == s
      ensures Shifted(keywords, lexem, old(luaStack), luaStack, old(line), line)
      ensures View() == if lexem.id in keywords then
          old(View()).(stack := old(View()).stack + [Entry(s, [], old(scopestep))])
                        else Config(old(View()).stack + [Entry(s, [LexemNode(lexem)], old(scopestep))], old(scopestep),
                             lexem.line)
    {
      if lexem.id !in keywords {
        var next := GetNextLuaStackIndex(stateStack);
        var st := State(s, next, 1, scopestep);
        TiledPush(stateStack, st);
        OwnedPush(stateStack, luaStack, st, [LexemNode(lexem)]);
        stateStack := stateStack + [st];
        luaStack := luaStack + [LexemNode(lexem)];
        line := lexem.line;
      } else {
        var st := State(s, 0, 0, scopestep);
        TiledPush(stateStack, st);
        OwnedPush(stateStack, luaStack, st, []);
        assert luaStack + [] == luaStack;
        stateStack := stateStack + [st];
      }
    }

    /** The part common to reduction and acceptance: build the structure, pop the states. */
    method PopReduction(flag: ScopeFlag, call: nat, count: nat, ghost cfg: Config)
      returns (elements: nat, scopeStart: nat)
      requires Valid() && count < |stateStack| && cfg == View()
      modifies this
      ensures stateStack == old(stateStack)[..|old(stateStack)| - count] && stateStack != [] && Tiled(stateStack)
          && line == old(line)
      ensures count < |cfg.stack| && scopeStart == ScopeStart(cfg, count) && scopestep == NextScopestep(cfg, flag, call)
      ensures Popped(stateStack, old(luaStack), luaStack, cfg, ReducedNodes(cfg, flag, call, count), count)
          && elements == |ReducedNodes(cfg, flag, call, count)|
    {
      ghost var k := |stateStack| - count;
      PopFacts(stateStack, luaStack, cfg, count);
      TiledPrefix(stateStack, k);
      ghost var t := Total(stateStack[..k]);
      ghost var kept, args := luaStack[..t], luaStack[t..];
      assert luaStack == kept + args;
      scopeStart := if count == 0 then scopestep else stateStack[|stateStack| - count].scopecnt;
      if call != 0 {
        LuaReduceStruct(count, call, flag, scopeStart, kept, args);
        CallReduced(cfg, flag, call, count, luaStack[t]);
        elements := 1;
      } else {
        var size := GetLuaStackReductionSize(stateStack, count);
        elements := size;
      }
      stateStack := stateStack[..|stateStack| - count];
    }

    method ReduceTop(tb: Tables, n: nat, flag: ScopeFlag, call: nat, count: nat, ghost cfg: Config)
      returns (r: FeedOutcome)
      requires Valid() && cfg == View()
      modifies this
      ensures match FeedReduce(tb, cfg, n, flag, call, count)
              case Failed(e) => r == FeedFailed(e)
              case Again(c) => r == Fed(false) && Valid() && View() == c
              case Consumed(_) => false
              case Accepted(_, _) => false
    {
      if |stateStack| <= count {
        return FeedFailed(LanguageAutomatonCorrupted);
      }
      ghost var lua := luaStack;
      var elements, scopeStart := PopReduction(flag, call, count, cfg);
      ghost var nodes := ReducedNodes(cfg, flag, call, count);
      PoppedTop(stateStack, lua, luaStack, cfg, nodes, count);
      var top := stateStack[|stateStack| - 1];
      if (top.index, n) !in tb.gotos {
        return FeedFailed(LanguageAutomatonMissingGoto);
      }
      var next := GetNextLuaStackIndex(stateStack);
      var st := if elements != 0 then State(tb.gotos[(top.index, n)], next, elements, scopeStart)
                else State(tb.gotos[(top.index, n)], 0, 0, scopeStart);
      PoppedPush(stateStack, lua, luaStack, cfg, nodes, count, st);
      ReduceResult(tb, cfg, n, flag, call, count, cfg.stack[..|cfg.stack| - count]
          + [Entry(st.index, nodes, st.scopecnt)]);
      stateStack := stateStack + [st];
      assert View() == Config(cfg.stack[..|cfg.stack| - count] + [Entry(st.index, nodes, st.scopecnt)], scopestep,
          line);
      return Fed(false);
    }

    method AcceptTop(flag: ScopeFlag, call: nat, count: nat, lexem: Lexem) returns (r: FeedOutcome)
      requires Valid()
      modifies this
      ensures var stack := old(View()).stack;
              if |stack| <= count then r == FeedFailed(LanguageAutomatonCorrupted)
              else if lexem.id != 0 then r == FeedFailed(LanguageAutomatonUnexpectedAccept)
              else if |stack| - count != 1 || stack[0].nodes != [] then r == FeedFailed(LanguageAutomatonCorrupted)
              else
                var nodes := ReducedNodes(old(View()), flag, call, count);
                r == Fed(true) && luaStack == nodes && scopestep == NextScopestep(old(View()), flag, call)
                && stateStack == [State(old(stateStack)[0].index, 1, |nodes| + 1, old(stateStack)[0].scopecnt)]
                    && !Valid()
    {
      if |stateStack| <= count {
        return FeedFailed(LanguageAutomatonCorrupted);
      }
      ghost var cfg, lua := View(), luaStack;
      var elements, scopeStart := PopReduction(flag, call, count, cfg);
      if lexem.id != 0 {
        return FeedFailed(LanguageAutomatonUnexpectedAccept);
      }
      OwnedEntry(stateStack, lua[..Total(stateStack)], 0);
      assert TileAt(stateStack, 0);
      if |stateStack| != 1 || stateStack[|stateStack| - 1].luastki != 0 || stateStack[|stateStack| - 1].luastkn != 0 {
        return FeedFailed(LanguageAutomatonCorrupted);
      }
      assert stateStack[..0] == [] && Total(stateStack) == 0;
      stateStack := [stateStack[0].(luastki := 1, luastkn := elements + 1)];
      assert stateStack[..0] == [] && Total(stateStack) == elements + 1;
      return Fed(true);
    }

    /** Feed one lexem until it is consumed. */
    method FeedAll(tb: Tables, keywords: set<int>, rest: seq<Lexem>, eof: Lexem, ghost fuel: nat,
                   ghost log: seq<Action>, ghost outcome: Outcome)
      returns (r: FeedOutcome, ghost left: nat, ghost log': seq<Action>)
      requires Valid() && (rest != [] ==> rest[0].id > 0)
      requires outcome == Run(tb, keywords, View(), rest, eof, fuel, log) && outcome != OutOfFuel
      modifies this
      ensures r.FeedFailed? ==> outcome == Rejected(r.error)
      ensures r.Fed? ==> r.consumed
      ensures r.Fed? && rest != [] ==> Valid() && outcome == Run(tb, keywords, View(), rest[1..], eof, left, log')
      ensures r.Fed? && rest == [] ==> outcome == EndShifted || outcome == Finished(luaStack, scopestep, log')
    {
      left, log' := fuel, log;
      var lexem := if rest == [] then eof else rest[0];
      r := Fed(false);
      while !r.consumed
        invariant r.Fed?
        invariant !r.consumed ==> Valid() && outcome == Run(tb, keywords, View(), rest, eof, left, log')
        invariant r.consumed && rest != [] ==>
            Valid() && outcome == Run(tb, keywords, View(), rest[1..], eof, left, log')
        invariant r.consumed && rest == [] ==> outcome == EndShifted || outcome == Finished(luaStack, scopestep, log')
        decreases left, !r.consumed
      {
        ghost var cfg := View();
        RunUnfolds(tb, keywords, cfg, rest, eof, left, log');
        r := FeedLexem(tb, keywords, lexem);
        left, log' := left - 1, log' + ReductionTaken(tb, cfg, lexem);
        if r.FeedFailed? {
          return;
        }
      }
    }

    /** The runtime check of the stack top against the range of the last state never fails. */
    method CheckTop() returns (consistent: bool)
      requires Valid()
      ensures consistent
    {
      var top := stateStack[|stateStack| - 1];
      TopRange(stateStack);
      consistent := top.luastkn == 0 || |luaStack| == top.luastki + top.luastkn - 1;
    }

    /** The token loop on the non-empty lexems of a source and the empty one at its end; for runs that end. The check
        of the stack top against the range of the last state, after each lexem, never fails. */
    method LuaRunCompiler(tb: Tables, keywords: set<int>, lexems: seq<Lexem>, eof: Lexem, ghost fuel: nat)
      returns (r: FeedOutcome)
      requires Valid() && View() == INITIAL
      requires Run(tb, keywords, INITIAL, lexems, eof, fuel, []) != OutOfFuel
      modifies this
      ensures match Run(tb, keywords, INITIAL, lexems, eof, fuel, [])
              case Rejected(e) => r == FeedFailed(e)
              case Finished(nodes, step, _) => r == Fed(true) && luaStack == nodes && scopestep == step
              case EndShifted => r == Fed(true)
              case OutOfFuel => false
      ensures r != FeedFailed(LogicError)
      ensures lexems != [] && lexems[0].id <= 0 ==> r == FeedFailed(BadCharacterInGrammarDef)
    {
      ghost var outcome := Run(tb, keywords, INITIAL, lexems, eof, fuel, []);
      RunNeverLogicError(tb, keywords, INITIAL, lexems, eof, fuel, []);
      ghost var left, log := fuel, [];
      var i := 0;
      assert lexems[0..] == lexems;
      while i < |lexems|
        invariant 0 <= i <= |lexems| && Valid()
        invariant outcome == Run(tb, keywords, View(), lexems[i..], eof, left, log)
      {
        if lexems[i].id <= 0 {
          return FeedFailed(BadCharacterInGrammarDef);
        }
        r, left, log := FeedAll(tb, keywords, lexems[i..], eof, left, log, outcome);
        assert lexems[i..][1..] == lexems[i + 1..];
        if r.FeedFailed? {
          return;
        }
        var consistent := CheckTop();
        if !consistent {
          return FeedFailed(LogicError);
        }
        i := i + 1;
      }
      r, left, log := FeedAll(tb, keywords, [], eof, left, log, outcome);
    }
  }

  lemma {:induction false} TopRange(ss: seq<State>)
    requires Tiled(ss) && ss != []
    ensures var top := ss[|ss| - 1]; top.luastkn != 0 ==> Total(ss) == top.luastki + top.luastkn - 1
  {
    assert TileAt(ss, |ss| - 1) && ss[..|ss|] == ss;
    TotalStep(ss, |ss| - 1);
  }

  /** A step of the driver itself has no logic error. */
  lemma {:induction false} RunNeverLogicError(tb: Tables, keywords: set<int>, cfg: Config, rest: seq<Lexem>,
                                              eof: Lexem, fuel: nat, log: seq<Action>)
    requires cfg.stack != []
    ensures Run(tb, keywords, cfg, rest, eof, fuel, log) != Rejected(LogicError)
    decreases fuel
  {
    if fuel > 0 && (rest == [] || rest[0].id > 0) {
      var lexem := if rest == [] then eof else rest[0];
      FeedNeverLogicError(tb, keywords, cfg, lexem);
      var r, log' := Feed(tb, keywords, cfg, lexem), log + ReductionTaken(tb, cfg, lexem);
      if r.Again? {
        RunNeverLogicError(tb, keywords, r.cfg, rest, eof, fuel - 1, log');
      } else if r.Consumed? && rest != [] {
        RunNeverLogicError(tb, keywords, r.cfg, rest[1..], eof, fuel - 1, log');
      }
    }
  }

  lemma {:induction false} FeedNeverLogicError(tb: Tables, keywords: set<int>, cfg: Config, lexem: Lexem)
    requires cfg.stack != []
    ensures match Feed(tb, keywords, cfg, lexem) case Failed(e) =>
        e != LogicError case Consumed(c) => c.stack != [] case Again(c) => c.stack != [] case Accepted(_, _) => true
  {
  }

  lemma {:induction false} RunUnfolds(tb: Tables, keywords: set<int>, cfg: Config, rest: seq<Lexem>, eof: Lexem,
                                      fuel: nat, log: seq<Action>)
    requires cfg.stack != [] && (rest != [] ==> rest[0].id > 0)
        && Run(tb, keywords, cfg, rest, eof, fuel, log) != OutOfFuel
    ensures fuel > 0
    ensures var lexem := if rest == [] then eof else rest[0];
            var log' := log + ReductionTaken(tb, cfg, lexem);
            Run(tb, keywords, cfg, rest, eof, fuel, log) ==
            match Feed(tb, keywords, cfg, lexem)
            case Failed(e) => Rejected(e)
            case Again(c) => Run(tb, keywords, c, rest, eof, fuel - 1, log')
            case Consumed(c) => if rest == [] then EndShifted else Run(tb, keywords, c, rest[1..], eof, fuel - 1, log')
            case Accepted(nodes, step) => Finished(nodes, step, log')
  {
  }

  /** The states left own what they owned before, the nodes come behind it. */
  ghost predicate Popped(ss: seq<State>, lua: seq<AstNode>, lua': seq<AstNode>, cfg: Config, nodes: seq<AstNode>,
                         count: nat)
    requires count < |cfg.stack|
  {
    var t := Total(ss);
    t <= |lua| && lua' == lua[..t] + nodes && Owned(ss, lua[..t]) == cfg.stack[..|cfg.stack| - count]
  }

  lemma {:induction false} PoppedTop(ss: seq<State>, lua: seq<AstNode>, lua': seq<AstNode>, cfg: Config,
                                     nodes: seq<AstNode>, count: nat)
    requires count < |cfg.stack| && Popped(ss, lua, lua', cfg, nodes, count) && ss != []
    ensures |ss| == |cfg.stack| - count && cfg.stack[|ss| - 1].state == ss[|ss| - 1].index
  {
    OwnedEntry(ss, lua[..Total(ss)], |ss| - 1);
  }

  lemma {:induction false} PoppedPush(ss: seq<State>, lua: seq<AstNode>, lua': seq<AstNode>, cfg: Config,
                                      nodes: seq<AstNode>, count: nat, st: State)
    requires count < |cfg.stack| && Popped(ss, lua, lua', cfg, nodes, count) && Tiled(ss) && st.luastkn == |nodes|
    requires st.luastki == if st.luastkn == 0 then 0 else Total(ss) + 1
    ensures Tiled(ss + [st]) && |lua'| == Total(ss + [st])
    ensures Owned(ss + [st], lua') == cfg.stack[..|cfg.stack| - count] + [Entry(st.index, nodes, st.scopecnt)]
  {
    TiledPush(ss, st);
    OwnedPush(ss, lua[..Total(ss)], st, nodes);
  }

  lemma {:induction false} ReduceResult(tb: Tables, cfg: Config, n: nat, flag: ScopeFlag, call: nat, count: nat,
                                        es: seq<Entry>)
    requires count < |cfg.stack| && (cfg.stack[|cfg.stack| - count - 1].state, n) in tb.gotos
    requires es == cfg.stack[..|cfg.stack| - count]
        + [Entry(tb.gotos[(cfg.stack[|cfg.stack| - count - 1].state, n)], ReducedNodes(cfg, flag, call, count),
        ScopeStart(cfg, count))]
    ensures FeedReduce(tb, cfg, n, flag, call, count) == Again(Config(es, NextScopestep(cfg, flag, call), cfg.line))
  {
  }

  lemma {:induction false} CallReduced(cfg: Config, flag: ScopeFlag, call: nat, count: nat, n: AstNode)
    requires count < |cfg.stack| && call != 0 && n.CallNode? && n.call == call && n.line == cfg.line
    requires n.args == NodesOf(cfg.stack[|cfg.stack| - count..])
    requires n.extent == if flag == Scope then InScope(ScopeStart(cfg, count), NextScopestep(cfg, flag, call)) else
        AtStep(NextScopestep(cfg, flag, call))
    ensures ReducedNodes(cfg, flag, call, count) == [n]
  {
  }

  lemma {:induction false} OwnedEntry(ss: seq<State>, lua: seq<AstNode>, i: nat)
    requires |lua| == Total(ss) && i < |ss|
    ensures Owned(ss, lua)[i].state == ss[i].index && Owned(ss, lua)[i].scopecnt == ss[i].scopecnt
    ensures |Owned(ss, lua)[i].nodes| == ss[i].luastkn
    decreases |ss|
  {
    if i < |ss| - 1 {
      OwnedEntry(ss[..|ss| - 1], lua[..|lua| - ss[|ss| - 1].luastkn], i);
    }
  }
}
