/** What the items of a state call for: the successor kernels, shifts and reductions of one merged state. */
module StateActions {
  import opened Guards
  import opened Grammar
  import opened BuildErrors
  import opened FirstSets
  import opened Tables
  import opened FollowSets
  import opened Items
  import opened Closure
  import opened States
  import opened Lalr
  import opened LalrProperties
  import opened TableFacts
  import opened ActionTables

  // ---------------------------------------------------------------- calculateLalr1TransitionItemGotoMap

  function KernelCores(s: set<Item>): set<Core> {
    set i | i in s && i.pos > 0 :: CoreOf(i)
  }

  lemma {:induction false} KernelCoresAreKernel(s: set<Item>)
    ensures KernelCores(s) == KernelOf(CoresOf(s))
  {
    forall c | c in KernelOf(CoresOf(s)) ensures c in KernelCores(s) {
      var i :| i in s && CoreOf(i) == c;
    }
  }

  ghost predicate KernelsMapped(m: Merge, done: set<nat>, gm: GotoMap) {
    && (forall n | n in done :: n in m.states && KernelCores(m.states[n]) in gm && gm[KernelCores(m.states[n])] == n)
    && (forall k | k in gm :: gm[k] in done && KernelCores(m.states[gm[k]]) == k)
  }

  lemma {:induction false} KernelIsNew(g: Productions, nofTerminals: nat, m: Merge, done: set<nat>, gm: GotoMap, n: nat)
    requires MergeOk(g, nofTerminals, m) && KernelsMapped(m, done, gm) && n in m.states && n !in done
    ensures KernelCores(m.states[n]) !in gm
  {
    if KernelCores(m.states[n]) in gm {
      var k := gm[KernelCores(m.states[n])];
      KernelCoresAreKernel(m.states[n]);
      KernelCoresAreKernel(m.states[k]);
      StateCores(g, nofTerminals, m, n);
      StateCores(g, nofTerminals, m, k);
      KernelsDiffer(g, nofTerminals, m, n - 1, k - 1);
    }
  }

  method CalculateLalr1TransitionItemGotoMap(g: Productions, ghost nofTerminals: nat, ghost m: Merge, states: StateMap)
    returns (r: Result<GotoMap>)
    requires MergeOk(g, nofTerminals, m) && m.states == states
    ensures r.Ok? && GotoMapOk(m, r.value)
  {
    var gm: GotoMap := map[];
    var todo := states.Keys;
    while todo != {}
      invariant todo <= states.Keys
      invariant KernelsMapped(m, states.Keys - todo, gm)
      decreases todo
    {
      var n :| n in todo;
      KernelIsNew(g, nofTerminals, m, states.Keys - todo, gm, n);
      if KernelCores(states[n]) in gm {
        return Err(LogicError);
      }
      gm := gm[KernelCores(states[n]) := n];
      todo := todo - {n};
    }
    forall n | n in m.states ensures KernelOf(CoresOf(m.states[n])) in gm && gm[KernelOf(CoresOf(m.states[n]))] == n {
      KernelCoresAreKernel(m.states[n]);
      assert n in states.Keys - todo;
    }
    r := Ok(gm);
  }

  // ---------------------------------------------------------------- getShiftNodes

  datatype ShiftNode = ShiftNode(node: Symbol, goto: nat, priority: Priority)

  /** The symbol gets the priority of the first item that has it behind the dot. */
  ghost predicate FirstPriority(g: Productions, s: set<Item>, x: Symbol, priority: Priority) {
    exists i :: IsFirstBefore(g, s, x, i) && priority == g[i.prod].priority
  }

  predicate IsFirstBefore(g: Productions, s: set<Item>, x: Symbol, i: Item) {
    i in s && DotBefore(g, CoreOf(i), x) && forall j | j in s && DotBefore(g, CoreOf(j), x) :: j == i || Less(i, j)
  }

  /** The item has a terminal behind the dot and another priority than the one noted for it. */
  predicate Disagrees(g: Productions, priorities: map<Symbol, Priority>, i: Item) {
    && InRange(g, CoreOf(i)) && i.pos < |g[i.prod].right| && g[i.prod].right[i.pos] in priorities
    && priorities[g[i.prod].right[i.pos]] != g[i.prod].priority
  }

  ghost predicate PriorityKeys(g: Productions, s: set<Item>, priorities: map<Symbol, Priority>) {
    forall x: Symbol :: x in priorities <==> x.T? && x in GotoSymbols(g, s)
  }

  ghost predicate FirstPriorities(g: Productions, s: set<Item>, priorities: map<Symbol, Priority>) {
    forall x | x in priorities :: FirstPriority(g, s, x, priorities[x])
  }

  ghost predicate NoneDisagrees(g: Productions, s: set<Item>, priorities: map<Symbol, Priority>) {
    forall i | i in s :: !Disagrees(g, priorities, i)
  }

  ghost predicate OnlyPriorityWarnings(warnings: seq<Warning>) {
    forall w | w in warnings :: w == PriorityConflictInGrammarDef
  }

  ghost predicate PrioritiesOk(g: Productions, s: set<Item>, priorities: map<Symbol, Priority>,
      warnings: seq<Warning>) {
    forall z: int {:trigger Look(z)} :: Look(z) ==> PrioritiesParts(g, s, priorities, warnings)
  }

  ghost predicate PrioritiesParts(g: Productions, s: set<Item>, priorities: map<Symbol, Priority>,
                                  warnings: seq<Warning>) {
    && PriorityKeys(g, s, priorities) && FirstPriorities(g, s, priorities)
    && (warnings == [] <==> NoneDisagrees(g, s, priorities)) && OnlyPriorityWarnings(warnings)
  }

  lemma {:induction false} FirstStays(g: Productions, done: set<Item>, item: Item, x: Symbol, priority: Priority)
    requires FirstPriority(g, done, x, priority) && forall i | i in done :: Less(i, item)
    ensures FirstPriority(g, done + {item}, x, priority)
  {
    var i :| IsFirstBefore(g, done, x, i) && priority == g[i.prod].priority;
    assert IsFirstBefore(g, done + {item}, x, i);
  }

  lemma {:induction false} FirstIsNew(g: Productions, done: set<Item>, item: Item, x: Symbol)
    requires x !in GotoSymbols(g, done) && DotBefore(g, CoreOf(item), x)
    ensures FirstPriority(g, done + {item}, x, g[item.prod].priority)
  {
    NotBefore(g, done, x);
    assert IsFirstBefore(g, done + {item}, x, item);
  }

  lemma {:induction false} NotBefore(g: Productions, s: set<Item>, x: Symbol)
    requires x !in GotoSymbols(g, s)
    ensures forall i | i in s :: !DotBefore(g, CoreOf(i), x)
  {
  }

  lemma {:induction false} GotoSymbolsMore(g: Productions, done: set<Item>, item: Item)
    requires InRange(g, CoreOf(item))
    ensures GotoSymbols(g, done + {item}) == GotoSymbols(g, done)
        + (if item.pos < |g[item.prod].right| then {g[item.prod].right[item.pos]} else {})
  {
  }

  lemma {:induction false} AgreementStays(g: Productions, done: set<Item>, priorities: map<Symbol, Priority>,
                                          x: Symbol, priority: Priority)
    requires x !in GotoSymbols(g, done)
    ensures NoneDisagrees(g, done, priorities[x := priority]) <==> NoneDisagrees(g, done, priorities)
  {
    NotBefore(g, done, x);
    forall i | i in done ensures Disagrees(g, priorities[x := priority], i) <==> Disagrees(g, priorities, i) {
      if InRange(g, CoreOf(i)) && i.pos < |g[i.prod].right| { assert DotBefore(g, CoreOf(i), g[i.prod].right[i.pos]); }
    }
  }

  lemma {:induction false} AgreementMore(g: Productions, done: set<Item>, item: Item, priorities: map<Symbol, Priority>)
    ensures NoneDisagrees(g, done + {item}, priorities) <==>
        NoneDisagrees(g, done, priorities) && !Disagrees(g, priorities, item)
  {
    if NoneDisagrees(g, done + {item}, priorities) {
      forall i | i in done ensures !Disagrees(g, priorities, i) { assert i in done + {item}; }
    }
  }

  /** Noting the priority of one more item. */
  method NotePriority(g: Productions, ghost done: set<Item>, item: Item, priorities: map<Symbol, Priority>,
                      warnings: seq<Warning>)
    returns (priorities': map<Symbol, Priority>, warnings': seq<Warning>)
    requires PrioritiesOk(g, done, priorities, warnings) && InRange(g, CoreOf(item)) && forall i | i in done ::
        Less(i, item)
    ensures PrioritiesOk(g, done + {item}, priorities', warnings')
  {
    priorities', warnings' := priorities, warnings;
    if item.pos < |g[item.prod].right| && g[item.prod].right[item.pos].T? {
      var x := g[item.prod].right[item.pos];
      if x !in priorities {
        PriorityNoted(g, done, item, x, priorities, warnings);
        priorities' := priorities[x := g[item.prod].priority];
      } else {
        PriorityKnown(g, done, item, priorities, warnings);
        if priorities[x] != g[item.prod].priority {
          warnings' := warnings + [PriorityConflictInGrammarDef];
        }
      }
    } else {
      PriorityKnown(g, done, item, priorities, warnings);
    }
  }

  lemma {:induction false} PriorityNoted(g: Productions, done: set<Item>, item: Item, x: Symbol,
                                         priorities: map<Symbol, Priority>, warnings: seq<Warning>)
    requires PrioritiesOk(g, done, priorities, warnings) && InRange(g, CoreOf(item)) && forall i | i in done ::
        Less(i, item)
    requires x.T? && DotBefore(g, CoreOf(item), x) && x !in priorities
    ensures PrioritiesOk(g, done + {item}, priorities[x := g[item.prod].priority], warnings)
  {
    assert Look(0);
    var priorities' := priorities[x := g[item.prod].priority];
    KeysNoted(g, done, item, x, priorities, g[item.prod].priority);
    AgreementStays(g, done, priorities, x, g[item.prod].priority);
    AgreementMore(g, done, item, priorities');
    FirstsNoted(g, done, item, x, priorities);
    assert PrioritiesParts(g, done + {item}, priorities', warnings);
  }

  lemma {:induction false} PriorityKnown(g: Productions, done: set<Item>, item: Item,
                                         priorities: map<Symbol, Priority>, warnings: seq<Warning>)
    requires PrioritiesOk(g, done, priorities, warnings) && InRange(g, CoreOf(item)) && forall i | i in done ::
        Less(i, item)
    requires item.pos < |g[item.prod].right| && g[item.prod].right[item.pos].T? ==>
        g[item.prod].right[item.pos] in priorities
    ensures PrioritiesOk(g, done + {item}, priorities, if Disagrees(g, priorities, item) then
        warnings + [PriorityConflictInGrammarDef] else warnings)
    ensures Disagrees(g, priorities, item) ==> item.pos < |g[item.prod].right| && g[item.prod].right[item.pos].T?
  {
    assert Look(0);
    KeysKnown(g, done, item, priorities);
    AgreementMore(g, done, item, priorities);
    FirstsStay(g, done, item, priorities);
    if Disagrees(g, priorities, item) {
      WarnOnce(warnings);
      assert PrioritiesParts(g, done + {item}, priorities, warnings + [PriorityConflictInGrammarDef]);
    } else {
      assert PrioritiesParts(g, done + {item}, priorities, warnings);
    }
  }

  lemma {:induction false} FirstsNoted(g: Productions, done: set<Item>, item: Item, x: Symbol,
                                       priorities: map<Symbol, Priority>)
    requires FirstPriorities(g, done, priorities) && forall i | i in done :: Less(i, item)
    requires x !in GotoSymbols(g, done) && DotBefore(g, CoreOf(item), x)
    ensures FirstPriorities(g, done + {item}, priorities[x := g[item.prod].priority])
  {
    FirstIsNew(g, done, item, x);
    FirstsStay(g, done, item, priorities);
    var priorities' := priorities[x := g[item.prod].priority];
    forall y | y in priorities' ensures FirstPriority(g, done + {item}, y, priorities'[y]) {}
  }

  lemma {:induction false} KeysNoted(g: Productions, done: set<Item>, item: Item, x: Symbol,
                                     priorities: map<Symbol, Priority>, priority: Priority)
    requires PriorityKeys(g, done, priorities) && InRange(g, CoreOf(item)) && x.T? && DotBefore(g, CoreOf(item), x)
    ensures PriorityKeys(g, done + {item}, priorities[x := priority])
    ensures x !in priorities ==> x !in GotoSymbols(g, done)
  {
    GotoSymbolsMore(g, done, item);
  }

  lemma {:induction false} KeysKnown(g: Productions, done: set<Item>, item: Item, priorities: map<Symbol, Priority>)
    requires PriorityKeys(g, done, priorities) && InRange(g, CoreOf(item))
    requires item.pos < |g[item.prod].right| && g[item.prod].right[item.pos].T? ==>
        g[item.prod].right[item.pos] in priorities
    ensures PriorityKeys(g, done + {item}, priorities)
    ensures Disagrees(g, priorities, item) ==> g[item.prod].right[item.pos].T?
  {
    GotoSymbolsMore(g, done, item);
  }

  lemma {:induction false} FirstsStay(g: Productions, done: set<Item>, item: Item, priorities: map<Symbol, Priority>)
    requires FirstPriorities(g, done, priorities) && forall i | i in done :: Less(i, item)
    ensures FirstPriorities(g, done + {item}, priorities)
  {
    forall y | y in priorities ensures FirstPriority(g, done + {item}, y, priorities[y]) {
      FirstStays(g, done, item, y, priorities[y]);
    }
  }

  lemma {:induction false} WarnOnce(warnings: seq<Warning>)
    requires OnlyPriorityWarnings(warnings)
    ensures OnlyPriorityWarnings(warnings + [PriorityConflictInGrammarDef])
  {
  }

  lemma {:induction false} NothingNoted(g: Productions)
    ensures SuccessorsOk(g, {}, map[]) && PrioritiesOk(g, {}, map[], [])
  {
    assert GotoSymbols(g, {}) == {};
    assert PrioritiesParts(g, {}, map[], []);
  }

  ghost predicate SuccessorsOk(g: Productions, s: set<Item>, nodes: map<Symbol, set<Core>>) {
    nodes.Keys == GotoSymbols(g, s) && forall x | x in nodes :: nodes[x] == SuccessorCores(g, s, x)
  }

  /** Noting the successor of one more item. */
  method NoteSuccessor(g: Productions, ghost done: set<Item>, item: Item, nodes: map<Symbol, set<Core>>)
    returns (nodes': map<Symbol, set<Core>>)
    requires SuccessorsOk(g, done, nodes) && InRange(g, CoreOf(item))
    ensures SuccessorsOk(g, done + {item}, nodes')
  {
    ShiftStep(g, done, item);
    nodes' := nodes;
    if item.pos < |g[item.prod].right| {
      var x := g[item.prod].right[item.pos];
      ShiftNodesStep(g, done, item, x, nodes);
      nodes' := nodes[x := (if x in nodes then nodes[x] else {}) + {Core(item.prod, item.pos + 1)}];
    }
  }

  /** Successor kernels and terminal priorities by symbol. */
  method CollectShifts(g: Productions, s: set<Item>)
    returns (nodes: map<Symbol, set<Core>>, priorities: map<Symbol, Priority>, warnings: seq<Warning>)
    requires CoresInRange(g, CoresOf(s))
    ensures SuccessorsOk(g, s, nodes) && PrioritiesOk(g, s, priorities, warnings)
  {
    nodes, priorities, warnings := map[], map[], [];
    var todo := s;
    NothingNoted(g);
    assert s - todo == {};
    while todo != {}
      invariant todo <= s && forall x, y | x in s - todo && y in todo :: Less(x, y)
      invariant SuccessorsOk(g, s - todo, nodes) && PrioritiesOk(g, s - todo, priorities, warnings)
      decreases todo
    {
      var item := Least(todo);
      assert CoreOf(item) in CoresOf(s);
      ghost var done := s - todo;
      nodes := NoteSuccessor(g, done, item, nodes);
      priorities, warnings := NotePriority(g, done, item, priorities, warnings);
      todo := todo - {item};
      assert s - todo == done + {item};
    }
    assert s - todo == s;
  }

  lemma {:induction false} NoSuccessors(g: Productions, s: set<Item>, x: Symbol)
    requires x !in GotoSymbols(g, s)
    ensures SuccessorCores(g, s, x) == {}
  {
    forall i | i in s ensures !DotBefore(g, CoreOf(i), x) {}
  }

  lemma {:induction false} ShiftNodesStep(g: Productions, done: set<Item>, item: Item, x: Symbol,
                                          nodes: map<Symbol, set<Core>>)
    requires DotBefore(g, CoreOf(item), x)
    requires nodes.Keys == GotoSymbols(g, done) && forall y | y in nodes :: nodes[y] == SuccessorCores(g, done, y)
    ensures var nodes' := nodes[x := (if x in nodes then nodes[x] else {}) + {Core(item.prod, item.pos + 1)}];
            nodes'.Keys == GotoSymbols(g, done + {item}) && forall y | y in nodes' ::
                nodes'[y] == SuccessorCores(g, done + {item}, y)
  {
    ShiftStep(g, done, item);
    if x !in nodes { NoSuccessors(g, done, x); }
  }

  lemma {:induction false} ShiftStep(g: Productions, done: set<Item>, item: Item)
    requires InRange(g, CoreOf(item))
    ensures GotoSymbols(g, done + {item}) == GotoSymbols(g, done)
        + (if item.pos < |g[item.prod].right| then {g[item.prod].right[item.pos]} else {})
    ensures forall x :: SuccessorCores(g, done + {item}, x) == SuccessorCores(g, done, x)
                        + (if DotBefore(g, CoreOf(item), x) then {Advance(CoreOf(item))} else {})
  {
  }

  /** The entry leads to the state of the successor kernel; a terminal has the priority of the first item shifting
      it. */
  ghost predicate ShiftNodeOk(g: Productions, s: set<Item>, gm: GotoMap, nd: ShiftNode) {
    && nd.node in GotoSymbols(g, s) && SuccessorCores(g, s, nd.node) in gm
        && nd.goto == gm[SuccessorCores(g, s, nd.node)]
    && PriorityOk(g, s, nd)
  }

  ghost predicate PriorityOk(g: Productions, s: set<Item>, nd: ShiftNode) {
    forall z: int {:trigger Look(z)} :: Look(z) ==> if nd.node.T? then FirstPriority(g, s, nd.node, nd.priority) else
                                                    nd.priority == Priority(0, Undefined)
  }

  /** Exactly one entry for each of the symbols. */
  ghost predicate ShiftNodesOk(g: Productions, s: set<Item>, gm: GotoMap, nds: seq<ShiftNode>, xs: set<Symbol>) {
    && (forall nd | nd in nds :: ShiftNodeOk(g, s, gm, nd))
    && (forall x | x in xs :: exists nd :: nd in nds && nd.node == x)
    && (forall nd | nd in nds :: nd.node in xs)
    && OneEach(nds)
  }

  ghost predicate OneEach(nds: seq<ShiftNode>) {
    forall z: int {:trigger Look(z)} :: Look(z) ==> forall i, j | 0 <= i < j < |nds| :: nds[i].node != nds[j].node
  }

  lemma {:induction false} OneMore(nds: seq<ShiftNode>, nd: ShiftNode)
    requires OneEach(nds) && forall e | e in nds :: e.node != nd.node
    ensures OneEach(nds + [nd])
  {
    assert Look(0);
    forall i | 0 <= i < |nds| ensures nds[i].node != nd.node { assert nds[i] in nds; }
  }

  /** Two items shift the same terminal with different priorities. */
  ghost predicate PrioritiesDiffer(g: Productions, s: set<Item>) {
    exists x: Symbol, i, j :: i in s && j in s && ShiftDiffers(g, x, i, j)
  }

  /** A warning is raised exactly if priorities differ. */
  ghost predicate ShiftWarningsOk(g: Productions, s: set<Item>, warnings: seq<Warning>) {
    forall z: int {:trigger Look(z)} :: Look(z) ==> (warnings == [] <==> !PrioritiesDiffer(g, s))
                                                    && OnlyPriorityWarnings(warnings)
  }

  predicate ShiftDiffers(g: Productions, x: Symbol, i: Item, j: Item) {
    x.T? && DotBefore(g, CoreOf(i), x) && DotBefore(g, CoreOf(j), x) && g[i.prod].priority != g[j.prod].priority
  }

  lemma {:induction false} WarnedExactly(g: Productions, s: set<Item>, priorities: map<Symbol, Priority>,
                                         warnings: seq<Warning>)
    requires PrioritiesOk(g, s, priorities, warnings)
    ensures ShiftWarningsOk(g, s, warnings)
  {
    assert Look(0);
    if !NoneDisagrees(g, s, priorities) {
      var i :| i in s && Disagrees(g, priorities, i);
      FirstDiffers(g, s, priorities, i);
    }
    if PrioritiesDiffer(g, s) {
      var x: Symbol, i, j :| i in s && j in s && ShiftDiffers(g, x, i, j);
      DifferenceDisagrees(g, s, priorities, x, i, j);
    }
  }

  lemma {:induction false} FirstDiffers(g: Productions, s: set<Item>, priorities: map<Symbol, Priority>, i: Item)
    requires PriorityKeys(g, s, priorities) && FirstPriorities(g, s, priorities) && i in s
        && Disagrees(g, priorities, i)
    ensures PrioritiesDiffer(g, s)
  {
    var x := g[i.prod].right[i.pos];
    assert FirstPriority(g, s, x, priorities[x]);
    var j :| IsFirstBefore(g, s, x, j) && priorities[x] == g[j.prod].priority;
    assert ShiftDiffers(g, x, i, j);
  }

  lemma {:induction false} DifferenceDisagrees(g: Productions, s: set<Item>, priorities: map<Symbol, Priority>,
                                               x: Symbol, i: Item, j: Item)
    requires PriorityKeys(g, s, priorities) && i in s && j in s && ShiftDiffers(g, x, i, j)
    ensures !NoneDisagrees(g, s, priorities)
  {
    assert x in GotoSymbols(g, s);
    assert Disagrees(g, priorities, i) || Disagrees(g, priorities, j);
  }

  method GetShiftNodes(g: Productions, s: set<Item>, gm: GotoMap)
    returns (r: Result<seq<ShiftNode>>, warnings: seq<Warning>)
    requires CoresInRange(g, CoresOf(s)) && forall x | x in GotoSymbols(g, s) :: SuccessorCores(g, s, x) in gm
    ensures r.Ok? && ShiftNodesOk(g, s, gm, r.value, GotoSymbols(g, s))
    ensures ShiftWarningsOk(g, s, warnings)
  {
    var nodes, priorities, conflicts := CollectShifts(g, s);
    WarnedExactly(g, s, priorities, conflicts);
    warnings := conflicts;
    var rt: seq<ShiftNode> := [];
    var todo := nodes.Keys;
    while todo != {}
      invariant todo <= nodes.Keys
      invariant ShiftNodesOk(g, s, gm, rt, nodes.Keys - todo)
      decreases todo
    {
      var x :| x in todo;
      if nodes[x] !in gm {
        return Err(LogicError), warnings;
      }
      TerminalHasPriority(g, s, priorities, conflicts, x);
      var nd := ShiftNode(x, gm[nodes[x]], if x.T? then priorities[x] else Priority(0, Undefined));
      NodeOfSymbol(g, s, gm, nodes, priorities, conflicts, nd);
      AppendNode(g, s, gm, rt, nodes.Keys - todo, nd);
      rt := rt + [nd];
      todo := todo - {x};
      assert nodes.Keys - todo == (nodes.Keys - (todo + {x})) + {x};
    }
    assert nodes.Keys - todo == nodes.Keys;
    r := Ok(rt);
  }

  lemma {:induction false} TerminalHasPriority(g: Productions, s: set<Item>, priorities: map<Symbol, Priority>,
                                               warnings: seq<Warning>, x: Symbol)
    requires PrioritiesOk(g, s, priorities, warnings) && x in GotoSymbols(g, s)
    ensures x.T? ==> x in priorities
  {
    assert Look(0);
  }

  lemma {:induction false} NodeOfSymbol(g: Productions, s: set<Item>, gm: GotoMap, nodes: map<Symbol, set<Core>>,
                                        priorities: map<Symbol, Priority>, warnings: seq<Warning>, nd: ShiftNode)
    requires SuccessorsOk(g, s, nodes) && PrioritiesOk(g, s, priorities, warnings)
    requires nd.node in nodes && nodes[nd.node] in gm && nd.goto == gm[nodes[nd.node]]
    requires nd.node.T? ==> nd.node in priorities && nd.priority == priorities[nd.node]
    requires nd.node.N? ==> nd.priority == Priority(0, Undefined)
    ensures ShiftNodeOk(g, s, gm, nd)
  {
    assert Look(0);
  }

  lemma {:induction false} AppendNode(g: Productions, s: set<Item>, gm: GotoMap, nds: seq<ShiftNode>, xs: set<Symbol>,
                                      nd: ShiftNode)
    requires ShiftNodesOk(g, s, gm, nds, xs) && ShiftNodeOk(g, s, gm, nd) && nd.node !in xs
    ensures ShiftNodesOk(g, s, gm, nds + [nd], xs + {nd.node})
  {
    forall x | x in xs + {nd.node} ensures exists e :: e in nds + [nd] && e.node == x {
      if x in xs {
        var e :| e in nds && e.node == x;
        assert e in nds + [nd];
      } else {
        assert nd in nds + [nd];
      }
    }
    OneMore(nds, nd);
  }

  // ---------------------------------------------------------------- getReduceFollow, getReductionDef

  predicate CompleteItem(g: Productions, i: Item) {
    i.prod < |g| && i.pos == |g[i.prod].right|
  }

  function GetReduceFollow(g: Productions, s: set<Item>): set<nat> {
    set i | i in s && CompleteItem(g, i) :: i.follow
  }

  predicate SameDefinition(a: Production, b: Production) {
    a.left == b.left && |a.right| == |b.right| && a.callidx == b.callidx && a.priority == b.priority
  }

  /** What is reported for a definition b beside the definition a of the same follow handle. */
  predicate Differs(a: Production, b: Production, w: Warning) {
    match w
    case ReduceReduceConflictInGrammarDef =>
      a.left != b.left || |a.right| != |b.right| || a.callidx != b.callidx
    case PriorityConflictInGrammarDef =>
      a.left == b.left && |a.right| == |b.right| && a.callidx == b.callidx && a.priority != b.priority
    case _ => false
  }

  predicate DefinitionWarning(g: Productions, s: set<Item>, follow: nat, p: nat, w: Warning)
    requires p < |g|
  {
    exists i :: i in s && CompleteItem(g, i) && i.follow == follow && Differs(g[p], g[i.prod], w)
  }

  /** The reduction for a follow set is that of the first complete item with it; others must agree. */
  method GetReductionDef(g: Productions, s: set<Item>, follow: nat) returns (p: nat, warnings: seq<Warning>)
    requires follow in GetReduceFollow(g, s)
    ensures p < |g| && Item(p, |g[p].right|, follow) in s
    ensures forall i | i in s && CompleteItem(g, i) && i.follow == follow :: p <= i.prod
    ensures warnings == [] <==> forall i | i in s && CompleteItem(g, i) && i.follow == follow ::
                                SameDefinition(g[p], g[i.prod])
    ensures forall w :: w in warnings <==> DefinitionWarning(g, s, follow, p, w)
  {
    warnings := [];
    var found := false;
    p := 0;
    var todo := s;
    while todo != {}
      invariant todo <= s
      invariant forall x, y | x in s - todo && y in todo :: Less(x, y)
      invariant found ==> p < |g| && Item(p, |g[p].right|, follow) in s - todo
      invariant forall i | i in s - todo && CompleteItem(g, i) && i.follow == follow :: found && p <= i.prod
      invariant warnings == [] <==> forall i | i in s - todo && CompleteItem(g, i) && i.follow == follow ::
                                    SameDefinition(g[p], g[i.prod])
      invariant forall w :: w in warnings <==> found && DefinitionWarning(g, s - todo, follow, p, w)
      decreases todo
    {
      var item := Least(todo);
      if item.prod < |g| && item.pos == |g[item.prod].right| && item.follow == follow {
        if !found {
          found, p := true, item.prod;
        } else if g[p].left != g[item.prod].left || |g[p].right| != |g[item.prod].right|
            || g[p].callidx != g[item.prod].callidx {
          warnings := warnings + [ReduceReduceConflictInGrammarDef];
        } else if g[p].priority != g[item.prod].priority {
          warnings := warnings + [PriorityConflictInGrammarDef];
        }
      }
      todo := todo - {item};
    }
    var i :| i in s && CompleteItem(g, i) && i.follow == follow;
    assert i in s - todo;
  }

  predicate IsAcceptState(g: Productions, s: set<Item>)
    requires |g| > 0
  {
    Item(0, |g[0].right|, 0) in s
  }
}
