/** Filling the action and goto tables from the merged states. */
module TableBuilder {
  import opened Guards
  import opened Grammar
  import opened BuildErrors
  import opened FirstSets
  import opened Tables
  import opened FollowSets
  import opened Items
  import opened Closure
  import opened States
  import opened Lalr
  import opened LalrProperties
  import opened TableFacts
  import opened ActionTables
  import opened StateActions
  import opened Conflicts
  import opened Entries
  import opened Sets

  // ---------------------------------------------------------------- filling the tables, state by state

  type Gotos = map<(nat, nat), nat>

  ghost predicate EntriesSound(g: Productions, m: Merge, t: TableState, gotos: Gotos) {
    && t.priorities.Keys <= t.actions.Keys
    && (forall k {:trigger SoundAction(g, CoresMap(m), k.0, k.1, t.actions[k])} | k in t.actions ::
        SoundAction(g, CoresMap(m), k.0, k.1, t.actions[k]))
    && (forall k | k in gotos :: GotoNumber(g, m, k.0, N(k.1), gotos[k]))
  }

  /** Only an accept entry may still lack a priority. */
  ghost predicate PendingOnly(t: TableState, pending: set<Key>) {
    t.actions.Keys - t.priorities.Keys == pending
  }

  ghost predicate OnlyStates(t: TableState, done: set<nat>) {
    forall k | k in t.actions :: k.0 in done
  }

  ghost predicate TableInvariant(g: Productions, m: Merge, t: TableState, gotos: Gotos, done: set<nat>,
                                 pending: set<Key>) {
    EntriesSound(g, m, t, gotos) && PendingOnly(t, pending) && OnlyStates(t, done) && Justified(g, m, t)
  }

  /** A shift or goto over x leads where the LR(0) automaton does. */
  ghost predicate ShiftCovered(g: Productions, m: Merge, t: TableState, gotos: Gotos, n: nat, x: Symbol) {
    match x
    case T(a) => exists k :: GotoNumber(g, m, n, x, k) && Covered(t, (n, a), Shift(k))
    case N(nt) => (n, nt) in gotos
  }

  ghost predicate ShiftsCovered(g: Productions, m: Merge, t: TableState, gotos: Gotos, n: nat, xs: set<Symbol>) {
    forall x {:trigger ShiftCovered(g, m, t, gotos, n, x)} | x in xs :: ShiftCovered(g, m, t, gotos, n, x)
  }

  ghost predicate ReductionCovered(g: Productions, m: Merge, t: TableState, n: nat, p: nat, a: nat) {
    n in m.states && p < |g| && HasLook(m.inv, m.states[n], Core(p, |g[p].right|), a) ==>
        Covered(t, (n, a), ProductionAction(g, p))
  }

  ghost predicate ReductionsCovered(g: Productions, m: Merge, t: TableState, n: nat) {
    n in m.states && forall p: nat, a: nat {:trigger ReductionCovered(g, m, t, n, p, a)} ::
        ReductionCovered(g, m, t, n, p, a)
  }

  ghost predicate StateCovered(g: Productions, m: Merge, t: TableState, gotos: Gotos, n: nat) {
    && n in m.states && ShiftsCovered(g, m, t, gotos, n, GotoSymbols(g, m.states[n])) && ReductionsCovered(g, m, t, n)
    && (Clean(t) ==> DefinitionsAgree(g, m.states[n]))
  }

  lemma {:induction false} ShiftsCoveredLater(g: Productions, m: Merge, a: TableState, b: TableState, gotos: Gotos,
                                              gotos': Gotos, n: nat, xs: set<Symbol>)
    requires ShiftsCovered(g, m, a, gotos, n, xs) && Later(a, b) && gotos.Keys <= gotos'.Keys
    ensures ShiftsCovered(g, m, b, gotos', n, xs)
  {
    forall x | x in xs ensures ShiftCovered(g, m, b, gotos', n, x) {
      assert ShiftCovered(g, m, a, gotos, n, x);
      if x.T? {
        var k :| GotoNumber(g, m, n, x, k) && Covered(a, (n, x.t), Shift(k));
        CoveredLater(a, b, (n, x.t), Shift(k));
      }
    }
  }

  lemma {:induction false} StateCoveredLater(g: Productions, m: Merge, a: TableState, b: TableState, gotos: Gotos,
                                             gotos': Gotos, n: nat)
    requires StateCovered(g, m, a, gotos, n) && Later(a, b) && gotos.Keys <= gotos'.Keys
    ensures StateCovered(g, m, b, gotos', n)
  {
    ShiftsCoveredLater(g, m, a, b, gotos, gotos', n, GotoSymbols(g, m.states[n]));
    forall p: nat, x: nat ensures ReductionCovered(g, m, b, n, p, x) {
      assert ReductionCovered(g, m, a, n, p, x);
    }
  }

  lemma {:induction false} InsertKeepsInvariant(g: Productions, m: Merge, t: TableState, gotos: Gotos, done: set<nat>,
                                                pending: set<Key>, key: Key, action: Action, priority: Priority)
    requires TableInvariant(g, m, t, gotos, done, pending) && key.0 in done
    requires key !in pending ==> SoundAction(g, CoresMap(m), key.0, key.1, action) && EntryCalled(g, m, key, action)
    ensures TableInvariant(g, m, Inserted(t, key, action, priority), gotos, done, pending - {key})
  {
    PendingWaits(t, pending, key);
    InsertJustified(g, m, t, key, action, priority);
    InsertEntries(t, key, action, priority);
    var t' := Inserted(t, key, action, priority);
    if key in pending { InsertAtAccept(t, key, action, priority); }
    forall k | k in t'.actions ensures SoundAction(g, CoresMap(m), k.0, k.1, t'.actions[k]) {
      if k in t.actions && t'.actions[k] == t.actions[k] {
        assert SoundAction(g, CoresMap(m), k.0, k.1, t.actions[k]);
      }
    }
  }

  lemma {:induction false} PendingWaits(t: TableState, pending: set<Key>, key: Key)
    requires PendingOnly(t, pending)
    ensures key in pending ==> Waiting(t, key)
  {
    assert key in pending ==> key in t.actions.Keys - t.priorities.Keys;
  }

  lemma {:induction false} WarnLater(t: TableState, more: seq<Warning>)
    ensures Later(t, t.(warnings := t.warnings + more))
  {
  }

  // ---------------------------------------------------------------- shifts

  lemma {:induction false} ShiftIsSound(g: Productions, nofTerminals: nat, m: Merge, gm: GotoMap, n: nat, nd: ShiftNode)
    requires MergeOk(g, nofTerminals, m) && GotoMapOk(m, gm) && n in m.states && ShiftNodeOk(g, m.states[n], gm, nd)
    ensures GotoNumber(g, m, n, nd.node, nd.goto)
    ensures nd.node.T? ==> nd.node.t > 0 && SoundAction(g, CoresMap(m), n, nd.node.t, Shift(nd.goto))
  {
    ShiftTarget(g, nofTerminals, m, gm, n, nd.node);
    TransitionOfGoto(g, nofTerminals, m, n, nd.node, nd.goto);
    CoresKnown(g, nofTerminals, m, n);
    var i :| i in m.states[n] && i.prod < |g| && i.pos < |g[i.prod].right| && g[i.prod].right[i.pos] == nd.node;
    assert SymbolOk(g, nofTerminals, g[i.prod].right[i.pos]);
  }

  /** The invariant of the loop over the shift nodes of state n. */
  ghost predicate ShiftLoop(g: Productions, m: Merge, t0: TableState, t: TableState, gotos0: Gotos, gotos: Gotos,
                            done: set<nat>, pending: set<Key>, n: nat, xs: set<Symbol>) {
    && TableInvariant(g, m, t, gotos, done, pending) && Later(t0, t) && gotos0.Keys <= gotos.Keys
    && ShiftsCovered(g, m, t, gotos, n, xs)
    && ShiftFacts(g, m, t0, t, n, xs)
  }

  /** Nothing is entered in state n yet but an accept entry that waits for its priority. */
  ghost predicate FreshState(g: Productions, m: Merge, t: TableState, n: nat)
    requires |g| > 0 && n in m.states
  {
    forall a: nat {:trigger CellAt(t, (n, a))} :: CellAt(t, (n, a)) == FreshCell(g, m.states[n], a)
  }

  function FreshCell(g: Productions, s: set<Item>, a: nat): Cell
    requires |g| > 0
  {
    if a == 0 && IsAcceptState(g, s) then Waits(Accept(g[0].left, g[0].scope, g[0].callidx, |g[0].right|)) else Empty
  }

  /** The shifts over xs are entered. */
  ghost predicate ShiftsStand(g: Productions, m: Merge, t: TableState, n: nat, xs: set<Symbol>)
    requires |g| > 0 && n in m.states
  {
    forall a: nat {:trigger CellAt(t, (n, a))} ::
      if T(a) in xs then HoldsShift(g, m, n, a, CellAt(t, (n, a))) else
          CellAt(t, (n, a)) == FreshCell(g, m.states[n], a)
  }

  /** The shifts of a state report differing priorities only. */
  ghost predicate ShiftReports(g: Productions, m: Merge, t0: TableState, t: TableState, n: nat)
    requires n in m.states
  {
    forall r {:trigger Reported(t, r)} :: Reported(t, r) <==>
      Reported(t0, r) || (r == Warned(PriorityConflictInGrammarDef) && PrioritiesDiffer(g, m.states[n]))
  }

  /** Differing shift priorities have been warned about, the shifts over xs stand, and other states are as before. */
  ghost predicate ShiftFacts(g: Productions, m: Merge, t0: TableState, t: TableState, n: nat, xs: set<Symbol>) {
    forall z: int {:trigger Look(z)} :: Look(z) ==>
      && |g| > 0 && n in m.states && (Clean(t) ==> !PrioritiesDiffer(g, m.states[n])) && OnlyIn(n, t0, t)
      && ShiftsStand(g, m, t, n, xs) && ShiftReports(g, m, t0, t, n)
  }

  lemma {:induction false} ShiftStands(g: Productions, m: Merge, t: TableState, n: nat, xs: set<Symbol>, a: nat, k: nat,
                                       priority: Priority)
    requires |g| > 0 && n in m.states && ShiftsStand(g, m, t, n, xs) && a > 0 && T(a) !in xs
    requires ShiftOf(g, m, n, a, k, priority)
    ensures var t' := Inserted(t, (n, a), Shift(k), priority);
            ShiftsStand(g, m, t', n, xs + {T(a)}) && forall r :: Reported(t', r) <==> Reported(t, r)
  {
    NewEntry(t, (n, a), Shift(k), priority);
    InsertElsewhere(t, (n, a), Shift(k), priority);
    assert HoldsShift(g, m, n, a, Holds(Shift(k), priority));
  }

  lemma {:induction false} ShiftFactsStep(g: Productions, m: Merge, gm: GotoMap, t0: TableState, t: TableState, n: nat,
                                          xs: set<Symbol>, nd: ShiftNode)
    requires ShiftFacts(g, m, t0, t, n, xs) && n in m.states && ShiftNodeOk(g, m.states[n], gm, nd) && nd.node !in xs
    requires nd.node.T? && nd.node.t > 0 && GotoNumber(g, m, n, nd.node, nd.goto)
    ensures ShiftFacts(g, m, t0, Inserted(t, (n, nd.node.t), Shift(nd.goto), nd.priority), n, xs + {nd.node})
  {
    assert Look(0);
    assert ShiftOf(g, m, n, nd.node.t, nd.goto, nd.priority);
    ShiftStands(g, m, t, n, xs, nd.node.t, nd.goto, nd.priority);
    InsertOnlyIn(n, t0, t, nd.node.t, Shift(nd.goto), nd.priority);
    InsertLater(t, (n, nd.node.t), Shift(nd.goto), nd.priority);
  }

  lemma {:induction false} GotoFactsStep(g: Productions, m: Merge, t0: TableState, t: TableState, n: nat,
                                         xs: set<Symbol>, x: Symbol)
    requires ShiftFacts(g, m, t0, t, n, xs) && x.N?
    ensures ShiftFacts(g, m, t0, t, n, xs + {x})
  {
    assert Look(0);
  }

  lemma {:induction false} ShiftFactsStart(g: Productions, m: Merge, t: TableState, n: nat, more: seq<Warning>)
    requires |g| > 0 && n in m.states && ShiftWarningsOk(g, m.states[n], more) && FreshState(g, m, t, n)
    ensures ShiftFacts(g, m, t, t.(warnings := t.warnings + more), n, {})
    ensures ConflictFree(g, m) ==> more == []
  {
    assert Look(0);
    var t' := t.(warnings := t.warnings + more);
    assert ConflictFree(g, m) ==> DefinitionsAgree(g, m.states[n]);
    WarnedAbout(t, more);
    assert more != [] ==> more[0] in more;
  }

  lemma {:induction false} WarnedAbout(t: TableState, more: seq<Warning>)
    ensures var t' := t.(warnings := t.warnings + more);
            && (forall key: Key {:trigger CellAt(t', key)} :: CellAt(t', key) == CellAt(t, key))
            && forall r :: Reported(t', r) <==> Reported(t, r) || (r.Warned? && r.warning in more)
  {
  }

  lemma {:induction false} ShiftKeepsInvariant(g: Productions, nofTerminals: nat, m: Merge, gm: GotoMap, t: TableState,
                                               gotos: Gotos, done: set<nat>, pending: set<Key>, n: nat, nd: ShiftNode)
    requires MergeOk(g, nofTerminals, m) && GotoMapOk(m, gm) && n in m.states && n in done
        && ShiftNodeOk(g, m.states[n], gm, nd) && nd.node.T?
    requires TableInvariant(g, m, t, gotos, done, pending) && pending <= {(n, 0)}
    ensures TableInvariant(g, m, Inserted(t, (n, nd.node.t), Shift(nd.goto), nd.priority), gotos, done, pending)
        && (n, nd.node.t) !in pending && nd.node.t > 0
    ensures GotoNumber(g, m, n, nd.node, nd.goto)
  {
    ShiftIsSound(g, nofTerminals, m, gm, n, nd);
    assert ShiftsTo(g, m, n, nd.node.t, nd.goto);
    assert EntryCalled(g, m, (n, nd.node.t), Shift(nd.goto));
    InsertKeepsInvariant(g, m, t, gotos, done, pending, (n, nd.node.t), Shift(nd.goto), nd.priority);
    assert pending - {(n, nd.node.t)} == pending;
  }

  lemma {:induction false} ShiftLoopStep(g: Productions, nofTerminals: nat, m: Merge, gm: GotoMap, t0: TableState,
                                         t: TableState, gotos0: Gotos, gotos: Gotos, done: set<nat>, pending: set<Key>,
                                         n: nat, xs: set<Symbol>, nd: ShiftNode)
    requires MergeOk(g, nofTerminals, m) && GotoMapOk(m, gm) && n in m.states && n in done
        && ShiftNodeOk(g, m.states[n], gm, nd) && nd.node.T?
    requires ShiftLoop(g, m, t0, t, gotos0, gotos, done, pending, n, xs) && pending <= {(n, 0)} && nd.node !in xs
    ensures ShiftLoop(g, m, t0, Inserted(t, (n, nd.node.t), Shift(nd.goto), nd.priority), gotos0, gotos, done, pending,
        n, xs + {nd.node})
  {
    var key, t' := (n, nd.node.t), Inserted(t, (n, nd.node.t), Shift(nd.goto), nd.priority);
    ShiftKeepsInvariant(g, nofTerminals, m, gm, t, gotos, done, pending, n, nd);
    InsertEntries(t, key, Shift(nd.goto), nd.priority);
    InsertLater(t, key, Shift(nd.goto), nd.priority);
    LaterTrans(t0, t, t');
    ShiftsCoveredLater(g, m, t, t', gotos, gotos, n, xs);
    NotPending(t, pending, key);
    InsertCovers(t, key, Shift(nd.goto), nd.priority);
    ShiftFactsStep(g, m, gm, t0, t, n, xs, nd);
    assert ShiftCovered(g, m, t', gotos, n, nd.node);
  }

  lemma {:induction false} NotPending(t: TableState, pending: set<Key>, key: Key)
    requires PendingOnly(t, pending) && key !in pending
    ensures key in t.actions ==> key in t.priorities
  {
    assert key in t.actions && key !in t.priorities ==> key in t.actions.Keys - t.priorities.Keys;
  }

  lemma {:induction false} GotoLoopStep(g: Productions, nofTerminals: nat, m: Merge, gm: GotoMap, t0: TableState,
                                        t: TableState, gotos0: Gotos, gotos: Gotos, done: set<nat>, pending: set<Key>,
                                        n: nat, xs: set<Symbol>, nd: ShiftNode)
    requires MergeOk(g, nofTerminals, m) && GotoMapOk(m, gm) && n in m.states && ShiftNodeOk(g, m.states[n], gm, nd)
        && nd.node.N?
    requires ShiftLoop(g, m, t0, t, gotos0, gotos, done, pending, n, xs)
    ensures ShiftLoop(g, m, t0, t, gotos0, gotos[(n, nd.node.n) := nd.goto], done, pending, n, xs + {nd.node})
  {
    var gotos' := gotos[(n, nd.node.n) := nd.goto];
    ShiftIsSound(g, nofTerminals, m, gm, n, nd);
    GotoKeepsInvariant(g, m, t, gotos, done, pending, n, nd);
    GotoFactsStep(g, m, t0, t, n, xs, nd.node);
    LaterRefl(t);
    ShiftsCoveredLater(g, m, t, t, gotos, gotos', n, xs);
    assert ShiftCovered(g, m, t, gotos', n, nd.node);
  }

  lemma {:induction false} GotoKeepsInvariant(g: Productions, m: Merge, t: TableState, gotos: Gotos, done: set<nat>,
                                              pending: set<Key>, n: nat, nd: ShiftNode)
    requires TableInvariant(g, m, t, gotos, done, pending) && nd.node.N? && GotoNumber(g, m, n, nd.node, nd.goto)
    ensures TableInvariant(g, m, t, gotos[(n, nd.node.n) := nd.goto], done, pending)
  {
  }

  lemma {:induction false} LaterRefl(t: TableState)
    ensures Later(t, t)
  {
  }

  method FillShift(tab: ActionTable, g: Productions, ghost nofTerminals: nat, ghost m: Merge, ghost gm: GotoMap,
                   n: nat, nd: ShiftNode, ghost t0: TableState, ghost gotos0: Gotos, ghost done: set<nat>,
                   ghost pending: set<Key>, ghost xs: set<Symbol>)
    returns (r: Result<()>)
    requires MergeOk(g, nofTerminals, m) && GotoMapOk(m, gm) && n in m.states && n in done
        && ShiftNodeOk(g, m.states[n], gm, nd)
    requires ShiftLoop(g, m, t0, tab.State(), gotos0, tab.gotos, done, pending, n, xs) && pending <= {(n, 0)}
        && nd.node !in xs
    modifies tab
    ensures r.Ok?
    ensures ShiftLoop(g, m, t0, tab.State(), gotos0, tab.gotos, done, pending, n, xs + {nd.node})
  {
    if nd.node.T? {
      ShiftLoopStep(g, nofTerminals, m, gm, t0, tab.State(), gotos0, tab.gotos, done, pending, n, xs, nd);
      tab.InsertAction((n, nd.node.t), Shift(nd.goto), nd.priority);
      r := Ok(());
    } else {
      GotoLoopStep(g, nofTerminals, m, gm, t0, tab.State(), gotos0, tab.gotos, done, pending, n, xs, nd);
      r := InsertGoto(tab, g, nofTerminals, m, gm, n, nd);
    }
  }

  /** A goto that differs from one set before does not occur. */
  method InsertGoto(tab: ActionTable, g: Productions, ghost nofTerminals: nat, ghost m: Merge, ghost gm: GotoMap,
                    n: nat, nd: ShiftNode) returns (r: Result<()>)
    requires MergeOk(g, nofTerminals, m) && GotoMapOk(m, gm) && n in m.states && ShiftNodeOk(g, m.states[n], gm, nd)
        && nd.node.N?
    requires EntriesSound(g, m, tab.State(), tab.gotos)
    modifies tab
    ensures r.Ok? && tab.State() == old(tab.State()) && tab.gotos == old(tab.gotos)[(n, nd.node.n) := nd.goto]
  {
    if (n, nd.node.n) in tab.gotos && tab.gotos[(n, nd.node.n)] != nd.goto {
      GotoIsUnique(g, nofTerminals, m, n, nd.node, tab.gotos[(n, nd.node.n)], nd.goto, gm, nd);
      return Err(LogicError);
    }
    tab.gotos := tab.gotos[(n, nd.node.n) := nd.goto];
    r := Ok(());
  }

  lemma {:induction false} ShiftLoopStart(g: Productions, m: Merge, t0: TableState, gotos: Gotos, done: set<nat>,
                                          pending: set<Key>, n: nat, more: seq<Warning>)
    requires TableInvariant(g, m, t0, gotos, done, pending) && n in m.states && ShiftWarningsOk(g, m.states[n], more)
        && |g| > 0 && FreshState(g, m, t0, n)
    ensures ShiftLoop(g, m, t0, t0.(warnings := t0.warnings + more), gotos, gotos, done, pending, n, {})
  {
    WarnLater(t0, more);
    ShiftFactsStart(g, m, t0, n, more);
    WarnKeepsInvariant(g, m, t0, gotos, done, pending, more);
  }

  lemma {:induction false} ShiftTargets(g: Productions, nofTerminals: nat, m: Merge, gm: GotoMap, n: nat)
    requires MergeOk(g, nofTerminals, m) && GotoMapOk(m, gm) && n in m.states
    ensures CoresInRange(g, CoresOf(m.states[n])) && forall x | x in GotoSymbols(g, m.states[n]) ::
        SuccessorCores(g, m.states[n], x) in gm
  {
    CoresKnown(g, nofTerminals, m, n);
    forall x | x in GotoSymbols(g, m.states[n]) ensures SuccessorCores(g, m.states[n], x) in gm {
      ShiftTarget(g, nofTerminals, m, gm, n, x);
    }
  }

  method FillShifts(tab: ActionTable, g: Productions, ghost nofTerminals: nat, ghost m: Merge, gm: GotoMap,
                    s: set<Item>, n: nat, ghost done: set<nat>, ghost pending: set<Key>)
    returns (r: Result<()>)
    requires MergeOk(g, nofTerminals, m) && GotoMapOk(m, gm) && n in m.states && m.states[n] == s && n in done
    requires TableInvariant(g, m, tab.State(), tab.gotos, done, pending) && pending <= {(n, 0)}
        && FreshState(g, m, tab.State(), n)
    modifies tab
    ensures r.Ok?
    ensures ShiftLoop(g, m, old(tab.State()), tab.State(), old(tab.gotos), tab.gotos, done, pending, n,
        GotoSymbols(g, s))
  {
    ghost var t0, gotos0 := tab.State(), tab.gotos;
    ShiftTargets(g, nofTerminals, m, gm, n);
    var nodes, warnings := GetShiftNodes(g, s, gm);
    if nodes.Err? {
      return Err(LogicError);
    }
    tab.AddWarnings(warnings);
    ShiftLoopStart(g, m, t0, gotos0, done, pending, n, warnings);
    FillNodes(tab, g, nofTerminals, m, gm, s, n, nodes.value, t0, gotos0, done, pending);
    r := Ok(());
  }

  method FillNodes(tab: ActionTable, g: Productions, ghost nofTerminals: nat, ghost m: Merge, ghost gm: GotoMap,
                   ghost s: set<Item>, n: nat, nds: seq<ShiftNode>, ghost t0: TableState, ghost gotos0: Gotos,
                   ghost done: set<nat>, ghost pending: set<Key>)
    requires MergeOk(g, nofTerminals, m) && GotoMapOk(m, gm) && n in m.states && m.states[n] == s && n in done
    requires ShiftNodesOk(g, s, gm, nds, GotoSymbols(g, s)) && pending <= {(n, 0)}
    requires ShiftLoop(g, m, t0, tab.State(), gotos0, tab.gotos, done, pending, n, {})
    modifies tab
    ensures ShiftLoop(g, m, t0, tab.State(), gotos0, tab.gotos, done, pending, n, GotoSymbols(g, s))
  {
    for i := 0 to |nds|
      invariant ShiftLoop(g, m, t0, tab.State(), gotos0, tab.gotos, done, pending, n, Entered(nds, i))
    {
      EnteredStep(g, s, gm, nds, i);
      var filled := FillShift(tab, g, nofTerminals, m, gm, n, nds[i], t0, gotos0, done, pending, Entered(nds, i));
    }
    AllNodes(g, s, gm, nds);
  }

  ghost function Entered(nds: seq<ShiftNode>, n: nat): set<Symbol> {
    set j | 0 <= j < n && j < |nds| :: nds[j].node
  }

  lemma {:induction false} EnteredStep(g: Productions, s: set<Item>, gm: GotoMap, nds: seq<ShiftNode>, i: nat)
    requires ShiftNodesOk(g, s, gm, nds, GotoSymbols(g, s)) && i < |nds|
    ensures Entered(nds, i + 1) == Entered(nds, i) + {nds[i].node} && ShiftNodeOk(g, s, gm, nds[i])
    ensures nds[i].node !in Entered(nds, i)
  {
    assert Look(0);
    assert nds[i] in nds;
  }

  lemma {:induction false} AllNodes(g: Productions, s: set<Item>, gm: GotoMap, nds: seq<ShiftNode>)
    requires ShiftNodesOk(g, s, gm, nds, GotoSymbols(g, s))
    ensures Entered(nds, |nds|) == GotoSymbols(g, s)
  {
    forall x | x in GotoSymbols(g, s) ensures x in Entered(nds, |nds|) {
      var nd :| nd in nds && nd.node == x;
      var j :| 0 <= j < |nds| && nds[j] == nd;
    }
  }

  lemma {:induction false} WarnKeepsInvariant(g: Productions, m: Merge, t: TableState, gotos: Gotos, done: set<nat>,
                                              pending: set<Key>, more: seq<Warning>)
    requires TableInvariant(g, m, t, gotos, done, pending) && (ConflictFree(g, m) ==> more == [])
    ensures TableInvariant(g, m, t.(warnings := t.warnings + more), gotos, done, pending)
  {
    WarnJustified(g, m, t, more);
    var t' := t.(warnings := t.warnings + more);
    forall k | k in t'.actions ensures SoundAction(g, CoresMap(m), k.0, k.1, t'.actions[k]) {
      assert SoundAction(g, CoresMap(m), k.0, k.1, t.actions[k]);
    }
  }

  lemma {:induction false} GotoIsUnique(g: Productions, nofTerminals: nat, m: Merge, n: nat, x: Symbol, j: nat, k: nat,
                                        gm: GotoMap, nd: ShiftNode)
    requires MergeOk(g, nofTerminals, m) && GotoMapOk(m, gm) && n in m.states && ShiftNodeOk(g, m.states[n], gm, nd)
        && nd.node == x && nd.goto == k
    requires GotoNumber(g, m, n, x, j)
    ensures j == k
  {
    ShiftIsSound(g, nofTerminals, m, gm, n, nd);
    GotosMeet(g, nofTerminals, m, n, x, j, k);
  }

  // ---------------------------------------------------------------- reductions

  /** The reductions of all complete items with follow handle f are in the table. */
  ghost predicate FollowCovered(g: Productions, m: Merge, t: TableState, n: nat, f: nat) {
    n in m.states && f < |m.inv| && forall i, a: nat {:trigger ItemCovered(g, m, t, n, i, a)} | i in m.states[n]
        && i.follow == f && a in m.inv[f] :: ItemCovered(g, m, t, n, i, a)
  }

  ghost predicate ItemCovered(g: Productions, m: Merge, t: TableState, n: nat, i: Item, a: nat) {
    CompleteItem(g, i) ==> Covered(t, (n, a), ProductionAction(g, i.prod))
  }

  ghost predicate FollowsCovered(g: Productions, m: Merge, t: TableState, n: nat, fs: set<nat>) {
    forall f {:trigger FollowCovered(g, m, t, n, f)} | f in fs :: FollowCovered(g, m, t, n, f)
  }

  lemma {:induction false} FollowsCoveredLater(g: Productions, m: Merge, a: TableState, b: TableState, n: nat,
                                               fs: set<nat>)
    requires FollowsCovered(g, m, a, n, fs) && Later(a, b)
    ensures FollowsCovered(g, m, b, n, fs)
  {
    forall f | f in fs ensures FollowCovered(g, m, b, n, f) {
      assert FollowCovered(g, m, a, n, f);
      forall i, x: nat | i in m.states[n] && i.follow == f && x in m.inv[f] ensures ItemCovered(g, m, b, n, i, x) {
        assert ItemCovered(g, m, a, n, i, x);
      }
    }
  }

  /** Entries for the terminals xs of a reduction by production p in state n. */
  ghost predicate TerminalsCovered(g: Productions, t: TableState, n: nat, p: nat, xs: set<nat>)
    requires p < |g|
  {
    forall a: nat {:trigger Covered(t, (n, a), ProductionAction(g, p))} | a in xs ::
        Covered(t, (n, a), ProductionAction(g, p))
  }

  /** The invariant of the loop over the terminals of a follow set. */
  ghost predicate TerminalLoop(g: Productions, m: Merge, t0: TableState, t: TableState, gotos: Gotos, done: set<nat>,
                               pending: set<Key>, n: nat, p: nat, xs: set<nat>)
    requires p < |g|
  {
    && TableInvariant(g, m, t, gotos, done, pending) && Later(t0, t) && TerminalsCovered(g, t, n, p, xs)
    && TerminalFacts(g, t0, t, n, p, xs)
  }

  /** Entries for xs are as the reduction has left them, all others as before. */
  ghost predicate TerminalFacts(g: Productions, t0: TableState, t: TableState, n: nat, p: nat, xs: set<nat>)
    requires p < |g|
  {
    forall z: int {:trigger Look(z)} :: Look(z) ==>
      OnlyIn(n, t0, t) && CellsReduced(g, t0, t, n, p, xs) && TerminalReports(g, t0, t, n, p, xs)
  }

  ghost predicate CellsReduced(g: Productions, t0: TableState, t: TableState, n: nat, p: nat, xs: set<nat>)
    requires p < |g|
  {
    forall a: nat {:trigger CellAt(t, (n, a))} ::
      CellAt(t, (n, a)) == if a in xs then AfterReduction(CellAt(t0, (n, a)), g[p]) else CellAt(t0, (n, a))
  }

  ghost predicate TerminalReports(g: Productions, t0: TableState, t: TableState, n: nat, p: nat, xs: set<nat>)
    requires p < |g|
  {
    forall r {:trigger Reported(t, r)} :: Reported(t, r) <==> Reported(t0, r) || ReportedAt(g, t0, n, p, xs, r)
  }

  ghost predicate ReportedAt(g: Productions, t: TableState, n: nat, p: nat, xs: set<nat>, r: Report)
    requires p < |g|
  {
    exists a: nat {:trigger CellAt(t, (n, a))} :: a in xs && Reports(CellAt(t, (n, a)), g[p], r)
  }

  lemma {:induction false} TerminalFactsStart(g: Productions, t: TableState, n: nat, p: nat)
    requires p < |g|
    ensures TerminalFacts(g, t, t, n, p, {})
  {
  }

  lemma {:induction false} TerminalFactsStep(g: Productions, t0: TableState, t: TableState, n: nat, p: nat,
                                             xs: set<nat>, a: nat)
    requires 0 < p < |g| && TerminalFacts(g, t0, t, n, p, xs) && a !in xs
    ensures TerminalFacts(g, t0, Inserted(t, (n, a), ProductionAction(g, p), g[p].priority), n, p, xs + {a})
  {
    assert Look(0);
    var t' := Inserted(t, (n, a), ProductionAction(g, p), g[p].priority);
    InsertElsewhere(t, (n, a), ProductionAction(g, p), g[p].priority);
    InsertOnlyIn(n, t0, t, a, ProductionAction(g, p), g[p].priority);
    ReductionEntered(t, (n, a), g[p]);
    assert CellAt(t, (n, a)) == CellAt(t0, (n, a));
    assert TerminalReports(g, t0, t', n, p, xs + {a}) by {
      forall r ensures Reported(t', r) <==> Reported(t0, r) || ReportedAt(g, t0, n, p, xs + {a}, r) {
        OneMoreReported(g, t0, n, p, xs, a, r);
        assert Reported(t, r) <==> Reported(t0, r) || ReportedAt(g, t0, n, p, xs, r);
      }
    }
  }

  lemma {:induction false} OneMoreReported(g: Productions, t: TableState, n: nat, p: nat, xs: set<nat>, a: nat,
                                           r: Report)
    requires p < |g|
    ensures ReportedAt(g, t, n, p, xs + {a}, r) <==>
        ReportedAt(g, t, n, p, xs, r) || Reports(CellAt(t, (n, a)), g[p], r)
  {
    if ReportedAt(g, t, n, p, xs, r) {
      var b: nat :| b in xs && Reports(CellAt(t, (n, b)), g[p], r);
      assert b in xs + {a};
    }
    assert a in xs + {a};
  }

  lemma {:induction false} InsertOnlyIn(n: nat, t0: TableState, t: TableState, a: nat, action: Action,
                                        priority: Priority)
    requires OnlyIn(n, t0, t)
    ensures OnlyIn(n, t0, Inserted(t, (n, a), action, priority))
  {
    InsertElsewhere(t, (n, a), action, priority);
  }

  /** A reduction by a production other than the start production. */
  lemma {:induction false} TerminalStep(g: Productions, nofTerminals: nat, m: Merge, t0: TableState, t: TableState,
                                        gotos: Gotos, done: set<nat>, n: nat, p: nat, xs: set<nat>, a: nat, f: nat)
    requires MergeOk(g, nofTerminals, m) && n in m.states && n in done && 0 < p < |g|
        && Item(p, |g[p].right|, f) in m.states[n]
    requires TerminalLoop(g, m, t0, t, gotos, done, {}, n, p, xs) && a !in xs && f < |m.inv| && a in m.inv[f]
    ensures TerminalLoop(g, m, t0, Inserted(t, (n, a), ProductionAction(g, p), g[p].priority), gotos, done, {}, n, p,
        xs + {a})
  {
    var key, act := (n, a), ProductionAction(g, p);
    var t' := Inserted(t, key, act, g[p].priority);
    var c := CoreOf(Item(p, |g[p].right|, f));
    assert c in CoresMap(m)[n] && SameReduction(g, c, act);
    ItemReduces(g, m, n, p, f, a);
    TerminalFactsStep(g, t0, t, n, p, xs, a);
    InsertKeepsInvariant(g, m, t, gotos, done, {}, key, act, g[p].priority);
    InsertLater(t, key, act, g[p].priority);
    LaterTrans(t0, t, t');
    NotPending(t, {}, key);
    InsertCovers(t, key, act, g[p].priority);
    CoveredMore(t, t', n, act, xs, a);
  }

  lemma {:induction false} CoveredMore(t: TableState, t': TableState, n: nat, act: Action, xs: set<nat>, a: nat)
    requires Later(t, t') && (forall b: nat | b in xs :: Covered(t, (n, b), act)) && Covered(t', (n, a), act)
    ensures forall b: nat | b in xs + {a} :: Covered(t', (n, b), act)
  {
    forall b: nat | b in xs + {a} ensures Covered(t', (n, b), act) {
      if b in xs { CoveredLater(t, t', (n, b), act); }
    }
  }

  /** The start production is only ever reduced at the accept entry, where it changes nothing but the priority. */
  ghost predicate AtAcceptEntry(g: Productions, m: Merge, t: TableState, gotos: Gotos, done: set<nat>, n: nat, p: nat,
                                f: nat)
    requires |g| > 0
  {
    p == 0 && f == 0 && TableInvariant(g, m, t, gotos, done, {(n, 0)}) && (n, 0) in t.actions
        && t.actions[(n, 0)] == ProductionAction(g, 0)
  }

  /** One action per terminal of the follow set. */
  method FillTerminals(tab: ActionTable, g: Productions, ghost nofTerminals: nat, ghost m: Merge, terminals: set<nat>,
                       n: nat, p: nat, ghost f: nat, ghost done: set<nat>)
    requires MergeOk(g, nofTerminals, m) && n in m.states && n in done && p < |g|
        && Item(p, |g[p].right|, f) in m.states[n]
    requires f < |m.inv| && terminals == m.inv[f]
    requires if p > 0 then TableInvariant(g, m, tab.State(), tab.gotos, done, {})
             else AtAcceptEntry(g, m, tab.State(), tab.gotos, done, n, p, f) && terminals == {0}
    modifies tab
    ensures tab.gotos == old(tab.gotos)
    ensures if p > 0 then TerminalLoop(g, m, old(tab.State()), tab.State(), tab.gotos, done, {}, n, p, terminals)
            else tab.State() == Inserted(old(tab.State()), (n, 0),
                 Reduce(g[0].left, g[0].scope, g[0].callidx, |g[0].right|), g[0].priority)
  {
    ghost var t0, gotos := tab.State(), tab.gotos;
    LaterRefl(t0);
    TerminalFactsStart(g, t0, n, p);
    var todo := terminals;
    assert terminals - todo == {};
    while todo != {}
      invariant todo <= terminals && tab.gotos == gotos
      invariant p > 0 ==> TerminalLoop(g, m, t0, tab.State(), gotos, done, {}, n, p, terminals - todo)
      invariant p == 0 ==> tab.State() == if todo == {} then
                           Inserted(t0, (n, 0), Reduce(g[0].left, g[0].scope, g[0].callidx, |g[0].right|),
                           g[0].priority) else t0
      decreases todo
    {
      var a: nat :| a in todo;
      if p > 0 {
        TerminalStep(g, nofTerminals, m, t0, tab.State(), gotos, done, n, p, terminals - todo, a, f);
      } else {
        assert todo == {0};
      }
      tab.InsertAction((n, a), Reduce(g[p].left, g[p].scope, g[p].callidx, |g[p].right|), g[p].priority);
      assert terminals - (todo - {a}) == (terminals - todo) + {a};
      todo := todo - {a};
    }
    assert terminals - todo == terminals;
  }

  /** What one follow handle needs, given the production chosen for it and no warnings. */
  lemma {:induction false} FollowFromTerminals(g: Productions, nofTerminals: nat, m: Merge, t: TableState, n: nat,
                                               p: nat, f: nat)
    requires MergeOk(g, nofTerminals, m) && n in m.states && p < |g| && f < |m.inv|
        && Item(p, |g[p].right|, f) in m.states[n]
    requires TerminalsCovered(g, t, n, p, m.inv[f])
    requires Clean(t) ==> forall i | i in m.states[n] && CompleteItem(g, i) && i.follow == f ::
                          SameDefinition(g[p], g[i.prod])
    ensures FollowCovered(g, m, t, n, f)
  {
    forall i, a: nat | i in m.states[n] && i.follow == f && a in m.inv[f] ensures ItemCovered(g, m, t, n, i, a) {
      if Clean(t) && CompleteItem(g, i) {
        assert CoreOf(i) in CoresOf(m.states[n]) && CoreOf(Item(p, |g[p].right|, f)) in CoresOf(m.states[n]);
        CompleteItemsDiffer(g, nofTerminals, m, n, p, i.prod);
        assert Covered(t, (n, a), ProductionAction(g, p));
      }
    }
  }

  /** The invariant of the loop over the follow handles of state n. */
  ghost predicate FollowLoop(g: Productions, m: Merge, t0: TableState, t: TableState, gotos: Gotos, done: set<nat>,
                             pending: set<Key>, n: nat, fs: set<nat>) {
    && TableInvariant(g, m, t, gotos, done, pending) && Later(t0, t) && FollowsCovered(g, m, t, n, fs)
    && FollowFacts(g, m, t0, t, n, fs)
  }

  /** Differing definitions have been warned about, other states are as before, and entries and reports are as the
      handles say. */
  ghost predicate FollowFacts(g: Productions, m: Merge, t0: TableState, t: TableState, n: nat, fs: set<nat>) {
    forall z: int {:trigger Look(z)} :: Look(z) ==>
      && |g| > 0 && n in m.states && OnlyIn(n, t0, t)
      && (Clean(t) ==> forall f | f in fs :: HandleAgrees(g, m.states[n], f))
      && Standing(g, m, t, n, fs) && FollowReports(g, m, t0, t, n, fs)
  }

  ghost predicate FollowReports(g: Productions, m: Merge, t0: TableState, t: TableState, n: nat, fs: set<nat>)
    requires |g| > 0 && n in m.states
  {
    forall r {:trigger Reported(t, r)} :: Reported(t, r) <==> Reported(t0, r) || HandlesReport(g, m, n, fs, r)
  }

  lemma {:induction false} FollowLoopStep(g: Productions, m: Merge, t0: TableState, t: TableState, t': TableState,
                                          gotos: Gotos, done: set<nat>, pending: set<Key>, pending': set<Key>, n: nat,
                                          fs: set<nat>, f: nat)
    requires FollowLoop(g, m, t0, t, gotos, done, pending, n, fs) && Later(t, t')
    requires TableInvariant(g, m, t', gotos, done, pending') && FollowCovered(g, m, t', n, f)
        && FollowFacts(g, m, t0, t', n, fs + {f})
    ensures FollowLoop(g, m, t0, t', gotos, done, pending', n, fs + {f})
  {
    LaterTrans(t0, t, t');
    FollowsCoveredLater(g, m, t, t', n, fs);
  }

  /** All complete items with the handle are defined like production p. */
  ghost predicate AllLike(g: Productions, s: set<Item>, f: nat, p: nat)
    requires p < |g|
  {
    forall i | i in s && CompleteItem(g, i) && i.follow == f :: SameDefinition(g[p], g[i.prod])
  }

  lemma {:induction false} LikeAgrees(g: Productions, s: set<Item>, f: nat, p: nat)
    requires ReductionOf(g, s, f, p)
    ensures AllLike(g, s, f, p) <==> HandleAgrees(g, s, f)
  {
    assert CompleteItem(g, Item(p, |g[p].right|, f));
  }

  lemma {:induction false} ConflictFreeLike(g: Productions, m: Merge, n: nat, f: nat, p: nat)
    requires ConflictFree(g, m) && n in m.states && ReductionOf(g, m.states[n], f, p)
    ensures AllLike(g, m.states[n], f, p)
  {
    assert DefinitionsAgree(g, m.states[n]);
    assert f in GetReduceFollow(g, m.states[n]) by { assert CompleteItem(g, Item(p, |g[p].right|, f)); }
    LikeAgrees(g, m.states[n], f, p);
  }

  lemma {:induction false} AgreesMore(g: Productions, s: set<Item>, t: TableState, t': TableState, fs: set<nat>,
                                      f: nat, p: nat)
    requires Later(t, t') && ReductionOf(g, s, f, p) && (Clean(t') ==> AllLike(g, s, f, p))
    requires Clean(t) ==> forall e | e in fs :: HandleAgrees(g, s, e)
    ensures Clean(t') ==> forall e | e in fs + {f} :: HandleAgrees(g, s, e)
  {
    LikeAgrees(g, s, f, p);
  }

  lemma {:induction false} StandingStep(g: Productions, m: Merge, t: TableState, t': TableState, n: nat, fs: set<nat>,
                                        f: nat, p: nat)
    requires |g| > 0 && n in m.states && Standing(g, m, t, n, fs) && (IsAcceptState(g, m.states[n]) ==> fs != {})
    requires 0 < p < |g| && f < |m.inv| && ReductionOf(g, m.states[n], f, p) && (forall e | e in fs :: e < f)
    requires CellsReduced(g, t, t', n, p, m.inv[f])
    ensures Standing(g, m, t', n, fs + {f})
  {
    forall a: nat ensures Stands(g, m, n, a, fs + {f}, CellAt(t', (n, a))) {
      assert Stands(g, m, n, a, fs, CellAt(t, (n, a)));
      SettledStep(g, m, n, a, fs, f, p, CellAt(t, (n, a)));
    }
  }

  /** The handle reports what the choice of its reduction and entering it have reported. */
  lemma {:induction false} HandleReported(g: Productions, nofTerminals: nat, m: Merge, t: TableState, n: nat, f: nat,
                                          p: nat, r: Report)
    requires MergeOk(g, nofTerminals, m) && n in m.states && Standing(g, m, t, n, Lower(g, m.states[n], f))
        && (IsAcceptState(g, m.states[n]) ==> Lower(g, m.states[n], f) != {})
    requires 0 < p < |g| && f < |m.inv| && ReductionOf(g, m.states[n], f, p)
    ensures HandleReports(g, m, n, f, r) <==>
        (r.Warned? && DefinitionWarning(g, m.states[n], f, p, r.warning)) || ReportedAt(g, t, n, p, m.inv[f], r)
  {
    var s, fs := m.states[n], Lower(g, m.states[n], f);
    ChoiceReported(g, s, f, p, r);
    if ReportedAt(g, t, n, p, m.inv[f], r) {
      var a: nat :| a in m.inv[f] && Reports(CellAt(t, (n, a)), g[p], r);
      assert Stands(g, m, n, a, fs, CellAt(t, (n, a)));
      assert Contested(g, m, n, a, f, p, r);
    }
    if a: nat, q: nat :| Contested(g, m, n, a, f, q, r) {
      ReductionUnique(g, s, f, p, q);
      var c :| Settled(g, m, n, a, fs, c) && Reports(c, g[q], r);
      assert Stands(g, m, n, a, fs, CellAt(t, (n, a)));
      SettledUnique(g, nofTerminals, m, n, a, fs, c, CellAt(t, (n, a)));
    }
  }

  lemma {:induction false} ChoiceReported(g: Productions, s: set<Item>, f: nat, p: nat, r: Report)
    requires ReductionOf(g, s, f, p)
    ensures ChoiceReports(g, s, f, r) <==> r.Warned? && DefinitionWarning(g, s, f, p, r.warning)
  {
    if ChoiceReports(g, s, f, r) {
      var q :| ReductionOf(g, s, f, q) && DefinitionWarning(g, s, f, q, r.warning);
      ReductionUnique(g, s, f, p, q);
    }
  }

  lemma {:induction false} OneMoreHandle(g: Productions, m: Merge, n: nat, fs: set<nat>, f: nat, r: Report)
    requires |g| > 0 && n in m.states
    ensures HandlesReport(g, m, n, fs + {f}, r) <==> HandlesReport(g, m, n, fs, r) || HandleReports(g, m, n, f, r)
  {
    assert f in fs + {f};
    if HandlesReport(g, m, n, fs, r) {
      var e :| e in fs && HandleReports(g, m, n, e, r);
      assert e in fs + {f};
    }
  }

  ghost predicate WarningsOf(g: Productions, s: set<Item>, f: nat, p: nat, warnings: seq<Warning>)
    requires p < |g|
  {
    forall w :: w in warnings <==> DefinitionWarning(g, s, f, p, w)
  }

  lemma {:induction false} ReportsStep(g: Productions, nofTerminals: nat, m: Merge, t0: TableState, t: TableState,
                                       t': TableState, n: nat, f: nat, p: nat, warnings: seq<Warning>)
    requires MergeOk(g, nofTerminals, m) && n in m.states && Standing(g, m, t, n, Lower(g, m.states[n], f))
        && (IsAcceptState(g, m.states[n]) ==> Lower(g, m.states[n], f) != {})
    requires 0 < p < |g| && f < |m.inv| && ReductionOf(g, m.states[n], f, p)
        && WarningsOf(g, m.states[n], f, p, warnings)
    requires FollowReports(g, m, t0, t, n, Lower(g, m.states[n], f))
        && TerminalReports(g, t.(warnings := t.warnings + warnings), t', n, p, m.inv[f])
    ensures FollowReports(g, m, t0, t', n, Lower(g, m.states[n], f) + {f})
  {
    var t1 := t.(warnings := t.warnings + warnings);
    WarnedAbout(t, warnings);
    forall r ensures Reported(t', r) <==> Reported(t0, r) || HandlesReport(g, m, n, Lower(g, m.states[n], f) + {f}, r) {
      HandleReported(g, nofTerminals, m, t1, n, f, p, r);
      OneMoreHandle(g, m, n, Lower(g, m.states[n], f), f, r);
      assert Reported(t, r) <==> Reported(t0, r) || HandlesReport(g, m, n, Lower(g, m.states[n], f), r);
      assert Reported(t1, r) <==> Reported(t, r) || (r.Warned? && r.warning in warnings);
    }
  }

  lemma {:induction false} FollowFactsStep(g: Productions, nofTerminals: nat, m: Merge, t0: TableState, t: TableState,
                                           t1: TableState, t': TableState, n: nat, fs: set<nat>, f: nat, p: nat,
                                           warnings: seq<Warning>)
    requires MergeOk(g, nofTerminals, m) && n in m.states && f < |m.inv| && 0 < p < |g|
        && ReductionOf(g, m.states[n], f, p) && fs == Lower(g, m.states[n], f)
        && (IsAcceptState(g, m.states[n]) ==> fs != {})
    requires FollowFacts(g, m, t0, t, n, fs) && t1 == t.(warnings := t.warnings + warnings) && Later(t1, t')
    requires TerminalFacts(g, t1, t', n, p, m.inv[f]) && (warnings == [] ==> AllLike(g, m.states[n], f, p))
        && WarningsOf(g, m.states[n], f, p, warnings)
    ensures FollowFacts(g, m, t0, t', n, fs + {f})
  {
    assert Look(0);
    WarnLater(t, warnings);
    LaterTrans(t, t1, t');
    WarnedAbout(t, warnings);
    OnlyInTrans(n, t0, t, t1);
    OnlyInTrans(n, t0, t1, t');
    AgreesMore(g, m.states[n], t, t', fs, f, p);
    StandingWarned(g, m, t, n, fs, warnings);
    StandingStep(g, m, t1, t', n, fs, f, p);
    ReportsStep(g, nofTerminals, m, t0, t, t', n, f, p, warnings);
  }

  lemma {:induction false} StandingWarned(g: Productions, m: Merge, t: TableState, n: nat, fs: set<nat>,
                                          more: seq<Warning>)
    requires |g| > 0 && n in m.states && Standing(g, m, t, n, fs)
    ensures Standing(g, m, t.(warnings := t.warnings + more), n, fs)
  {
    WarnedAbout(t, more);
    forall a: nat ensures Stands(g, m, n, a, fs, CellAt(t.(warnings := t.warnings + more), (n, a))) {
      assert Stands(g, m, n, a, fs, CellAt(t, (n, a)));
    }
  }

  /** The accept entry gets its priority. */
  lemma {:induction false} AcceptStands(g: Productions, m: Merge, t: TableState, n: nat)
    requires |g| > 0 && n in m.states && IsAcceptState(g, m.states[n]) && Standing(g, m, t, n, {})
    ensures Standing(g, m, Inserted(t, (n, 0), Reduce(g[0].left, g[0].scope, g[0].callidx, |g[0].right|),
        g[0].priority), n, {0})
  {
    var act := Reduce(g[0].left, g[0].scope, g[0].callidx, |g[0].right|);
    var t' := Inserted(t, (n, 0), act, g[0].priority);
    InsertElsewhere(t, (n, 0), act, g[0].priority);
    assert ReductionOf(g, m.states[n], 0, 0);
    assert {} + {0} == {0};
    forall a: nat ensures Stands(g, m, n, a, {0}, CellAt(t', (n, a))) {
      assert Stands(g, m, n, a, {}, CellAt(t, (n, a)));
      if a == 0 {
        assert Holder(g, m, n, a, CellAt(t', (n, a)));
        assert NoneTaking(g, m, m.states[n], a, CellAt(t', (n, a)), {});
      }
      SettledStep(g, m, n, a, {}, 0, 0, CellAt(t', (n, a)));
    }
  }

  lemma {:induction false} AcceptReports(g: Productions, m: Merge, t: TableState, n: nat, warnings: seq<Warning>)
    requires |g| > 0 && n in m.states && IsAcceptState(g, m.states[n]) && Waiting(t, (n, 0))
        && WarningsOf(g, m.states[n], 0, 0, warnings)
    ensures var t' := Inserted(t.(warnings := t.warnings + warnings), (n, 0),
        Reduce(g[0].left, g[0].scope, g[0].callidx, |g[0].right|), g[0].priority);
            forall r :: Reported(t', r) <==> Reported(t, r) || HandlesReport(g, m, n, {0}, r)
  {
    var s, t1 := m.states[n], t.(warnings := t.warnings + warnings);
    WarnedAbout(t, warnings);
    ReductionEntered(t1, (n, 0), g[0]);
    assert ReductionOf(g, s, 0, 0);
    forall r ensures HandlesReport(g, m, n, {0}, r) <==> r.Warned? && r.warning in warnings {
      ChoiceReported(g, s, 0, 0, r);
      if a: nat, q: nat :| Contested(g, m, n, a, 0, q, r) { ReductionUnique(g, s, 0, 0, q); }
      assert HandlesReport(g, m, n, {0}, r) <==> HandleReports(g, m, n, 0, r);
    }
  }

  /** The accept entry gets its priority, and no warning is due as long as the definitions agree. */
  lemma {:induction false} AcceptFacts(g: Productions, m: Merge, t0: TableState, t: TableState, n: nat,
                                       warnings: seq<Warning>)
    requires |g| > 0 && |m.inv| > 0 && n in m.states && IsAcceptState(g, m.states[n]) && FollowFacts(g, m, t0, t, n, {})
    requires warnings == [] ==> AllLike(g, m.states[n], 0, 0)
    requires WarningsOf(g, m.states[n], 0, 0, warnings)
    ensures var t' := Inserted(t.(warnings := t.warnings + warnings), (n, 0),
        Reduce(g[0].left, g[0].scope, g[0].callidx, |g[0].right|), g[0].priority);
            FollowFacts(g, m, t0, t', n, {0})
  {
    assert Look(0);
    var s, t1 := m.states[n], t.(warnings := t.warnings + warnings);
    var act := Reduce(g[0].left, g[0].scope, g[0].callidx, |g[0].right|);
    var t' := Inserted(t1, (n, 0), act, g[0].priority);
    assert ReductionOf(g, s, 0, 0);
    WarnLater(t, warnings);
    WarnedAbout(t, warnings);
    InsertOnlyIn(n, t0, t1, 0, act, g[0].priority) by { OnlyInTrans(n, t0, t, t1); }
    InsertLater(t1, (n, 0), act, g[0].priority);
    LaterTrans(t, t1, t');
    AgreesMore(g, s, t, t', {}, 0, 0);
    assert {} + {0} == {0};
    StandingWarned(g, m, t, n, {}, warnings);
    AcceptStands(g, m, t1, n);
    assert Stands(g, m, n, 0, {}, CellAt(t, (n, 0)));
    AcceptReports(g, m, t, n, warnings);
    assert forall r :: !HandlesReport(g, m, n, {}, r);
  }

  /** In an accept state the handle of {$} comes first, with the start production; it only records the priority. */
  lemma {:induction false} AcceptFollowStep(g: Productions, nofTerminals: nat, m: Merge, t0: TableState, t: TableState,
                                            gotos: Gotos, done: set<nat>, n: nat, warnings: seq<Warning>)
    requires MergeOk(g, nofTerminals, m) && n in m.states && n in done && Item(0, |g[0].right|, 0) in m.states[n]
    requires FollowLoop(g, m, t0, t, gotos, done, {(n, 0)}, n, {}) && (n, 0) in t.actions
        && t.actions[(n, 0)] == ProductionAction(g, 0)
    requires ConflictFree(g, m) ==> warnings == []
    requires warnings == [] ==> AllLike(g, m.states[n], 0, 0)
    requires WarningsOf(g, m.states[n], 0, 0, warnings)
    ensures var t' := Inserted(t.(warnings := t.warnings + warnings), (n, 0),
        Reduce(g[0].left, g[0].scope, g[0].callidx, |g[0].right|), g[0].priority);
            FollowLoop(g, m, t0, t', gotos, done, {}, n, {0})
  {
    var key, act := (n, 0), Reduce(g[0].left, g[0].scope, g[0].callidx, |g[0].right|);
    var t1 := t.(warnings := t.warnings + warnings);
    var t' := Inserted(t1, key, act, g[0].priority);
    WarnLater(t, warnings);
    WarnKeepsInvariant(g, m, t, gotos, done, {key}, warnings);
    assert key in t1.actions.Keys - t1.priorities.Keys;
    InsertAtAccept(t1, key, act, g[0].priority);
    InsertKeepsInvariant(g, m, t1, gotos, done, {key}, key, act, g[0].priority);
    assert {key} - {key} == {};
    InsertLater(t1, key, act, g[0].priority);
    LaterTrans(t, t1, t');
    assert Covered(t', (n, 0), ProductionAction(g, 0));
    AcceptFacts(g, m, t0, t, n, warnings);
    assert {} + {0} == {0};
    FollowFromTerminals(g, nofTerminals, m, t', n, 0, 0);
    FollowLoopStep(g, m, t0, t, t', gotos, done, {key}, {}, n, {}, 0);
    assert {} + {0} == {0};
  }

  lemma {:induction false} OrdinaryFollowStep(g: Productions, nofTerminals: nat, m: Merge, t0: TableState,
                                              t: TableState, t1: TableState, t': TableState, gotos: Gotos,
                                              done: set<nat>, n: nat, fs: set<nat>, p: nat, f: nat,
                                              warnings: seq<Warning>)
    requires MergeOk(g, nofTerminals, m) && n in m.states && f < |m.inv| && 0 < p < |g|
        && Item(p, |g[p].right|, f) in m.states[n]
    requires ReductionOf(g, m.states[n], f, p) && (warnings == [] ==> AllLike(g, m.states[n], f, p))
    requires fs == Lower(g, m.states[n], f) && (IsAcceptState(g, m.states[n]) ==> fs != {})
        && WarningsOf(g, m.states[n], f, p, warnings)
    requires FollowLoop(g, m, t0, t, gotos, done, {}, n, fs) && t1 == t.(warnings := t.warnings + warnings)
    requires TerminalLoop(g, m, t1, t', gotos, done, {}, n, p, m.inv[f])
    ensures FollowLoop(g, m, t0, t', gotos, done, {}, n, fs + {f})
  {
    WarnLater(t, warnings);
    LaterTrans(t, t1, t');
    FollowFactsStep(g, nofTerminals, m, t0, t, t1, t', n, fs, f, p, warnings);
    FollowFromTerminals(g, nofTerminals, m, t', n, p, f);
    FollowLoopStep(g, m, t0, t, t', gotos, done, {}, {}, n, fs, f);
  }

  /** What is known before the reductions of follow handle f: an accept entry is pending exactly before handle 0. */
  ghost predicate BeforeFollow(g: Productions, m: Merge, t0: TableState, t: TableState, gotos: Gotos, done: set<nat>,
                               n: nat, fs: set<nat>, p: nat, f: nat)
    requires |g| > 0
  {
    if p > 0 then FollowLoop(g, m, t0, t, gotos, done, {}, n, fs)
    else fs == {} && FollowLoop(g, m, t0, t, gotos, done, {(n, 0)}, n, fs)
         && AtAcceptEntry(g, m, t, gotos, done, n, p, f)
  }

  lemma {:induction false} WarnKeepsBefore(g: Productions, m: Merge, t: TableState, gotos: Gotos, done: set<nat>,
                                           n: nat, p: nat, f: nat, more: seq<Warning>)
    requires |g| > 0
    requires if p > 0 then TableInvariant(g, m, t, gotos, done, {}) else AtAcceptEntry(g, m, t, gotos, done, n, p, f)
    requires ConflictFree(g, m) ==> more == []
    ensures var t' := t.(warnings := t.warnings + more);
            if p > 0 then TableInvariant(g, m, t', gotos, done, {}) else AtAcceptEntry(g, m, t', gotos, done, n, p, f)
  {
    WarnKeepsInvariant(g, m, t, gotos, done, if p > 0 then {} else {(n, 0)}, more);
  }

  /** The reductions of one follow handle. */
  method FillFollow(tab: ActionTable, g: Productions, ghost nofTerminals: nat, ghost m: Merge, s: set<Item>,
                    content: set<nat>, n: nat, f: nat, ghost t0: TableState, ghost done: set<nat>, ghost fs: set<nat>)
    requires MergeOk(g, nofTerminals, m) && n in m.states && m.states[n] == s && n in done && f < |m.inv|
        && content == m.inv[f]
    requires f in GetReduceFollow(g, s) && fs == Lower(g, s, f)
    requires var p := if IsAcceptState(g, s) && fs == {} then 0 else
        1; (p == 0 ==> f == 0) && BeforeFollow(g, m, t0, tab.State(), tab.gotos, done, n, fs, p, f)
    requires fs != {} || !IsAcceptState(g, s) ==> Item(0, |g[0].right|, f) !in s
    modifies tab
    ensures FollowLoop(g, m, t0, tab.State(), tab.gotos, done, {}, n, fs + {f}) && tab.gotos == old(tab.gotos)
  {
    ghost var t := tab.State();
    var p, warnings := GetReductionDef(g, s, f);
    assert ReductionOf(g, s, f, p);
    if ConflictFree(g, m) { ConflictFreeLike(g, m, n, f, p); }
    tab.AddWarnings(warnings);
    ghost var t1 := tab.State();
    WarnKeepsBefore(g, m, t, tab.gotos, done, n, p, f, warnings);
    FillTerminals(tab, g, nofTerminals, m, content, n, p, f, done);
    if p > 0 {
      OrdinaryFollowStep(g, nofTerminals, m, t0, t, t1, tab.State(), tab.gotos, done, n, fs, p, f, warnings);
    } else {
      AcceptFollowStep(g, nofTerminals, m, t0, t, tab.gotos, done, n, warnings);
      assert {} + {f} == {0};
    }
  }

  method FillReductions(tab: ActionTable, fm: FollowMap, g: Productions, ghost nofTerminals: nat, ghost m: Merge,
                        s: set<Item>, n: nat, ghost done: set<nat>)
    requires fm.Valid() && MergeOk(g, nofTerminals, m) && m.inv == fm.sets.inv && n in m.states && m.states[n] == s
        && n in done
    requires TableInvariant(g, m, tab.State(), tab.gotos, done, if IsAcceptState(g, s) then {(n, 0)} else {})
        && Standing(g, m, tab.State(), n, {})
    modifies tab
    ensures FollowLoop(g, m, old(tab.State()), tab.State(), tab.gotos, done, {}, n, GetReduceFollow(g, s))
        && tab.gotos == old(tab.gotos)
  {
    ghost var t0, gotos := tab.State(), tab.gotos;
    var follows := GetReduceFollow(g, s);
    var todo := follows;
    FollowsInTable(g, nofTerminals, m, n);
    FollowsStart(g, m, t0, gotos, done, n, s);
    while todo != {}
      invariant tab.gotos == gotos && FollowsLeft(g, m, t0, tab.State(), gotos, done, n, s, todo)
      decreases todo
    {
      var f := LeastNat(todo);
      ghost var fs := follows - todo;
      StartItemFollow(g, nofTerminals, m, n, f);
      FollowsNext(g, m, t0, tab.State(), gotos, done, n, s, todo, f);
      FillFollow(tab, g, nofTerminals, m, s, fm.sets.inv[f], n, f, t0, done, fs);
      FollowsOneDone(g, m, t0, tab.State(), gotos, done, n, s, todo, f);
      todo := todo - {f};
    }
    FollowsAllDone(g, m, t0, tab.State(), gotos, done, n, s);
  }

  /** The follow handles of todo are left, the smaller ones have been filled in; before the first one an accept entry
      is pending. */
  ghost predicate FollowsLeft(g: Productions, m: Merge, t0: TableState, t: TableState, gotos: Gotos, done: set<nat>,
                              n: nat, s: set<Item>, todo: set<nat>)
    requires |g| > 0
  {
    var follows := GetReduceFollow(g, s);
    && todo <= follows && (forall x, y | x in follows - todo && y in todo :: x < y)
    && FollowLoop(g, m, t0, t, gotos, done, if IsAcceptState(g, s) && todo == follows then {(n, 0)} else
        {}, n, follows - todo)
    && (todo == follows ==> t == t0)
  }

  lemma {:induction false} FollowsStart(g: Productions, m: Merge, t0: TableState, gotos: Gotos, done: set<nat>, n: nat,
                                        s: set<Item>)
    requires |g| > 0 && n in m.states && Standing(g, m, t0, n, {})
    requires TableInvariant(g, m, t0, gotos, done, if IsAcceptState(g, s) then {(n, 0)} else {})
    ensures FollowsLeft(g, m, t0, t0, gotos, done, n, s, GetReduceFollow(g, s))
  {
    var follows := GetReduceFollow(g, s);
    LaterRefl(t0);
    assert follows - follows == {};
    assert forall r :: !HandlesReport(g, m, n, {}, r);
  }

  lemma {:induction false} FollowsNext(g: Productions, m: Merge, t0: TableState, t: TableState, gotos: Gotos,
                                       done: set<nat>, n: nat, s: set<Item>, todo: set<nat>, f: nat)
    requires |g| > 0 && FollowsLeft(g, m, t0, t, gotos, done, n, s, todo) && IsLeast(todo, f)
    requires n in m.states && m.states[n] == s && Standing(g, m, t0, n, {})
    requires Item(0, |g[0].right|, f) in s ==> f == 0 && IsAcceptState(g, s)
    ensures var fs := GetReduceFollow(g, s) - todo;
            var p := if IsAcceptState(g, s) && fs == {} then 0 else 1;
            (p == 0 ==> f == 0) && BeforeFollow(g, m, t0, t, gotos, done, n, fs, p, f)
            && (fs != {} || !IsAcceptState(g, s) ==> Item(0, |g[0].right|, f) !in s) && fs == Lower(g, s, f)
  {
    AcceptFollow(g, s);
    assert Stands(g, m, n, 0, {}, CellAt(t0, (n, 0)));
    RestEmpty(GetReduceFollow(g, s), todo);
  }

  lemma {:induction false} FollowsOneDone(g: Productions, m: Merge, t0: TableState, t: TableState, gotos: Gotos,
                                          done: set<nat>, n: nat, s: set<Item>, todo: set<nat>, f: nat)
    requires |g| > 0 && todo <= GetReduceFollow(g, s) && IsLeast(todo, f)
    requires forall x, y | x in GetReduceFollow(g, s) - todo && y in todo :: x < y
    requires FollowLoop(g, m, t0, t, gotos, done, {}, n, GetReduceFollow(g, s) - todo + {f})
    ensures FollowsLeft(g, m, t0, t, gotos, done, n, s, todo - {f})
  {
    var follows := GetReduceFollow(g, s);
    assert follows - (todo - {f}) == follows - todo + {f};
    assert f in follows && f !in todo - {f};
  }

  lemma {:induction false} FollowsAllDone(g: Productions, m: Merge, t0: TableState, t: TableState, gotos: Gotos,
                                          done: set<nat>, n: nat, s: set<Item>)
    requires |g| > 0 && FollowsLeft(g, m, t0, t, gotos, done, n, s, {})
    ensures FollowLoop(g, m, t0, t, gotos, done, {}, n, GetReduceFollow(g, s))
  {
    AcceptFollow(g, s);
    assert GetReduceFollow(g, s) - {} == GetReduceFollow(g, s);
  }

  lemma {:induction false} RestEmpty(all: set<nat>, todo: set<nat>)
    requires todo <= all
    ensures all - todo == {} <==> todo == all
  {
    assert all - todo == {} ==> forall x | x in all :: x !in all - todo;
  }

  lemma {:induction false} AcceptFollow(g: Productions, s: set<Item>)
    requires |g| > 0
    ensures IsAcceptState(g, s) ==> 0 in GetReduceFollow(g, s)
  {
    assert Item(0, |g[0].right|, 0) in s ==> CompleteItem(g, Item(0, |g[0].right|, 0));
  }

  lemma {:induction false} FollowsInTable(g: Productions, nofTerminals: nat, m: Merge, n: nat)
    requires MergeOk(g, nofTerminals, m) && n in m.states
    ensures forall f | f in GetReduceFollow(g, m.states[n]) :: f < |m.inv|
  {
    CoresKnown(g, nofTerminals, m, n);
  }
}
