/** The table builder as a whole, and what its tables are good for. */
module AutomatonBuild {
  import opened Guards
  import opened Grammar
  import opened BuildErrors
  import opened FirstSets
  import opened Tables
  import opened FollowSets
  import opened Items
  import opened Closure
  import opened States
  import opened Lalr
  import opened LalrProperties
  import opened TableFacts
  import opened ActionTables
  import opened StateActions
  import opened Conflicts
  import opened Entries
  import opened Sets
  import opened TableBuilder
  import LookaheadBounds
  import opened PackingLimits
  import opened Driver
  import opened ParserSoundness
  import opened ParserCompleteness
  import opened TreeTranslation

  // ---------------------------------------------------------------- one state

  lemma {:induction false} AcceptEntry(g: Productions, m: Merge, t: TableState, gotos: Gotos, done: set<nat>, n: nat)
    requires |g| > 0 && |m.inv| > 0 && m.inv[0] == {0}
    requires TableInvariant(g, m, t, gotos, done, {}) && n in m.states && n !in done && IsAcceptState(g, m.states[n])
    ensures var t' := t.(actions := t.actions[(n, 0) := ProductionAction(g, 0)]);
            TableInvariant(g, m, t', gotos, done + {n}, {(n, 0)}) && Later(t, t') && OnlyIn(n, t, t')
            && FreshState(g, m, t', n)
  {
    var t' := t.(actions := t.actions[(n, 0) := ProductionAction(g, 0)]);
    assert (n, 0) !in t.actions;
    ItemReduces(g, m, n, 0, 0, 0);
    AcceptJustified(g, m, t, n);
    assert t'.actions.Keys - t'.priorities.Keys == (t.actions.Keys - t.priorities.Keys) + {(n, 0)};
    AcceptSound(g, m, t, gotos, n);
  }

  lemma {:induction false} AcceptSound(g: Productions, m: Merge, t: TableState, gotos: Gotos, n: nat)
    requires |g| > 0 && EntriesSound(g, m, t, gotos) && n in m.states && IsAcceptState(g, m.states[n])
    ensures EntriesSound(g, m, t.(actions := t.actions[(n, 0) := ProductionAction(g, 0)]), gotos)
  {
    var t' := t.(actions := t.actions[(n, 0) := ProductionAction(g, 0)]);
    assert CoreOf(Item(0, |g[0].right|, 0)) in CoresMap(m)[n];
    forall k | k in t'.actions ensures SoundAction(g, CoresMap(m), k.0, k.1, t'.actions[k]) {
      if k != (n, 0) { assert SoundAction(g, CoresMap(m), k.0, k.1, t.actions[k]); }
    }
  }

  lemma {:induction false} OneMoreState(g: Productions, m: Merge, t: TableState, gotos: Gotos, done: set<nat>, n: nat)
    requires TableInvariant(g, m, t, gotos, done, {}) && |g| > 0 && n in m.states && n !in done
    ensures TableInvariant(g, m, t, gotos, done + {n}, {})
    ensures !IsAcceptState(g, m.states[n]) ==> FreshState(g, m, t, n)
  {
  }

  lemma {:induction false} ReductionsFromFollows(g: Productions, m: Merge, t: TableState, n: nat)
    requires n in m.states && FollowsCovered(g, m, t, n, GetReduceFollow(g, m.states[n]))
    ensures ReductionsCovered(g, m, t, n)
  {
    forall p: nat, a: nat ensures ReductionCovered(g, m, t, n, p, a) {
      if p < |g| && HasLook(m.inv, m.states[n], Core(p, |g[p].right|), a) {
        var i :| i in m.states[n] && CoreOf(i) == Core(p, |g[p].right|) && LookIn(m.inv, i, a);
        assert CompleteItem(g, i) && i.follow in GetReduceFollow(g, m.states[n]);
        assert FollowCovered(g, m, t, n, i.follow);
        assert ItemCovered(g, m, t, n, i, a);
      }
    }
  }

  lemma {:induction false} StateFilled(g: Productions, m: Merge, t0: TableState, t1: TableState, t2: TableState,
                                       t3: TableState, gotos0: Gotos, gotos: Gotos, done: set<nat>, pending: set<Key>,
                                       n: nat)
    requires n in m.states && Later(t0, t1)
        && ShiftLoop(g, m, t1, t2, gotos0, gotos, done, pending, n, GotoSymbols(g, m.states[n]))
    requires FollowLoop(g, m, t2, t3, gotos, done, {}, n, GetReduceFollow(g, m.states[n]))
    ensures TableInvariant(g, m, t3, gotos, done, {}) && Later(t0, t3) && StateCovered(g, m, t3, gotos, n)
  {
    LaterTrans(t0, t1, t2);
    LaterTrans(t0, t2, t3);
    ShiftsCoveredLater(g, m, t2, t3, gotos, gotos, n, GotoSymbols(g, m.states[n]));
    ReductionsFromFollows(g, m, t3, n);
    assert Look(0);
  }

  /** Before the first reduction. */
  lemma {:induction false} ShiftsDone(g: Productions, nofTerminals: nat, m: Merge, t0: TableState, t: TableState,
                                      n: nat)
    requires MergeOk(g, nofTerminals, m) && n in m.states
        && ShiftFacts(g, m, t0, t, n, GotoSymbols(g, m.states[n]))
    ensures Standing(g, m, t, n, {})
  {
    assert Look(0);
    EndNotShifted(g, nofTerminals, m, n);
    forall a: nat ensures Stands(g, m, n, a, {}, CellAt(t, (n, a))) {
      var c := CellAt(t, (n, a));
      if !(a == 0 && IsAcceptState(g, m.states[n])) {
        assert Holder(g, m, n, a, c);
        assert NoneTaking(g, m, m.states[n], a, c, {});
      }
    }
  }

  lemma {:induction false} StateSettled(g: Productions, m: Merge, t0: TableState, t1: TableState, t2: TableState,
                                        t3: TableState, n: nat)
    requires n in m.states && OnlyIn(n, t0, t1) && (forall r :: Reported(t1, r) <==> Reported(t0, r))
        && ShiftFacts(g, m, t1, t2, n, GotoSymbols(g, m.states[n]))
        && FollowFacts(g, m, t2, t3, n, GetReduceFollow(g, m.states[n]))
    ensures |g| > 0 && StateStands(g, m, t0, t3, n)
  {
    assert Look(0);
    OnlyInTrans(n, t0, t1, t2);
    OnlyInTrans(n, t0, t2, t3);
    var s := m.states[n];
    forall r ensures Reported(t3, r) <==> Reported(t0, r) || StateReports(g, m, n, r) {
      assert Reported(t3, r) <==> Reported(t2, r) || HandlesReport(g, m, n, GetReduceFollow(g, s), r);
      assert Reported(t2, r) <==>
          Reported(t1, r) || (r == Warned(PriorityConflictInGrammarDef) && PrioritiesDiffer(g, s));
    }
  }

  /** All entries of state n are as its items say, the others as before, and what the items say is reported. */
  ghost predicate StateStands(g: Productions, m: Merge, t0: TableState, t: TableState, n: nat)
    requires |g| > 0 && n in m.states
  {
    && OnlyIn(n, t0, t) && Standing(g, m, t, n, GetReduceFollow(g, m.states[n]))
    && forall r {:trigger Reported(t, r)} :: Reported(t, r) <==> Reported(t0, r) || StateReports(g, m, n, r)
  }

  /** All entries of one state. */
  method FillState(tab: ActionTable, fm: FollowMap, g: Productions, ghost nofTerminals: nat, ghost m: Merge,
                   gm: GotoMap, s: set<Item>, n: nat, ghost done: set<nat>)
    returns (r: Result<bool>)
    requires fm.Valid() && MergeOk(g, nofTerminals, m) && m.inv == fm.sets.inv && GotoMapOk(m, gm) && n in m.states
        && m.states[n] == s && n !in done
    requires TableInvariant(g, m, tab.State(), tab.gotos, done, {})
    modifies tab
    ensures r == Ok(IsAcceptState(g, s))
    ensures TableInvariant(g, m, tab.State(), tab.gotos, done + {n}, {}) && Later(old(tab.State()), tab.State())
    ensures StateCovered(g, m, tab.State(), tab.gotos, n) && old(tab.gotos.Keys) <= tab.gotos.Keys
    ensures StateStands(g, m, old(tab.State()), tab.State(), n)
  {
    ghost var t0, gotos0 := tab.State(), tab.gotos;
    ghost var pending: set<Key> := if IsAcceptState(g, s) then {(n, 0)} else {};
    LaterRefl(t0);
    if IsAcceptState(g, s) {
      if g[0].left != 1 {
        return Err(BuildError.LogicError);
      }
      AcceptEntry(g, m, t0, gotos0, done, n);
      tab.SetAccept((n, 0), Accept(g[0].left, g[0].scope, g[0].callidx, |g[0].right|));
    } else {
      OneMoreState(g, m, t0, gotos0, done, n);
    }
    ghost var t1 := tab.State();
    var shifts := FillShifts(tab, g, nofTerminals, m, gm, s, n, done + {n}, pending);
    if shifts.Err? {
      return Err(BuildError.LogicError);
    }
    ghost var t2 := tab.State();
    ShiftsDone(g, nofTerminals, m, t1, t2, n);
    FillReductions(tab, fm, g, nofTerminals, m, s, n, done + {n});
    StateFilled(g, m, t0, t1, t2, tab.State(), gotos0, tab.gotos, done + {n}, pending, n);
    StateSettled(g, m, t0, t1, t2, tab.State(), n);
    r := Ok(IsAcceptState(g, s));
  }

  // ---------------------------------------------------------------- all states

  ghost predicate StatesCovered(g: Productions, m: Merge, t: TableState, gotos: Gotos, done: set<nat>) {
    forall n {:trigger StateCovered(g, m, t, gotos, n)} | n in done :: StateCovered(g, m, t, gotos, n)
  }

  lemma {:induction false} StatesCoveredLater(g: Productions, m: Merge, a: TableState, b: TableState, gotos: Gotos,
                                              gotos': Gotos, done: set<nat>, n: nat)
    requires StatesCovered(g, m, a, gotos, done) && Later(a, b) && gotos.Keys <= gotos'.Keys
        && StateCovered(g, m, b, gotos', n)
    ensures StatesCovered(g, m, b, gotos', done + {n})
  {
    forall k | k in done + {n} ensures StateCovered(g, m, b, gotos', k) {
      if k in done {
        assert StateCovered(g, m, a, gotos, k);
        StateCoveredLater(g, m, a, b, gotos, gotos', k);
      }
    }
  }

  /** The entries of the states filled so far, and what was reported. */
  ghost predicate StatesSettled(g: Productions, m: Merge, t: TableState, done: set<nat>) {
    |g| > 0 && done <= m.states.Keys && StatesStand(g, m, t, done) && StatesReport(g, m, t, done)
  }

  ghost predicate StatesStand(g: Productions, m: Merge, t: TableState, done: set<nat>)
    requires |g| > 0 && done <= m.states.Keys
  {
    forall n {:trigger Standing(g, m, t, n, GetReduceFollow(g, m.states[n]))} | n in done ::
      Standing(g, m, t, n, GetReduceFollow(g, m.states[n]))
  }

  ghost predicate StatesReport(g: Productions, m: Merge, t: TableState, done: set<nat>)
    requires |g| > 0 && done <= m.states.Keys
  {
    forall r {:trigger Reported(t, r)} :: Reported(t, r) <==> SomeReports(g, m, done, r)
  }

  lemma {:induction false} StandsLater(g: Productions, m: Merge, a: TableState, b: TableState, n: nat, k: nat,
                                       fs: set<nat>)
    requires |g| > 0 && k in m.states && Standing(g, m, a, k, fs) && OnlyIn(n, a, b) && k != n
    ensures Standing(g, m, b, k, fs)
  {
    forall x: nat ensures Stands(g, m, k, x, fs, CellAt(b, (k, x))) {
      assert Stands(g, m, k, x, fs, CellAt(a, (k, x)));
      assert CellAt(a, (k, x)) == CellAt(b, (k, x));
    }
  }

  lemma {:induction false} StatesSettledStep(g: Productions, m: Merge, a: TableState, b: TableState, done: set<nat>,
                                             n: nat)
    requires StatesSettled(g, m, a, done) && n in m.states && n !in done && StateStands(g, m, a, b, n)
    ensures StatesSettled(g, m, b, done + {n})
  {
    forall k | k in done + {n} ensures Standing(g, m, b, k, GetReduceFollow(g, m.states[k])) {
      if k in done {
        assert Standing(g, m, a, k, GetReduceFollow(g, m.states[k]));
        StandsLater(g, m, a, b, n, k, GetReduceFollow(g, m.states[k]));
      }
    }
    forall r ensures Reported(b, r) <==> SomeReports(g, m, done + {n}, r) {
      assert Reported(b, r) <==> Reported(a, r) || StateReports(g, m, n, r);
      assert Reported(a, r) <==> SomeReports(g, m, done, r);
      OneMoreReports(g, m, done, n, r);
    }
  }

  lemma {:induction false} OneMoreReports(g: Productions, m: Merge, done: set<nat>, n: nat, r: Report)
    requires |g| > 0 && done <= m.states.Keys && n in m.states
    ensures SomeReports(g, m, done + {n}, r) <==> SomeReports(g, m, done, r) || StateReports(g, m, n, r)
  {
    assert n in done + {n};
    if SomeReports(g, m, done, r) {
      var k :| k in done && StateReports(g, m, k, r);
      assert k in done + {n};
    }
  }

  ghost function AcceptStates(g: Productions, m: Merge, ns: set<nat>): set<nat>
    requires |g| > 0 && ns <= m.states.Keys
  {
    set n | n in ns && IsAcceptState(g, m.states[n])
  }

  /** The number of accept states among these. */
  ghost predicate AcceptsCounted(g: Productions, m: Merge, ns: set<nat>, count: nat) {
    forall z: int {:trigger Look(z)} :: Look(z) ==>
      |g| > 0 && ns <= m.states.Keys && count == |AcceptStates(g, m, ns)|
  }

  lemma {:induction false} NoAcceptState(g: Productions, m: Merge)
    requires |g| > 0
    ensures AcceptsCounted(g, m, {}, 0)
  {
  }

  lemma {:induction false} OneMoreAcceptState(g: Productions, m: Merge, ns: set<nat>, n: nat, count: nat)
    requires |g| > 0 && n in m.states && n !in ns && AcceptsCounted(g, m, ns, count)
    ensures AcceptsCounted(g, m, ns + {n}, if IsAcceptState(g, m.states[n]) then count + 1 else count)
  {
    assert Look(0);
    assert AcceptStates(g, m, ns + {n})
        == AcceptStates(g, m, ns) + if IsAcceptState(g, m.states[n]) then {n} else {};
  }

  lemma {:induction false} CountedAccept(g: Productions, m: Merge, n: nat, count: nat)
    requires |g| > 0 && n in m.states && IsAcceptState(g, m.states[n]) && AcceptsCounted(g, m, m.states.Keys, count)
    ensures count > 0
  {
    assert Look(0);
    assert n in AcceptStates(g, m, m.states.Keys);
  }

  method FillTables(tab: ActionTable, fm: FollowMap, g: Productions, ghost nofTerminals: nat, ghost m: Merge,
                    gm: GotoMap, states: StateMap)
    returns (r: Result<nat>)
    requires fm.Valid() && MergeOk(g, nofTerminals, m) && m.inv == fm.sets.inv && m.states == states && GotoMapOk(m, gm)
    requires tab.State() == TableState(map[], map[], [], 0) && tab.gotos == map[]
    modifies tab
    ensures r.Ok?
    ensures TableInvariant(g, m, tab.State(), tab.gotos, states.Keys, {})
        && StatesCovered(g, m, tab.State(), tab.gotos, states.Keys)
    ensures StatesSettled(g, m, tab.State(), states.Keys)
    ensures AcceptsCounted(g, m, states.Keys, r.value)
  {
    var nofAcceptStates: nat := 0;
    var todo := states.Keys;
    EmptyTable(g, m, tab.State(), tab.gotos);
    NoAcceptState(g, m);
    assert states.Keys - todo == {};
    while todo != {}
      invariant todo <= states.Keys
      invariant TableInvariant(g, m, tab.State(), tab.gotos, states.Keys - todo, {})
      invariant StatesCovered(g, m, tab.State(), tab.gotos, states.Keys - todo)
          && StatesSettled(g, m, tab.State(), states.Keys - todo)
      invariant AcceptsCounted(g, m, states.Keys - todo, nofAcceptStates)
      decreases todo
    {
      var n := LeastNat(todo);
      ghost var t, gotos, done := tab.State(), tab.gotos, states.Keys - todo;
      var accepts := FillState(tab, fm, g, nofTerminals, m, gm, states[n], n, done);
      if accepts.Err? {
        return Err(BuildError.LogicError);
      }
      StatesCoveredLater(g, m, t, tab.State(), gotos, tab.gotos, done, n);
      StatesSettledStep(g, m, t, tab.State(), done, n);
      OneMoreAcceptState(g, m, done, n, nofAcceptStates);
      if accepts.value {
        nofAcceptStates := nofAcceptStates + 1;
      }
      todo := todo - {n};
      assert states.Keys - todo == done + {n};
    }
    assert states.Keys - todo == states.Keys;
    r := Ok(nofAcceptStates);
  }

  lemma {:induction false} EmptyTable(g: Productions, m: Merge, t: TableState, gotos: Gotos)
    requires t == TableState(map[], map[], [], 0) && gotos == map[]
    ensures TableInvariant(g, m, t, gotos, {}, {}) && StatesCovered(g, m, t, gotos, {})
  {
    EmptyJustified(g, m);
  }

  // ---------------------------------------------------------------- what the filled tables hold

  /** All entries of the filled tables, and all reports, are as the items of the states say. */
  lemma {:induction false} FilledExactly(g: Productions, m: Merge, t: TableState, gotos: Gotos)
    requires StatesSettled(g, m, t, m.states.Keys)
    ensures EntriesResolved(g, m, Tables(t.actions, gotos)) && ReportsExact(g, m, t.warnings, t.solved)
  {
    var tb := Tables(t.actions, gotos);
    forall n: nat, a: nat | n in m.states ensures ResolvedAt(g, m, tb, n, a) {
      assert Standing(g, m, t, n, GetReduceFollow(g, m.states[n]));
      AcceptFollow(g, m.states[n]);
      assert Settled(g, m, n, a, GetReduceFollow(g, m.states[n]), CellAt(t, (n, a)));
    }
    forall w: Warning ensures w in t.warnings <==> SomeReports(g, m, m.states.Keys, Warned(w)) {
      assert Reported(t, Warned(w)) <==> SomeReports(g, m, m.states.Keys, Warned(w));
    }
    assert Reported(t, Decided) <==> SomeReports(g, m, m.states.Keys, Decided);
  }

  // ---------------------------------------------------------------- when the tables are clean

  lemma {:induction false} CalledIsCovered(g: Productions, nofTerminals: nat, m: Merge, t: TableState, gotos: Gotos,
                                           n: nat, a: nat, act: Action)
    requires MergeOk(g, nofTerminals, m) && Clean(t) && n in m.states && StateCovered(g, m, t, gotos, n)
        && CallsFor(g, m, n, a, act)
    ensures (n, a) in t.actions && t.actions[(n, a)] == act
  {
    if k: nat :| ShiftsTo(g, m, n, a, k) && act == Shift(k) {
      assert ShiftCovered(g, m, t, gotos, n, T(a));
      var j :| GotoNumber(g, m, n, T(a), j) && Covered(t, (n, a), Shift(j));
      GotosMeet(g, nofTerminals, m, n, T(a), j, k);
    } else {
      var p: nat :| ReducesBy(g, m, n, a, p) && act == ProductionAction(g, p);
      assert ReductionCovered(g, m, t, n, p, a);
    }
  }

  /** The filled tables are clean if and only if no terminal calls for two actions in a state and the definitions
      agree. */
  lemma {:induction false} CleanExactly(g: Productions, nofTerminals: nat, m: Merge, t: TableState, gotos: Gotos)
    requires MergeOk(g, nofTerminals, m)
    requires TableInvariant(g, m, t, gotos, m.states.Keys, {}) && StatesCovered(g, m, t, gotos, m.states.Keys)
    ensures Clean(t) <==> ConflictFree(g, m)
  {
    if ConflictFree(g, m) { JustifiedClean(g, m, t); }
    if Clean(t) {
      forall n: nat, a: nat | n in m.states ensures OneAction(g, m, n, a) {
        assert StateCovered(g, m, t, gotos, n);
        forall x, y | CallsFor(g, m, n, a, x) && CallsFor(g, m, n, a, y) ensures x == y {
          CalledIsCovered(g, nofTerminals, m, t, gotos, n, a, x);
          CalledIsCovered(g, nofTerminals, m, t, gotos, n, a, y);
        }
      }
      forall n | n in m.states ensures DefinitionsAgree(g, m.states[n]) {
        assert StateCovered(g, m, t, gotos, n);
      }
    }
  }

  // ---------------------------------------------------------------- the accept entry

  ghost predicate HasAccept(tb: Tables) {
    exists k :: k in tb.actions && tb.actions[k].Accept?
  }

  lemma {:induction false} AcceptEntryKept(g: Productions, m: Merge, tb: Tables, n: nat)
    requires |g| > 0 && n in m.states && IsAcceptState(g, m.states[n]) && ResolvedAt(g, m, tb, n, 0)
    ensures (n, 0) in tb.actions
    ensures tb.actions[(n, 0)].Accept? <==> NoneDisplaces(g, m, m.states[n], GetReduceFollow(g, m.states[n]))
  {
    var s, fs := m.states[n], GetReduceFollow(g, m.states[n]);
    var c :| Settled(g, m, n, 0, fs, c) && TableHas(tb, (n, 0), c);
    var h :| Holder(g, m, n, 0, h) && EntryAfter(g, m, s, 0, h, fs, c);
    forall f | f in fs ensures Displaces(g, m, s, f) <==> exists p {:trigger Takes(g, m, s, 0, h, f, p)} ::
        Takes(g, m, s, 0, h, f, p)
    {
      if Displaces(g, m, s, f) {
        var p :| p > 0 && ReductionOf(g, s, f, p) && Beats(g[p].priority, g[0].priority);
        assert Takes(g, m, s, 0, h, f, p);
      }
    }
  }

  /** There is an accept entry in the filled tables if and only if no reduction displaces it in some accept state. */
  lemma {:induction false} AcceptExactly(g: Productions, nofTerminals: nat, m: Merge, tb: Tables)
    requires MergeOk(g, nofTerminals, m) && SoundTables(g, tb, CoresMap(m)) && EntriesResolved(g, m, tb)
    ensures HasAccept(tb) <==> AcceptKept(g, m)
  {
    if AcceptKept(g, m) {
      var n :| n in m.states && IsAcceptState(g, m.states[n])
          && NoneDisplaces(g, m, m.states[n], GetReduceFollow(g, m.states[n]));
      assert ResolvedAt(g, m, tb, n, 0);
      AcceptEntryKept(g, m, tb, n);
    }
    if HasAccept(tb) {
      var k :| k in tb.actions && tb.actions[k].Accept?;
      var (n, a) := k;
      assert SoundAction(g, CoresMap(m), n, a, tb.actions[(n, a)]);
      var i :| i in m.states[n] && CoreOf(i) == Core(0, |g[0].right|);
      StartItemFollow(g, nofTerminals, m, n, i.follow);
      assert ResolvedAt(g, m, tb, n, 0);
      AcceptEntryKept(g, m, tb, n);
    }
  }

  /** Without an accept entry the driver accepts nothing. */
  lemma {:induction false} NothingAccepted(tb: Tables, keywords: set<int>, cfg: Config, rest: seq<Lexem>, eof: Lexem,
                                           fuel: nat, log: seq<Action>)
    requires !HasAccept(tb) && cfg.stack != []
    ensures !Run(tb, keywords, cfg, rest, eof, fuel, log).Finished?
    decreases fuel
  {
    if fuel > 0 && (rest == [] || rest[0].id > 0) {
      var lexem := if rest == [] then eof else rest[0];
      NotAccepted(tb, keywords, cfg, lexem);
      var r, log' := Feed(tb, keywords, cfg, lexem), log + ReductionTaken(tb, cfg, lexem);
      if r.Again? {
        NothingAccepted(tb, keywords, r.cfg, rest, eof, fuel - 1, log');
      } else if r.Consumed? && rest != [] {
        NothingAccepted(tb, keywords, r.cfg, rest[1..], eof, fuel - 1, log');
      }
    }
  }

  lemma {:induction false} NotAccepted(tb: Tables, keywords: set<int>, cfg: Config, lexem: Lexem)
    requires !HasAccept(tb) && cfg.stack != []
    ensures var r := Feed(tb, keywords, cfg, lexem); !r.Accepted? && (r.Again? || r.Consumed? ==> r.cfg.stack != [])
  {
    var key := (Top(cfg), lexem.id);
    assert key in tb.actions ==> !tb.actions[key].Accept?;
  }

  // ---------------------------------------------------------------- the tables are sound and complete

  lemma {:induction false} FilledTablesAreSound(g: Productions, nofTerminals: nat, m: Merge, t: TableState,
                                                gotos: Gotos)
    requires MergeOk(g, nofTerminals, m)
    requires TableInvariant(g, m, t, gotos, m.states.Keys, {}) && StatesCovered(g, m, t, gotos, m.states.Keys)
    ensures SoundTables(g, Tables(t.actions, gotos), CoresMap(m))
  {
    var cores: map<nat, set<Core>>, tb := CoresMap(m), Tables(t.actions, gotos);
    StatesTotal(g, nofTerminals, m, 0);
    StateCores(g, nofTerminals, m, 1);
    KernelOfStart(g, nofTerminals, m);
    NoKernelNoDots(cores[1]);
    forall s, p | s in cores && Core(p, 0) in cores[s] ensures Expected(g, cores, s, p) {
      FrontExpected(g, nofTerminals, m, s, p);
    }
    forall s, c, n: nat | s in cores && c in cores[s] && DotBefore(g, c, N(n)) ensures (s, n) in gotos {
      GotoPresent(g, m, t, gotos, s, c, n);
    }
    forall s, a | (s, a) in tb.actions ensures SoundAction(g, cores, s, a, tb.actions[(s, a)]) {
      var k := (s, a);
      assert SoundAction(g, CoresMap(m), k.0, k.1, t.actions[k]);
    }
    forall s, n | (s, n) in gotos ensures Transition(g, cores, s, N(n), gotos[(s, n)]) {
      var k := (s, n);
      assert GotoNumber(g, m, k.0, N(k.1), gotos[k]);
      TransitionOfGoto(g, nofTerminals, m, s, N(n), gotos[(s, n)]);
    }
  }

  lemma {:induction false} NoKernelNoDots(cs: set<Core>)
    requires KernelOf(cs) == {}
    ensures forall c | c in cs :: c.pos == 0
  {
    assert forall c | c in cs && c.pos > 0 :: c in KernelOf(cs);
  }

  lemma {:induction false} GotoPresent(g: Productions, m: Merge, t: TableState, gotos: Gotos, s: nat, c: Core, n: nat)
    requires s in m.states && c in CoresOf(m.states[s]) && DotBefore(g, c, N(n))
        && StatesCovered(g, m, t, gotos, m.states.Keys)
    ensures (s, n) in gotos
  {
    assert StateCovered(g, m, t, gotos, s);
    var i :| i in m.states[s] && CoreOf(i) == c;
    assert N(n) in GotoSymbols(g, m.states[s]);
    assert ShiftCovered(g, m, t, gotos, s, N(n));
  }

  lemma {:induction false} SuccessorIsGoto(g: Productions, m: Merge, t: TableState, gotos: Gotos, n: nat, c: Core,
                                           x: Symbol) returns (k: nat)
    requires Clean(t) && TableInvariant(g, m, t, gotos, m.states.Keys, {})
        && StatesCovered(g, m, t, gotos, m.states.Keys)
    requires n in m.states && c in CoresOf(m.states[n]) && DotBefore(g, c, x)
    ensures Successor(Tables(t.actions, gotos), n, x) == k && GotoNumber(g, m, n, x, k)
  {
    assert StateCovered(g, m, t, gotos, n);
    var i :| i in m.states[n] && CoreOf(i) == c;
    assert x in GotoSymbols(g, m.states[n]);
    assert ShiftCovered(g, m, t, gotos, n, x);
    match x
    case T(a) =>
      k :| GotoNumber(g, m, n, x, k) && Covered(t, (n, a), Shift(k));
    case N(nt) =>
      var key := (n, nt);
      k := gotos[key];
      assert GotoNumber(g, m, key.0, N(key.1), gotos[key]);
  }

  lemma {:induction false} FilledTablesAreComplete(g: Productions, nofTerminals: nat, m: Merge, t: TableState,
                                                   gotos: Gotos)
    requires MergeOk(g, nofTerminals, m) && Clean(t)
    requires TableInvariant(g, m, t, gotos, m.states.Keys, {}) && StatesCovered(g, m, t, gotos, m.states.Keys)
    ensures CompleteTables(g, Tables(t.actions, gotos), LooksMap(m))
  {
    var la, tb := LooksMap(m), Tables(t.actions, gotos);
    MergedStart(g, nofTerminals, m);
    HasItemIsLook(m, 1, Core(0, 0), 0);
    forall s, c | s in la && c in la[s] ensures InRange(g, c) { CoresKnown(g, nofTerminals, m, s); }
    forall s: nat, c, a: nat ensures GotoFollows(g, tb, la, s, c, a) {
      GotoFollowsHolds(g, nofTerminals, m, t, gotos, s, c, a);
    }
    forall s: nat, c, a: nat, q: nat, ts, b: nat ensures ClosureFollows(g, la, s, c, a, q, ts, b) {
      ClosureFollowsHolds(g, nofTerminals, m, s, c, a, q, ts, b);
    }
    forall s: nat, c, a: nat ensures ReduceFollows(g, tb, la, s, c, a) { ReduceFollowsHolds(g, m, t, gotos, s, c, a); }
  }

  lemma {:induction false} GotoFollowsHolds(g: Productions, nofTerminals: nat, m: Merge, t: TableState, gotos: Gotos,
                                            s: nat, c: Core, a: nat)
    requires MergeOk(g, nofTerminals, m) && Clean(t)
    requires TableInvariant(g, m, t, gotos, m.states.Keys, {}) && StatesCovered(g, m, t, gotos, m.states.Keys)
    ensures GotoFollows(g, Tables(t.actions, gotos), LooksMap(m), s, c, a)
  {
    if HasItem(LooksMap(m), s, c, a) && c.prod < |g| && c.pos < |g[c.prod].right| {
      var x := g[c.prod].right[c.pos];
      HasItemIsLook(m, s, c, a);
      var k := SuccessorIsGoto(g, m, t, gotos, s, c, x);
      MergedGoto(g, nofTerminals, m, s, x, k, c, a);
      HasItemIsLook(m, k, Advance(c), a);
    }
  }

  lemma {:induction false} ReduceFollowsHolds(g: Productions, m: Merge, t: TableState, gotos: Gotos, s: nat, c: Core,
                                              a: nat)
    requires Clean(t) && StatesCovered(g, m, t, gotos, m.states.Keys)
    ensures ReduceFollows(g, Tables(t.actions, gotos), LooksMap(m), s, c, a)
  {
    if HasItem(LooksMap(m), s, c, a) && c.prod < |g| && c.pos == |g[c.prod].right| {
      HasItemIsLook(m, s, c, a);
      assert StateCovered(g, m, t, gotos, s);
      assert ReductionCovered(g, m, t, s, c.prod, a);
    }
  }

  // ---------------------------------------------------------------- what the driver does on built tables

  /** Every accepted run has read a string derivable from the start production, and its reductions are the
      post-order of a parse tree of it, that is a rightmost derivation read backwards. */
  ghost predicate AcceptsOnlyDerivable(g: Productions, tb: Tables) {
    forall keywords, lexems, eof, fuel: nat {:trigger Run(tb, keywords, INITIAL, lexems, eof, fuel, [])} ::
      var r := Run(tb, keywords, INITIAL, lexems, eof, fuel, []);
      r.Finished? ==> Positive(lexems) && exists t :: ParseOf(g, t, Ids(lexems), r.log)
  }

  /** Every accepted run delivers the translation of such a parse tree as its AST. */
  ghost predicate DeliversTranslations(g: Productions, tb: Tables) {
    forall keywords, lexems, eof, fuel: nat {:trigger Run(tb, keywords, INITIAL, lexems, eof, fuel, [])} ::
      var r := Run(tb, keywords, INITIAL, lexems, eof, fuel, []);
      r.Finished? ==> Delivers(g, keywords, lexems, r.log, r.nodes, r.scopestep)
  }

  lemma {:induction false} SoundTablesDeliverTranslations(g: Productions, tb: Tables, cores: map<nat, set<Core>>)
    requires SoundTables(g, tb, cores)
    ensures DeliversTranslations(g, tb)
  {
    forall keywords, lexems, eof, fuel: nat | Run(tb, keywords, INITIAL, lexems, eof, fuel, []).Finished?
      ensures var r := Run(tb, keywords, INITIAL, lexems, eof, fuel, []);
              Delivers(g, keywords, lexems, r.log, r.nodes, r.scopestep)
    {
      FinishedRunIsTranslated(g, tb, cores, keywords, lexems, eof, fuel);
    }
  }

  /** Every derivable string of lexems is accepted in finitely many steps, with its reductions in post-order. */
  ghost predicate AcceptsAllDerivable(g: Productions, tb: Tables) {
    |g| > 0 &&
    forall keywords, lexems, eof: Lexem, kids {:trigger AcceptedWith(g, tb, keywords, lexems, eof, kids)} |
      eof.id == 0 && Positive(lexems) && Valid(g, Node(0, kids)) && FrontierAll(kids) == Ids(lexems) ::
      AcceptedWith(g, tb, keywords, lexems, eof, kids)
  }

  ghost predicate AcceptedWith(g: Productions, tb: Tables, keywords: set<int>, lexems: seq<Lexem>, eof: Lexem,
                               kids: seq<Tree>) {
    && (forall p | p in PostOrder(Node(0, kids)) :: p < |g|)
    && exists fuel: nat ::
         var r := Run(tb, keywords, INITIAL, lexems, eof, fuel, []);
         r.Finished? && r.log == ProductionActions(g, PostOrder(Node(0, kids)))
  }

  /** The only failures of a run are an unexpected token and a bad character. */
  ghost predicate FailsOnlyOnInput(g: Productions, tb: Tables) {
    forall keywords, lexems, eof: Lexem, fuel: nat {:trigger Run(tb, keywords, INITIAL, lexems, eof, fuel, [])} | eof.id
        == 0 ::
      var r := Run(tb, keywords, INITIAL, lexems, eof, fuel, []);
      && FailsOnInput(r)
      && (Positive(lexems) ==> r != Rejected(BadCharacterInGrammarDef))
  }

  lemma {:induction false} SoundTablesAcceptOnlyDerivable(g: Productions, tb: Tables, cores: map<nat, set<Core>>)
    requires SoundTables(g, tb, cores)
    ensures AcceptsOnlyDerivable(g, tb) && FailsOnlyOnInput(g, tb)
  {
    InitialCarries(g, tb, cores);
    forall keywords, lexems, eof, fuel: nat | Run(tb, keywords, INITIAL, lexems, eof, fuel, []).Finished?
      ensures Positive(lexems) && exists t ::
          ParseOf(g, t, Ids(lexems), Run(tb, keywords, INITIAL, lexems, eof, fuel, []).log)
    {
      var t := AcceptedIsDerivable(g, tb, cores, keywords, INITIAL, lexems, eof, fuel, [], [], []);
      assert Look(0);
      assert [] + Ids(lexems) == Ids(lexems);
    }
    forall keywords, lexems, eof: Lexem, fuel: nat | eof.id == 0
      ensures var r := Run(tb, keywords, INITIAL, lexems, eof, fuel, []);
              && FailsOnInput(r)
              && (Positive(lexems) ==> r != Rejected(BadCharacterInGrammarDef))
    {
      RunFailsOnlyOnInput(g, tb, cores, keywords, INITIAL, lexems, eof, fuel, [], [], []);
      if Positive(lexems) { NoBadCharacter(tb, keywords, INITIAL, lexems, eof, fuel, []); }
    }
  }

  lemma {:induction false} CompleteTablesAcceptAllDerivable(g: Productions, nofTerminals: nat, tb: Tables,
        la: Lookaheads)
    requires WellFormed(g, nofTerminals) && CompleteTables(g, tb, la)
    ensures AcceptsAllDerivable(g, tb)
  {
    forall keywords, lexems, eof: Lexem, kids | eof.id == 0 && Positive(lexems) && Valid(g, Node(0, kids))
        && FrontierAll(kids) == Ids(lexems)
      ensures AcceptedWith(g, tb, keywords, lexems, eof, kids)
    {
      var fuel := DerivableIsAccepted(g, nofTerminals, tb, la, keywords, eof, kids, lexems);
    }
  }

  // ---------------------------------------------------------------- Automaton::build

  /** The result of a build: the tables, what was warned about, and how many conflicts priorities decided. */
  datatype Automaton = Automaton(tables: Tables, warnings: seq<Warning>, solved: nat)

  predicate ProductionFits(p: Production) {
    |p.right| < MAX_PRODUCTION_LENGTH && 0 <= p.priority.value < MAX_PRIORITY
  }

  /** Production i is the first one outside the boundaries. */
  predicate FirstMisfit(g: Productions, i: nat) {
    i < |g| && !ProductionFits(g[i]) && forall j :: 0 <= j < i ==> ProductionFits(g[j])
  }

  /** [2] The complexity boundaries. */
  function CheckComplexity(g: Productions, nofTerminals: nat): (r: Result<()>)
    ensures r.Ok? <==> |g| < 512 && nofTerminals < 1024 && forall p | p in g ::
                       |p.right| < 16 && 0 <= p.priority.value < 32
    ensures |g| >= 512 ==> r == Err(ComplexityMaxStateInGrammarDef)
    ensures |g| < 512 && nofTerminals >= 1024 ==> r == Err(ComplexityMaxTerminalInGrammarDef)
    ensures forall i: nat | FirstMisfit(g, i) && |g| < 512 && nofTerminals < 1024 ::
        r == Err(if |g[i].right| >= 16 then ComplexityMaxProductionLengthInGrammarDef else
            ComplexityMaxProductionPriorityInGrammarDef)
    ensures r.Err? ==> r.error != BuildError.LogicError && r.error != NoAcceptStatesInGrammarDef
  {
    if |g| >= MAX_NOF_PRODUCTIONS then Err(ComplexityMaxStateInGrammarDef)
    else if nofTerminals >= MAX_TERMINAL then Err(ComplexityMaxTerminalInGrammarDef)
    else CheckProductions(g)
  }

  function CheckProductions(g: Productions): (r: Result<()>)
    ensures r.Ok? <==> forall p | p in g :: ProductionFits(p)
    ensures forall i: nat | FirstMisfit(g, i) :: r == Err(if |g[i].right| >= 16 then
        ComplexityMaxProductionLengthInGrammarDef else ComplexityMaxProductionPriorityInGrammarDef)
    ensures r.Err? ==> r.error != BuildError.LogicError && r.error != NoAcceptStatesInGrammarDef
  {
    if g == [] then Ok(())
    else
      assert g == [g[0]] + g[1..] && g[0] in g;
      if |g[0].right| >= MAX_PRODUCTION_LENGTH then Err(ComplexityMaxProductionLengthInGrammarDef)
      else if g[0].priority.value < 0 || g[0].priority.value >= MAX_PRIORITY then
           Err(ComplexityMaxProductionPriorityInGrammarDef)
      else
        assert forall i: nat | FirstMisfit(g, i) :: i > 0 && FirstMisfit(g[1..], i - 1);
        CheckProductions(g[1..])
  }

  /** [3] FIRST sets, state enumeration and merging. */
  method BuildStates(g: Productions, nofTerminals: nat) returns (r: Result<(FollowMap, StateMap, nat)>, ghost m: Merge)
    requires WellFormed(g, nofTerminals)
    ensures r.Ok? ==> fresh(r.value.0) && fresh(r.value.0.sets) && r.value.0.Valid()
    ensures r.Ok? ==> MergeOk(g, nofTerminals, m) && m.states == r.value.1 && m.inv == r.value.0.sets.inv
    ensures r.Ok? ==> HandlesOf(g, nofTerminals, m) && r.value.2 == |m.a0.states|
    ensures r.Err? ==> r.error == ComplexityLR1FollowSetsInGrammarDef
  {
    var nullable := GetNullableNonterminalSet(g);
    var first := GetNonTerminalFirstSetMap(g, nofTerminals, nullable);
    var fm := new FollowMap(g, nofTerminals, first.value, nullable);
    m := Merge([], fm.nodes, Assignments(map[], []), Assignments(map[], []), [], map[]);
    var a0 := GetAutomatonStateAssignments(false, fm, g);
    if a0.Err? {
      return Err(a0.error), m;
    }
    ghost var inv := fm.sets.inv;
    var a1 := GetAutomatonStateAssignments(true, fm, g);
    if a1.Err? {
      return Err(a1.error), m;
    }
    ghost var inv0 := fm.sets.inv;
    EnumerationStays(g, nofTerminals, inv, inv0, fm.nodes, a0.value.states);
    var states := CalculateLalr1StateMap(fm, g, a0.value, a1.value);
    if states.Err? {
      return Err(states.error), m;
    }
    m := Merge(inv0, fm.nodes, a0.value, a1.value, fm.sets.inv, states.value);
    HandlesKnownOf(g, nofTerminals, m);
    NumberingSize(a0.value.numbers, a0.value.states);
    r := Ok((fm, states.value, |a0.value.numbers|));
  }

  lemma {:induction false} HandlesKnownOf(g: Productions, nofTerminals: nat, m: Merge)
    requires InOrder(g, nofTerminals, m.nodes) && NodesOk(g, nofTerminals, m.inv0, m.nodes)
    requires |m.inv| <= |NodeSets(g, nofTerminals)| || |m.inv| <= MAX_TERMINAL - 1
    requires MapState(m.inv0, m.a0.numbers, m.a1.numbers.Keys, m.inv, m.states)
    ensures HandlesOf(g, nofTerminals, m) && MapMerged(m.inv0, m.a0.numbers, m.a1.numbers.Keys, m.inv, m.states)
  {
    assert Look(0);
    if Overflowing(g, m.nodes) { OverflowingIsFull(g, nofTerminals, m.inv0, m.nodes); }
  }

  lemma {:induction false} EnumerationStays(g: Productions, nofTerminals: nat, inv: seq<set<nat>>, inv': seq<set<nat>>,
                                            nodes: NodeMap, list: seq<set<Item>>)
    requires inv <= inv' && NodesOk(g, nofTerminals, inv, nodes) && |inv| > 0 && |g| > 0
        && Enumerated(false, g, inv, nodes, list)
    ensures Enumerated(false, g, inv', nodes, list)
  {
    DiscoveredStays(false, g, nofTerminals, inv, inv', nodes, list);
    ExpandedStays(false, g, nofTerminals, inv, inv', nodes, list, list, |list|);
  }

  /** [4] Build the tables. Neither a logic error nor a missing accept state ever occurs. For any grammar and any
      conflict resolution the driver accepts only derivable strings and delivers the translation of a parse tree;
      without warnings and without conflicts solved by priority, that is if and only if the states are free of
      conflicts, it accepts all of them. Every entry is what the items of its state and the priorities make of it, and
      exactly what they give rise to is reported. There is an accept entry if and only if no reduction displaces it.
      The items of the states, which are kept unpacked here, fit their packed form if and only if FollowSetsFit. */
  method Build(g: Productions, nofTerminals: nat) returns (r: Result<Automaton>, ghost m: Merge)
    requires WellFormed(g, nofTerminals)
    ensures r.Err? ==> r.error != BuildError.LogicError && r.error != NoAcceptStatesInGrammarDef
    ensures CheckComplexity(g, nofTerminals).Err? ==> r == Err(CheckComplexity(g, nofTerminals).error)
    ensures CheckComplexity(g, nofTerminals).Ok? && r.Err? && r.error != ComplexityLR1FollowSetsInGrammarDef ==>
              r == Err(ComplexityMaxStateInGrammarDef) && MergeOk(g, nofTerminals, m) && |m.a0.states| >= 4096
    ensures r.Ok? ==> |m.a0.states| < 4096
    ensures r.Ok? ==> AcceptsOnlyDerivable(g, r.value.tables) && FailsOnlyOnInput(g, r.value.tables)
    ensures r.Ok? ==> DeliversTranslations(g, r.value.tables)
    ensures r.Ok? && r.value.warnings == [] && r.value.solved == 0 ==> AcceptsAllDerivable(g, r.value.tables)
    ensures r.Ok? ==> MergeOk(g, nofTerminals, m) && HandlesOf(g, nofTerminals, m)
                      && SoundTables(g, r.value.tables, CoresMap(m))
    ensures r.Ok? ==> (r.value.warnings == [] && r.value.solved == 0 <==> ConflictFree(g, m))
    ensures r.Ok? ==> EntriesResolved(g, m, r.value.tables) && ReportsExact(g, m, r.value.warnings, r.value.solved)
    ensures r.Ok? ==> PrioritiesDecide(g, m, r.value.tables, r.value.warnings, r.value.solved)
    ensures r.Ok? ==> (HasAccept(r.value.tables) <==> AcceptKept(g, m))
    ensures r.Ok? ==> (Packable(m) <==> FollowSetsFit(g, nofTerminals))
  {
    m := Merge([], map[], Assignments(map[], []), Assignments(map[], []), [], map[]);
    var complexity := CheckComplexity(g, nofTerminals);
    if complexity.Err? {
      return Err(complexity.error), m;
    }
    var built;
    built, m := BuildStates(g, nofTerminals);
    if built.Err? {
      return Err(built.error), m;
    }
    PackableExactly(g, nofTerminals, m);
    var (fm, states, nofStates) := built.value;
    var gm := CalculateLalr1TransitionItemGotoMap(g, nofTerminals, m, states);
    if nofStates >= MAX_STATE {
      return Err(ComplexityMaxStateInGrammarDef), m;
    }
    var tab := new ActionTable();
    ghost var accept := LookaheadBounds.AcceptStateExists(g, nofTerminals, m);
    assert IsAcceptState(g, states[accept]);
    var accepting := FillTables(tab, fm, g, nofTerminals, m, gm.value, states);
    CountedAccept(g, m, accept, accepting.value);
    if accepting.value == 0 {
      return Err(NoAcceptStatesInGrammarDef), m;
    }
    var tb := Tables(tab.actions, tab.gotos);
    FilledTablesAreSound(g, nofTerminals, m, tab.State(), tab.gotos);
    CleanExactly(g, nofTerminals, m, tab.State(), tab.gotos);
    FilledExactly(g, m, tab.State(), tab.gotos);
    AcceptExactly(g, nofTerminals, m, tb);
    ShiftsAreDecided(g, nofTerminals, m, tb, tab.warnings, tab.solved);
    SoundTablesAcceptOnlyDerivable(g, tb, CoresMap(m));
    SoundTablesDeliverTranslations(g, tb, CoresMap(m));
    if tab.warnings == [] && tab.solved == 0 {
      FilledTablesAreComplete(g, nofTerminals, m, tab.State(), tab.gotos);
      CompleteTablesAcceptAllDerivable(g, nofTerminals, tb, LooksMap(m));
    }
    r := Ok(Automaton(tb, tab.warnings, tab.solved));
  }
}
