/** What an entry of the action table holds when acceptance, a shift and reductions compete for it, and what is
    reported on the way. */
module Entries {
  import opened Guards
  import opened Grammar
  import opened Tables
  import opened Items
  import opened States
  import opened Lalr
  import opened LalrProperties
  import opened ActionTables
  import opened StateActions
  import opened Conflicts
  import opened Sets

  // ---------------------------------------------------------------- one entry of a table

  /** An entry: none, an accept entry that waits for its priority, or an action with its priority. */
  datatype Cell = Empty | Waits(action: Action) | Holds(action: Action, priority: Priority)

  function CellAt(t: TableState, key: Key): Cell {
    if key !in t.actions then Empty
    else if key !in t.priorities then Waits(t.actions[key])
    else Holds(t.actions[key], t.priorities[key])
  }

  /** What the builder reports: a warning, or a conflict decided by priority. */
  datatype Report = Warned(warning: Warning) | Decided

  predicate Reported(t: TableState, r: Report) {
    match r
    case Warned(w) => w in t.warnings
    case Decided => t.solved > 0
  }

  /** Only entries of state n differ. */
  ghost predicate OnlyIn(n: nat, a: TableState, b: TableState) {
    forall key: Key {:trigger CellAt(b, key)} | key.0 != n :: CellAt(a, key) == CellAt(b, key)
  }

  lemma {:induction false} OnlyInTrans(n: nat, a: TableState, b: TableState, c: TableState)
    requires OnlyIn(n, a, b) && OnlyIn(n, b, c)
    ensures OnlyIn(n, a, c)
  {
    forall key: Key | key.0 != n ensures CellAt(a, key) == CellAt(c, key) { assert CellAt(a, key) == CellAt(b, key); }
  }

  lemma {:induction false} InsertElsewhere(t: TableState, key: Key, action: Action, priority: Priority)
    ensures forall k: Key {:trigger CellAt(Inserted(t, key, action, priority), k)} | k != key ::
        CellAt(t, k) == CellAt(Inserted(t, key, action, priority), k)
  {
  }

  lemma {:induction false} NewEntry(t: TableState, key: Key, action: Action, priority: Priority)
    requires CellAt(t, key) == Empty
    ensures var t' := Inserted(t, key, action, priority);
            CellAt(t', key) == Holds(action, priority) && forall r :: Reported(t', r) <==> Reported(t, r)
  {
  }

  /** An entry after a reduction by production d was entered. */
  function AfterReduction(c: Cell, d: Production): Cell {
    var act := Reduce(d.left, d.scope, d.callidx, |d.right|);
    match c
    case Empty => Holds(act, d.priority)
    case Waits(a) => Holds(a, d.priority)
    case Holds(a, given) => if !a.Reduce? && Beats(d.priority, given) then Holds(act, d.priority) else c
  }

  /** What entering a reduction by production d reports. */
  predicate Reports(c: Cell, d: Production, r: Report) {
    && c.Holds?
    && match r
       case Decided => !c.action.Reduce? && Decide(c.priority, d.priority) != Undecided
       case Warned(w) =>
         if c.action.Reduce? then
           w == ReduceReduceConflictInGrammarDef && c.action != Reduce(d.left, d.scope, d.callidx, |d.right|)
         else w == ShiftReduceConflictInGrammarDef && Decide(c.priority, d.priority) == Undecided
  }

  lemma {:induction false} ReductionEntered(t: TableState, key: Key, d: Production)
    ensures var t' := Inserted(t, key, Reduce(d.left, d.scope, d.callidx, |d.right|), d.priority);
            && CellAt(t', key) == AfterReduction(CellAt(t, key), d)
            && forall r :: Reported(t', r) <==> Reported(t, r) || Reports(CellAt(t, key), d, r)
  {
  }

  /** Replacing an entry means that the conflict is decided for the reduction. */
  lemma {:induction false} BeatsIsDecided(r: Priority, s: Priority)
    ensures Beats(r, s) <==> Decide(s, r) == ReduceWins
  {
  }

  // ---------------------------------------------------------------- what reductions meet

  /** The shift over a with the priority of the first item that shifts it. */
  ghost predicate HoldsShift(g: Productions, m: Merge, n: nat, a: nat, c: Cell) {
    exists k: nat, priority {:trigger ShiftOf(g, m, n, a, k, priority)} ::
      ShiftOf(g, m, n, a, k, priority) && c == Holds(Shift(k), priority)
  }

  ghost predicate ShiftOf(g: Productions, m: Merge, n: nat, a: nat, k: nat, priority: Priority) {
    ShiftsTo(g, m, n, a, k) && FirstPriority(g, m.states[n], T(a), priority)
  }

  /** What stands at an entry of state n apart from reductions. */
  ghost predicate Holder(g: Productions, m: Merge, n: nat, a: nat, c: Cell)
    requires |g| > 0 && n in m.states
  {
    if a == 0 && IsAcceptState(g, m.states[n]) then
      c == Holds(Accept(g[0].left, g[0].scope, g[0].callidx, |g[0].right|), g[0].priority)
    else if T(a) in GotoSymbols(g, m.states[n]) then HoldsShift(g, m, n, a, c)
    else c == Empty
  }

  lemma {:induction false} GotosMeet(g: Productions, nofTerminals: nat, m: Merge, n: nat, x: Symbol, j: nat, k: nat)
    requires MergeOk(g, nofTerminals, m) && n in m.states && GotoNumber(g, m, n, x, j) && GotoNumber(g, m, n, x, k)
    ensures j == k
  {
    GotosAgree(false, false, g, m.inv0, m.nodes, m.a0.states[n - 1], x, m.a0.states[j - 1], m.a0.states[n - 1],
        m.a0.states[k - 1]);
    KernelsDiffer(g, nofTerminals, m, j - 1, k - 1);
  }

  lemma {:induction false} FirstPriorityUnique(g: Productions, s: set<Item>, x: Symbol, a: Priority, b: Priority)
    requires FirstPriority(g, s, x, a) && FirstPriority(g, s, x, b)
    ensures a == b
  {
    var i :| IsFirstBefore(g, s, x, i) && a == g[i.prod].priority;
    var j :| IsFirstBefore(g, s, x, j) && b == g[j.prod].priority;
    assert i == j || (Less(i, j) && Less(j, i));
  }

  lemma {:induction false} ShiftUnique(g: Productions, nofTerminals: nat, m: Merge, n: nat, a: nat, c: Cell, c': Cell)
    requires MergeOk(g, nofTerminals, m) && n in m.states && HoldsShift(g, m, n, a, c) && HoldsShift(g, m, n, a, c')
    ensures c == c'
  {
    var k: nat, priority :| ShiftOf(g, m, n, a, k, priority) && c == Holds(Shift(k), priority);
    var k': nat, priority' :| ShiftOf(g, m, n, a, k', priority') && c' == Holds(Shift(k'), priority');
    GotosMeet(g, nofTerminals, m, n, T(a), k, k');
    FirstPriorityUnique(g, m.states[n], T(a), priority, priority');
  }

  lemma {:induction false} HolderUnique(g: Productions, nofTerminals: nat, m: Merge, n: nat, a: nat, c: Cell, c': Cell)
    requires MergeOk(g, nofTerminals, m) && n in m.states && Holder(g, m, n, a, c) && Holder(g, m, n, a, c')
    ensures c == c'
  {
    if !(a == 0 && IsAcceptState(g, m.states[n])) && T(a) in GotoSymbols(g, m.states[n]) {
      ShiftUnique(g, nofTerminals, m, n, a, c, c');
    }
  }

  lemma {:induction false} HolderIsNoReduction(g: Productions, m: Merge, n: nat, a: nat, c: Cell)
    requires |g| > 0 && n in m.states && Holder(g, m, n, a, c)
    ensures !c.Waits? && (c.Holds? ==> !c.action.Reduce?)
  {
  }

  // ---------------------------------------------------------------- the reductions of some follow handles

  /** The reduction by production p is the one chosen for the handle f, and a is one of its terminals. */
  ghost predicate Competes(g: Productions, m: Merge, s: set<Item>, a: nat, f: nat, p: nat) {
    0 < p < |g| && f < |m.inv| && a in m.inv[f] && ReductionOf(g, s, f, p)
  }

  /** It does not leave the entry to what stands there. */
  ghost predicate Takes(g: Productions, m: Merge, s: set<Item>, a: nat, h: Cell, f: nat, p: nat) {
    Competes(g, m, s, a, f, p) && (h.Empty? || (h.Holds? && Beats(g[p].priority, h.priority)))
  }

  ghost predicate FirstTaking(g: Productions, m: Merge, s: set<Item>, a: nat, h: Cell, fs: set<nat>, f: nat, p: nat) {
    && f in fs && Takes(g, m, s, a, h, f, p)
    && forall e, q {:trigger Takes(g, m, s, a, h, e, q)} | e in fs && Takes(g, m, s, a, h, e, q) :: f <= e
  }

  ghost predicate NoneTaking(g: Productions, m: Merge, s: set<Item>, a: nat, h: Cell, fs: set<nat>) {
    forall f, p {:trigger Takes(g, m, s, a, h, f, p)} | f in fs :: !Takes(g, m, s, a, h, f, p)
  }

  /** What the reductions of the handles fs make of an entry with h: the first one to take it stays, if any does. */
  ghost predicate EntryAfter(g: Productions, m: Merge, s: set<Item>, a: nat, h: Cell, fs: set<nat>, c: Cell) {
    || (NoneTaking(g, m, s, a, h, fs) && c == h)
    || exists f, p: nat {:trigger FirstTaking(g, m, s, a, h, fs, f, p)} :: FirstTaking(g, m, s, a, h, fs, f, p)
         && c == Holds(Reduce(g[p].left, g[p].scope, g[p].callidx, |g[p].right|), g[p].priority)
  }

  lemma {:induction false} EntryAfterUnique(g: Productions, m: Merge, s: set<Item>, a: nat, h: Cell, fs: set<nat>,
                                            c: Cell, c': Cell)
    requires EntryAfter(g, m, s, a, h, fs, c) && EntryAfter(g, m, s, a, h, fs, c')
    ensures c == c'
  {
    if !NoneTaking(g, m, s, a, h, fs) {
      var f, p: nat :| FirstTaking(g, m, s, a, h, fs, f, p)
          && c == Holds(Reduce(g[p].left, g[p].scope, g[p].callidx, |g[p].right|), g[p].priority);
      var e, q: nat :| FirstTaking(g, m, s, a, h, fs, e, q)
          && c' == Holds(Reduce(g[q].left, g[q].scope, g[q].callidx, |g[q].right|), g[q].priority);
      assert f <= e <= f;
      ReductionUnique(g, s, f, p, q);
    }
  }

  /** One more handle, behind all others. */
  lemma {:induction false} EntryAfterStep(g: Productions, m: Merge, s: set<Item>, a: nat, h: Cell, fs: set<nat>, f: nat,
                                    p: nat, c: Cell)
    requires EntryAfter(g, m, s, a, h, fs, c) && (forall e | e in fs :: e < f) && !h.Waits?
        && (h.Holds? ==> !h.action.Reduce?)
    requires p < |g| && ReductionOf(g, s, f, p)
    ensures EntryAfter(g, m, s, a, h, fs + {f}, if Competes(g, m, s, a, f, p) then AfterReduction(c, g[p]) else c)
  {
    var more := fs + {f};
    if NoneTaking(g, m, s, a, h, fs) && c == h {
      OthersDoNot(g, m, s, a, h, f, p);
      if Takes(g, m, s, a, h, f, p) {
        assert FirstTaking(g, m, s, a, h, more, f, p);
      } else {
        assert NoneTaking(g, m, s, a, h, more);
      }
    } else {
      var e, q: nat :| FirstTaking(g, m, s, a, h, fs, e, q)
          && c == Holds(Reduce(g[q].left, g[q].scope, g[q].callidx, |g[q].right|), g[q].priority);
      assert FirstTaking(g, m, s, a, h, more, e, q);
    }
  }

  lemma {:induction false} OthersDoNot(g: Productions, m: Merge, s: set<Item>, a: nat, h: Cell, f: nat, p: nat)
    requires p < |g| && ReductionOf(g, s, f, p)
    ensures forall q {:trigger Takes(g, m, s, a, h, f, q)} | Takes(g, m, s, a, h, f, q) :: q == p
  {
    forall q | Takes(g, m, s, a, h, f, q) ensures q == p { ReductionUnique(g, s, f, p, q); }
  }

  // ---------------------------------------------------------------- all entries of a state

  /** The entry for terminal a in state n after the reductions of the handles fs. */
  ghost predicate Settled(g: Productions, m: Merge, n: nat, a: nat, fs: set<nat>, c: Cell)
    requires |g| > 0 && n in m.states
  {
    exists h {:trigger Holder(g, m, n, a, h)} :: Holder(g, m, n, a, h) && EntryAfter(g, m, m.states[n], a, h, fs, c)
  }

  lemma {:induction false} SettledUnique(g: Productions, nofTerminals: nat, m: Merge, n: nat, a: nat, fs: set<nat>,
                                         c: Cell, c': Cell)
    requires MergeOk(g, nofTerminals, m) && n in m.states && Settled(g, m, n, a, fs, c) && Settled(g, m, n, a, fs, c')
    ensures c == c'
  {
    var h :| Holder(g, m, n, a, h) && EntryAfter(g, m, m.states[n], a, h, fs, c);
    var h' :| Holder(g, m, n, a, h') && EntryAfter(g, m, m.states[n], a, h', fs, c');
    HolderUnique(g, nofTerminals, m, n, a, h, h');
    EntryAfterUnique(g, m, m.states[n], a, h, fs, c, c');
  }

  lemma {:induction false} SettledStep(g: Productions, m: Merge, n: nat, a: nat, fs: set<nat>, f: nat, p: nat, c: Cell)
    requires |g| > 0 && n in m.states && Settled(g, m, n, a, fs, c) && (forall e | e in fs :: e < f)
    requires p < |g| && ReductionOf(g, m.states[n], f, p)
    ensures Settled(g, m, n, a, fs + {f},
        if Competes(g, m, m.states[n], a, f, p) then AfterReduction(c, g[p]) else c)
  {
    var h :| Holder(g, m, n, a, h) && EntryAfter(g, m, m.states[n], a, h, fs, c);
    HolderIsNoReduction(g, m, n, a, h);
    EntryAfterStep(g, m, m.states[n], a, h, fs, f, p, c);
  }

  /** Before the first handle an accept entry waits for its priority. */
  ghost predicate Stands(g: Productions, m: Merge, n: nat, a: nat, fs: set<nat>, c: Cell)
    requires |g| > 0 && n in m.states
  {
    if a == 0 && fs == {} && IsAcceptState(g, m.states[n]) then
      c == Waits(Accept(g[0].left, g[0].scope, g[0].callidx, |g[0].right|))
    else Settled(g, m, n, a, fs, c)
  }

  ghost predicate Standing(g: Productions, m: Merge, t: TableState, n: nat, fs: set<nat>)
    requires |g| > 0 && n in m.states
  {
    forall a: nat {:trigger CellAt(t, (n, a))} :: Stands(g, m, n, a, fs, CellAt(t, (n, a)))
  }

  // ---------------------------------------------------------------- what is reported

  /** The handles of complete items below f. */
  ghost function Lower(g: Productions, s: set<Item>, f: nat): set<nat> {
    set e | e in GetReduceFollow(g, s) && e < f
  }

  /** Entering the reduction by p, chosen for the handle f, at terminal a reports r. */
  ghost predicate Contested(g: Productions, m: Merge, n: nat, a: nat, f: nat, p: nat, r: Report)
    requires |g| > 0 && n in m.states
  {
    Competes(g, m, m.states[n], a, f, p)
    && exists c {:trigger Settled(g, m, n, a, Lower(g, m.states[n], f), c)} ::
         Settled(g, m, n, a, Lower(g, m.states[n], f), c) && Reports(c, g[p], r)
  }

  /** Choosing the reduction for the handle f reports r. */
  ghost predicate ChoiceReports(g: Productions, s: set<Item>, f: nat, r: Report) {
    r.Warned? && exists p {:trigger ReductionOf(g, s, f, p)} ::
        ReductionOf(g, s, f, p) && DefinitionWarning(g, s, f, p, r.warning)
  }

  ghost predicate HandleReports(g: Productions, m: Merge, n: nat, f: nat, r: Report)
    requires |g| > 0 && n in m.states
  {
    || ChoiceReports(g, m.states[n], f, r)
    || exists a: nat, p: nat {:trigger Contested(g, m, n, a, f, p, r)} :: Contested(g, m, n, a, f, p, r)
  }

  ghost predicate HandlesReport(g: Productions, m: Merge, n: nat, fs: set<nat>, r: Report)
    requires |g| > 0 && n in m.states
  {
    exists f {:trigger HandleReports(g, m, n, f, r)} :: f in fs && HandleReports(g, m, n, f, r)
  }

  ghost predicate StateReports(g: Productions, m: Merge, n: nat, r: Report)
    requires |g| > 0 && n in m.states
  {
    || (r == Warned(PriorityConflictInGrammarDef) && PrioritiesDiffer(g, m.states[n]))
    || HandlesReport(g, m, n, GetReduceFollow(g, m.states[n]), r)
  }

  // ---------------------------------------------------------------- the built tables

  /** The tables hold what the cell says. */
  predicate TableHas(tb: Tables, key: Key, c: Cell) {
    match c
    case Empty => key !in tb.actions
    case Waits(_) => false
    case Holds(act, _) => key in tb.actions && tb.actions[key] == act
  }

  /** The entry for terminal a in state n is what acceptance, the shift and all reductions make of it. */
  ghost predicate ResolvedAt(g: Productions, m: Merge, tb: Tables, n: nat, a: nat)
    requires |g| > 0 && n in m.states
  {
    exists c {:trigger Settled(g, m, n, a, GetReduceFollow(g, m.states[n]), c)} ::
      Settled(g, m, n, a, GetReduceFollow(g, m.states[n]), c) && TableHas(tb, (n, a), c)
  }

  ghost predicate EntriesResolved(g: Productions, m: Merge, tb: Tables) {
    |g| > 0 && forall n: nat, a: nat {:trigger ResolvedAt(g, m, tb, n, a)} | n in m.states :: ResolvedAt(g, m, tb, n, a)
  }

  /** Some of these states reports r. */
  ghost predicate SomeReports(g: Productions, m: Merge, ns: set<nat>, r: Report)
    requires |g| > 0 && ns <= m.states.Keys
  {
    exists n {:trigger StateReports(g, m, n, r)} :: n in ns && StateReports(g, m, n, r)
  }

  /** What was reported is what the items of the states say, kind by kind. */
  ghost predicate ReportsExact(g: Productions, m: Merge, warnings: seq<Warning>, solved: nat) {
    && |g| > 0
    && (forall w: Warning :: w in warnings <==> SomeReports(g, m, m.states.Keys, Warned(w)))
    && (solved > 0 <==> SomeReports(g, m, m.states.Keys, Decided))
  }

  // ---------------------------------------------------------------- a shift and a reduction

  lemma {:induction false} StartItemFollow(g: Productions, nofTerminals: nat, m: Merge, n: nat, f: nat)
    requires MergeOk(g, nofTerminals, m) && n in m.states
    ensures Item(0, |g[0].right|, f) in m.states[n] ==> f == 0 && IsAcceptState(g, m.states[n])
  {
    if Item(0, |g[0].right|, f) in m.states[n] {
      MergedStartFollow(g, nofTerminals, m, n, Item(0, |g[0].right|, f));
    }
  }

  /** No item shifts the end marker. */
  lemma {:induction false} EndNotShifted(g: Productions, nofTerminals: nat, m: Merge, n: nat)
    requires MergeOk(g, nofTerminals, m) && n in m.states
    ensures forall a: nat | T(a) in GotoSymbols(g, m.states[n]) :: a > 0
  {
    forall a: nat | T(a) in GotoSymbols(g, m.states[n]) ensures a > 0 {
      var i :| i in m.states[n] && i.prod < |g| && i.pos < |g[i.prod].right| && g[i.prod].right[i.pos] == T(a);
      assert SymbolOk(g, nofTerminals, g[i.prod].right[i.pos]);
    }
  }

  /** In state n the items call for one shift over a, to k with priority ps, and for one reduction, by p. */
  ghost predicate ShiftAgainst(g: Productions, m: Merge, n: nat, a: nat, k: nat, ps: Priority, p: nat) {
    && ShiftOf(g, m, n, a, k, ps) && ReducesBy(g, m, n, a, p)
    && forall q: nat | ReducesBy(g, m, n, a, q) :: q == p
  }

  /** Their priorities decide, or there is a warning and the shift stays. */
  ghost predicate DecidedAt(g: Productions, tb: Tables, warnings: seq<Warning>, solved: nat, key: Key, k: nat,
                            ps: Priority, p: nat)
    requires p < |g|
  {
    && key in tb.actions
    && match Decide(ps, g[p].priority)
       case ShiftWins => tb.actions[key] == Shift(k) && solved > 0
       case ReduceWins =>
         tb.actions[key] == Reduce(g[p].left, g[p].scope, g[p].callidx, |g[p].right|) && solved > 0
       case Undecided => tb.actions[key] == Shift(k) && ShiftReduceConflictInGrammarDef in warnings
  }

  ghost predicate PrioritiesDecide(g: Productions, m: Merge, tb: Tables, warnings: seq<Warning>, solved: nat) {
    forall n: nat, a: nat, k: nat, ps, p: nat {:trigger ShiftAgainst(g, m, n, a, k, ps, p)} |
      ShiftAgainst(g, m, n, a, k, ps, p) :: DecidedAt(g, tb, warnings, solved, (n, a), k, ps, p)
  }

  lemma {:induction false} ChosenExists(g: Productions, s: set<Item>, f: nat) returns (p: nat)
    requires f in GetReduceFollow(g, s)
    ensures ReductionOf(g, s, f, p)
  {
    var ps: set<nat> := set i | i in s && CompleteItem(g, i) && i.follow == f :: i.prod;
    var i :| i in s && CompleteItem(g, i) && i.follow == f;
    assert i.prod in ps;
    p := LeastNat(ps);
    assert forall j | j in s && CompleteItem(g, j) && j.follow == f :: j.prod in ps;
    var j :| j in s && CompleteItem(g, j) && j.follow == f && j.prod == p;
    assert j == Item(p, |g[p].right|, f);
  }

  /** Whatever competes with the shift is the reduction by p, and it does. */
  lemma {:induction false} OnlyCompetitor(g: Productions, nofTerminals: nat, m: Merge, n: nat, a: nat, k: nat,
                                          ps: Priority, p: nat) returns (f: nat)
    requires MergeOk(g, nofTerminals, m) && ShiftAgainst(g, m, n, a, k, ps, p)
    ensures a > 0 && f in GetReduceFollow(g, m.states[n]) && Competes(g, m, m.states[n], a, f, p)
    ensures forall e: nat, q: nat | Competes(g, m, m.states[n], a, e, q) :: q == p
  {
    var s := m.states[n];
    EndNotShifted(g, nofTerminals, m, n);
    var i :| i in s && CoreOf(i) == Core(p, |g[p].right|) && LookIn(m.inv, i, a);
    f := i.follow;
    assert CompleteItem(g, i) && i == Item(p, |g[p].right|, f);
    var q := ChosenExists(g, s, f);
    ItemReduces(g, m, n, q, f, a);
    StartItemFollow(g, nofTerminals, m, n, f);
    assert p > 0 by { if p == 0 { assert m.inv[0] == {0}; } }
    forall e: nat, q: nat | Competes(g, m, s, a, e, q) ensures q == p { ItemReduces(g, m, n, q, e, a); }
  }

  lemma {:induction false} OnlyTaker(g: Productions, m: Merge, s: set<Item>, a: nat, h: Cell, fs: set<nat>, c: Cell,
                                     p: nat, f: nat)
    requires EntryAfter(g, m, s, a, h, fs, c) && h.Holds? && f in fs && Competes(g, m, s, a, f, p)
    requires forall e: nat, q: nat | Competes(g, m, s, a, e, q) :: q == p
    ensures c == if Beats(g[p].priority, h.priority) then
                 Holds(Reduce(g[p].left, g[p].scope, g[p].callidx, |g[p].right|), g[p].priority) else h
  {
    if Beats(g[p].priority, h.priority) {
      assert Takes(g, m, s, a, h, f, p);
    } else {
      assert NoneTaking(g, m, s, a, h, fs);
    }
  }

  /** The entry, given its shift and what the reductions of all handles do to it. */
  lemma {:induction false} DecidedEntry(g: Productions, nofTerminals: nat, m: Merge, tb: Tables, n: nat, a: nat,
                                        k: nat, ps: Priority, p: nat, f: nat)
    requires MergeOk(g, nofTerminals, m) && n in m.states && ShiftOf(g, m, n, a, k, ps) && a > 0
        && ResolvedAt(g, m, tb, n, a)
    requires f in GetReduceFollow(g, m.states[n]) && Competes(g, m, m.states[n], a, f, p)
    requires forall e: nat, q: nat | Competes(g, m, m.states[n], a, e, q) :: q == p
    ensures TableHas(tb, (n, a), if Beats(g[p].priority, ps) then
        Holds(Reduce(g[p].left, g[p].scope, g[p].callidx, |g[p].right|), g[p].priority) else Holds(Shift(k), ps))
  {
    var s, h, fs := m.states[n], Holds(Shift(k), ps), GetReduceFollow(g, m.states[n]);
    var c :| Settled(g, m, n, a, fs, c) && TableHas(tb, (n, a), c);
    var h' :| Holder(g, m, n, a, h') && EntryAfter(g, m, s, a, h', fs, c);
    assert Holder(g, m, n, a, h);
    HolderUnique(g, nofTerminals, m, n, a, h, h');
    OnlyTaker(g, m, s, a, h, fs, c, p, f);
  }

  /** Some first handle competes, and finds the shift untouched. */
  lemma {:induction false} FirstContest(g: Productions, m: Merge, n: nat, a: nat, k: nat, ps: Priority, p: nat, f: nat,
                                        r: Report)
    requires |g| > 0 && n in m.states && ShiftOf(g, m, n, a, k, ps) && a > 0
    requires f in GetReduceFollow(g, m.states[n]) && Competes(g, m, m.states[n], a, f, p)
    requires forall e: nat, q: nat | Competes(g, m, m.states[n], a, e, q) :: q == p
    requires Reports(Holds(Shift(k), ps), g[p], r)
    ensures SomeReports(g, m, m.states.Keys, r)
  {
    var s, h := m.states[n], Holds(Shift(k), ps);
    var es := set e | e in GetReduceFollow(g, s) && Competes(g, m, s, a, e, p);
    assert f in es;
    var e := LeastNat(es);
    assert Holder(g, m, n, a, h);
    assert NoneTaking(g, m, s, a, h, Lower(g, s, e)) by {
      forall e': nat, q: nat | Takes(g, m, s, a, h, e', q) ensures e' !in Lower(g, s, e) {
        assert CompleteItem(g, Item(q, |g[q].right|, e')) && e' in es;
      }
    }
    assert Settled(g, m, n, a, Lower(g, s, e), h);
    assert Contested(g, m, n, a, e, p, r);
    assert HandleReports(g, m, n, e, r);
    assert StateReports(g, m, n, r);
  }

  /** Where the items call for one shift and one reduction, their priorities decide. */
  lemma {:induction false} ShiftsAreDecided(g: Productions, nofTerminals: nat, m: Merge, tb: Tables,
                                            warnings: seq<Warning>, solved: nat)
    requires MergeOk(g, nofTerminals, m) && EntriesResolved(g, m, tb) && ReportsExact(g, m, warnings, solved)
    ensures PrioritiesDecide(g, m, tb, warnings, solved)
  {
    forall n: nat, a: nat, k: nat, ps, p: nat | ShiftAgainst(g, m, n, a, k, ps, p)
      ensures DecidedAt(g, tb, warnings, solved, (n, a), k, ps, p)
    {
      var f := OnlyCompetitor(g, nofTerminals, m, n, a, k, ps, p);
      assert ResolvedAt(g, m, tb, n, a);
      DecidedEntry(g, nofTerminals, m, tb, n, a, k, ps, p, f);
      BeatsIsDecided(g[p].priority, ps);
      FirstContest(g, m, n, a, k, ps, p, f,
        if Decide(ps, g[p].priority) == Undecided then Warned(ShiftReduceConflictInGrammarDef) else Decided);
    }
  }
}
