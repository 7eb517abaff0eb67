/** When the items of the states agree on their actions, and what becomes of the accept entry when they do not. */
module Conflicts {
  import opened Guards
  import opened Grammar
  import opened Tables
  import opened Items
  import opened States
  import opened Lalr
  import opened LalrProperties
  import opened TableFacts
  import opened ActionTables
  import opened StateActions

  // ---------------------------------------------------------------- the actions called for

  ghost predicate ShiftsTo(g: Productions, m: Merge, n: nat, a: nat, k: nat) {
    n in m.states && T(a) in GotoSymbols(g, m.states[n]) && GotoNumber(g, m, n, T(a), k)
  }

  ghost predicate ReducesBy(g: Productions, m: Merge, n: nat, a: nat, p: nat) {
    n in m.states && p < |g| && HasLook(m.inv, m.states[n], Core(p, |g[p].right|), a)
  }

  /** Some item of state n calls for the action on the terminal a. */
  ghost predicate CallsFor(g: Productions, m: Merge, n: nat, a: nat, act: Action) {
    || (exists k: nat :: ShiftsTo(g, m, n, a, k) && act == Shift(k))
    || (exists p: nat :: ReducesBy(g, m, n, a, p) && act == ProductionAction(g, p))
  }

  ghost predicate OneAction(g: Productions, m: Merge, n: nat, a: nat) {
    forall x, y {:trigger CallsFor(g, m, n, a, x), CallsFor(g, m, n, a, y)} |
      CallsFor(g, m, n, a, x) && CallsFor(g, m, n, a, y) :: x == y
  }

  /** The complete items with one follow handle have the same definition. */
  ghost predicate HandleAgrees(g: Productions, s: set<Item>, f: nat) {
    forall i, j | i in s && j in s && CompleteItem(g, i) && CompleteItem(g, j) && i.follow == f && j.follow == f ::
      SameDefinition(g[i.prod], g[j.prod])
  }

  /** What is reported for a state on its own: shift priorities and definitions of reductions. */
  ghost predicate DefinitionsAgree(g: Productions, s: set<Item>) {
    !PrioritiesDiffer(g, s) && forall f | f in GetReduceFollow(g, s) :: HandleAgrees(g, s, f)
  }

  /** No terminal calls for two actions in a state, and the definitions agree. */
  ghost predicate ConflictFree(g: Productions, m: Merge) {
    && (forall n: nat, a: nat {:trigger OneAction(g, m, n, a)} | n in m.states :: OneAction(g, m, n, a))
    && (forall n {:trigger DefinitionsAgree(g, m.states[n])} | n in m.states :: DefinitionsAgree(g, m.states[n]))
  }

  // ---------------------------------------------------------------- conflict-free means clean

  /** Every entry is called for, and as long as there is no conflict the table stays clean. */
  ghost predicate Justified(g: Productions, m: Merge, t: TableState) {
    forall z: int {:trigger Look(z)} :: Look(z) ==> EntriesCalled(g, m, t) && (ConflictFree(g, m) ==> Clean(t))
  }

  ghost predicate EntriesCalled(g: Productions, m: Merge, t: TableState) {
    forall k | k in t.actions :: EntryCalled(g, m, k, t.actions[k])
  }

  ghost predicate EntryCalled(g: Productions, m: Merge, k: Key, act: Action) {
    k.1 >= 0 && CallsFor(g, m, k.0, k.1, act)
  }

  /** The entry has been set for acceptance and waits for its priority. */
  predicate Waiting(t: TableState, key: Key) {
    key in t.actions && key !in t.priorities
  }

  lemma {:induction false} InsertJustified(g: Productions, m: Merge, t: TableState, key: Key, action: Action,
                                           priority: Priority)
    requires Justified(g, m, t) && (Waiting(t, key) || EntryCalled(g, m, key, action))
    ensures Justified(g, m, Inserted(t, key, action, priority))
  {
    assert Look(0);
    var t' := Inserted(t, key, action, priority);
    InsertEntries(t, key, action, priority);
    if Waiting(t, key) { InsertAtAccept(t, key, action, priority); }
    assert EntriesCalled(g, m, t') by {
      forall k | k in t'.actions ensures EntryCalled(g, m, k, t'.actions[k]) {
        if k in t.actions && t'.actions[k] == t.actions[k] { assert EntryCalled(g, m, k, t.actions[k]); }
      }
    }
    if ConflictFree(g, m) && key in t.actions && !Waiting(t, key) {
      assert EntryCalled(g, m, key, t.actions[key]);
      assert OneAction(g, m, key.0, key.1);
      assert t.actions[key] == action;
    }
  }

  lemma {:induction false} WarnJustified(g: Productions, m: Merge, t: TableState, more: seq<Warning>)
    requires Justified(g, m, t) && (ConflictFree(g, m) ==> more == [])
    ensures Justified(g, m, t.(warnings := t.warnings + more))
  {
    assert Look(0);
    var t' := t.(warnings := t.warnings + more);
    assert EntriesCalled(g, m, t');
    assert more == [] ==> t.warnings + more == t.warnings;
  }

  lemma {:induction false} AcceptJustified(g: Productions, m: Merge, t: TableState, n: nat)
    requires |g| > 0 && Justified(g, m, t) && ReducesBy(g, m, n, 0, 0)
    ensures Justified(g, m, t.(actions := t.actions[(n, 0) := ProductionAction(g, 0)]))
  {
    assert Look(0);
    var t' := t.(actions := t.actions[(n, 0) := ProductionAction(g, 0)]);
    assert EntriesCalled(g, m, t') by {
      forall k | k in t'.actions ensures EntryCalled(g, m, k, t'.actions[k]) {
        if k != (n, 0) { assert EntryCalled(g, m, k, t.actions[k]); }
      }
    }
  }

  lemma {:induction false} EmptyJustified(g: Productions, m: Merge)
    ensures Justified(g, m, TableState(map[], map[], [], 0))
  {
  }

  lemma {:induction false} JustifiedClean(g: Productions, m: Merge, t: TableState)
    requires Justified(g, m, t) && ConflictFree(g, m)
    ensures Clean(t)
  {
    assert Look(0);
  }

  /** An item's own lookahead calls for its reduction. */
  lemma {:induction false} ItemReduces(g: Productions, m: Merge, n: nat, p: nat, f: nat, a: nat)
    requires n in m.states && p < |g| && Item(p, |g[p].right|, f) in m.states[n] && f < |m.inv| && a in m.inv[f]
    ensures ReducesBy(g, m, n, a, p) && EntryCalled(g, m, (n, a), ProductionAction(g, p))
  {
    assert LookIn(m.inv, Item(p, |g[p].right|, f), a);
    assert ReducesBy(g, m, n, a, p);
  }

  // ---------------------------------------------------------------- the accept entry

  /** A reduction with priority r takes the place of an entry with priority s of another type. */
  predicate Beats(r: Priority, s: Priority) {
    && r.Defined() == s.Defined()
    && (r.value > s.value || (r.value == s.value && r.assoziativity == s.assoziativity == Left))
  }

  /** The reduction chosen for a follow handle. */
  predicate ReductionOf(g: Productions, s: set<Item>, f: nat, p: nat) {
    p < |g| && Item(p, |g[p].right|, f) in s && forall i | i in s && CompleteItem(g, i) && i.follow == f :: p <= i.prod
  }

  /** The reduction for the handle f replaces the accept entry of the state. */
  ghost predicate Displaces(g: Productions, m: Merge, s: set<Item>, f: nat) {
    && |g| > 0 && f < |m.inv| && 0 in m.inv[f]
    && exists p :: p > 0 && ReductionOf(g, s, f, p) && Beats(g[p].priority, g[0].priority)
  }

  ghost predicate NoneDisplaces(g: Productions, m: Merge, s: set<Item>, fs: set<nat>) {
    forall f | f in fs :: !Displaces(g, m, s, f)
  }

  /** Some accept state keeps its accept entry. */
  ghost predicate AcceptKept(g: Productions, m: Merge) {
    |g| > 0 && exists n :: n in m.states && IsAcceptState(g, m.states[n])
                           && NoneDisplaces(g, m, m.states[n], GetReduceFollow(g, m.states[n]))
  }

  lemma {:induction false} ReductionUnique(g: Productions, s: set<Item>, f: nat, p: nat, q: nat)
    requires ReductionOf(g, s, f, p) && ReductionOf(g, s, f, q)
    ensures p == q
  {
    assert CompleteItem(g, Item(p, |g[p].right|, f)) && CompleteItem(g, Item(q, |g[q].right|, f));
  }
}
