/** Merging the LR(1) states onto their LR(0) cores. */
module Lalr {
  import opened Guards
  import opened Grammar
  import opened BuildErrors
  import opened FirstSets
  import opened Tables
  import opened FollowSets
  import opened Items
  import opened Closure
  import opened States

  // ---------------------------------------------------------------- LR(1) simulates LR(0)

  /** The state without its follow sets. */
  function Lr0Of(s: set<Item>): set<Item> {
    set i | i in s :: Item(i.prod, i.pos, 0)
  }

  lemma {:induction false} CoresOfLr0(s: set<Item>)
    ensures CoresOf(Lr0Of(s)) == CoresOf(s)
  {
    forall c | c in CoresOf(s) ensures c in CoresOf(Lr0Of(s)) {
      var i :| i in s && CoreOf(i) == c;
      assert Item(i.prod, i.pos, 0) in Lr0Of(s);
    }
  }

  lemma {:induction false} SameCoresSameState(s: set<Item>, t: set<Item>)
    requires CoresOf(s) == CoresOf(t) && forall i | i in t :: i.follow == 0
    ensures Lr0Of(s) == t
  {
    forall i | i in t ensures i in Lr0Of(s) {
      assert CoreOf(i) in CoresOf(s);
    }
    forall i | i in Lr0Of(s) ensures i in t {
      assert CoreOf(i) in CoresOf(Lr0Of(s));
      CoresOfLr0(s);
      var j :| j in t && CoreOf(j) == CoreOf(i);
    }
  }

  lemma {:induction false} GotoCores(g: Productions, s: set<Item>, t: set<Item>, x: Symbol)
    requires CoresOf(s) == CoresOf(t)
    ensures CoresOf(GotoItems(g, s, x)) == CoresOf(GotoItems(g, t, x))
    ensures GotoItems(g, s, x) != {} ==> x in GotoSymbols(g, t)
  {
    GotoCoresInclude(g, s, t, x);
    GotoCoresInclude(g, t, s, x);
    if i :| i in GotoItems(g, s, x) {
      var j :| j in s && DotBefore(g, CoreOf(j), x);
      assert CoreOf(j) in CoresOf(t);
    }
  }

  lemma {:induction false} GotoCoresInclude(g: Productions, s: set<Item>, t: set<Item>, x: Symbol)
    requires CoresOf(s) <= CoresOf(t)
    ensures CoresOf(GotoItems(g, s, x)) <= CoresOf(GotoItems(g, t, x))
  {
    forall c | c in CoresOf(GotoItems(g, s, x)) ensures c in CoresOf(GotoItems(g, t, x)) {
      var i :| i in s && DotBefore(g, CoreOf(i), x) && c == Core(i.prod, i.pos + 1);
      assert CoreOf(i) in CoresOf(t);
      var j :| j in t && CoreOf(j) == CoreOf(i);
      assert Item(j.prod, j.pos + 1, j.follow) in GotoItems(g, t, x);
    }
  }

  /** Gotos of states with the same cores have the same cores. */
  lemma {:induction false} GotosAgree(lr1: bool, lr1': bool, g: Productions, inv: seq<set<nat>>, nodes: NodeMap,
                                      s: set<Item>, x: Symbol, t: set<Item>, s': set<Item>, t': set<Item>)
    requires IsGoto(lr1, g, inv, nodes, s, x, t) && IsGoto(lr1', g, inv, nodes, s', x, t') && CoresOf(s) == CoresOf(s')
    ensures CoresOf(t) == CoresOf(t')
  {
    GotoCores(g, s, s', x);
    StateClosureCores(lr1, g, inv, nodes, GotoItems(g, s, x), t);
    StateClosureCores(lr1', g, inv, nodes, GotoItems(g, s', x), t');
    ClosureUnique(g, CoresOf(GotoItems(g, s, x)), CoresOf(t), CoresOf(t'));
  }

  ghost predicate HasCores(list: seq<set<Item>>, cs: set<Core>) {
    exists t :: t in list && CoresOf(t) == cs
  }

  /** Every state of one enumeration has its cores in the other. */
  lemma {:induction false} Simulates(a: bool, b: bool, g: Productions, inv: seq<set<nat>>, nodes: NodeMap,
                                     la: seq<set<Item>>, lb: seq<set<Item>>, k: nat)
    requires Enumerated(a, g, inv, nodes, la) && Enumerated(b, g, inv, nodes, lb) && k < |la|
    ensures HasCores(lb, CoresOf(la[k]))
    decreases k
  {
    if k == 0 {
      StateClosureCores(a, g, inv, nodes, START, la[0]);
      StateClosureCores(b, g, inv, nodes, START, lb[0]);
      ClosureUnique(g, CoresOf(START), CoresOf(la[0]), CoresOf(lb[0]));
      assert lb[0] in lb;
    } else {
      assert HasOrigin(a, g, inv, nodes, la, k);
      var j, x :| 0 <= j < k && IsGoto(a, g, inv, nodes, la[j], x, la[k]);
      Simulates(a, b, g, inv, nodes, la, lb, j);
      var s :| s in lb && CoresOf(s) == CoresOf(la[j]);
      GotoCores(g, la[j], s, x);
      var t := GotoOf(b, g, inv, nodes, lb, s, x);
      GotosAgree(a, b, g, inv, nodes, la[j], x, la[k], s, t);
    }
  }

  lemma {:induction false} GotoOf(lr1: bool, g: Productions, inv: seq<set<nat>>, nodes: NodeMap, list: seq<set<Item>>,
                                  s: set<Item>, x: Symbol) returns (t: set<Item>)
    requires Enumerated(lr1, g, inv, nodes, list) && s in list && x in GotoSymbols(g, s)
    ensures t in list && IsGoto(lr1, g, inv, nodes, s, x, t)
  {
    var k :| 0 <= k < |list| && list[k] == s;
    assert ExpandedAt(lr1, g, inv, nodes, list, k);
    assert HasGoto(lr1, g, inv, nodes, list, list[k], x);
    t :| t in list && IsGoto(lr1, g, inv, nodes, s, x, t);
  }

  /** Dropping the follow sets maps every LR(1) state onto an LR(0) state ... */
  lemma {:induction false} Lr1StateHasLr0State(g: Productions, inv: seq<set<nat>>, nodes: NodeMap, l0: seq<set<Item>>,
                                               l1: seq<set<Item>>, s: set<Item>)
    requires Enumerated(false, g, inv, nodes, l0) && Enumerated(true, g, inv, nodes, l1) && s in l1
    ensures Lr0Of(s) in l0
  {
    var k :| 0 <= k < |l1| && l1[k] == s;
    Simulates(true, false, g, inv, nodes, l1, l0, k);
    var t :| t in l0 && CoresOf(t) == CoresOf(s);
    assert KnownState(false, g, inv, t);
    SameCoresSameState(s, t);
  }

  /** ... and hits every LR(0) state. */
  lemma {:induction false} Lr0StateIsHit(g: Productions, inv: seq<set<nat>>, nodes: NodeMap, l0: seq<set<Item>>,
                                         l1: seq<set<Item>>, t: set<Item>) returns (s: set<Item>)
    requires Enumerated(false, g, inv, nodes, l0) && Enumerated(true, g, inv, nodes, l1) && t in l0
    ensures s in l1 && Lr0Of(s) == t
  {
    var k :| 0 <= k < |l0| && l0[k] == t;
    Simulates(false, true, g, inv, nodes, l0, l1, k);
    s :| s in l1 && CoresOf(s) == CoresOf(t);
    assert KnownState(false, g, inv, t);
    SameCoresSameState(s, t);
  }

  // ---------------------------------------------------------------- mergeTransitionStateFollow

  /** The terminal a is a lookahead of item c in the state. */
  ghost predicate HasLook(inv: seq<set<nat>>, s: set<Item>, c: Core, a: nat) {
    exists i :: i in s && CoreOf(i) == c && LookIn(inv, i, a)
  }

  ghost predicate LookIn(inv: seq<set<nat>>, i: Item, a: nat) {
    i.follow < |inv| && a in inv[i.follow]
  }

  ghost predicate FollowsKnown(inv: seq<set<nat>>, s: set<Item>) {
    forall i | i in s :: i.follow < |inv|
  }

  ghost predicate OnePerCore(s: set<Item>) {
    forall i, j | i in s && j in s && CoreOf(i) == CoreOf(j) :: i == j
  }

  ghost predicate SameLooks(inv: seq<set<nat>>, s: set<Item>, inv': seq<set<nat>>, s': set<Item>) {
    forall c, a {:trigger HasLook(inv', s', c, a)} {:trigger HasLook(inv, s, c, a)} ::
        HasLook(inv', s', c, a) <==> HasLook(inv, s, c, a)
  }

  lemma {:induction false} LooksStay(inv: seq<set<nat>>, inv': seq<set<nat>>, s: set<Item>)
    requires inv <= inv' && FollowsKnown(inv, s)
    ensures SameLooks(inv, s, inv', s) && FollowsKnown(inv', s)
  {
    forall c, a ensures HasLook(inv', s, c, a) <==> HasLook(inv, s, c, a) {
      if HasLook(inv, s, c, a) {
        var i :| i in s && CoreOf(i) == c && LookIn(inv, i, a);
        assert LookIn(inv', i, a);
      }
      if HasLook(inv', s, c, a) {
        var i :| i in s && CoreOf(i) == c && LookIn(inv', i, a);
        assert LookIn(inv, i, a);
      }
    }
  }

  /** In the sorted order, when the next item has another core, no later item has this one. */
  lemma {:induction false} GroupIsContiguous(item: Item, todo: set<Item>)
    requires todo != {} && (forall x | x in todo :: Less(item, x)) && CoreOf(Least(todo)) != CoreOf(item)
    ensures forall x | x in todo :: CoreOf(x) != CoreOf(item)
  {
    var m := Least(todo);
    forall x | x in todo ensures CoreOf(x) != CoreOf(item) {
      assert x == m || Less(m, x);
    }
  }

  /** The items of one core, joined: reads them off the front of the remaining ones. */
  method JoinGroup(fm: FollowMap, item: Item, todo0: set<Item>) returns (r: Result<nat>, todo: set<Item>)
    requires fm.Valid() && item.follow < |fm.sets.inv| && FollowsKnown(fm.sets.inv, todo0)
    requires forall x | x in todo0 :: Less(item, x)
    modifies fm, fm.sets
    ensures fm.Valid() && old(fm.sets.inv) <= fm.sets.inv
    ensures r.Ok? ==> todo == set x | x in todo0 && CoreOf(x) != CoreOf(item)
    ensures r.Ok? ==> r.value < |fm.sets.inv| && forall a ::
                      a in fm.sets.inv[r.value] <==> HasLook(old(fm.sets.inv), todo0 + {item}, CoreOf(item), a)
    ensures r.Ok? && |old(fm.sets.inv)| >= MAX_TERMINAL - 1 ==> r.value == item.follow
    ensures r.Err? ==> r.error == ComplexityLR1FollowSetsInGrammarDef
  {
    ghost var inv := fm.sets.inv;
    var joined: nat := item.follow;
    todo := todo0;
    OneLook(inv, item);
    assert {item} == (todo0 - todo) + {item};
    while todo != {} && CoreOf(Least(todo)) == CoreOf(item)
      invariant todo <= todo0 && fm.Valid() && inv <= fm.sets.inv
      invariant forall x | x in todo0 - todo :: CoreOf(x) == CoreOf(item)
      invariant Joined(inv, item, (todo0 - todo) + {item}, fm.sets.inv, joined)
      decreases todo
    {
      var item2 := Least(todo);
      ghost var done, inv1 := (todo0 - todo) + {item}, fm.sets.inv;
      var j := fm.Join(item2.follow, joined);
      if j.Err? {
        return Err(j.error), todo;
      }
      JoinedStep(inv, item, done, inv1, joined, item2, fm.sets.inv, j.value);
      joined := j.value;
      todo := todo - {item2};
      assert (todo0 - todo) + {item} == done + {item2};
    }
    if todo != {} {
      GroupIsContiguous(item, todo);
    }
    LooksOfCore(inv, todo0 + {item}, (todo0 - todo) + {item}, CoreOf(item));
    r := Ok(joined);
  }

  /** The handle of the items of one core joined so far. */
  ghost predicate Joined(inv: seq<set<nat>>, item: Item, done: set<Item>, inv': seq<set<nat>>, joined: nat) {
    && joined < |inv'| && (forall a :: a in inv'[joined] <==> HasLook(inv, done, CoreOf(item), a))
    && (|inv| >= MAX_TERMINAL - 1 ==> joined == item.follow)
  }

  lemma {:induction false} JoinedStep(inv: seq<set<nat>>, item: Item, done: set<Item>, inv1: seq<set<nat>>,
                                      joined: nat, item2: Item, inv2: seq<set<nat>>, joined': nat)
    requires inv <= inv1 && Joined(inv, item, done, inv1, joined) && item2.follow < |inv|
        && CoreOf(item2) == CoreOf(item)
    requires joined' < |inv2| && inv2[joined'] == inv1[item2.follow] + inv1[joined] && |inv1| < MAX_TERMINAL - 1
    ensures Joined(inv, item, done + {item2}, inv2, joined')
  {
    AddLook(inv, done, item2);
  }

  lemma {:induction false} OneLook(inv: seq<set<nat>>, item: Item)
    requires item.follow < |inv|
    ensures forall a :: HasLook(inv, {item}, CoreOf(item), a) <==> a in inv[item.follow]
  {
    forall a | a in inv[item.follow] ensures HasLook(inv, {item}, CoreOf(item), a) {
      assert LookIn(inv, item, a);
    }
  }

  lemma {:induction false} AddLook(inv: seq<set<nat>>, s: set<Item>, i: Item)
    requires i.follow < |inv|
    ensures forall a :: HasLook(inv, s + {i}, CoreOf(i), a) <==> HasLook(inv, s, CoreOf(i), a) || a in inv[i.follow]
  {
    forall a ensures HasLook(inv, s + {i}, CoreOf(i), a) <==> HasLook(inv, s, CoreOf(i), a) || a in inv[i.follow] {
      if a in inv[i.follow] { assert LookIn(inv, i, a); }
    }
  }

  lemma {:induction false} LooksOfCore(inv: seq<set<nat>>, s: set<Item>, t: set<Item>, c: Core)
    requires t <= s && forall i | i in s && CoreOf(i) == c :: i in t
    ensures forall a :: HasLook(inv, s, c, a) <==> HasLook(inv, t, c, a)
  {
  }

  /** What the pass has merged so far. */
  ghost predicate MergedPart(inv: seq<set<nat>>, part: set<Item>, inv': seq<set<nat>>, merged: set<Item>) {
    && CoresOf(merged) == CoresOf(part) && OnePerCore(merged) && FollowsKnown(inv', merged)
    && SameLooks(inv, part, inv', merged)
  }

  lemma {:induction false} MergeStep(inv: seq<set<nat>>, inv1: seq<set<nat>>, inv2: seq<set<nat>>, part: set<Item>,
                                     merged: set<Item>, group: set<Item>, c: Core, f: nat)
    requires inv <= inv1 <= inv2 && MergedPart(inv, part, inv1, merged) && c !in CoresOf(part)
    requires group != {} && (forall i | i in group :: CoreOf(i) == c) && f < |inv2|
    requires forall a :: a in inv2[f] <==> HasLook(inv, group, c, a)
    ensures MergedPart(inv, part + group, inv2, merged + {Item(c.prod, c.pos, f)})
  {
    var placed := Item(c.prod, c.pos, f);
    var merged' := merged + {placed};
    LooksStay(inv1, inv2, merged);
    assert CoresOf(part + group) == CoresOf(part) + {c} by {
      var i :| i in group;
      assert CoreOf(i) == c && i in part + group;
    }
    assert CoresOf(merged') == CoresOf(merged) + {c};
    forall i | i in merged ensures CoreOf(i) != c { assert CoreOf(i) in CoresOf(merged); }
    forall d, a ensures HasLook(inv2, merged', d, a) <==> HasLook(inv, part + group, d, a) {
      if d == c {
        LooksOfCore(inv2, merged', {placed}, c);
        OneLook(inv2, placed);
        forall i | i in part ensures CoreOf(i) != c { assert CoreOf(i) in CoresOf(part); }
        LooksOfCore(inv, part + group, group, c);
      } else {
        LooksOfCore(inv2, merged', merged, d);
        LooksOfCore(inv, part + group, part, d);
        assert HasLook(inv1, merged, d, a) <==> HasLook(inv, part, d, a);
      }
    }
  }

  /** One linear pass in sorted order leaves one item per core, with all lookaheads of that core. */
  method MergeTransitionStateFollow(fm: FollowMap, state: set<Item>) returns (r: Result<set<Item>>)
    requires fm.Valid() && FollowsKnown(fm.sets.inv, state)
    modifies fm, fm.sets
    ensures fm.Valid() && old(fm.sets.inv) <= fm.sets.inv
    ensures r.Ok? ==> MergedPart(old(fm.sets.inv), state, fm.sets.inv, r.value)
    ensures r.Ok? && |old(fm.sets.inv)| >= MAX_TERMINAL - 1 ==> r.value <= state
    ensures r.Err? ==> r.error == ComplexityLR1FollowSetsInGrammarDef
  {
    ghost var inv := fm.sets.inv;
    var merged: set<Item> := {};
    var todo := state;
    while todo != {}
      invariant todo <= state && fm.Valid() && inv <= fm.sets.inv
      invariant forall c | c in CoresOf(todo) :: c !in CoresOf(state - todo)
      invariant MergedPart(inv, state - todo, fm.sets.inv, merged)
      invariant |inv| >= MAX_TERMINAL - 1 ==> merged <= state
      decreases todo
    {
      var item := Least(todo);
      ghost var inv1, part := fm.sets.inv, state - todo;
      ghost var rest := todo - {item};
      LooksStay(inv, inv1, todo);
      var joined, todo' := JoinGroup(fm, item, todo - {item});
      if joined.Err? {
        return Err(joined.error);
      }
      ghost var group := todo - todo';
      GroupLooks(inv, inv1, fm.sets.inv, item, todo, group, joined.value);
      assert CoreOf(item) in CoresOf(todo);
      MergeStep(inv, inv1, fm.sets.inv, part, merged, group, CoreOf(item), joined.value);
      assert state - todo' == part + group;
      merged := merged + {Item(item.prod, item.pos, joined.value)};
      CoresSplit(state, todo, todo', CoreOf(item));
      todo := todo';
    }
    assert state - todo == state;
    r := Ok(merged);
  }

  lemma {:induction false} GroupLooks(inv: seq<set<nat>>, inv1: seq<set<nat>>, inv2: seq<set<nat>>, item: Item,
                                      todo: set<Item>, group: set<Item>, f: nat)
    requires inv <= inv1 <= inv2 && item in todo && FollowsKnown(inv, todo) && f < |inv2|
    requires group == set x | x in todo && CoreOf(x) == CoreOf(item)
    requires forall a :: a in inv2[f] <==> HasLook(inv1, (todo - {item}) + {item}, CoreOf(item), a)
    ensures forall a :: a in inv2[f] <==> HasLook(inv, group, CoreOf(item), a)
  {
    assert (todo - {item}) + {item} == todo;
    LooksStay(inv, inv1, todo);
    LooksOfCore(inv, todo, group, CoreOf(item));
  }

  lemma {:induction false} CoresSplit(state: set<Item>, todo: set<Item>, todo': set<Item>, c: Core)
    requires todo' <= todo <= state && (forall d | d in CoresOf(todo) :: d !in CoresOf(state - todo))
    requires todo' == set x | x in todo && CoreOf(x) != c
    ensures forall d | d in CoresOf(todo') :: d !in CoresOf(state - todo')
  {
    forall d | d in CoresOf(todo') ensures d !in CoresOf(state - todo') {
      var i :| i in todo' && CoreOf(i) == d;
      assert d in CoresOf(todo);
      forall j | j in state - todo' ensures CoreOf(j) != d {
        if j !in todo { assert CoreOf(j) in CoresOf(state - todo); }
      }
    }
  }

  // ---------------------------------------------------------------- calculateLalr1StateMap

  type StateMap = map<nat, set<Item>>

  /** The number of the LR(0) state below an LR(1) state, 0 when there is none. */
  function NumberOf(numbers: map<set<Item>, nat>, s: set<Item>): nat {
    if Lr0Of(s) in numbers then numbers[Lr0Of(s)] else 0
  }

  /** Some LR(1) state of the group merged into state n has the lookahead. */
  ghost predicate GroupHasLook(inv: seq<set<nat>>, numbers: map<set<Item>, nat>, done: set<set<Item>>, n: nat, c: Core,
                               a: nat) {
    exists s :: s in done && NumberOf(numbers, s) == n && HasLook(inv, s, c, a)
  }

  ghost predicate StateMerged(inv: seq<set<nat>>, numbers: map<set<Item>, nat>, done: set<set<Item>>,
                              inv': seq<set<nat>>, n: nat, m: set<Item>) {
    && OnePerCore(m) && FollowsKnown(inv', m)
    && (forall s | s in done && NumberOf(numbers, s) == n :: CoresOf(s) == CoresOf(m))
    && (forall c, a {:trigger HasLook(inv', m, c, a)} {:trigger GroupHasLook(inv, numbers, done, n, c, a)} ::
          HasLook(inv', m, c, a) <==> GroupHasLook(inv, numbers, done, n, c, a))
  }

  ghost predicate MapMerged(inv: seq<set<nat>>, numbers: map<set<Item>, nat>, done: set<set<Item>>,
                            inv': seq<set<nat>>, rt: StateMap) {
    && rt.Keys == (set s | s in done :: NumberOf(numbers, s))
    && forall n {:trigger StateMerged(inv, numbers, done, inv', n, rt[n])} | n in rt ::
        StateMerged(inv, numbers, done, inv', n, rt[n])
  }

  lemma {:induction false} CoresOfNumber(numbers: map<set<Item>, nat>, list: seq<set<Item>>, s: set<Item>, t: set<Item>)
    requires Numbering(numbers, list) && Distinct(list) && NumberOf(numbers, s) == NumberOf(numbers, t) > 0
    ensures CoresOf(s) == CoresOf(t)
  {
    var a, b := Lr0Of(s), Lr0Of(t);
    assert a in Members(list) && b in Members(list);
    var i :| 0 <= i < |list| && list[i] == a;
    var j :| 0 <= j < |list| && list[j] == b;
    assert NumberedAt(numbers, list, i) && NumberedAt(numbers, list, j);
    CoresOfLr0(s);
    CoresOfLr0(t);
  }

  /** Adding an LR(1) state to the state it belongs to. */
  lemma {:induction false} MapStep(inv: seq<set<nat>>, numbers: map<set<Item>, nat>, list: seq<set<Item>>,
                                   done: set<set<Item>>, inv1: seq<set<nat>>, rt: StateMap, s: set<Item>,
                                   before: set<Item>, inv2: seq<set<nat>>, m: set<Item>)
    requires Numbering(numbers, list) && Distinct(list)
    requires MapMerged(inv, numbers, done, inv1, rt) && NumberOf(numbers, s) > 0 && FollowsKnown(inv, s)
        && inv <= inv1 <= inv2
    requires before == if NumberOf(numbers, s) in rt then rt[NumberOf(numbers, s)] else {}
    requires MergedPart(inv1, before + s, inv2, m)
    ensures MapMerged(inv, numbers, done + {s}, inv2, rt[NumberOf(numbers, s) := m])
  {
    var n, rt' := NumberOf(numbers, s), rt[NumberOf(numbers, s) := m];
    forall k | k in rt' ensures StateMerged(inv, numbers, done + {s}, inv2, k, rt'[k]) {
      if k == n {
        MergedWithNew(inv, numbers, list, done, inv1, rt, s, before, inv2, m);
      } else {
        assert StateMerged(inv, numbers, done, inv1, k, rt[k]);
        LooksStay(inv1, inv2, rt[k]);
        GroupUntouched(inv, numbers, done, s, k);
      }
    }
  }

  lemma {:induction false} GroupUntouched(inv: seq<set<nat>>, numbers: map<set<Item>, nat>, done: set<set<Item>>,
                                          s: set<Item>, k: nat)
    requires NumberOf(numbers, s) != k
    ensures forall c, a :: GroupHasLook(inv, numbers, done + {s}, k, c, a) <==>
                           GroupHasLook(inv, numbers, done, k, c, a)
  {
  }

  lemma {:induction false} GroupGrows(inv: seq<set<nat>>, numbers: map<set<Item>, nat>, done: set<set<Item>>,
                                      s: set<Item>, c: Core, a: nat)
    ensures GroupHasLook(inv, numbers, done + {s}, NumberOf(numbers, s), c, a) <==>
        GroupHasLook(inv, numbers, done, NumberOf(numbers, s), c, a) || HasLook(inv, s, c, a)
  {
    if HasLook(inv, s, c, a) { assert s in done + {s}; }
  }

  lemma {:induction false} UnionLooks(inv: seq<set<nat>>, s: set<Item>, t: set<Item>, c: Core, a: nat)
    ensures HasLook(inv, s + t, c, a) <==> HasLook(inv, s, c, a) || HasLook(inv, t, c, a)
  {
  }

  lemma {:induction false} MergedWithNew(inv: seq<set<nat>>, numbers: map<set<Item>, nat>, list: seq<set<Item>>,
                                         done: set<set<Item>>, inv1: seq<set<nat>>, rt: StateMap, s: set<Item>,
                                         before: set<Item>, inv2: seq<set<nat>>, m: set<Item>)
    requires Numbering(numbers, list) && Distinct(list)
    requires MapMerged(inv, numbers, done, inv1, rt) && NumberOf(numbers, s) > 0 && FollowsKnown(inv, s)
        && inv <= inv1 <= inv2
    requires before == if NumberOf(numbers, s) in rt then rt[NumberOf(numbers, s)] else {}
    requires MergedPart(inv1, before + s, inv2, m)
    ensures StateMerged(inv, numbers, done + {s}, inv2, NumberOf(numbers, s), m)
  {
    var n := NumberOf(numbers, s);
    LooksStay(inv, inv1, s);
    assert n in rt ==> StateMerged(inv, numbers, done, inv1, n, rt[n]);
    forall c, a ensures HasLook(inv2, m, c, a) <==> GroupHasLook(inv, numbers, done + {s}, n, c, a) {
      UnionLooks(inv1, before, s, c, a);
      GroupGrows(inv, numbers, done, s, c, a);
      assert HasLook(inv2, m, c, a) <==> HasLook(inv1, before + s, c, a);
      if n in rt {
        assert HasLook(inv1, rt[n], c, a) <==> GroupHasLook(inv, numbers, done, n, c, a);
      }
    }
    MergedCores(inv, numbers, list, done, inv1, rt, s, before, m);
  }

  lemma {:induction false} MergedCores(inv: seq<set<nat>>, numbers: map<set<Item>, nat>, list: seq<set<Item>>,
                                       done: set<set<Item>>, inv1: seq<set<nat>>, rt: StateMap, s: set<Item>,
                                       before: set<Item>, m: set<Item>)
    requires Numbering(numbers, list) && Distinct(list)
    requires MapMerged(inv, numbers, done, inv1, rt) && NumberOf(numbers, s) > 0
    requires before == if NumberOf(numbers, s) in rt then rt[NumberOf(numbers, s)] else {}
    requires CoresOf(m) == CoresOf(before + s)
    ensures forall t | t in done + {s} && NumberOf(numbers, t) == NumberOf(numbers, s) :: CoresOf(t) == CoresOf(m)
  {
    var n := NumberOf(numbers, s);
    assert CoresOf(before + s) == CoresOf(before) + CoresOf(s);
    if n in rt {
      assert StateMerged(inv, numbers, done, inv1, n, rt[n]);
      var t :| t in done && NumberOf(numbers, t) == n;
      CoresOfNumber(numbers, list, s, t);
    } else {
      assert CoresOf(before) == {};
    }
    forall t | t in done + {s} && NumberOf(numbers, t) == n ensures CoresOf(t) == CoresOf(m) {
      CoresOfNumber(numbers, list, s, t);
    }
  }

  /** Every item of a merged state is one of an LR(1) state, as it is when nothing had to be joined. */
  ghost predicate ItemsFrom(rt: StateMap, done: set<set<Item>>) {
    forall n | n in rt :: AllFrom(rt[n], done)
  }

  ghost predicate AllFrom(t: set<Item>, done: set<set<Item>>) {
    forall i | i in t :: ItemFrom(done, i)
  }

  ghost predicate ItemFrom(done: set<set<Item>>, i: Item) {
    exists s :: s in done && i in s
  }

  lemma {:induction false} ItemsFromStep(rt: StateMap, done: set<set<Item>>, s: set<Item>, n: nat, before: set<Item>,
                                         m: set<Item>)
    requires ItemsFrom(rt, done) && before == (if n in rt then rt[n] else {}) && m <= before + s
    ensures ItemsFrom(rt[n := m], done + {s})
  {
    var rt' := rt[n := m];
    forall k | k in rt' ensures AllFrom(rt'[k], done + {s}) {
      assert k in rt ==> AllFrom(rt[k], done);
      assert n in rt ==> AllFrom(rt[n], done);
      forall i | i in rt'[k] ensures ItemFrom(done + {s}, i) {
        if k == n && i in s { assert s in done + {s}; } else { ItemFromMore(done, s, i); }
      }
    }
  }

  lemma {:induction false} ItemFromMore(done: set<set<Item>>, s: set<Item>, i: Item)
    requires ItemFrom(done, i)
    ensures ItemFrom(done + {s}, i)
  {
    var t :| t in done && i in t;
    assert t in done + {s};
  }

  /** The states merged so far. */
  ghost predicate MapState(inv: seq<set<nat>>, numbers: map<set<Item>, nat>, done: set<set<Item>>, inv': seq<set<nat>>,
                           rt: StateMap) {
    forall z: int {:trigger Look(z)} :: Look(z) ==>
      MapMerged(inv, numbers, done, inv', rt) && (|inv| >= MAX_TERMINAL - 1 ==> ItemsFrom(rt, done))
  }

  lemma {:induction false} MapStateStep(inv: seq<set<nat>>, numbers: map<set<Item>, nat>, list: seq<set<Item>>,
                                        done: set<set<Item>>, inv1: seq<set<nat>>, rt: StateMap, s: set<Item>,
                                        before: set<Item>, inv2: seq<set<nat>>, m: set<Item>)
    requires Numbering(numbers, list) && Distinct(list)
    requires MapState(inv, numbers, done, inv1, rt) && NumberOf(numbers, s) > 0 && FollowsKnown(inv, s)
        && inv <= inv1 <= inv2
    requires before == if NumberOf(numbers, s) in rt then rt[NumberOf(numbers, s)] else {}
    requires MergedPart(inv1, before + s, inv2, m) && (|inv| >= MAX_TERMINAL - 1 ==> m <= before + s)
    ensures MapState(inv, numbers, done + {s}, inv2, rt[NumberOf(numbers, s) := m])
  {
    assert Look(0);
    MapStep(inv, numbers, list, done, inv1, rt, s, before, inv2, m);
    if |inv| >= MAX_TERMINAL - 1 { ItemsFromStep(rt, done, s, NumberOf(numbers, s), before, m); }
  }

  lemma {:induction false} NumbersKnown(g: Productions, inv: seq<set<nat>>, nodes: NodeMap, a0: Assignments,
                                        a1: Assignments, s: set<Item>)
    requires Enumerated(false, g, inv, nodes, a0.states) && Enumerated(true, g, inv, nodes, a1.states)
    requires Numbering(a0.numbers, a0.states) && Numbering(a1.numbers, a1.states) && s in a1.numbers
    ensures Lr0Of(s) in a0.numbers && NumberOf(a0.numbers, s) > 0 && FollowsKnown(inv, s)
  {
    assert s in Members(a1.states) && KnownState(true, g, inv, s);
    Lr1StateHasLr0State(g, inv, nodes, a0.states, a1.states, s);
    assert Lr0Of(s) in Members(a0.states);
    var i :| 0 <= i < |a0.states| && a0.states[i] == Lr0Of(s);
    assert NumberedAt(a0.numbers, a0.states, i);
  }

  lemma {:induction false} BeforeKnown(inv: seq<set<nat>>, numbers: map<set<Item>, nat>, done: set<set<Item>>,
                                       inv1: seq<set<nat>>, rt: StateMap, n: nat, before: set<Item>, s: set<Item>)
    requires MapState(inv, numbers, done, inv1, rt) && FollowsKnown(inv, s) && inv <= inv1
    requires before == if n in rt then rt[n] else {}
    ensures FollowsKnown(inv1, before + s)
  {
    assert Look(0);
    assert n in rt ==> StateMerged(inv, numbers, done, inv1, n, rt[n]);
  }

  lemma {:induction false} NothingMerged(inv: seq<set<nat>>, numbers: map<set<Item>, nat>)
    ensures MapState(inv, numbers, {}, inv, map[])
  {
  }

  method CalculateLalr1StateMap(fm: FollowMap, g: Productions, a0: Assignments, a1: Assignments)
    returns (r: Result<StateMap>)
    requires fm.Valid()
    requires Enumerated(false, g, fm.sets.inv, fm.nodes, a0.states)
        && Enumerated(true, g, fm.sets.inv, fm.nodes, a1.states)
    requires Numbering(a0.numbers, a0.states) && Numbering(a1.numbers, a1.states)
    modifies fm, fm.sets
    ensures fm.Valid() && old(fm.sets.inv) <= fm.sets.inv
    ensures r.Ok? ==> MapState(old(fm.sets.inv), a0.numbers, a1.numbers.Keys, fm.sets.inv, r.value)
    ensures r.Err? ==> r.error == ComplexityLR1FollowSetsInGrammarDef
  {
    ghost var inv := fm.sets.inv;
    var rt: StateMap := map[];
    var todo := a1.numbers.Keys;
    NothingMerged(inv, a0.numbers);
    assert a1.numbers.Keys - todo == {};
    while todo != {}
      invariant todo <= a1.numbers.Keys && fm.Valid() && inv <= fm.sets.inv
      invariant MapState(inv, a0.numbers, a1.numbers.Keys - todo, fm.sets.inv, rt)
      decreases todo
    {
      var s :| s in todo;
      ghost var inv1, done := fm.sets.inv, a1.numbers.Keys - todo;
      NumbersKnown(g, inv, fm.nodes, a0, a1, s);
      var n := a0.numbers[Lr0Of(s)];
      var before := if n in rt then rt[n] else {};
      BeforeKnown(inv, a0.numbers, done, inv1, rt, n, before, s);
      var merged := MergeTransitionStateFollow(fm, before + s);
      if merged.Err? {
        return Err(merged.error);
      }
      MapStateStep(inv, a0.numbers, a0.states, done, inv1, rt, s, before, fm.sets.inv, merged.value);
      rt := rt[n := merged.value];
      todo := todo - {s};
      assert a1.numbers.Keys - todo == done + {s};
    }
    assert a1.numbers.Keys - todo == a1.numbers.Keys;
    r := Ok(rt);
  }
}
