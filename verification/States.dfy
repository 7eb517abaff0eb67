/** Enumeration of the automaton's states, for LR(0) and LR(1) alike. */
module States {
  import opened Guards
  import opened Grammar
  import opened BuildErrors
  import opened FirstSets
  import opened Tables
  import opened FollowSets
  import opened Items
  import opened Closure

  const START: set<Item> := {Item(0, 0, 0)}

  /** The kernel of the state reached over x. */
  ghost function GotoItems(g: Productions, s: set<Item>, x: Symbol): set<Item> {
    set i | i in s && DotBefore(g, CoreOf(i), x) :: Item(i.prod, i.pos + 1, i.follow)
  }

  ghost function GotoSymbols(g: Productions, s: set<Item>): set<Symbol> {
    set i | i in s && i.prod < |g| && i.pos < |g[i.prod].right| :: g[i.prod].right[i.pos]
  }

  /** rt is the closure of ts: with least follow sets, or without follow sets. */
  ghost predicate IsStateClosure(lr1: bool, g: Productions, inv: seq<set<nat>>, nodes: NodeMap, ts: set<Item>,
                                 rt: set<Item>) {
    if lr1 then IsLr1Closure(g, inv, nodes, ts, rt)
    else IsClosure(g, CoresOf(ts), CoresOf(rt)) && forall i | i in rt :: i.follow == 0
  }

  ghost predicate IsGoto(lr1: bool, g: Productions, inv: seq<set<nat>>, nodes: NodeMap, s: set<Item>, x: Symbol,
                         t: set<Item>) {
    GotoItems(g, s, x) != {} && IsStateClosure(lr1, g, inv, nodes, GotoItems(g, s, x), t)
  }

  lemma {:induction false} StateClosureStays(lr1: bool, g: Productions, nofTerminals: nat, inv: seq<set<nat>>,
                                             inv': seq<set<nat>>, nodes: NodeMap, ts: set<Item>, rt: set<Item>)
    requires inv <= inv' && ItemsKnown(g, inv, ts) && NodesOk(g, nofTerminals, inv, nodes)
        && IsStateClosure(lr1, g, inv, nodes, ts, rt)
    ensures IsStateClosure(lr1, g, inv', nodes, ts, rt)
  {
    if lr1 { Lr1ClosureStays(g, nofTerminals, inv, inv', nodes, ts, rt); }
  }

  lemma {:induction false} GotoItemsKnown(g: Productions, inv: seq<set<nat>>, s: set<Item>, x: Symbol)
    requires ItemsKnown(g, inv, s)
    ensures ItemsKnown(g, inv, GotoItems(g, s, x))
  {
  }

  lemma {:induction false} StateClosureNotEmpty(lr1: bool, g: Productions, inv: seq<set<nat>>, nodes: NodeMap,
                                                ts: set<Item>, rt: set<Item>)
    requires ts != {} && IsStateClosure(lr1, g, inv, nodes, ts, rt)
    ensures rt != {}
  {
    var i :| i in ts;
    assert CoreOf(i) in CoresOf(ts);
    assert CoreOf(i) in CoresOf(rt) by { StateClosureCores(lr1, g, inv, nodes, ts, rt); }
  }

  lemma {:induction false} StateClosureCores(lr1: bool, g: Productions, inv: seq<set<nat>>, nodes: NodeMap,
                                             ts: set<Item>, rt: set<Item>)
    requires IsStateClosure(lr1, g, inv, nodes, ts, rt)
    ensures IsClosure(g, CoresOf(ts), CoresOf(rt))
  {
    if lr1 {
      var fo :| Lr1ClosureBy(g, inv, nodes, ts, rt, fo);
    }
  }

  method CalculateClosure(lr1: bool, fm: FollowMap, g: Productions, ts: set<Item>) returns (r: Result<set<Item>>)
    requires WellFormed(g, fm.nofTerminals) && fm.Valid() && fm.g == g && ItemsKnown(g, fm.sets.inv, ts)
    requires !lr1 ==> forall i | i in ts :: i.follow == 0
    modifies fm, fm.sets
    ensures fm.Valid() && old(fm.sets.inv) <= fm.sets.inv
    ensures r.Ok? ==> IsStateClosure(lr1, g, fm.sets.inv, fm.nodes, ts, r.value) && ItemsKnown(g, fm.sets.inv, r.value)
    ensures r.Err? ==> r.error == ComplexityLR1FollowSetsInGrammarDef
  {
    if lr1 {
      r := GetLr1TransitionStateClosure(fm, g, ts);
    } else {
      assert CoresInRange(g, CoresOf(ts));
      var rt := GetLr0TransitionStateClosure(g, fm.nofTerminals, ts);
      ClosureInRange(g, CoresOf(ts), CoresOf(rt));
      assert forall i | i in rt :: i.follow == 0 by {
        forall i | i in rt ensures i.follow == 0 { assert i in ts || i in rt - ts; }
      }
      forall i | i in rt ensures InRange(g, CoreOf(i)) { assert CoreOf(i) in CoresOf(rt); }
      r := Ok(rt);
    }
  }

  method CollectGotoNodes(g: Productions, s: set<Item>) returns (xs: set<Symbol>)
    requires CoresInRange(g, CoresOf(s))
    ensures xs == GotoSymbols(g, s)
  {
    xs := {};
    var todo := s;
    while todo != {}
      invariant todo <= s && xs == GotoSymbols(g, s - todo)
      decreases todo
    {
      var item := Least(todo);
      assert CoreOf(item) in CoresOf(s);
      ghost var done := s - todo;
      assert GotoSymbols(g, done + {item}) == GotoSymbols(g, done) + GotoSymbols(g, {item});
      if item.pos < |g[item.prod].right| {
        xs := xs + {g[item.prod].right[item.pos]};
      }
      todo := todo - {item};
      assert s - todo == done + {item};
    }
    assert s - todo == s;
  }

  /** The items with the symbol behind the dot, advanced over it. */
  method CollectGotoItems(g: Productions, s: set<Item>, x: Symbol) returns (kernel: set<Item>)
    requires CoresInRange(g, CoresOf(s))
    ensures kernel == GotoItems(g, s, x)
  {
    kernel := {};
    var todo := s;
    while todo != {}
      invariant todo <= s && kernel == GotoItems(g, s - todo, x)
      decreases todo
    {
      var item := Least(todo);
      assert CoreOf(item) in CoresOf(s);
      ghost var done := s - todo;
      assert GotoItems(g, done + {item}, x) == GotoItems(g, done, x) + GotoItems(g, {item}, x);
      if item.pos < |g[item.prod].right| && g[item.prod].right[item.pos] == x {
        kernel := kernel + {Item(item.prod, item.pos + 1, item.follow)};
      }
      todo := todo - {item};
      assert s - todo == done + {item};
    }
    assert s - todo == s;
  }

  method GetGotoState(lr1: bool, fm: FollowMap, g: Productions, s: set<Item>, x: Symbol) returns (r: Result<set<Item>>)
    requires WellFormed(g, fm.nofTerminals) && fm.Valid() && fm.g == g && ItemsKnown(g, fm.sets.inv, s)
    requires !lr1 ==> forall i | i in s :: i.follow == 0
    modifies fm, fm.sets
    ensures fm.Valid() && old(fm.sets.inv) <= fm.sets.inv
    ensures r.Ok? ==> IsStateClosure(lr1, g, fm.sets.inv, fm.nodes, GotoItems(g, s, x), r.value)
                      && ItemsKnown(g, fm.sets.inv, r.value)
    ensures r.Err? ==> r.error == ComplexityLR1FollowSetsInGrammarDef
  {
    KnownRange(g, fm.sets.inv, s);
    var kernel := CollectGotoItems(g, s, x);
    GotoItemsKnown(g, fm.sets.inv, s, x);
    r := CalculateClosure(lr1, fm, g, kernel);
  }

  // ---------------------------------------------------------------- the worklist

  ghost predicate Differ(list: seq<set<Item>>, j: nat, k: nat) {
    j < k < |list| ==> list[j] != list[k]
  }

  ghost predicate Distinct(list: seq<set<Item>>) {
    forall j: nat, k: nat {:trigger Differ(list, j, k)} :: Differ(list, j, k)
  }

  /** The numbering of the states in the order of their discovery, starting with 1. */
  ghost predicate Numbering(rt: map<set<Item>, nat>, list: seq<set<Item>>) {
    && rt.Keys == Members(list)
    && (forall k: nat {:trigger NumberedAt(rt, list, k)} :: NumberedAt(rt, list, k))
  }

  ghost predicate NumberedAt(rt: map<set<Item>, nat>, list: seq<set<Item>>, k: nat) {
    k < |list| ==> list[k] in rt && rt[list[k]] == k + 1
  }

  ghost function Members(list: seq<set<Item>>): set<set<Item>> {
    set s | s in list
  }

  ghost predicate HasGoto(lr1: bool, g: Productions, inv: seq<set<nat>>, nodes: NodeMap, list: seq<set<Item>>,
                          s: set<Item>, x: Symbol) {
    exists t :: t in list && IsGoto(lr1, g, inv, nodes, s, x, t)
  }

  ghost predicate HasOrigin(lr1: bool, g: Productions, inv: seq<set<nat>>, nodes: NodeMap, list: seq<set<Item>>, k: nat)
    requires k < |list|
  {
    exists j, x :: 0 <= j < k && IsGoto(lr1, g, inv, nodes, list[j], x, list[k])
  }

  ghost predicate AllKnown(lr1: bool, g: Productions, inv: seq<set<nat>>, list: seq<set<Item>>) {
    forall s {:trigger KnownState(lr1, g, inv, s)} | s in list :: KnownState(lr1, g, inv, s)
  }

  ghost predicate KnownState(lr1: bool, g: Productions, inv: seq<set<nat>>, s: set<Item>) {
    ItemsKnown(g, inv, s) && (!lr1 ==> forall i | i in s :: i.follow == 0)
  }

  /** What the list of states satisfies: it begins with the start state, later states come from earlier ones. */
  ghost predicate Discovered(lr1: bool, g: Productions, inv: seq<set<nat>>, nodes: NodeMap, list: seq<set<Item>>) {
    && |list| > 0 && Distinct(list) && AllKnown(lr1, g, inv, list)
    && IsStateClosure(lr1, g, inv, nodes, START, list[0])
    && forall k {:trigger HasOrigin(lr1, g, inv, nodes, list, k)} ::
        0 < k < |list| ==> HasOrigin(lr1, g, inv, nodes, list, k)
  }

  ghost predicate ExpandedAt(lr1: bool, g: Productions, inv: seq<set<nat>>, nodes: NodeMap, list: seq<set<Item>>,
                             k: nat)
    requires k < |list|
  {
    forall x {:trigger HasGoto(lr1, g, inv, nodes, list, list[k], x)} | x in GotoSymbols(g, list[k]) ::
        HasGoto(lr1, g, inv, nodes, list, list[k], x)
  }

  ghost predicate ExpandedUpTo(lr1: bool, g: Productions, inv: seq<set<nat>>, nodes: NodeMap, list: seq<set<Item>>,
                               n: nat)
    requires n <= |list|
  {
    forall k {:trigger ExpandedAt(lr1, g, inv, nodes, list, k)} ::
        0 <= k < n ==> ExpandedAt(lr1, g, inv, nodes, list, k)
  }

  /** The complete enumeration: closed under goto, every state reachable. */
  ghost predicate Enumerated(lr1: bool, g: Productions, inv: seq<set<nat>>, nodes: NodeMap, list: seq<set<Item>>) {
    Discovered(lr1, g, inv, nodes, list) && ExpandedUpTo(lr1, g, inv, nodes, list, |list|)
  }

  lemma {:induction false} IsGotoStays(lr1: bool, g: Productions, nofTerminals: nat, inv: seq<set<nat>>,
                                       inv': seq<set<nat>>, nodes: NodeMap, s: set<Item>, x: Symbol, t: set<Item>)
    requires inv <= inv' && ItemsKnown(g, inv, s) && NodesOk(g, nofTerminals, inv, nodes)
        && IsGoto(lr1, g, inv, nodes, s, x, t)
    ensures IsGoto(lr1, g, inv', nodes, s, x, t)
  {
    GotoItemsKnown(g, inv, s, x);
    StateClosureStays(lr1, g, nofTerminals, inv, inv', nodes, GotoItems(g, s, x), t);
  }

  lemma {:induction false} HasGotoStays(lr1: bool, g: Productions, nofTerminals: nat, inv: seq<set<nat>>,
                                        inv': seq<set<nat>>, nodes: NodeMap, list: seq<set<Item>>,
                                        list': seq<set<Item>>, s: set<Item>, x: Symbol)
    requires inv <= inv' && list <= list' && ItemsKnown(g, inv, s) && NodesOk(g, nofTerminals, inv, nodes)
        && HasGoto(lr1, g, inv, nodes, list, s, x)
    ensures HasGoto(lr1, g, inv', nodes, list', s, x)
  {
    var t :| t in list && IsGoto(lr1, g, inv, nodes, s, x, t);
    IsGotoStays(lr1, g, nofTerminals, inv, inv', nodes, s, x, t);
    assert t in list';
  }

  lemma {:induction false} HasOriginStays(lr1: bool, g: Productions, nofTerminals: nat, inv: seq<set<nat>>,
                                          inv': seq<set<nat>>, nodes: NodeMap, list: seq<set<Item>>,
                                          list': seq<set<Item>>, k: nat)
    requires inv <= inv' && list <= list' && AllKnown(lr1, g, inv, list) && NodesOk(g, nofTerminals, inv, nodes)
    requires k < |list| && HasOrigin(lr1, g, inv, nodes, list, k)
    ensures HasOrigin(lr1, g, inv', nodes, list', k)
  {
    var j, x :| 0 <= j < k && IsGoto(lr1, g, inv, nodes, list[j], x, list[k]);
    assert list[j] in list && KnownState(lr1, g, inv, list[j]);
    IsGotoStays(lr1, g, nofTerminals, inv, inv', nodes, list[j], x, list[k]);
    assert list'[j] == list[j] && list'[k] == list[k];
  }

  lemma {:induction false} DiscoveredStays(lr1: bool, g: Productions, nofTerminals: nat, inv: seq<set<nat>>,
                                           inv': seq<set<nat>>, nodes: NodeMap, list: seq<set<Item>>)
    requires inv <= inv' && NodesOk(g, nofTerminals, inv, nodes) && |inv| > 0 && |g| > 0
        && Discovered(lr1, g, inv, nodes, list)
    ensures Discovered(lr1, g, inv', nodes, list)
  {
    StateClosureStays(lr1, g, nofTerminals, inv, inv', nodes, START, list[0]);
    forall s | s in list ensures KnownState(lr1, g, inv', s) { assert KnownState(lr1, g, inv, s); }
    forall k | 0 < k < |list| ensures HasOrigin(lr1, g, inv', nodes, list, k) {
      HasOriginStays(lr1, g, nofTerminals, inv, inv', nodes, list, list, k);
    }
  }

  lemma {:induction false} DiscoveredAppend(lr1: bool, g: Productions, nofTerminals: nat, inv: seq<set<nat>>,
                                            nodes: NodeMap, list: seq<set<Item>>, j: nat, x: Symbol, t: set<Item>)
    requires NodesOk(g, nofTerminals, inv, nodes) && Discovered(lr1, g, inv, nodes, list)
    requires j < |list| && IsGoto(lr1, g, inv, nodes, list[j], x, t) && t !in list
    requires ItemsKnown(g, inv, t) && (!lr1 ==> forall i | i in t :: i.follow == 0)
    ensures Discovered(lr1, g, inv, nodes, list + [t])
  {
    var list' := list + [t];
    forall i: nat, k: nat ensures Differ(list', i, k) { assert Differ(list, i, k); }
    forall s | s in list' ensures KnownState(lr1, g, inv, s) { assert s in list ==> KnownState(lr1, g, inv, s); }
    forall k | 0 < k < |list'| ensures HasOrigin(lr1, g, inv, nodes, list', k) {
      if k < |list| {
        HasOriginStays(lr1, g, nofTerminals, inv, inv, nodes, list, list', k);
      } else {
        assert IsGoto(lr1, g, inv, nodes, list'[j], x, list'[k]);
      }
    }
  }

  lemma {:induction false} ExpandedStays(lr1: bool, g: Productions, nofTerminals: nat, inv: seq<set<nat>>,
                                         inv': seq<set<nat>>, nodes: NodeMap, list: seq<set<Item>>,
                                         list': seq<set<Item>>, n: nat)
    requires inv <= inv' && list <= list' && n <= |list| && AllKnown(lr1, g, inv, list)
        && NodesOk(g, nofTerminals, inv, nodes)
    requires ExpandedUpTo(lr1, g, inv, nodes, list, n)
    ensures ExpandedUpTo(lr1, g, inv', nodes, list', n)
  {
    forall k | 0 <= k < n ensures ExpandedAt(lr1, g, inv', nodes, list', k) {
      assert ExpandedAt(lr1, g, inv, nodes, list, k);
      assert list[k] in list && list'[k] == list[k] && KnownState(lr1, g, inv, list[k]);
      forall x | x in GotoSymbols(g, list[k]) ensures HasGoto(lr1, g, inv', nodes, list', list'[k], x) {
        assert HasGoto(lr1, g, inv, nodes, list, list[k], x);
        HasGotoStays(lr1, g, nofTerminals, inv, inv', nodes, list, list', list[k], x);
      }
    }
  }

  // ---------------------------------------------------------------- termination of the worklist

  ghost function Powerset<A>(u: set<A>): set<set<A>> {
    set s: set<A> | s <= u
  }

  ghost function AllTerminals(nofTerminals: nat): (r: set<nat>)
    ensures forall a: nat :: a in r <==> a <= nofTerminals
  {
    if nofTerminals == 0 then {0} else AllTerminals(nofTerminals - 1) + {nofTerminals}
  }

  /** No more handles than there are terminal sets. */
  ghost function HandleBound(nofTerminals: nat): nat {
    |Powerset(AllTerminals(nofTerminals))|
  }

  lemma {:induction false} InjectiveBound(inv: seq<set<nat>>, u: set<set<nat>>)
    requires Injective(inv) && forall s | s in inv :: s in u
    ensures |inv| <= |u|
    decreases |inv|
  {
    if inv != [] {
      var n := |inv| - 1;
      forall s | s in inv[..n] ensures s in u - {inv[n]} { assert s in inv; }
      InjectiveBound(inv[..n], u - {inv[n]});
    }
  }

  lemma {:induction false} HandlesBounded(nofTerminals: nat, inv: seq<set<nat>>)
    requires SetsOk(nofTerminals, inv)
    ensures |inv| <= HandleBound(nofTerminals)
  {
    forall s | s in inv ensures s in Powerset(AllTerminals(nofTerminals)) {
      forall a | a in s ensures a in AllTerminals(nofTerminals) {}
    }
    InjectiveBound(inv, Powerset(AllTerminals(nofTerminals)));
  }

  ghost function AllItems(g: Productions, bound: nat): set<Item> {
    set p, i, f | 0 <= p < |g| && 0 <= i <= |g[p].right| && 0 <= f < bound :: Item(p, i, f)
  }

  ghost function AllStates(g: Productions, nofTerminals: nat): set<set<Item>> {
    Powerset(AllItems(g, HandleBound(nofTerminals)))
  }

  lemma {:induction false} StatesBounded(lr1: bool, g: Productions, nofTerminals: nat, inv: seq<set<nat>>,
                                         list: seq<set<Item>>)
    requires SetsOk(nofTerminals, inv) && AllKnown(lr1, g, inv, list)
    ensures forall s | s in list :: s in AllStates(g, nofTerminals)
  {
    HandlesBounded(nofTerminals, inv);
    forall s | s in list ensures s in AllStates(g, nofTerminals) {
      assert KnownState(lr1, g, inv, s);
      StateBounded(g, inv, s, HandleBound(nofTerminals));
    }
  }

  lemma {:induction false} StateBounded(g: Productions, inv: seq<set<nat>>, s: set<Item>, bound: nat)
    requires ItemsKnown(g, inv, s) && |inv| <= bound
    ensures s <= AllItems(g, bound)
  {
    forall i | i in s ensures i in AllItems(g, bound) {
      assert InRange(g, CoreOf(i));
    }
  }

  // ---------------------------------------------------------------- getAutomatonStateAssignments

  /** States with their numbers, and the same states in the order of their numbers. */
  datatype Assignments = Assignments(numbers: map<set<Item>, nat>, states: seq<set<Item>>)

  ghost predicate AssignmentsOk(lr1: bool, g: Productions, inv: seq<set<nat>>, nodes: NodeMap, a: Assignments) {
    Discovered(lr1, g, inv, nodes, a.states) && Numbering(a.numbers, a.states)
  }

  /** More states, numbered on. */
  ghost predicate Extends(a: Assignments, b: Assignments) {
    && a.states <= b.states && a.numbers.Keys <= b.numbers.Keys
    && (|a.states| == |b.states| || a.numbers.Keys < b.numbers.Keys)
  }

  /** The goto of one state over one symbol. */
  method FindGoto(lr1: bool, fm: FollowMap, g: Productions, s: set<Item>, x: Symbol) returns (r: Result<set<Item>>)
    requires WellFormed(g, fm.nofTerminals) && fm.Valid() && fm.g == g && KnownState(lr1, g, fm.sets.inv, s)
        && x in GotoSymbols(g, s)
    modifies fm, fm.sets
    ensures fm.Valid() && old(fm.sets.inv) <= fm.sets.inv
    ensures r.Ok? ==> IsGoto(lr1, g, fm.sets.inv, fm.nodes, s, x, r.value) && KnownState(lr1, g, fm.sets.inv, r.value)
    ensures r.Err? ==> r.error == ComplexityLR1FollowSetsInGrammarDef
  {
    var to := GetGotoState(lr1, fm, g, s, x);
    if to.Err? {
      return Err(to.error);
    }
    GotoNotEmpty(g, s, x);
    StateClosureNotEmpty(lr1, g, fm.sets.inv, fm.nodes, GotoItems(g, s, x), to.value);
    if to.value == {} {
      return Err(LogicError);
    }
    GotoFollowsZero(lr1, g, fm.sets.inv, fm.nodes, s, x, to.value);
    r := to;
  }

  /** A state gets the next number when it is new. */
  function Number(a: Assignments, t: set<Item>): Assignments {
    if t in a.numbers then a else Assignments(a.numbers[t := |a.numbers| + 1], a.states + [t])
  }

  lemma {:induction false} NumberKeepsOk(lr1: bool, g: Productions, nofTerminals: nat, inv: seq<set<nat>>,
                                         nodes: NodeMap, a: Assignments, k: nat, x: Symbol, t: set<Item>)
    requires NodesOk(g, nofTerminals, inv, nodes) && AssignmentsOk(lr1, g, inv, nodes, a)
    requires k < |a.states| && IsGoto(lr1, g, inv, nodes, a.states[k], x, t) && KnownState(lr1, g, inv, t)
    ensures AssignmentsOk(lr1, g, inv, nodes, Number(a, t)) && Extends(a, Number(a, t))
    ensures HasGoto(lr1, g, inv, nodes, Number(a, t).states, a.states[k], x)
  {
    NotListed(a.numbers, a.states, t);
    if t !in a.numbers {
      DiscoveredAppend(lr1, g, nofTerminals, inv, nodes, a.states, k, x, t);
      NumberingAppend(a.numbers, a.states, t);
      assert Number(a, t).states[|a.states|] == t;
    }
  }

  lemma {:induction false} NotListed(rt: map<set<Item>, nat>, list: seq<set<Item>>, t: set<Item>)
    requires Numbering(rt, list)
    ensures t in rt <==> t in list
  {
    assert t in Members(list) <==> t in list;
  }

  lemma {:induction false} GotoNotEmpty(g: Productions, s: set<Item>, x: Symbol)
    requires x in GotoSymbols(g, s)
    ensures GotoItems(g, s, x) != {}
  {
    var i :| i in s && i.prod < |g| && i.pos < |g[i.prod].right| && g[i.prod].right[i.pos] == x;
    assert Item(i.prod, i.pos + 1, i.follow) in GotoItems(g, s, x);
  }

  lemma {:induction false} GotoFollowsZero(lr1: bool, g: Productions, inv: seq<set<nat>>, nodes: NodeMap, s: set<Item>,
                                           x: Symbol, t: set<Item>)
    requires IsGoto(lr1, g, inv, nodes, s, x, t)
    ensures !lr1 ==> forall i | i in t :: i.follow == 0
  {
  }

  lemma {:induction false} MoreKeys(rt: map<set<Item>, nat>, t: set<Item>, n: nat)
    requires t !in rt
    ensures rt.Keys < rt[t := n].Keys
  {
    assert rt[t := n].Keys == rt.Keys + {t};
  }

  lemma {:induction false} NumberingAppend(rt: map<set<Item>, nat>, list: seq<set<Item>>, t: set<Item>)
    requires Numbering(rt, list) && Distinct(list) && t !in list
    ensures Numbering(rt[t := |rt| + 1], list + [t])
    ensures rt.Keys < rt[t := |rt| + 1].Keys
  {
    NumberingSize(rt, list);
    NotListed(rt, list, t);
    MoreKeys(rt, t, |rt| + 1);
    var rt', list' := rt[t := |rt| + 1], list + [t];
    forall k: nat ensures NumberedAt(rt', list', k) {
      assert NumberedAt(rt, list, k);
      assert k < |list| ==> list[k] in list;
    }
  }

  lemma {:induction false} NumberingSize(rt: map<set<Item>, nat>, list: seq<set<Item>>)
    requires Numbering(rt, list) && Distinct(list)
    ensures |rt| == |list|
  {
    DistinctSize(list);
  }

  lemma {:induction false} DistinctSize(list: seq<set<Item>>)
    requires Distinct(list)
    ensures |Members(list)| == |list|
    decreases |list|
  {
    if list != [] {
      var n := |list| - 1;
      forall j: nat, k: nat ensures Differ(list[..n], j, k) { assert Differ(list, j, k); }
      DistinctSize(list[..n]);
      forall j | 0 <= j < n ensures list[j] != list[n] { assert Differ(list, j, n); }
      assert list == list[..n] + [list[n]];
      assert Members(list) == Members(list[..n]) + {list[n]};
    }
  }

  /** One goto of a state. */
  method ExpandOver(lr1: bool, fm: FollowMap, g: Productions, a: Assignments, s: set<Item>, x: Symbol,
                    ghost a0: Assignments, ghost k: nat, ghost done: set<Symbol>)
    returns (r: Result<Assignments>)
    requires WellFormed(g, fm.nofTerminals) && fm.Valid() && fm.g == g && x in GotoSymbols(g, s)
    requires ExpandInvariant(lr1, g, fm.sets.inv, fm.nodes, a0, a, s, done) && k < |a0.states| && a0.states[k] == s
    modifies fm, fm.sets
    ensures fm.Valid() && old(fm.sets.inv) <= fm.sets.inv
    ensures r.Ok? ==> ExpandInvariant(lr1, g, fm.sets.inv, fm.nodes, a0, r.value, s, done + {x})
    ensures r.Err? ==> r.error == ComplexityLR1FollowSetsInGrammarDef
  {
    ghost var inv := fm.sets.inv;
    ExpandKnows(lr1, g, inv, fm.nodes, a0, a, s, done);
    var to := FindGoto(lr1, fm, g, s, x);
    if to.Err? {
      return Err(to.error);
    }
    ExpandStep(lr1, g, fm.nofTerminals, inv, fm.sets.inv, fm.nodes, a0, a, k, s, done, x, to.value);
    r := Ok(Number(a, to.value));
  }

  /** All gotos of one state. */
  method ExpandState(lr1: bool, fm: FollowMap, g: Productions, a0: Assignments, k: nat) returns (r: Result<Assignments>)
    requires WellFormed(g, fm.nofTerminals) && fm.Valid() && fm.g == g
        && AssignmentsOk(lr1, g, fm.sets.inv, fm.nodes, a0) && k < |a0.states|
    modifies fm, fm.sets
    ensures fm.Valid() && old(fm.sets.inv) <= fm.sets.inv
    ensures r.Ok? ==> AssignmentsOk(lr1, g, fm.sets.inv, fm.nodes, r.value) && Extends(a0, r.value)
    ensures r.Ok? ==> ExpandedAt(lr1, g, fm.sets.inv, fm.nodes, r.value.states, k)
    ensures r.Err? ==> r.error == ComplexityLR1FollowSetsInGrammarDef
  {
    ghost var inv0 := fm.sets.inv;
    var a := a0;
    var s := a0.states[k];
    assert s in a0.states && KnownState(lr1, g, inv0, s);
    KnownRange(g, inv0, s);
    var gtos := CollectGotoNodes(g, s);
    var todo := gtos;
    assert gtos - todo == {};
    while todo != {}
      invariant todo <= gtos && fm.Valid() && inv0 <= fm.sets.inv
      invariant ExpandInvariant(lr1, g, fm.sets.inv, fm.nodes, a0, a, s, gtos - todo)
      decreases todo
    {
      var x :| x in todo;
      var next := ExpandOver(lr1, fm, g, a, s, x, a0, k, gtos - todo);
      if next.Err? {
        return next;
      }
      a := next.value;
      assert gtos - (todo - {x}) == (gtos - todo) + {x};
      todo := todo - {x};
    }
    assert gtos - todo == gtos;
    ExpandDone(lr1, g, fm.sets.inv, fm.nodes, a0, a, k);
    r := Ok(a);
  }

  lemma {:induction false} ExpandKnows(lr1: bool, g: Productions, inv: seq<set<nat>>, nodes: NodeMap, a0: Assignments,
                                       a: Assignments, s: set<Item>, done: set<Symbol>)
    requires ExpandInvariant(lr1, g, inv, nodes, a0, a, s, done)
    ensures KnownState(lr1, g, inv, s)
  {
    assert Look(0);
  }

  lemma {:induction false} ExpandDone(lr1: bool, g: Productions, inv: seq<set<nat>>, nodes: NodeMap, a0: Assignments,
                                      a: Assignments, k: nat)
    requires k < |a0.states| && ExpandInvariant(lr1, g, inv, nodes, a0, a, a0.states[k], GotoSymbols(g, a0.states[k]))
    ensures AssignmentsOk(lr1, g, inv, nodes, a) && Extends(a0, a) && ExpandedAt(lr1, g, inv, nodes, a.states, k)
  {
    assert Look(0);
  }

  ghost predicate ExpandInvariant(lr1: bool, g: Productions, inv: seq<set<nat>>, nodes: NodeMap, a0: Assignments,
                                  a: Assignments, s: set<Item>, done: set<Symbol>) {
    forall z: int {:trigger Look(z)} :: Look(z) ==>
      AssignmentsOk(lr1, g, inv, nodes, a) && Extends(a0, a) && HaveGotos(lr1, g, inv, nodes, a.states, s, done)
          && KnownState(lr1, g, inv, s)
  }

  lemma {:induction false} ExpandStep(lr1: bool, g: Productions, nofTerminals: nat, inv: seq<set<nat>>,
                                      inv': seq<set<nat>>, nodes: NodeMap, a0: Assignments, a: Assignments, k: nat,
                                      s: set<Item>, done: set<Symbol>, x: Symbol, t: set<Item>)
    requires inv <= inv' && NodesOk(g, nofTerminals, inv, nodes) && |inv| > 0 && |g| > 0
    requires ExpandInvariant(lr1, g, inv, nodes, a0, a, s, done) && k < |a0.states| && a0.states[k] == s
    requires IsGoto(lr1, g, inv', nodes, s, x, t) && KnownState(lr1, g, inv', t)
    ensures ExpandInvariant(lr1, g, inv', nodes, a0, Number(a, t), s, done + {x})
  {
    assert Look(0);
    NodesStay(g, nofTerminals, inv, inv', nodes);
    DiscoveredStays(lr1, g, nofTerminals, inv, inv', nodes, a.states);
    NumberKeepsOk(lr1, g, nofTerminals, inv', nodes, a, k, x, t);
    HaveGotosStay(lr1, g, nofTerminals, inv, inv', nodes, a.states, Number(a, t).states, s, done);
  }

  lemma {:induction false} KnownRange(g: Productions, inv: seq<set<nat>>, s: set<Item>)
    requires ItemsKnown(g, inv, s)
    ensures CoresInRange(g, CoresOf(s))
  {
  }

  ghost predicate HaveGotos(lr1: bool, g: Productions, inv: seq<set<nat>>, nodes: NodeMap, list: seq<set<Item>>,
                            s: set<Item>, xs: set<Symbol>) {
    forall x {:trigger HasGoto(lr1, g, inv, nodes, list, s, x)} | x in xs :: HasGoto(lr1, g, inv, nodes, list, s, x)
  }

  lemma {:induction false} HaveGotosStay(lr1: bool, g: Productions, nofTerminals: nat, inv: seq<set<nat>>,
                                         inv': seq<set<nat>>, nodes: NodeMap, list: seq<set<Item>>,
                                         list': seq<set<Item>>, s: set<Item>, xs: set<Symbol>)
    requires inv <= inv' && list <= list' && ItemsKnown(g, inv, s) && NodesOk(g, nofTerminals, inv, nodes)
        && HaveGotos(lr1, g, inv, nodes, list, s, xs)
    ensures HaveGotos(lr1, g, inv', nodes, list', s, xs)
  {
    forall x | x in xs ensures HasGoto(lr1, g, inv', nodes, list', s, x) {
      assert HasGoto(lr1, g, inv, nodes, list, s, x);
      HasGotoStays(lr1, g, nofTerminals, inv, inv', nodes, list, list', s, x);
    }
  }

  method StartState(lr1: bool, fm: FollowMap, g: Productions) returns (r: Result<Assignments>)
    requires WellFormed(g, fm.nofTerminals) && fm.Valid() && fm.g == g
    modifies fm, fm.sets
    ensures fm.Valid() && old(fm.sets.inv) <= fm.sets.inv
    ensures r.Ok? ==> AssignmentsOk(lr1, g, fm.sets.inv, fm.nodes, r.value)
    ensures r.Err? ==> r.error == ComplexityLR1FollowSetsInGrammarDef
  {
    var s := CalculateClosure(lr1, fm, g, START);
    if s.Err? {
      return Err(s.error);
    }
    r := Ok(Assignments(map[s.value := 1], [s.value]));
    ghost var list := r.value.states;
    assert Members(list) == {s.value};
    forall k: nat ensures NumberedAt(r.value.numbers, list, k) {}
    forall j: nat, k: nat ensures Differ(list, j, k) {}
    forall t | t in list ensures KnownState(lr1, g, fm.sets.inv, t) { assert t == s.value; }
  }

  /** The growing worklist: every state found is expanded once. */
  method GetAutomatonStateAssignments(lr1: bool, fm: FollowMap, g: Productions) returns (r: Result<Assignments>)
    requires WellFormed(g, fm.nofTerminals) && fm.Valid() && fm.g == g
    modifies fm, fm.sets
    ensures fm.Valid() && old(fm.sets.inv) <= fm.sets.inv
    ensures r.Ok? ==> Numbering(r.value.numbers, r.value.states)
                      && Enumerated(lr1, g, fm.sets.inv, fm.nodes, r.value.states)
    ensures r.Err? ==> r.error == ComplexityLR1FollowSetsInGrammarDef
  {
    var start := StartState(lr1, fm, g);
    if start.Err? {
      return start;
    }
    var a := start.value;
    var k := 0;
    StatesBounded(lr1, g, fm.nofTerminals, fm.sets.inv, a.states);
    ghost var all := AllStates(g, fm.nofTerminals);
    while k < |a.states|
      invariant 0 <= k <= |a.states|
      invariant old(fm.sets.inv) <= fm.sets.inv
      invariant fm.Valid() && AssignmentsOk(lr1, g, fm.sets.inv, fm.nodes, a)
      invariant ExpandedUpTo(lr1, g, fm.sets.inv, fm.nodes, a.states, k)
      invariant a.numbers.Keys <= all == AllStates(g, fm.nofTerminals)
      decreases all - a.numbers.Keys, |a.states| - k
    {
      ghost var inv, before := fm.sets.inv, a;
      var more := ExpandState(lr1, fm, g, a, k);
      if more.Err? {
        return more;
      }
      a := more.value;
      WorklistStep(lr1, g, fm.nofTerminals, inv, fm.sets.inv, fm.nodes, before, a, k);
      k := k + 1;
    }
    r := Ok(a);
  }

  lemma {:induction false} WorklistStep(lr1: bool, g: Productions, nofTerminals: nat, inv: seq<set<nat>>,
                                        inv': seq<set<nat>>, nodes: NodeMap, before: Assignments, after: Assignments,
                                        k: nat)
    requires inv <= inv' && NodesOk(g, nofTerminals, inv, nodes) && SetsOk(nofTerminals, inv')
    requires AssignmentsOk(lr1, g, inv, nodes, before) && AssignmentsOk(lr1, g, inv', nodes, after)
        && Extends(before, after)
    requires k < |before.states| && ExpandedUpTo(lr1, g, inv, nodes, before.states, k)
        && ExpandedAt(lr1, g, inv', nodes, after.states, k)
    ensures ExpandedUpTo(lr1, g, inv', nodes, after.states, k + 1)
    ensures after.numbers.Keys <= AllStates(g, nofTerminals)
    ensures before.numbers.Keys < after.numbers.Keys
        || (before.numbers.Keys == after.numbers.Keys && |before.states| == |after.states|)
  {
    ExpandedStays(lr1, g, nofTerminals, inv, inv', nodes, before.states, after.states, k);
    StatesBounded(lr1, g, nofTerminals, inv', after.states);
    if |before.states| == |after.states| {
      assert before.states == after.states;
    }
  }
}
