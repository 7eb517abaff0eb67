/** LR(1) closure with interned follow sets, proved to be the least solution of its follow constraints. */
module Closure {
  import opened Grammar
  import opened BuildErrors
  import opened FirstSets
  import opened Tables
  import opened FollowSets
  import opened Items

  /** A set of pairs (nonterminal, terminal that can follow it). */
  type Follows = set<(nat, nat)>

  ghost function FollowsOf(inv: seq<set<nat>>, fo: map<nat, nat>): Follows {
    set n, a | n in fo && fo[n] < |inv| && a in inv[fo[n]] :: (n, a)
  }

  ghost predicate HandlesKnown(inv: seq<set<nat>>, fo: map<nat, nat>) {
    forall n | n in fo :: fo[n] < |inv|
  }

  ghost predicate ItemsKnown(g: Productions, inv: seq<set<nat>>, ts: set<Item>) {
    forall i | i in ts :: i.follow < |inv| && InRange(g, CoreOf(i))
  }

  /** What the items of the kernel pass on to their heads. */
  ghost function InheritedSeeds(g: Productions, inv: seq<set<nat>>, ts: set<Item>): Follows {
    set i, a | i in ts && i.prod < |g| && i.follow < |inv| && a in inv[i.follow] :: (g[i.prod].left, a)
  }

  ghost predicate ExpectsNode(g: Productions, nodes: NodeMap, c: Core) {
    NonterminalAt(g, c.prod, c.pos) && (c.prod, c.pos) in nodes
  }

  /** What can follow the nonterminals behind a dot by FIRST of the rest of the right side. */
  ghost function NodeSeeds(g: Productions, inv: seq<set<nat>>, nodes: NodeMap, cl: set<Core>): Follows {
    set c, a | c in cl && ExpectsNode(g, nodes, c) && nodes[(c.prod, c.pos)].handle < |inv|
        && a in inv[nodes[(c.prod, c.pos)].handle]
      :: (g[c.prod].right[c.pos].n, a)
  }

  /** Where the rest can vanish, the follow set of the head is inherited. */
  ghost function Edges(g: Productions, nodes: NodeMap, cl: set<Core>): set<(nat, nat)> {
    set c | c in cl && ExpectsNode(g, nodes, c) && nodes[(c.prod, c.pos)].inherit ::
        (g[c.prod].left, g[c.prod].right[c.pos].n)
  }

  ghost predicate Solves(seeds: Follows, edges: set<(nat, nat)>, s: Follows) {
    seeds <= s && forall e, a: nat | e in edges && (e.0, a) in s :: (e.1, a) in s
  }

  ghost predicate LeastSolution(seeds: Follows, edges: set<(nat, nat)>, s: Follows) {
    Solves(seeds, edges, s) && forall o | Solves(seeds, edges, o) :: s <= o
  }

  ghost function Seeds(g: Productions, inv: seq<set<nat>>, nodes: NodeMap, ts: set<Item>, cl: set<Core>): Follows {
    InheritedSeeds(g, inv, ts) + NodeSeeds(g, inv, nodes, cl)
  }

  /** Some node has a handle that does not fit the ten bits of a packed item. */
  ghost predicate Overflowing(g: Productions, nodes: NodeMap) {
    exists p: nat, i: nat, h: nat :: HasHandle(g, nodes, p, i, h) && h >= MAX_TERMINAL
  }

  /** Every nonterminal behind a dot has the handle of its node as its follow set. */
  ghost predicate Direct(g: Productions, nodes: NodeMap, cl: set<Core>, fo: map<nat, nat>) {
    forall c | c in cl && ExpectsNode(g, nodes, c) ::
        HasFollow(fo, g[c.prod].right[c.pos].n, nodes[(c.prod, c.pos)].handle)
  }

  /** The heads of the kernel items have kept their follow sets. */
  ghost predicate Kept(g: Productions, ts: set<Item>, fo: map<nat, nat>) {
    forall i | i in ts && i.prod < |g| :: HasFollow(fo, g[i.prod].left, i.follow)
  }

  predicate HasFollow(fo: map<nat, nat>, n: nat, h: nat) {
    n in fo && fo[n] == h
  }

  lemma {:induction false} OverflowingIsFull(g: Productions, nofTerminals: nat, inv: seq<set<nat>>, nodes: NodeMap)
    requires NodesOk(g, nofTerminals, inv, nodes) && Overflowing(g, nodes)
    ensures |inv| >= MAX_TERMINAL - 1
  {
    var p: nat, i: nat, h: nat :| HasHandle(g, nodes, p, i, h) && h >= MAX_TERMINAL;
    assert NodeOk(g, nofTerminals, inv, nodes, p, i);
  }

  /** The cores are the LR(0) closure, the follow sets the least solution. Once some handle is too large no two sets are
      joined any more, so that what the closure has are the handles of the kernel and of the nodes. */
  ghost predicate Lr1ClosureBy(g: Productions, inv: seq<set<nat>>, nodes: NodeMap, ts: set<Item>, rt: set<Item>,
                               fo: map<nat, nat>) {
    && IsClosure(g, CoresOf(ts), CoresOf(rt))
    && HandlesKnown(inv, fo)
    && (forall i | i in rt :: i.prod < |g| && g[i.prod].left in fo && i.follow == fo[g[i.prod].left])
    && LeastSolution(Seeds(g, inv, nodes, ts, CoresOf(rt)), Edges(g, nodes, CoresOf(rt)), FollowsOf(inv, fo))
    && (Overflowing(g, nodes) ==> Direct(g, nodes, CoresOf(rt), fo) && Kept(g, ts, fo))
  }

  /** The items of rt are the LR(0) closure of ts; each carries the least follow set of its head. */
  ghost predicate IsLr1Closure(g: Productions, inv: seq<set<nat>>, nodes: NodeMap, ts: set<Item>, rt: set<Item>) {
    exists fo :: Lr1ClosureBy(g, inv, nodes, ts, rt, fo)
  }

  // ---------------------------------------------------------------- growth of the set table

  lemma {:induction false} InheritedSeedsStay(g: Productions, inv: seq<set<nat>>, inv': seq<set<nat>>, ts: set<Item>)
    requires inv <= inv' && ItemsKnown(g, inv, ts)
    ensures InheritedSeeds(g, inv', ts) == InheritedSeeds(g, inv, ts)
  {
  }

  lemma {:induction false} NodesKnown(g: Productions, nofTerminals: nat, inv: seq<set<nat>>, inv': seq<set<nat>>,
                                      nodes: NodeMap, cl: set<Core>)
    requires inv <= inv' && NodesOk(g, nofTerminals, inv, nodes)
    ensures NodeSeeds(g, inv', nodes, cl) == NodeSeeds(g, inv, nodes, cl)
  {
    forall c | c in cl && ExpectsNode(g, nodes, c) ensures nodes[(c.prod, c.pos)].handle < |inv| {
      assert NodeOk(g, nofTerminals, inv, nodes, c.prod, c.pos);
    }
    NodeSeedsStay(g, inv, inv', nodes, cl);
  }

  lemma {:induction false} NodeSeedsStay(g: Productions, inv: seq<set<nat>>, inv': seq<set<nat>>, nodes: NodeMap,
                                         cl: set<Core>)
    requires inv <= inv' && forall c | c in cl && ExpectsNode(g, nodes, c) :: nodes[(c.prod, c.pos)].handle < |inv|
    ensures NodeSeeds(g, inv', nodes, cl) == NodeSeeds(g, inv, nodes, cl)
  {
  }

  lemma {:induction false} FollowsStay(inv: seq<set<nat>>, inv': seq<set<nat>>, fo: map<nat, nat>)
    requires inv <= inv' && HandlesKnown(inv, fo)
    ensures FollowsOf(inv', fo) == FollowsOf(inv, fo) && HandlesKnown(inv', fo)
  {
  }

  lemma {:induction false} Lr1ClosureStays(g: Productions, nofTerminals: nat, inv: seq<set<nat>>, inv': seq<set<nat>>,
                                           nodes: NodeMap, ts: set<Item>, rt: set<Item>)
    requires inv <= inv' && ItemsKnown(g, inv, ts) && NodesOk(g, nofTerminals, inv, nodes)
        && IsLr1Closure(g, inv, nodes, ts, rt)
    ensures IsLr1Closure(g, inv', nodes, ts, rt)
  {
    var fo :| Lr1ClosureBy(g, inv, nodes, ts, rt, fo);
    InheritedSeedsStay(g, inv, inv', ts);
    NodesKnown(g, nofTerminals, inv, inv', nodes, CoresOf(rt));
    FollowsStay(inv, inv', fo);
    assert Lr1ClosureBy(g, inv', nodes, ts, rt, fo);
  }

  // ---------------------------------------------------------------- the phases of getLr1TransitionStateClosure

  lemma {:induction false} FollowsPut(inv: seq<set<nat>>, inv': seq<set<nat>>, fo: map<nat, nat>, n: nat, h: nat,
                                      handle: nat)
    requires inv <= inv' && HandlesKnown(inv, fo) && h < |inv'| && handle < |inv|
    requires inv'[h] == inv[handle] + if n in fo then inv[fo[n]] else {}
    ensures HandlesKnown(inv', fo[n := h])
    ensures FollowsOf(inv', fo[n := h]) == FollowsOf(inv, fo) + set a | a in inv[handle] :: (n, a)
  {
  }

  /** Adds the content of a handle to the follow set of a nonterminal. */
  method AddFollow(fm: FollowMap, fo: map<nat, nat>, n: nat, handle: nat) returns (r: Result<map<nat, nat>>)
    requires fm.Valid() && HandlesKnown(fm.sets.inv, fo) && handle < |fm.sets.inv|
    modifies fm, fm.sets
    ensures fm.Valid() && old(fm.sets.inv) <= fm.sets.inv
    ensures r.Ok? ==> HandlesKnown(fm.sets.inv, r.value) && r.value.Keys == fo.Keys + {n}
    ensures r.Ok? ==> FollowsOf(fm.sets.inv, r.value) == FollowsOf(old(fm.sets.inv), fo)
                      + set a | a in old(fm.sets.inv)[handle] :: (n, a)
    ensures r.Ok? && |old(fm.sets.inv)| >= MAX_TERMINAL - 1 ==> n !in fo && r.value == fo[n := handle]
    ensures r.Err? ==> r.error == ComplexityLR1FollowSetsInGrammarDef
  {
    ghost var inv := fm.sets.inv;
    if n !in fo {
      FollowsPut(inv, inv, fo, n, handle, handle);
      return Ok(fo[n := handle]);
    }
    var joined := fm.Join(handle, fo[n]);
    match joined
    case Err(e) => return Err(e);
    case Ok(h) =>
      FollowsPut(inv, fm.sets.inv, fo, n, h, handle);
      return Ok(fo[n := h]);
  }

  /** InheritFollow over the items done. */
  ghost predicate InheritedState(g: Productions, inv: seq<set<nat>>, inv': seq<set<nat>>, fo: map<nat, nat>,
                                 done: set<Item>) {
    && HandlesKnown(inv', fo) && FollowsOf(inv', fo) == InheritedSeeds(g, inv, done)
    && (forall i | i in done :: i.prod < |g| && g[i.prod].left in fo)
    && (|inv| >= MAX_TERMINAL - 1 ==> Kept(g, done, fo))
  }

  lemma {:induction false} InheritedMore(g: Productions, inv: seq<set<nat>>, inv1: seq<set<nat>>, fo: map<nat, nat>,
                                         inv2: seq<set<nat>>, fo': map<nat, nat>, done: set<Item>, item: Item)
    requires inv <= inv1 <= inv2 && InheritedState(g, inv, inv1, fo, done) && item.prod < |g| && item.follow < |inv|
    requires HandlesKnown(inv2, fo') && fo'.Keys == fo.Keys + {g[item.prod].left}
    requires FollowsOf(inv2, fo') == FollowsOf(inv1, fo) + set a | a in inv1[item.follow] :: (g[item.prod].left, a)
    requires |inv| >= MAX_TERMINAL - 1 ==> g[item.prod].left !in fo && fo' == fo[g[item.prod].left := item.follow]
    ensures InheritedState(g, inv, inv2, fo', done + {item})
  {
    InheritedStep(g, inv, done, item);
  }

  /** [1] Follow sets inherited by the heads of the kernel items. */
  method InheritFollow(fm: FollowMap, g: Productions, ts: set<Item>) returns (r: Result<map<nat, nat>>)
    requires fm.Valid() && fm.g == g && ItemsKnown(g, fm.sets.inv, ts)
    modifies fm, fm.sets
    ensures fm.Valid() && old(fm.sets.inv) <= fm.sets.inv
    ensures r.Ok? ==> InheritedState(g, old(fm.sets.inv), fm.sets.inv, r.value, ts)
    ensures r.Err? ==> r.error == ComplexityLR1FollowSetsInGrammarDef
  {
    ghost var inv := fm.sets.inv;
    var fo: map<nat, nat> := map[];
    var todo := ts;
    while todo != {}
      invariant todo <= ts && fm.Valid() && inv <= fm.sets.inv && InheritedState(g, inv, fm.sets.inv, fo, ts - todo)
      decreases todo
    {
      var item := Least(todo);
      ghost var inv1 := fm.sets.inv;
      var added := AddFollow(fm, fo, g[item.prod].left, item.follow);
      if added.Err? {
        return added;
      }
      InheritedMore(g, inv, inv1, fo, fm.sets.inv, added.value, ts - todo, item);
      fo := added.value;
      todo := todo - {item};
      assert ts - todo == (ts - (todo + {item})) + {item};
    }
    assert ts - todo == ts;
    return Ok(fo);
  }

  lemma {:induction false} InheritedStep(g: Productions, inv: seq<set<nat>>, done: set<Item>, item: Item)
    requires item.prod < |g| && item.follow < |inv|
    ensures InheritedSeeds(g, inv, done + {item}) == InheritedSeeds(g, inv, done) + set a | a in inv[item.follow] ::
        (g[item.prod].left, a)
  {
  }

  lemma {:induction false} NodeStep(g: Productions, inv: seq<set<nat>>, nodes: NodeMap, done: set<Core>, c: Core)
    ensures NodeSeeds(g, inv, nodes, done + {c}) == NodeSeeds(g, inv, nodes, done) + NodeSeeds(g, inv, nodes, {c})
  {
  }

  lemma {:induction false} NodeSeedsOne(g: Productions, inv: seq<set<nat>>, nodes: NodeMap, c: Core)
    requires ExpectsNode(g, nodes, c) ==> nodes[(c.prod, c.pos)].handle < |inv|
    ensures NodeSeeds(g, inv, nodes, {c}) ==
            if ExpectsNode(g, nodes, c) then
                set a | a in inv[nodes[(c.prod, c.pos)].handle] :: (g[c.prod].right[c.pos].n, a) else {}
  {
  }

  /** The contribution of one item in phase [2]. */
  method FollowNode(fm: FollowMap, g: Productions, item: Item, fo: map<nat, nat>, ghost inv: seq<set<nat>>)
    returns (r: Result<map<nat, nat>>)
    requires fm.Valid() && fm.g == g && HandlesKnown(fm.sets.inv, fo) && InRange(g, CoreOf(item))
    requires inv <= fm.sets.inv && NodesOk(g, fm.nofTerminals, inv, fm.nodes)
    modifies fm, fm.sets
    ensures fm.Valid() && old(fm.sets.inv) <= fm.sets.inv
    ensures r.Ok? ==> HandlesKnown(fm.sets.inv, r.value) && fo.Keys <= r.value.Keys
    ensures r.Ok? ==> FollowsOf(fm.sets.inv, r.value) == FollowsOf(old(fm.sets.inv), fo)
                      + NodeSeeds(g, inv, fm.nodes, {CoreOf(item)})
    ensures r.Ok? && NonterminalAt(g, item.prod, item.pos) ==> g[item.prod].right[item.pos].n in r.value
    ensures r.Ok? && |old(fm.sets.inv)| >= MAX_TERMINAL - 1 ==> DirectStep(g, fm.nodes, fo, r.value, CoreOf(item))
    ensures r.Err? ==> r.error == ComplexityLR1FollowSetsInGrammarDef
  {
    if item.pos < |g[item.prod].right| && g[item.prod].right[item.pos].N? {
      assert NodeOk(g, fm.nofTerminals, inv, fm.nodes, item.prod, item.pos);
      NodeSeedsOne(g, inv, fm.nodes, CoreOf(item));
      r := AddFollow(fm, fo, g[item.prod].right[item.pos].n, fm.nodes[(item.prod, item.pos)].handle);
    } else {
      NodeSeedsOne(g, inv, fm.nodes, CoreOf(item));
      r := Ok(fo);
    }
  }

  /** A nonterminal new behind a dot gets the handle of its node. */
  ghost predicate DirectStep(g: Productions, nodes: NodeMap, fo: map<nat, nat>, fo': map<nat, nat>, c: Core) {
    if ExpectsNode(g, nodes, c) then
      g[c.prod].right[c.pos].n !in fo && fo' == fo[g[c.prod].right[c.pos].n := nodes[(c.prod, c.pos)].handle]
    else fo' == fo
  }

  lemma {:induction false} DirectGrows(g: Productions, nodes: NodeMap, done: set<Core>, fo: map<nat, nat>,
                                       fo': map<nat, nat>, c: Core)
    requires Direct(g, nodes, done, fo) && DirectStep(g, nodes, fo, fo', c)
    ensures Direct(g, nodes, done + {c}, fo')
  {
    forall d | d in done + {c} && ExpectsNode(g, nodes, d)
        ensures HasFollow(fo', g[d.prod].right[d.pos].n, nodes[(d.prod, d.pos)].handle) {
      if d in done { assert HasFollow(fo, g[d.prod].right[d.pos].n, nodes[(d.prod, d.pos)].handle); }
    }
  }

  /** FollowByFirst over the items with the cores done. */
  ghost predicate FirstState(g: Productions, nodes: NodeMap, inv: seq<set<nat>>, fo0: map<nat, nat>,
                             inv': seq<set<nat>>, fo: map<nat, nat>, done: set<Core>) {
    && HandlesKnown(inv', fo) && fo0.Keys <= fo.Keys
    && FollowsOf(inv', fo) == FollowsOf(inv, fo0) + NodeSeeds(g, inv, nodes, done)
    && (|inv| >= MAX_TERMINAL - 1 ==> Direct(g, nodes, done, fo) && forall n | n in fo0 :: HasFollow(fo, n, fo0[n]))
  }

  lemma {:induction false} FirstStateStep(g: Productions, nodes: NodeMap, inv: seq<set<nat>>, fo0: map<nat, nat>,
                                          inv1: seq<set<nat>>, fo: map<nat, nat>, inv2: seq<set<nat>>,
                                          fo': map<nat, nat>, done: set<Core>, c: Core)
    requires FirstState(g, nodes, inv, fo0, inv1, fo, done) && HandlesKnown(inv2, fo') && fo.Keys <= fo'.Keys
    requires FollowsOf(inv2, fo') == FollowsOf(inv1, fo) + NodeSeeds(g, inv, nodes, {c})
    requires |inv| >= MAX_TERMINAL - 1 ==> DirectStep(g, nodes, fo, fo', c)
    ensures FirstState(g, nodes, inv, fo0, inv2, fo', done + {c})
  {
    NodeStep(g, inv, nodes, done, c);
    if |inv| >= MAX_TERMINAL - 1 {
      DirectGrows(g, nodes, done, fo, fo', c);
      forall n | n in fo0 ensures HasFollow(fo', n, fo0[n]) { assert HasFollow(fo, n, fo0[n]); }
    }
  }

  /** [2] FIRST of the rest, for every nonterminal behind a dot. */
  method FollowByFirst(fm: FollowMap, g: Productions, items: set<Item>, fo0: map<nat, nat>)
    returns (r: Result<map<nat, nat>>)
    requires fm.Valid() && fm.g == g && HandlesKnown(fm.sets.inv, fo0) && CoresInRange(g, CoresOf(items))
    modifies fm, fm.sets
    ensures fm.Valid() && old(fm.sets.inv) <= fm.sets.inv
    ensures r.Ok? ==> FirstState(g, fm.nodes, old(fm.sets.inv), fo0, fm.sets.inv, r.value, CoresOf(items))
    ensures r.Ok? ==> forall i | i in items && NonterminalAt(g, i.prod, i.pos) :: g[i.prod].right[i.pos].n in r.value
    ensures r.Err? ==> r.error == ComplexityLR1FollowSetsInGrammarDef
  {
    ghost var inv := fm.sets.inv;
    var fo := fo0;
    var todo := items;
    assert CoresOf(items - todo) == {};
    while todo != {}
      invariant todo <= items && fm.Valid() && inv <= fm.sets.inv
      invariant FirstState(g, fm.nodes, inv, fo0, fm.sets.inv, fo, CoresOf(items - todo))
      invariant forall i | i in items - todo && NonterminalAt(g, i.prod, i.pos) :: g[i.prod].right[i.pos].n in fo
      decreases todo
    {
      var item := Least(todo);
      assert CoreOf(item) in CoresOf(items);
      ghost var done, inv1 := CoresOf(items - todo), fm.sets.inv;
      var added := FollowNode(fm, g, item, fo, inv);
      if added.Err? {
        return added;
      }
      FirstStateStep(g, fm.nodes, inv, fo0, inv1, fo, fm.sets.inv, added.value, done, CoreOf(item));
      fo := added.value;
      todo := todo - {item};
      assert CoresOf(items - todo) == done + {CoreOf(item)};
    }
    assert items - todo == items;
    return Ok(fo);
  }

  /** Every terminal of a follow map is one of the grammar, every nonterminal one of its keys. */
  ghost function AllFollows(keys: set<nat>, nofTerminals: nat): Follows {
    set n, a | n in keys && 0 <= a <= nofTerminals :: (n, a)
  }

  lemma {:induction false} FollowsBounded(nofTerminals: nat, inv: seq<set<nat>>, fo: map<nat, nat>)
    requires SetsOk(nofTerminals, inv) && HandlesKnown(inv, fo)
    ensures FollowsOf(inv, fo) <= AllFollows(fo.Keys, nofTerminals)
  {
  }

  ghost predicate HeadsPresent(g: Productions, items: set<Item>, fo: map<nat, nat>) {
    forall i | i in items :: i.prod < |g| && g[i.prod].left in fo
                             && (NonterminalAt(g, i.prod, i.pos) ==> g[i.prod].right[i.pos].n in fo)
  }

  /** One inheritance step over an item; a changed handle means a strictly larger follow set. */
  method InheritOver(fm: FollowMap, g: Productions, item: Item, fo: map<nat, nat>) returns (r: Result<map<nat, nat>>)
    requires fm.Valid() && fm.g == g && HandlesKnown(fm.sets.inv, fo) && InRange(g, CoreOf(item))
        && HeadsPresent(g, {item}, fo)
    modifies fm, fm.sets
    ensures fm.Valid() && old(fm.sets.inv) <= fm.sets.inv
    ensures r.Ok? ==> HandlesKnown(fm.sets.inv, r.value) && r.value.Keys == fo.Keys
    ensures r.Ok? ==> FollowsOf(old(fm.sets.inv), fo) <= FollowsOf(fm.sets.inv, r.value)
    ensures r.Ok? && |old(fm.sets.inv)| >= MAX_TERMINAL - 1 ==> r.value == fo
    ensures r.Ok? && r.value != fo ==> FollowsOf(old(fm.sets.inv), fo) < FollowsOf(fm.sets.inv, r.value)
    ensures r.Ok? ==> forall s | FollowsOf(old(fm.sets.inv), fo) <= s
                      && Solves({}, Edges(g, fm.nodes, {CoreOf(item)}), s) :: FollowsOf(fm.sets.inv, r.value) <= s
    ensures r.Ok? && r.value == fo ==> Solves({}, Edges(g, fm.nodes, {CoreOf(item)}), FollowsOf(fm.sets.inv, fo))
    ensures r.Err? ==> r.error == ComplexityLR1FollowSetsInGrammarDef
  {
    ghost var inv := fm.sets.inv;
    ghost var c := CoreOf(item);
    if item.pos < |g[item.prod].right| && g[item.prod].right[item.pos].N? {
      assert NodeOk(g, fm.nofTerminals, inv, fm.nodes, item.prod, item.pos);
      var left, n := g[item.prod].left, g[item.prod].right[item.pos].n;
      if fm.nodes[(item.prod, item.pos)].inherit {
        assert Edges(g, fm.nodes, {c}) == {(left, n)};
        var joined := fm.Join(fo[n], fo[left]);
        if joined.Err? {
          return Err(joined.error);
        }
        FollowsStay(inv, fm.sets.inv, fo);
        if fo[n] != joined.value {
          InheritGrows(inv, fm.sets.inv, fo, n, left, joined.value);
          assert fo[n := joined.value][n] != fo[n];
          return Ok(fo[n := joined.value]);
        }
        return Ok(fo);
      }
    }
    assert Edges(g, fm.nodes, {c}) == {};
    return Ok(fo);
  }

  lemma {:induction false} InheritGrows(inv: seq<set<nat>>, inv': seq<set<nat>>, fo: map<nat, nat>, n: nat, left: nat,
                                        h: nat)
    requires inv <= inv' && HandlesKnown(inv, fo) && n in fo && left in fo && h < |inv'|
    requires inv'[h] == inv[fo[n]] + inv[fo[left]] && fo[n] != h && Injective(inv')
    ensures FollowsOf(inv, fo) < FollowsOf(inv', fo[n := h])
    ensures FollowsOf(inv', fo[n := h]) == FollowsOf(inv, fo) + set a | a in inv[fo[left]] :: (n, a)
    ensures forall s | FollowsOf(inv, fo) <= s && Solves({}, {(left, n)}, s) :: FollowsOf(inv', fo[n := h]) <= s
  {
    assert inv'[h] != inv'[fo[n]];
    var a :| a in inv[fo[left]] && a !in inv[fo[n]];
    assert (n, a) in FollowsOf(inv', fo[n := h]) && (n, a) !in FollowsOf(inv, fo);
    var added := set a | a in inv[fo[left]] :: (n, a);
    forall s | FollowsOf(inv, fo) <= s && Solves({}, {(left, n)}, s) ensures FollowsOf(inv, fo) + added <= s {
      forall x | x in inv[fo[left]] ensures (n, x) in s {
        assert (left, x) in FollowsOf(inv, fo);
        assert (left, n) in {(left, n)};
      }
    }
  }

  lemma {:induction false} EdgeStep(g: Productions, nodes: NodeMap, done: set<Core>, c: Core)
    ensures Edges(g, nodes, done + {c}) == Edges(g, nodes, done) + Edges(g, nodes, {c})
  {
  }

  lemma {:induction false} SolvesUnion(e1: set<(nat, nat)>, e2: set<(nat, nat)>, s: Follows)
    ensures Solves({}, e1 + e2, s) <==> Solves({}, e1, s) && Solves({}, e2, s)
  {
  }

  /** The invariant of an inheritance pass over the items with cores done. */
  ghost predicate PassState(inv: seq<set<nat>>, fo0: map<nat, nat>, inv': seq<set<nat>>, fo: map<nat, nat>,
                            all: set<(nat, nat)>, done: set<(nat, nat)>, changed: bool) {
    && inv <= inv' && HandlesKnown(inv, fo0) && HandlesKnown(inv', fo) && fo.Keys == fo0.Keys
    && (if changed then FollowsOf(inv, fo0) < FollowsOf(inv', fo) else
        fo == fo0 && Solves({}, done, FollowsOf(inv', fo)))
    && forall s | FollowsOf(inv, fo0) <= s && Solves({}, all, s) :: FollowsOf(inv', fo) <= s
  }

  lemma {:induction false} PassStep(inv: seq<set<nat>>, fo0: map<nat, nat>, inv1: seq<set<nat>>, fo1: map<nat, nat>,
                                    inv2: seq<set<nat>>, fo2: map<nat, nat>, all: set<(nat, nat)>,
                                    done: set<(nat, nat)>, edges: set<(nat, nat)>, changed: bool)
    requires PassState(inv, fo0, inv1, fo1, all, done, changed)
    requires inv1 <= inv2 && HandlesKnown(inv2, fo2) && fo2.Keys == fo1.Keys && edges <= all
    requires if fo2 != fo1 then FollowsOf(inv1, fo1) < FollowsOf(inv2, fo2) else Solves({}, edges, FollowsOf(inv2, fo2))
    requires forall s | FollowsOf(inv1, fo1) <= s && Solves({}, edges, s) :: FollowsOf(inv2, fo2) <= s
    ensures PassState(inv, fo0, inv2, fo2, all, done + edges, changed || fo2 != fo1)
  {
    FollowsStay(inv1, inv2, fo1);
    SolvesUnion(done, edges, FollowsOf(inv2, fo2));
    forall s | FollowsOf(inv, fo0) <= s && Solves({}, all, s) ensures FollowsOf(inv2, fo2) <= s {
      assert all == all + edges;
      SolvesUnion(all, edges, s);
    }
  }

  lemma {:induction false} EdgesOfItem(g: Productions, nodes: NodeMap, items: set<Item>, todo: set<Item>, item: Item)
    requires item in todo && todo <= items
    ensures Edges(g, nodes, CoresOf(items - (todo - {item}))) == Edges(g, nodes, CoresOf(items - todo))
        + Edges(g, nodes, {CoreOf(item)})
    ensures Edges(g, nodes, {CoreOf(item)}) <= Edges(g, nodes, CoresOf(items))
  {
    EdgeStep(g, nodes, CoresOf(items - todo), CoreOf(item));
    EdgeStep(g, nodes, CoresOf(items), CoreOf(item));
    assert CoresOf(items - (todo - {item})) == CoresOf(items - todo) + {CoreOf(item)};
    assert CoresOf(items) + {CoreOf(item)} == CoresOf(items);
  }

  lemma {:induction false} ItemPresent(g: Productions, items: set<Item>, item: Item, fo0: map<nat, nat>,
                                       fo: map<nat, nat>)
    requires item in items && HeadsPresent(g, items, fo0) && fo.Keys == fo0.Keys && CoresInRange(g, CoresOf(items))
    ensures HeadsPresent(g, {item}, fo) && InRange(g, CoreOf(item))
  {
    assert CoreOf(item) in CoresOf(items);
  }

  method InheritPass(fm: FollowMap, g: Productions, items: set<Item>, fo0: map<nat, nat>)
    returns (r: Result<map<nat, nat>>, changed: bool)
    requires fm.Valid() && fm.g == g && HandlesKnown(fm.sets.inv, fo0) && CoresInRange(g, CoresOf(items))
        && HeadsPresent(g, items, fo0)
    modifies fm, fm.sets
    ensures fm.Valid() && old(fm.sets.inv) <= fm.sets.inv
    ensures r.Ok? ==> PassState(old(fm.sets.inv), fo0, fm.sets.inv, r.value, Edges(g, fm.nodes, CoresOf(items)),
                      Edges(g, fm.nodes, CoresOf(items)), changed)
    ensures r.Ok? && |old(fm.sets.inv)| >= MAX_TERMINAL - 1 ==> r.value == fo0
    ensures r.Err? ==> r.error == ComplexityLR1FollowSetsInGrammarDef
  {
    changed := false;
    ghost var inv, all := fm.sets.inv, Edges(g, fm.nodes, CoresOf(items));
    var fo := fo0;
    var todo := items;
    assert CoresOf(items - todo) == {} && Edges(g, fm.nodes, {}) == {};
    while todo != {}
      invariant todo <= items && fm.Valid()
      invariant PassState(inv, fo0, fm.sets.inv, fo, all, Edges(g, fm.nodes, CoresOf(items - todo)), changed)
      invariant |inv| >= MAX_TERMINAL - 1 ==> fo == fo0
      decreases todo
    {
      var item := Least(todo);
      ghost var inv1 := fm.sets.inv;
      ItemPresent(g, items, item, fo0, fo);
      var next := InheritOver(fm, g, item, fo);
      if next.Err? {
        return next, changed;
      }
      EdgesOfItem(g, fm.nodes, items, todo, item);
      PassStep(inv, fo0, inv1, fo, fm.sets.inv, next.value, all, Edges(g, fm.nodes, CoresOf(items - todo)),
          Edges(g, fm.nodes, {CoreOf(item)}), changed);
      changed := changed || next.value != fo;
      fo := next.value;
      todo := todo - {item};
    }
    assert items - todo == items;
    r := Ok(fo);
  }

  /** [3] Inherit until nothing changes: the least solution above the start. */
  method InheritUntilStable(fm: FollowMap, g: Productions, items: set<Item>, fo0: map<nat, nat>)
    returns (r: Result<map<nat, nat>>)
    requires fm.Valid() && fm.g == g && HandlesKnown(fm.sets.inv, fo0) && CoresInRange(g, CoresOf(items))
        && HeadsPresent(g, items, fo0)
    modifies fm, fm.sets
    ensures fm.Valid() && old(fm.sets.inv) <= fm.sets.inv
    ensures r.Ok? ==> HandlesKnown(fm.sets.inv, r.value) && r.value.Keys == fo0.Keys
    ensures r.Ok? ==> LeastSolution(FollowsOf(old(fm.sets.inv), fo0), Edges(g, fm.nodes, CoresOf(items)),
                      FollowsOf(fm.sets.inv, r.value))
    ensures r.Ok? && |old(fm.sets.inv)| >= MAX_TERMINAL - 1 ==> r.value == fo0
    ensures r.Err? ==> r.error == ComplexityLR1FollowSetsInGrammarDef
  {
    ghost var inv, all := fm.sets.inv, Edges(g, fm.nodes, CoresOf(items));
    var fo := fo0;
    var changed := true;
    FollowsBounded(fm.nofTerminals, inv, fo);
    while changed
      invariant fm.Valid() && inv <= fm.sets.inv && HandlesKnown(fm.sets.inv, fo) && fo.Keys == fo0.Keys
      invariant FollowsOf(inv, fo0) <= FollowsOf(fm.sets.inv, fo) <= AllFollows(fo0.Keys, fm.nofTerminals)
      invariant forall s | FollowsOf(inv, fo0) <= s && Solves({}, all, s) :: FollowsOf(fm.sets.inv, fo) <= s
      invariant !changed ==> Solves({}, all, FollowsOf(fm.sets.inv, fo))
      invariant |inv| >= MAX_TERMINAL - 1 ==> fo == fo0
      decreases AllFollows(fo0.Keys, fm.nofTerminals) - FollowsOf(fm.sets.inv, fo), changed
    {
      var next, more := InheritPass(fm, g, items, fo);
      if next.Err? {
        return next;
      }
      fo, changed := next.value, more;
      FollowsBounded(fm.nofTerminals, fm.sets.inv, fo);
    }
    forall s | Solves(FollowsOf(inv, fo0), all, s) ensures FollowsOf(fm.sets.inv, fo) <= s {
      assert Solves({}, all, s);
    }
    r := Ok(fo);
  }

  /** [4] The items of the closure, each with the follow set of its head. */
  method AttachFollow(g: Productions, items: set<Item>, fo: map<nat, nat>) returns (rt: set<Item>)
    requires HeadsPresent(g, items, fo)
    ensures CoresOf(rt) == CoresOf(items)
    ensures forall i | i in rt :: i.prod < |g| && g[i.prod].left in fo && i.follow == fo[g[i.prod].left]
  {
    rt := {};
    var todo := items;
    while todo != {}
      invariant todo <= items
      invariant CoresOf(rt) == CoresOf(items - todo)
      invariant forall i | i in rt :: i.prod < |g| && g[i.prod].left in fo && i.follow == fo[g[i.prod].left]
      decreases todo
    {
      var item := Least(todo);
      ghost var done := CoresOf(items - todo);
      var placed := Item(item.prod, item.pos, fo[g[item.prod].left]);
      assert CoresOf(rt + {placed}) == CoresOf(rt) + {CoreOf(item)};
      rt := rt + {placed};
      todo := todo - {item};
      assert CoresOf(items - todo) == done + {CoreOf(item)};
    }
    assert items - todo == items;
  }

  lemma {:induction false} AllHeadsPresent(g: Productions, ts: set<Item>, items: set<Item>, fo: map<nat, nat>)
    requires ts <= items && IsClosure(g, CoresOf(ts), CoresOf(items)) && CoresInRange(g, CoresOf(items))
    requires forall i | i in ts :: i.prod < |g| && g[i.prod].left in fo
    requires forall i | i in items && NonterminalAt(g, i.prod, i.pos) :: g[i.prod].right[i.pos].n in fo
    ensures HeadsPresent(g, items, fo)
  {
    forall i | i in items ensures i.prod < |g| && g[i.prod].left in fo {
      assert CoreOf(i) in CoresOf(items);
      if CoreOf(i) in CoresOf(ts) {
        var j :| j in ts && CoreOf(j) == CoreOf(i);
      } else {
        ClosureAddsFronts(g, CoresOf(ts), CoresOf(items), CoreOf(i));
        var d :| d in CoresOf(items) && DotBefore(g, d, N(g[i.prod].left));
        var j :| j in items && CoreOf(j) == d;
        assert NonterminalAt(g, j.prod, j.pos);
      }
    }
  }

  /** A least follow map for the items of the LR(0) closure. */
  ghost predicate FollowsSolved(g: Productions, nofTerminals: nat, inv0: seq<set<nat>>, inv: seq<set<nat>>,
                                nodes: NodeMap, ts: set<Item>, cl: set<Core>, fo: map<nat, nat>) {
    && HandlesKnown(inv, fo)
    && LeastSolution(Seeds(g, inv0, nodes, ts, cl), Edges(g, nodes, cl), FollowsOf(inv, fo))
    && (Overflowing(g, nodes) ==> Direct(g, nodes, cl, fo) && Kept(g, ts, fo))
  }

  lemma {:induction false} KeptStays(g: Productions, ts: set<Item>, fo: map<nat, nat>, fo': map<nat, nat>)
    requires Kept(g, ts, fo) && forall n | n in fo :: HasFollow(fo', n, fo[n])
    ensures Kept(g, ts, fo')
  {
    forall i | i in ts && i.prod < |g| ensures HasFollow(fo', g[i.prod].left, i.follow) {
      assert HasFollow(fo, g[i.prod].left, i.follow);
    }
  }

  /** [1] to [3] */
  method SolveFollows(fm: FollowMap, g: Productions, ts: set<Item>, lr0: set<Item>) returns (r: Result<map<nat, nat>>)
    requires fm.Valid() && fm.g == g && ItemsKnown(g, fm.sets.inv, ts) && ts <= lr0
    requires IsClosure(g, CoresOf(ts), CoresOf(lr0)) && CoresInRange(g, CoresOf(lr0))
    modifies fm, fm.sets
    ensures fm.Valid() && old(fm.sets.inv) <= fm.sets.inv
    ensures r.Ok? ==> FollowsSolved(g, fm.nofTerminals, old(fm.sets.inv), fm.sets.inv, fm.nodes, ts, CoresOf(lr0),
                      r.value) && HeadsPresent(g, lr0, r.value)
    ensures r.Err? ==> r.error == ComplexityLR1FollowSetsInGrammarDef
  {
    ghost var inv0 := fm.sets.inv;
    var inherited := InheritFollow(fm, g, ts);
    if inherited.Err? {
      return inherited;
    }
    ghost var inv1 := fm.sets.inv;
    var first := FollowByFirst(fm, g, lr0, inherited.value);
    if first.Err? {
      return first;
    }
    AllHeadsPresent(g, ts, lr0, first.value);
    r := InheritUntilStable(fm, g, lr0, first.value);
    NodesKnown(g, fm.nofTerminals, inv0, inv1, fm.nodes, CoresOf(lr0));
    if r.Ok? && Overflowing(g, fm.nodes) {
      OverflowingIsFull(g, fm.nofTerminals, inv0, fm.nodes);
      KeptStays(g, ts, inherited.value, r.value);
    }
  }

  method GetLr1TransitionStateClosure(fm: FollowMap, g: Productions, ts: set<Item>) returns (r: Result<set<Item>>)
    requires WellFormed(g, fm.nofTerminals) && fm.Valid() && fm.g == g && ItemsKnown(g, fm.sets.inv, ts)
    modifies fm, fm.sets
    ensures fm.Valid() && old(fm.sets.inv) <= fm.sets.inv
    ensures r.Ok? ==> IsLr1Closure(g, fm.sets.inv, fm.nodes, ts, r.value) && ItemsKnown(g, fm.sets.inv, r.value)
    ensures r.Err? ==> r.error == ComplexityLR1FollowSetsInGrammarDef
  {
    ghost var inv0 := fm.sets.inv;
    assert CoresInRange(g, CoresOf(ts));
    var lr0 := GetLr0TransitionStateClosure(g, fm.nofTerminals, ts);
    ClosureInRange(g, CoresOf(ts), CoresOf(lr0));
    var solved := SolveFollows(fm, g, ts, lr0);
    if solved.Err? {
      return Err(solved.error);
    }
    var rt := AttachFollow(g, lr0, solved.value);
    ClosureAssembled(g, fm.nofTerminals, inv0, fm.sets.inv, fm.nodes, ts, CoresOf(lr0), rt, solved.value);
    r := Ok(rt);
  }

  lemma {:induction false} ClosureAssembled(g: Productions, nofTerminals: nat, inv0: seq<set<nat>>, inv: seq<set<nat>>,
                                            nodes: NodeMap, ts: set<Item>, cl: set<Core>, rt: set<Item>,
                                            fo: map<nat, nat>)
    requires inv0 <= inv && ItemsKnown(g, inv0, ts) && NodesOk(g, nofTerminals, inv0, nodes)
    requires IsClosure(g, CoresOf(ts), cl) && CoresOf(rt) == cl && CoresInRange(g, cl)
    requires forall i | i in rt :: i.prod < |g| && g[i.prod].left in fo && i.follow == fo[g[i.prod].left]
    requires FollowsSolved(g, nofTerminals, inv0, inv, nodes, ts, cl, fo)
    ensures IsLr1Closure(g, inv, nodes, ts, rt) && ItemsKnown(g, inv, rt)
  {
    InheritedSeedsStay(g, inv0, inv, ts);
    NodesKnown(g, nofTerminals, inv0, inv, nodes, cl);
    assert Lr1ClosureBy(g, inv, nodes, ts, rt, fo);
    forall i | i in rt ensures InRange(g, CoreOf(i)) { assert CoreOf(i) in CoresOf(rt); }
  }
}
