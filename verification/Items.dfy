/** Transition items, their packed form and their order; LR(0) closure. */
module Items {
  import opened Guards
  import opened Grammar
  import opened Tables
  import opened FirstSets

  /** An item: production, position of the dot, handle of its follow set. */
  datatype Item = Item(prod: nat, pos: nat, follow: nat)

  function CoreOf(i: Item): Core {
    Core(i.prod, i.pos)
  }

  function CoresOf(s: set<Item>): set<Core> {
    set i | i in s :: CoreOf(i)
  }

  predicate Less(a: Item, b: Item) {
    if a.prod == b.prod then
      if a.pos == b.pos then a.follow < b.follow else a.pos < b.pos
    else a.prod < b.prod
  }

  // ---------------------------------------------------------------- packed items

  /** The packed form: 9 bits production, 4 bits position, 10 bits follow handle, as a sum of the shifted fields. */
  function Packed(i: Item): nat {
    i.prod * 16384 + i.pos * 1024 + i.follow
  }

  function Unpacked(pkg: nat): Item {
    Item(pkg / 16384, pkg / 1024 % 16, pkg % 1024)
  }

  predicate WithinLimits(i: Item) {
    i.prod < 512 && i.pos < 16 && i.follow < 1024
  }

  /** Within the limits packing loses nothing and keeps the order, so a sorted vector of packed items
      lists the items in the order Less. */
  lemma {:induction false} PackingIsOrderIsomorphic(a: Item, b: Item)
    requires a.prod < 512 && a.pos < 16 && a.follow < 1024 && b.prod < 512 && b.pos < 16 && b.follow < 1024
    ensures Unpacked(Packed(a)) == a
    ensures Packed(a) % 1024 == a.follow && Packed(a) / 1024 % 16 == a.pos && Packed(a) / 16384 == a.prod
    ensures Packed(a) < 0x8000_0000
    ensures Packed(a) < Packed(b) <==> Less(a, b)
  {
    assert Packed(a) / 1024 == a.prod * 16 + a.pos;
    assert Packed(a) / 16384 == a.prod;
  }

  // ---------------------------------------------------------------- ordered enumeration

  predicate IsLeastItem(s: set<Item>, m: Item) {
    m in s && forall x | x in s :: x == m || Less(m, x)
  }

  lemma {:induction false} LeastExists(s: set<Item>)
    requires s != {}
    ensures exists m :: IsLeastItem(s, m)
    decreases |s|
  {
    var x :| x in s;
    var rest := s - {x};
    if rest == {} {
      assert s == {x} && IsLeastItem(s, x);
    } else {
      LeastExists(rest);
      var m :| IsLeastItem(rest, m);
      var n := if Less(x, m) then x else m;
      forall y | y in s ensures y == n || Less(n, y) { assert y == x || y in rest; }
      assert IsLeastItem(s, n);
    }
  }

  /** The first of the remaining items in the order of a sorted item vector. */
  function Least(s: set<Item>): (m: Item)
    requires s != {}
    ensures m in s && forall x | x in s :: x == m || Less(m, x)
  {
    LeastExists(s);
    var m :| IsLeastItem(s, m);
    m
  }

  // ---------------------------------------------------------------- LR(0) closure

  /** Closed under bringing in the productions of the nonterminal behind a dot. */
  ghost predicate Closed(g: Productions, cl: set<Core>) {
    forall c, q: nat | c in cl && q < |g| && DotBefore(g, c, N(g[q].left)) :: Core(q, 0) in cl
  }

  /** cl is the least closed set of items that contains the kernel. */
  ghost predicate IsClosure(g: Productions, kernel: set<Core>, cl: set<Core>) {
    && kernel <= cl && Closed(g, cl)
    && forall other | kernel <= other && Closed(g, other) :: cl <= other
  }

  lemma {:induction false} ClosureUnique(g: Productions, kernel: set<Core>, a: set<Core>, b: set<Core>)
    requires IsClosure(g, kernel, a) && IsClosure(g, kernel, b)
    ensures a == b
  {
  }

  /** What the closure adds are productions begun at the front, each called for by an item of the closure. */
  lemma {:induction false} ClosureAddsFronts(g: Productions, kernel: set<Core>, cl: set<Core>, c: Core)
    requires IsClosure(g, kernel, cl) && c in cl && c !in kernel
    ensures c.pos == 0 && c.prod < |g|
    ensures exists d :: d in cl && DotBefore(g, d, N(g[c.prod].left))
  {
    var called := set d | d in cl && (d in kernel || CalledFor(g, cl, d));
    assert Closed(g, called) by {
      forall e, q: nat | e in called && q < |g| && DotBefore(g, e, N(g[q].left)) ensures Core(q, 0) in called {
        assert e in cl;
        assert CalledFor(g, cl, Core(q, 0));
      }
    }
    assert c in called;
  }

  ghost predicate CalledFor(g: Productions, cl: set<Core>, c: Core) {
    c.pos == 0 && c.prod < |g| && exists d :: d in cl && DotBefore(g, d, N(g[c.prod].left))
  }

  ghost predicate CoresInRange(g: Productions, cs: set<Core>) {
    forall c | c in cs :: InRange(g, c)
  }

  lemma {:induction false} ClosureInRange(g: Productions, kernel: set<Core>, cl: set<Core>)
    requires IsClosure(g, kernel, cl) && CoresInRange(g, kernel)
    ensures CoresInRange(g, cl)
  {
    forall c | c in cl ensures InRange(g, c) {
      if c !in kernel { ClosureAddsFronts(g, kernel, cl, c); }
    }
  }

  ghost predicate Leads(g: Productions, a: nat, b: nat) {
    exists p :: 0 <= p < |g| && LeadsBy(g, p, a, b)
  }

  predicate LeadsBy(g: Productions, p: nat, a: nat, b: nat)
    requires p < |g|
  {
    g[p].left == a && g[p].right != [] && g[p].right[0] == N(b)
  }

  ghost predicate LeadClosed(g: Productions, from: set<nat>, to: set<nat>) {
    forall a, b: nat | a in from && Leads(g, a, b) :: b in to
  }

  /** Depth-first collection of the nonterminals that can stand first. */
  method CollectStartNonterminals(g: Productions, ghost nofTerminals: nat, result: set<nat>, n: nat)
    returns (rt: set<nat>)
    requires WellFormed(g, nofTerminals) && n in Heads(g) && result <= Heads(g)
    ensures result + {n} <= rt <= Heads(g)
    ensures LeadClosed(g, rt - result, rt)
    ensures forall c: set<nat> | n in c && LeadClosed(g, c, c) :: rt <= result + c
    decreases Heads(g) - result
  {
    if n in result {
      return result;
    }
    rt := result + {n};
    LeastStart(g, n, result);
    for p := 0 to |g|
      invariant result + {n} <= rt <= Heads(g)
      invariant LeadClosed(g, rt - result - {n}, rt)
      invariant forall q, b: nat | 0 <= q < p && LeadsBy(g, q, n, b) :: b in rt
      invariant OnlyLed(g, n, result, rt)
    {
      if g[p].left == n && g[p].right != [] && g[p].right[0].N? {
        var b := g[p].right[0].n;
        assert SymbolOk(g, nofTerminals, g[p].right[0]);
        assert LeadsBy(g, p, n, b) && Leads(g, n, b);
        ghost var before := rt;
        rt := CollectStartNonterminals(g, nofTerminals, rt, b);
        LeadClosedGrows(g, before - result - {n}, before, rt);
        LeadClosedUnion(g, before - result - {n}, rt - before, rt - result - {n}, rt);
        LeastStep(g, n, b, result, before, rt);
      }
    }
    assert Look(0);
  }

  /** What was added is in every closed set with n. */
  ghost predicate OnlyLed(g: Productions, n: nat, result: set<nat>, rt: set<nat>) {
    forall z: int {:trigger Look(z)} :: Look(z) ==>
      forall c: set<nat> | n in c && LeadClosed(g, c, c) :: rt <= result + c
  }

  lemma {:induction false} LeastStart(g: Productions, n: nat, result: set<nat>)
    ensures OnlyLed(g, n, result, result + {n})
  {
  }

  lemma {:induction false} LeastStep(g: Productions, n: nat, b: nat, result: set<nat>, before: set<nat>, rt: set<nat>)
    requires OnlyLed(g, n, result, before) && Leads(g, n, b)
    requires forall c: set<nat> | b in c && LeadClosed(g, c, c) :: rt <= before + c
    ensures OnlyLed(g, n, result, rt)
  {
    assert Look(0);
  }

  lemma {:induction false} LeadClosedGrows(g: Productions, from: set<nat>, to: set<nat>, more: set<nat>)
    requires LeadClosed(g, from, to) && to <= more
    ensures LeadClosed(g, from, more)
  {
  }

  lemma {:induction false} LeadClosedUnion(g: Productions, a: set<nat>, b: set<nat>, ab: set<nat>, to: set<nat>)
    requires LeadClosed(g, a, to) && LeadClosed(g, b, to) && ab <= a + b
    ensures LeadClosed(g, ab, to)
  {
  }

  /** Nonterminals of which the item set contains every production begun at the front. */
  ghost function Begun(g: Productions, cs: set<Core>): set<nat> {
    set n | n in Heads(g) && forall q: nat | q < |g| && g[q].left == n :: Core(q, 0) in cs
  }

  lemma {:induction false} BegunIsLeadClosed(g: Productions, nofTerminals: nat, cs: set<Core>)
    requires WellFormed(g, nofTerminals) && Closed(g, cs)
    ensures LeadClosed(g, Begun(g, cs), Begun(g, cs))
  {
    forall a, b: nat | a in Begun(g, cs) && Leads(g, a, b) ensures b in Begun(g, cs) {
      var p :| 0 <= p < |g| && LeadsBy(g, p, a, b);
      assert SymbolOk(g, nofTerminals, g[p].right[0]);
      assert Core(p, 0) in cs && DotBefore(g, Core(p, 0), N(b));
    }
  }

  lemma {:induction false} BegunCovers(g: Productions, nofTerminals: nat, cs: set<Core>, c: Core, n: nat)
    requires WellFormed(g, nofTerminals) && Closed(g, cs) && c in cs && DotBefore(g, c, N(n))
    ensures n in Begun(g, cs)
  {
    assert SymbolOk(g, nofTerminals, g[c.prod].right[c.pos]);
  }

  ghost predicate NonterminalsCollected(g: Productions, items: set<Item>, ns: set<nat>) {
    && ns <= Heads(g) && LeadClosed(g, ns, ns)
    && (forall i, n: nat | i in items && DotBefore(g, CoreOf(i), N(n)) :: n in ns)
    && (forall cs | CoresOf(items) <= cs && Closed(g, cs) :: ns <= Begun(g, cs))
  }

  method CollectNonterminals(g: Productions, ghost nofTerminals: nat, ts: set<Item>) returns (ns: set<nat>)
    requires WellFormed(g, nofTerminals) && CoresInRange(g, CoresOf(ts))
    ensures NonterminalsCollected(g, ts, ns)
  {
    ns := {};
    var todo := ts;
    while todo != {}
      invariant todo <= ts
      invariant NonterminalsCollected(g, ts - todo, ns)
      decreases todo
    {
      var item := Least(todo);
      assert CoreOf(item) in CoresOf(ts);
      ghost var before := ns;
      if item.pos < |g[item.prod].right| && g[item.prod].right[item.pos].N? {
        var n := g[item.prod].right[item.pos].n;
        assert SymbolOk(g, nofTerminals, g[item.prod].right[item.pos]);
        ns := CollectStartNonterminals(g, nofTerminals, ns, n);
        LeadClosedGrows(g, before, before, ns);
        LeadClosedUnion(g, before, ns - before, ns, ns);
      }
      CollectedStep(g, nofTerminals, ts - todo, item, before, ns);
      todo := todo - {item};
      assert ts - todo == (ts - (todo + {item})) + {item};
    }
    assert ts - todo == ts;
  }

  lemma {:induction false} CollectedStep(g: Productions, nofTerminals: nat, done: set<Item>, item: Item,
                                         before: set<nat>, ns: set<nat>)
    requires WellFormed(g, nofTerminals) && NonterminalsCollected(g, done, before)
    requires before <= ns <= Heads(g) && LeadClosed(g, ns, ns)
    requires if exists n: nat :: DotBefore(g, CoreOf(item), N(n))
             then exists n: nat :: DotBefore(g, CoreOf(item), N(n)) && n in ns && forall c: set<nat> | n in c
                                   && LeadClosed(g, c, c) :: ns <= before + c
             else ns == before
    ensures NonterminalsCollected(g, done + {item}, ns)
  {
    forall cs | CoresOf(done + {item}) <= cs && Closed(g, cs) ensures ns <= Begun(g, cs) {
      assert CoresOf(done) <= CoresOf(done + {item});
      assert CoreOf(item) in CoresOf(done + {item});
      BegunIsLeadClosed(g, nofTerminals, cs);
      if n: nat :| DotBefore(g, CoreOf(item), N(n)) {
        BegunCovers(g, nofTerminals, cs, CoreOf(item), n);
      }
    }
  }

  /** Fronts of the productions of the collected nonterminals, with follow handle 0. */
  function Fronts(g: Productions, ns: set<nat>): set<Item> {
    set q | 0 <= q < |g| && g[q].left in ns :: Item(q, 0, 0)
  }

  method GetLr0TransitionStateClosure(g: Productions, ghost nofTerminals: nat, ts: set<Item>) returns (rt: set<Item>)
    requires WellFormed(g, nofTerminals) && CoresInRange(g, CoresOf(ts))
    ensures ts <= rt && IsClosure(g, CoresOf(ts), CoresOf(rt))
    ensures forall i | i in rt - ts :: i.follow == 0
  {
    var ns := CollectNonterminals(g, nofTerminals, ts);
    rt := ts;
    for q := 0 to |g|
      invariant rt == ts + set p | 0 <= p < q && g[p].left in ns :: Item(p, 0, 0)
    {
      if g[q].left in ns {
        rt := rt + {Item(q, 0, 0)};
      }
    }
    assert rt == ts + Fronts(g, ns);
    FrontsClose(g, nofTerminals, ts, ns);
  }

  lemma {:induction false} FrontsClose(g: Productions, nofTerminals: nat, ts: set<Item>, ns: set<nat>)
    requires WellFormed(g, nofTerminals) && NonterminalsCollected(g, ts, ns)
    ensures IsClosure(g, CoresOf(ts), CoresOf(ts + Fronts(g, ns)))
  {
    var cl := CoresOf(ts + Fronts(g, ns));
    assert CoresOf(ts) <= cl;
    forall c, q: nat | c in cl && q < |g| && DotBefore(g, c, N(g[q].left)) ensures Core(q, 0) in cl {
      var i :| i in ts + Fronts(g, ns) && CoreOf(i) == c;
      if i !in ts {
        assert LeadsBy(g, i.prod, g[i.prod].left, g[q].left);
      }
      assert g[q].left in ns;
      assert Item(q, 0, 0) in Fronts(g, ns);
      assert CoreOf(Item(q, 0, 0)) == Core(q, 0);
    }
    forall other | CoresOf(ts) <= other && Closed(g, other) ensures cl <= other {
      assert ns <= Begun(g, other);
    }
  }
}
