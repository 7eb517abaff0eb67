/** Interned terminal sets, and for every nonterminal on a right side what can follow it there. */
module FollowSets {
  import opened Grammar
  import opened BuildErrors
  import opened FirstSets

  predicate Injective(inv: seq<set<nat>>) {
    forall i, j :: 0 <= i < j < |inv| ==> inv[i] != inv[j]
  }

  /** Terminal sets numbered in the order of their first occurrence. */
  class IntSetHandleMap {
    var handles: map<set<nat>, nat>
    var inv: seq<set<nat>>

    ghost predicate Valid()
      reads this
    {
      && (forall i :: 0 <= i < |inv| ==> inv[i] in handles && handles[inv[i]] == i)
      && (forall s | s in handles :: handles[s] < |inv| && inv[handles[s]] == s)
    }

    constructor ()
      ensures Valid() && inv == []
    {
      handles, inv := map[], [];
    }

    method Get(elem: set<nat>) returns (handle: nat)
      requires Valid()
      modifies this
      ensures Valid() && old(inv) <= inv
      ensures handle < |inv| && inv[handle] == elem
      ensures inv == if elem in old(inv) then old(inv) else old(inv) + [elem]
    {
      if elem in handles {
        handle := handles[elem];
      } else {
        handle := |inv|;
        handles := handles[elem := handle];
        inv := inv + [elem];
      }
    }

    method Join(handle1: nat, handle2: nat) returns (handle: nat)
      requires Valid() && handle1 < |inv| && handle2 < |inv|
      modifies this
      ensures Valid() && old(inv) <= inv
      ensures handle < |inv| && inv[handle] == old(inv)[handle1] + old(inv)[handle2]
      ensures forall s | s in inv :: s in old(inv) || s == inv[handle]
      ensures |inv| <= |old(inv)| + 1
    {
      handle := Get(inv[handle1] + inv[handle2]);
    }

    /** Handles and sets are in bijection. */
    lemma HandlesAreSets()
      requires Valid()
      ensures Injective(inv)
    {
    }
  }

  datatype Handle = Handle(handle: nat, inherit: bool)

  /** FIRST of the right side behind a position, and whether all of it can vanish. */
  method GetLr1FirstSet(g: Productions, ghost nofTerminals: nat, p: nat, pos: nat, first: FirstMap, nullable: set<nat>)
    returns (rt: set<nat>, vanishes: bool)
    requires WellFormed(g, nofTerminals) && p < |g| && pos <= |g[p].right|
    requires FirstMapExact(g, nofTerminals, first) && NullableExact(g, nullable)
    ensures RestFirst(g, nofTerminals, p, pos, rt, vanishes)
  {
    var right := g[p].right;
    var syms := right[pos..];
    rt := {};
    var i := pos;
    while i < |right|
      invariant pos <= i <= |right|
      invariant NullableSeq(g, syms[..i - pos]) && IsFirstOf(g, nofTerminals, rt, syms[..i - pos])
    {
      assert right[i] == syms[i - pos] && SymbolOk(g, nofTerminals, right[i]);
      assert right[i].N? ==> right[i].n in first;
      var stop := false;
      match right[i] {
        case T(a) =>
          FirstOfTerminal(g, nofTerminals, rt, syms, i - pos);
          rt := rt + {a};
          stop := true;
        case N(n) =>
          if n in first {
            FirstOfNonterminal(g, nofTerminals, rt, syms, i - pos, first);
            rt := rt + first[n];
            stop := n !in nullable;
          }
      }
      assert syms[..i + 1 - pos] == syms[..i - pos + 1];
      if stop {
        FirstOfStops(g, nofTerminals, rt, syms, i - pos);
        return rt, false;
      }
      NullableSnoc(g, syms, i - pos);
      i := i + 1;
    }
    assert syms[..i - pos] == syms;
    vanishes := true;
  }

  ghost predicate IsFirstOf(g: Productions, nofTerminals: nat, s: set<nat>, syms: seq<Symbol>) {
    (forall a | a in s :: a <= nofTerminals) && forall a: nat :: a in s <==> FirstSeq(g, syms, a)
  }

  lemma {:induction false} FirstOfSnoc(g: Productions, nofTerminals: nat, s: set<nat>, syms: seq<Symbol>, i: nat,
                                       added: set<nat>)
    requires i < |syms| && NullableSeq(g, syms[..i]) && IsFirstOf(g, nofTerminals, s, syms[..i])
    requires (forall a | a in added :: a <= nofTerminals) && forall a: nat :: a in added <==> FirstSymbol(g, syms[i], a)
    ensures IsFirstOf(g, nofTerminals, s + added, syms[..i + 1])
  {
    assert syms[..i + 1] == syms[..i] + [syms[i]];
    forall a: nat ensures a in s + added <==> FirstSeq(g, syms[..i + 1], a) {
      FirstSeqSnoc(g, syms[..i], syms[i], a);
    }
  }

  lemma {:induction false} FirstOfTerminal(g: Productions, nofTerminals: nat, s: set<nat>, syms: seq<Symbol>, i: nat)
    requires i < |syms| && NullableSeq(g, syms[..i]) && IsFirstOf(g, nofTerminals, s, syms[..i])
    requires syms[i].T? && syms[i].t <= nofTerminals
    ensures IsFirstOf(g, nofTerminals, s + {syms[i].t}, syms[..i + 1])
  {
    FirstOfSnoc(g, nofTerminals, s, syms, i, {syms[i].t});
  }

  lemma {:induction false} FirstOfNonterminal(g: Productions, nofTerminals: nat, s: set<nat>, syms: seq<Symbol>,
                                              i: nat, first: FirstMap)
    requires i < |syms| && NullableSeq(g, syms[..i]) && IsFirstOf(g, nofTerminals, s, syms[..i])
    requires FirstMapExact(g, nofTerminals, first) && syms[i].N? && syms[i].n in first
    ensures IsFirstOf(g, nofTerminals, s + first[syms[i].n], syms[..i + 1])
  {
    FirstOfSnoc(g, nofTerminals, s, syms, i, first[syms[i].n]);
  }

  lemma {:induction false} NullableSnoc(g: Productions, syms: seq<Symbol>, i: nat)
    requires i < |syms| && NullableSeq(g, syms[..i]) && NullableSymbol(g, syms[i])
    ensures NullableSeq(g, syms[..i + 1])
  {
    assert syms[..i + 1] == syms[..i] + [syms[i]];
  }

  ghost predicate FirstMapExact(g: Productions, nofTerminals: nat, first: FirstMap) {
    && first.Keys == Heads(g)
    && (forall n, a | n in first && a in first[n] :: a <= nofTerminals)
    && (forall n: nat, a: nat :: a in Content(first, n) <==> InFirst(g, n, a))
  }

  /** The set is exactly FIRST of the rest of the right side, the end marker included. */
  ghost predicate RestFirst(g: Productions, nofTerminals: nat, p: nat, pos: nat, s: set<nat>, vanishes: bool)
    requires p < |g| && pos <= |g[p].right|
  {
    && IsFirstOf(g, nofTerminals, s, g[p].right[pos..])
    && (vanishes <==> NullableSeq(g, g[p].right[pos..]))
  }

  lemma {:induction false} FirstSeqSnoc(g: Productions, syms: seq<Symbol>, s: Symbol, a: nat)
    requires NullableSeq(g, syms)
    ensures FirstSeq(g, syms + [s], a) <==> FirstSeq(g, syms, a) || FirstSymbol(g, s, a)
  {
    var all := syms + [s];
    assert forall j :: 0 <= j <= |syms| ==> all[..j] == syms[..j];
    if FirstSymbol(g, s, a) {
      assert syms[..|syms|] == syms;
      assert FirstAt(g, all, |syms|, a);
    }
    if FirstSeq(g, syms, a) {
      var j :| 0 <= j < |syms| && FirstAt(g, syms, j, a);
      assert FirstAt(g, all, j, a);
    }
    if FirstSeq(g, all, a) {
      var j :| 0 <= j < |all| && FirstAt(g, all, j, a);
      if j < |syms| { assert FirstAt(g, syms, j, a); }
    }
  }

  lemma {:induction false} FirstSeqStops(g: Productions, syms: seq<Symbol>, i: nat)
    requires i < |syms| && !NullableSymbol(g, syms[i])
    ensures !NullableSeq(g, syms)
    ensures forall a :: FirstSeq(g, syms, a) <==> FirstSeq(g, syms[..i + 1], a)
  {
    assert syms[i] in syms;
    forall a ensures FirstSeq(g, syms, a) <==> FirstSeq(g, syms[..i + 1], a) {
      if FirstSeq(g, syms, a) {
        var j :| 0 <= j < |syms| && FirstAt(g, syms, j, a);
        NotBehind(g, syms, i, j);
        assert syms[..i + 1][..j] == syms[..j];
        assert FirstAt(g, syms[..i + 1], j, a);
      }
      if FirstSeq(g, syms[..i + 1], a) {
        var j :| 0 <= j < i + 1 && FirstAt(g, syms[..i + 1], j, a);
        assert syms[..i + 1][..j] == syms[..j];
        assert FirstAt(g, syms, j, a);
      }
    }
  }

  lemma {:induction false} FirstOfStops(g: Productions, nofTerminals: nat, s: set<nat>, syms: seq<Symbol>, i: nat)
    requires i < |syms| && !NullableSymbol(g, syms[i]) && IsFirstOf(g, nofTerminals, s, syms[..i + 1])
    ensures IsFirstOf(g, nofTerminals, s, syms) && !NullableSeq(g, syms)
  {
    FirstSeqStops(g, syms, i);
  }

  lemma {:induction false} NotBehind(g: Productions, syms: seq<Symbol>, i: nat, j: nat)
    requires i < |syms| && j <= |syms| && !NullableSymbol(g, syms[i]) && NullableSeq(g, syms[..j])
    ensures j <= i
  {
    if i < j { InPrefix(syms, i, j); assert false; }
  }

  lemma {:induction false} InPrefix<A>(s: seq<A>, i: nat, j: nat)
    requires i < j <= |s|
    ensures s[i] in s[..j]
  {
    assert s[..j][i] == s[i];
  }

  // ---------------------------------------------------------------- FollowMap

  type NodeMap = map<(nat, nat), Handle>

  ghost predicate SetsOk(nofTerminals: nat, inv: seq<set<nat>>) {
    && |inv| > 0 && inv[0] == {0}
    && Injective(inv)
    && forall h, a | 0 <= h < |inv| && a in inv[h] :: a <= nofTerminals
  }

  predicate NonterminalAt(g: Productions, p: nat, i: nat) {
    p < |g| && i < |g[p].right| && g[p].right[i].N?
  }

  ghost predicate NodeOk(g: Productions, nofTerminals: nat, inv: seq<set<nat>>, nodes: NodeMap, p: nat, i: nat)
    requires NonterminalAt(g, p, i)
  {
    && (p, i) in nodes
    && nodes[(p, i)].handle < |inv|
    && RestFirst(g, nofTerminals, p, i + 1, inv[nodes[(p, i)].handle], nodes[(p, i)].inherit)
  }

  ghost predicate NodesOk(g: Productions, nofTerminals: nat, inv: seq<set<nat>>, nodes: NodeMap) {
    forall p: nat, i: nat {:trigger NodeOk(g, nofTerminals, inv, nodes, p, i)} | NonterminalAt(g, p, i) ::
        NodeOk(g, nofTerminals, inv, nodes, p, i)
  }

  lemma {:induction false} NodesStay(g: Productions, nofTerminals: nat, inv: seq<set<nat>>, inv': seq<set<nat>>,
                                     nodes: NodeMap)
    requires NodesOk(g, nofTerminals, inv, nodes) && inv <= inv'
    ensures NodesOk(g, nofTerminals, inv', nodes)
  {
    forall p: nat, i: nat | NonterminalAt(g, p, i) ensures NodeOk(g, nofTerminals, inv', nodes, p, i) {
      assert NodeOk(g, nofTerminals, inv, nodes, p, i);
    }
  }

  /** The part of NodesOk collected so far. */
  ghost predicate NodesUpTo(g: Productions, nofTerminals: nat, inv: seq<set<nat>>, nodes: NodeMap, p0: nat, i0: nat) {
    && (forall key | key in nodes :: key.0 < p0 || (key.0 == p0 && key.1 < i0))
    && forall p: nat, i: nat {:trigger NodeOk(g, nofTerminals, inv, nodes, p, i)} |
         NonterminalAt(g, p, i) && (p < p0 || (p == p0 && i < i0)) :: NodeOk(g, nofTerminals, inv, nodes, p, i)
  }

  lemma {:induction false} NodesUpToStep(g: Productions, nofTerminals: nat, inv: seq<set<nat>>, inv': seq<set<nat>>,
                                         nodes: NodeMap, p: nat, i: nat, h: Handle)
    requires NodesUpTo(g, nofTerminals, inv, nodes, p, i) && inv <= inv' && NonterminalAt(g, p, i)
    requires h.handle < |inv'| && RestFirst(g, nofTerminals, p, i + 1, inv'[h.handle], h.inherit)
    ensures NodesUpTo(g, nofTerminals, inv', nodes[(p, i) := h], p, i + 1)
  {
    var nodes' := nodes[(p, i) := h];
    forall q: nat, j: nat | NonterminalAt(g, q, j) && (q < p || (q == p && j < i + 1))
      ensures NodeOk(g, nofTerminals, inv', nodes', q, j)
    {
      if (q, j) != (p, i) { assert NodeOk(g, nofTerminals, inv, nodes, q, j); }
    }
  }

  ghost function RestSet(g: Productions, nofTerminals: nat, p: nat, pos: nat): set<nat>
    requires p < |g| && pos <= |g[p].right|
  {
    set a: nat | 0 <= a <= nofTerminals && FirstSeq(g, g[p].right[pos..], a)
  }

  predicate Before(p: nat, i: nat, p0: nat, i0: nat) {
    p < p0 || (p == p0 && i < i0)
  }

  /** The sets numbered before the node at a position is reached, as a function of the grammar. */
  ghost function SetsBefore(g: Productions, nofTerminals: nat, p0: nat, i0: nat): set<set<nat>> {
    {{0}} + set p, i | 0 <= p < |g| && 0 <= i < |g[p].right| && g[p].right[i].N? && Before(p, i, p0, i0) ::
        RestSet(g, nofTerminals, p, i + 1)
  }

  /** All sets the constructor numbers. */
  ghost function NodeSets(g: Productions, nofTerminals: nat): set<set<nat>> {
    SetsBefore(g, nofTerminals, |g|, 0)
  }

  /** The node at this position has the handle h. */
  ghost predicate HasHandle(g: Productions, nodes: NodeMap, p: nat, i: nat, h: nat) {
    NonterminalAt(g, p, i) && (p, i) in nodes && nodes[(p, i)].handle == h
  }

  /** The handle h is the number of sets there were when a node needed a new one. */
  ghost predicate FirstUse(g: Productions, nofTerminals: nat, nodes: NodeMap, h: nat) {
    exists p: nat, i: nat :: HasHandle(g, nodes, p, i, h) && |SetsBefore(g, nofTerminals, p, i)| == h
  }

  ghost predicate HandleBounded(g: Productions, nofTerminals: nat, nodes: NodeMap, p: nat, i: nat) {
    (p, i) in nodes && nodes[(p, i)].handle <= |SetsBefore(g, nofTerminals, p, i)|
  }

  /** Sets get their numbers in the order in which the positions first need them. */
  ghost predicate Numbered(g: Productions, nofTerminals: nat, count: nat, nodes: NodeMap, p0: nat, i0: nat) {
    && (forall h: nat {:trigger FirstUse(g, nofTerminals, nodes, h)} | 0 < h < count ::
        FirstUse(g, nofTerminals, nodes, h))
    && (forall p: nat, i: nat {:trigger HandleBounded(g, nofTerminals, nodes, p, i)} | NonterminalAt(g, p, i)
        && Before(p, i, p0, i0) ::
          HandleBounded(g, nofTerminals, nodes, p, i))
  }

  ghost predicate Seen(g: Productions, nofTerminals: nat, inv: seq<set<nat>>, p0: nat, i0: nat) {
    SetsOk(nofTerminals, inv) && (set s | s in inv) == SetsBefore(g, nofTerminals, p0, i0)
  }

  lemma {:induction false} CountDistinct(inv: seq<set<nat>>)
    requires Injective(inv)
    ensures |set s | s in inv| == |inv|
    decreases |inv|
  {
    if inv != [] {
      var front := inv[..|inv| - 1];
      CountDistinct(front);
      assert inv == front + [inv[|inv| - 1]];
      assert (set s | s in inv) == (set s | s in front) + {inv[|inv| - 1]};
    }
  }

  lemma {:induction false} SetsBeforeNode(g: Productions, nofTerminals: nat, p: nat, i: nat)
    requires NonterminalAt(g, p, i)
    ensures SetsBefore(g, nofTerminals, p, i + 1) == SetsBefore(g, nofTerminals, p, i)
        + {RestSet(g, nofTerminals, p, i + 1)}
  {
  }

  lemma {:induction false} SetsBeforeOther(g: Productions, nofTerminals: nat, p: nat, i: nat)
    requires p < |g|
    ensures i < |g[p].right| && !g[p].right[i].N? ==>
        SetsBefore(g, nofTerminals, p, i + 1) == SetsBefore(g, nofTerminals, p, i)
    ensures i == |g[p].right| ==> SetsBefore(g, nofTerminals, p + 1, 0) == SetsBefore(g, nofTerminals, p, i)
  {
  }

  lemma {:induction false} HandleStays(g: Productions, nodes: NodeMap, p: nat, i: nat, h: Handle, q: nat, j: nat,
                                       k: nat)
    requires (p, i) !in nodes && HasHandle(g, nodes, q, j, k)
    ensures HasHandle(g, nodes[(p, i) := h], q, j, k)
  {
  }

  lemma {:induction false} NumberedStep(g: Productions, nofTerminals: nat, inv: seq<set<nat>>, inv': seq<set<nat>>,
                                        nodes: NodeMap, p: nat, i: nat, h: Handle)
    requires NonterminalAt(g, p, i) && (p, i) !in nodes && Seen(g, nofTerminals, inv, p, i)
        && Numbered(g, nofTerminals, |inv|, nodes, p, i)
    requires h.handle < |inv'| && if RestSet(g, nofTerminals, p, i + 1) in inv then inv' == inv else
        inv' == inv + [RestSet(g, nofTerminals, p, i + 1)] && h.handle == |inv|
    ensures Numbered(g, nofTerminals, |inv'|, nodes[(p, i) := h], p, i + 1)
  {
    var nodes' := nodes[(p, i) := h];
    CountDistinct(inv);
    forall k: nat | 0 < k < |inv'| ensures FirstUse(g, nofTerminals, nodes', k) {
      if k < |inv| {
        assert FirstUse(g, nofTerminals, nodes, k);
        var q: nat, j: nat :| HasHandle(g, nodes, q, j, k) && |SetsBefore(g, nofTerminals, q, j)| == k;
        HandleStays(g, nodes, p, i, h, q, j, k);
      } else {
        assert HasHandle(g, nodes', p, i, k);
      }
    }
    forall q: nat, j: nat | NonterminalAt(g, q, j) && Before(q, j, p, i + 1)
        ensures HandleBounded(g, nofTerminals, nodes', q, j) {
      if (q, j) != (p, i) { assert HandleBounded(g, nofTerminals, nodes, q, j); }
    }
  }

  lemma {:induction false} SeenStep(g: Productions, nofTerminals: nat, inv: seq<set<nat>>, inv': seq<set<nat>>, p: nat,
                                    i: nat)
    requires NonterminalAt(g, p, i) && Seen(g, nofTerminals, inv, p, i) && Injective(inv')
    requires inv' == if RestSet(g, nofTerminals, p, i + 1) in inv then inv else
        inv + [RestSet(g, nofTerminals, p, i + 1)]
    ensures Seen(g, nofTerminals, inv', p, i + 1)
  {
    SetsBeforeNode(g, nofTerminals, p, i);
    forall h, a | 0 <= h < |inv'| && a in inv'[h] ensures a <= nofTerminals {
      assert h == |inv| ==> inv'[h] == RestSet(g, nofTerminals, p, i + 1);
    }
    assert (set s | s in inv') == (set s | s in inv) + {RestSet(g, nofTerminals, p, i + 1)};
  }

  /** The state of the constructor in front of a position. */
  ghost predicate Collected(g: Productions, nofTerminals: nat, inv: seq<set<nat>>, nodes: NodeMap, p: nat, i: nat) {
    Seen(g, nofTerminals, inv, p, i) && Numbered(g, nofTerminals, |inv|, nodes, p, i)
        && NodesUpTo(g, nofTerminals, inv, nodes, p, i)
  }

  lemma {:induction false} CollectedStep(g: Productions, nofTerminals: nat, inv: seq<set<nat>>, inv': seq<set<nat>>,
                                         nodes: NodeMap, p: nat, i: nat, h: Handle)
    requires Collected(g, nofTerminals, inv, nodes, p, i) && NonterminalAt(g, p, i) && Injective(inv')
    requires h.handle < |inv'| && RestFirst(g, nofTerminals, p, i + 1, inv'[h.handle], h.inherit)
    requires inv' == if inv'[h.handle] in inv then inv else inv + [inv'[h.handle]]
    ensures Collected(g, nofTerminals, inv', nodes[(p, i) := h], p, i + 1)
  {
    assert inv'[h.handle] == RestSet(g, nofTerminals, p, i + 1);
    if inv'[h.handle] !in inv && h.handle < |inv| { assert false; }
    NodesUpToStep(g, nofTerminals, inv, inv', nodes, p, i, h);
    NumberedStep(g, nofTerminals, inv, inv', nodes, p, i, h);
    SeenStep(g, nofTerminals, inv, inv', p, i);
  }

  lemma {:induction false} CollectedOther(g: Productions, nofTerminals: nat, inv: seq<set<nat>>, nodes: NodeMap,
                                          p: nat, i: nat)
    requires p < |g| && i <= |g[p].right| && Collected(g, nofTerminals, inv, nodes, p, i)
    ensures i < |g[p].right| && !g[p].right[i].N? ==> Collected(g, nofTerminals, inv, nodes, p, i + 1)
    ensures i == |g[p].right| ==> Collected(g, nofTerminals, inv, nodes, p + 1, 0)
  {
    SetsBeforeOther(g, nofTerminals, p, i);
  }

  method CollectNodes(g: Productions, ghost nofTerminals: nat, first: FirstMap, nullable: set<nat>,
                      sets: IntSetHandleMap) returns (r: Result<NodeMap>)
    requires WellFormed(g, nofTerminals) && FirstMapExact(g, nofTerminals, first) && NullableExact(g, nullable)
    requires sets.Valid() && sets.inv == [{0}]
    modifies sets
    ensures sets.Valid() && r.Ok? && Collected(g, nofTerminals, sets.inv, r.value, |g|, 0)
  {
    var nodes: NodeMap := map[];
    var p := 0;
    while p < |g|
      invariant 0 <= p <= |g|
      invariant sets.Valid() && Collected(g, nofTerminals, sets.inv, nodes, p, 0)
    {
      var i := 0;
      while i < |g[p].right|
        invariant 0 <= i <= |g[p].right|
        invariant sets.Valid() && Collected(g, nofTerminals, sets.inv, nodes, p, i)
      {
        CollectedOther(g, nofTerminals, sets.inv, nodes, p, i);
        if g[p].right[i].N? {
          var collected := CollectNode(g, nofTerminals, first, nullable, sets, nodes, p, i);
          if collected.Err? {
            return Err(LogicError);
          }
          nodes := collected.value;
        }
        i := i + 1;
      }
      CollectedOther(g, nofTerminals, sets.inv, nodes, p, i);
      p := p + 1;
    }
    r := Ok(nodes);
  }

  /** The handle of one nonterminal; a key that is there already would be a logic error. */
  method CollectNode(g: Productions, ghost nofTerminals: nat, first: FirstMap, nullable: set<nat>,
                     sets: IntSetHandleMap, nodes: NodeMap, p: nat, i: nat)
    returns (r: Result<NodeMap>)
    requires WellFormed(g, nofTerminals) && FirstMapExact(g, nofTerminals, first) && NullableExact(g, nullable)
    requires sets.Valid() && Collected(g, nofTerminals, sets.inv, nodes, p, i) && NonterminalAt(g, p, i)
    modifies sets
    ensures sets.Valid() && old(sets.inv) <= sets.inv
    ensures r.Ok? && Collected(g, nofTerminals, sets.inv, r.value, p, i + 1)
  {
    var firstOfRest, vanishes := GetLr1FirstSet(g, nofTerminals, p, i + 1, first, nullable);
    ghost var inv := sets.inv;
    var h := sets.Get(firstOfRest);
    sets.HandlesAreSets();
    CollectedStep(g, nofTerminals, inv, sets.inv, nodes, p, i, Handle(h, vanishes));
    if (p, i) in nodes {
      return Err(LogicError);
    }
    r := Ok(nodes[(p, i) := Handle(h, vanishes)]);
  }

  // ---------------------------------------------------------------- which handles there are

  lemma {:induction false} NodeRest(g: Productions, nofTerminals: nat, inv: seq<set<nat>>, nodes: NodeMap, p: nat,
                                    i: nat)
    requires NodesOk(g, nofTerminals, inv, nodes) && NonterminalAt(g, p, i)
    ensures (p, i) in nodes && nodes[(p, i)].handle < |inv| && inv[nodes[(p, i)].handle]
        == RestSet(g, nofTerminals, p, i + 1)
  {
    assert NodeOk(g, nofTerminals, inv, nodes, p, i);
    assert RestFirst(g, nofTerminals, p, i + 1, inv[nodes[(p, i)].handle], nodes[(p, i)].inherit);
  }

  /** The set behind a position is among the first ones up to a limit. */
  ghost predicate AmongFirst(g: Productions, nofTerminals: nat, p: nat, i: nat, limit: nat)
    requires NonterminalAt(g, p, i)
  {
    || RestSet(g, nofTerminals, p, i + 1) == {0}
    || exists q: nat, j: nat :: SameRest(g, nofTerminals, p, i, q, j) && |SetsBefore(g, nofTerminals, q, j)| < limit
  }

  ghost predicate SameRest(g: Productions, nofTerminals: nat, p: nat, i: nat, q: nat, j: nat)
    requires NonterminalAt(g, p, i)
  {
    NonterminalAt(g, q, j) && RestSet(g, nofTerminals, q, j + 1) == RestSet(g, nofTerminals, p, i + 1)
  }

  /** The handles of a node map are numbered as the constructor does it, over start sets. */
  ghost predicate InOrder(g: Productions, nofTerminals: nat, nodes: NodeMap) {
    && Numbered(g, nofTerminals, |NodeSets(g, nofTerminals)|, nodes, |g|, 0)
    && (forall p: nat, i: nat, h: nat | HasHandle(g, nodes, p, i, h) :: h < |NodeSets(g, nofTerminals)|)
  }

  lemma {:induction false} CollectedInOrder(g: Productions, nofTerminals: nat, inv: seq<set<nat>>, nodes: NodeMap)
    requires Collected(g, nofTerminals, inv, nodes, |g|, 0)
    ensures |inv| == |NodeSets(g, nofTerminals)| && InOrder(g, nofTerminals, nodes)
        && NodesOk(g, nofTerminals, inv, nodes)
  {
    CountDistinct(inv);
    forall p: nat, i: nat, h: nat | HasHandle(g, nodes, p, i, h) ensures h < |inv| {
      assert NodeOk(g, nofTerminals, inv, nodes, p, i);
    }
  }

  /** The handle of a node is below a limit exactly if its set is among the first ones. */
  lemma {:induction false} HandleBelow(g: Productions, nofTerminals: nat, inv: seq<set<nat>>, nodes: NodeMap, p: nat,
                                       i: nat, limit: nat)
    requires SetsOk(nofTerminals, inv) && NodesOk(g, nofTerminals, inv, nodes) && InOrder(g, nofTerminals, nodes)
    requires NonterminalAt(g, p, i) && limit > 0
    ensures (p, i) in nodes && (nodes[(p, i)].handle < limit <==> AmongFirst(g, nofTerminals, p, i, limit))
  {
    NodeRest(g, nofTerminals, inv, nodes, p, i);
    var h := nodes[(p, i)].handle;
    if h > 0 {
      assert HasHandle(g, nodes, p, i, h) && FirstUse(g, nofTerminals, nodes, h);
      var q: nat, j: nat :| HasHandle(g, nodes, q, j, h) && |SetsBefore(g, nofTerminals, q, j)| == h;
      NodeRest(g, nofTerminals, inv, nodes, q, j);
      assert SameRest(g, nofTerminals, p, i, q, j);
      if AmongFirst(g, nofTerminals, p, i, limit) {
        assert inv[0] != inv[h];
        var q', j' :| SameRest(g, nofTerminals, p, i, q', j') && |SetsBefore(g, nofTerminals, q', j')| < limit;
        NodeRest(g, nofTerminals, inv, nodes, q', j');
        assert HandleBounded(g, nofTerminals, nodes, q', j');
        assert nodes[(q', j')].handle == h;
      }
    }
  }

  class FollowMap {
    ghost const g: Productions
    ghost const nofTerminals: nat
    const nodes: NodeMap
    const sets: IntSetHandleMap
    var joins: map<(nat, nat), nat>
    /** The number of sets after construction. */
    ghost const start: nat

    ghost predicate Valid()
      reads this, sets
    {
      && sets.Valid()
      && SetsOk(nofTerminals, sets.inv)
      && NodesOk(g, nofTerminals, sets.inv, nodes)
      && JoinsOk(sets.inv, joins)
      && start <= |sets.inv| && (|sets.inv| <= start || |sets.inv| <= MAX_TERMINAL - 1)
    }

    constructor (g: Productions, nofTerminals: nat, first: FirstMap, nullable: set<nat>)
      requires WellFormed(g, nofTerminals) && FirstMapExact(g, nofTerminals, first) && NullableExact(g, nullable)
      ensures Valid() && fresh(sets) && this.g == g && this.nofTerminals == nofTerminals
      ensures start == |NodeSets(g, nofTerminals)| && InOrder(g, nofTerminals, nodes)
    {
      var s := new IntSetHandleMap();
      var zero := s.Get({0});
      var collected := CollectNodes(g, nofTerminals, first, nullable, s);
      this.g := g;
      this.nofTerminals := nofTerminals;
      CollectedInOrder(g, nofTerminals, s.inv, collected.value);
      nodes, sets, joins, start := collected.value, s, map[], |s.inv|;
    }

    /** The handle of the union, remembered; fails when too many sets have been seen. */
    method Join(handle1: nat, handle2: nat) returns (r: Result<nat>)
      requires Valid() && handle1 < |sets.inv| && handle2 < |sets.inv|
      modifies this, sets
      ensures Valid() && old(sets.inv) <= sets.inv
      ensures r.Err? <==> |old(sets.inv)| >= MAX_TERMINAL - 1
      ensures r.Err? ==> r.error == ComplexityLR1FollowSetsInGrammarDef
      ensures r.Ok? ==> r.value < |sets.inv| && sets.inv[r.value] == old(sets.inv)[handle1] + old(sets.inv)[handle2]
    {
      if |sets.inv| >= MAX_TERMINAL - 1 {
        return Err(ComplexityLR1FollowSetsInGrammarDef);
      }
      if (handle1, handle2) in joins {
        return Ok(joins[(handle1, handle2)]);
      }
      ghost var inv := sets.inv;
      var h := sets.Join(handle1, handle2);
      joins := joins[(handle1, handle2) := h];
      NodesStay(g, nofTerminals, inv, sets.inv, nodes);
      sets.HandlesAreSets();
      SetsStay(nofTerminals, inv, sets.inv, handle1, handle2);
      return Ok(h);
    }
  }

  lemma {:induction false} SetsStay(nofTerminals: nat, inv: seq<set<nat>>, inv': seq<set<nat>>, h1: nat, h2: nat)
    requires SetsOk(nofTerminals, inv) && inv <= inv' && Injective(inv') && h1 < |inv| && h2 < |inv|
    requires forall s | s in inv' :: s in inv || s == inv[h1] + inv[h2]
    ensures SetsOk(nofTerminals, inv')
  {
    forall h, a | 0 <= h < |inv'| && a in inv'[h] ensures a <= nofTerminals {
      assert inv'[h] in inv';
    }
  }

  ghost predicate JoinsOk(inv: seq<set<nat>>, joins: map<(nat, nat), nat>) {
    forall key | key in joins ::
      key.0 < |inv| && key.1 < |inv| && joins[key] < |inv| && inv[joins[key]] == inv[key.0] + inv[key.1]
  }
}
