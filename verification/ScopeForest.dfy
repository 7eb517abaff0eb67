/** Uplink chains of nested scopes: which links are right, and what walking them finds. */
module ScopeForest {
  import opened Sets
  import opened Scopes

  // ---------------------------------------------------------------- enclosing scopes

  predicate Encloses(c: Scope, s: Scope) {
    c.Contains(s) && c != s
  }

  /** p is the smallest element that encloses s. */
  ghost predicate Parent(S: set<Scope>, s: Scope, p: Scope) {
    p in S && Encloses(p, s) && forall c | c in S && Encloses(c, s) :: c.Contains(p)
  }

  ghost predicate Outermost(S: set<Scope>, s: Scope) {
    forall c | c in S :: !Encloses(c, s)
  }

  /** s is the smallest element that covers the step. */
  ghost predicate Innermost(S: set<Scope>, step: int, s: Scope) {
    s in S && s.Covers(step) && forall c | c in S && c.Covers(step) :: c.Contains(s)
  }

  // ---------------------------------------------------------------- scopes and links by index

  /** Index i is the place of its scope. */
  ghost predicate At(ss: seq<Scope>, at: map<Scope, int>, i: int) {
    0 <= i < |ss| && ss[i] in at && at[ss[i]] == i
  }

  ghost predicate Indexed(ss: seq<Scope>, at: map<Scope, int>) {
    forall s | s in at :: 0 <= at[s] < |ss| && ss[at[s]] == s
  }

  /** Index i is that of the smallest element of S enclosing s, -1 if there is none. */
  ghost predicate Uplink(ss: seq<Scope>, at: map<Scope, int>, S: set<Scope>, s: Scope, i: int) {
    (i == -1 && Outermost(S, s)) || (At(ss, at, i) && Parent(S, s, ss[i]))
  }

  ghost predicate Linked(ss: seq<Scope>, up: seq<int>, at: map<Scope, int>) {
    |up| == |ss| && Indexed(ss, at) && forall s | s in at :: Uplink(ss, at, at.Keys, s, up[at[s]])
  }

  /** Index h is that of the innermost scope ending at e. */
  ghost predicate IsHead(ss: seq<Scope>, at: map<Scope, int>, e: int, h: int) {
    At(ss, at, h) && ss[h].end == e && forall s | s in at && s.end == e :: s.Contains(ss[h])
  }

  ghost predicate HeadsOk(ss: seq<Scope>, at: map<Scope, int>, heads: map<int, int>) {
    && (forall e | e in heads :: IsHead(ss, at, e, heads[e]))
    && (forall s | s in at :: s.end in heads)
  }

  /** A complete index of the scopes in at. */
  ghost predicate Forest(ss: seq<Scope>, up: seq<int>, at: map<Scope, int>, heads: map<int, int>) {
    Hierarchical(at.Keys) && Linked(ss, up, at) && HeadsOk(ss, at, heads)
  }

  ghost predicate LeastEnd(heads: map<int, int>, x: int, e: int) {
    e in heads && x < e && forall f | f in heads && x < f :: e <= f
  }

  /** Number of elements on the way up from index i. */
  ghost function ChainLength(ss: seq<Scope>, at: map<Scope, int>, i: int): nat {
    if 0 <= i < |ss| then |set c | c in at && c.Contains(ss[i])| else 0
  }

  /** Following a link gets nearer to the end of the chain. */
  lemma {:induction false} ChainShrinks(ss: seq<Scope>, at: map<Scope, int>, i: int, p: int)
    requires At(ss, at, i) && (p == -1 || (At(ss, at, p) && Encloses(ss[p], ss[i])))
    ensures ChainLength(ss, at, p) < ChainLength(ss, at, i)
  {
    var from := set c | c in at && c.Contains(ss[i]);
    assert ss[i] in from;
    if p >= 0 {
      var onward := set c | c in at && c.Contains(ss[p]);
      assert onward <= from - {ss[i]};
      SubsetSize(onward, from - {ss[i]});
    }
  }

  /** The indices met on the way up from index i. */
  ghost function Chain(ss: seq<Scope>, up: seq<int>, at: map<Scope, int>, i: int): seq<int>
    requires Linked(ss, up, at) && (i == -1 || At(ss, at, i))
    decreases ChainLength(ss, at, i)
  {
    if i == -1 then []
    else
      assert Uplink(ss, at, at.Keys, ss[i], up[i]);
      ChainShrinks(ss, at, i, up[i]);
      [i] + Chain(ss, up, at, up[i])
  }

  ghost predicate OnChain(ss: seq<Scope>, chain: seq<int>, s: Scope) {
    exists k :: 0 <= k < |chain| && 0 <= chain[k] < |ss| && ss[chain[k]] == s
  }

  /** The chain from a scope on is exactly the scopes that contain it, inner to outer. */
  lemma {:induction false} ChainIsEnclosing(ss: seq<Scope>, up: seq<int>, at: map<Scope, int>, i: int)
    requires Linked(ss, up, at) && At(ss, at, i)
    ensures var chain := Chain(ss, up, at, i);
            && |chain| > 0 && chain[0] == i
            && (forall k :: 0 <= k < |chain| ==> At(ss, at, chain[k]))
            && (forall j, k :: 0 <= j < k < |chain| ==> Encloses(ss[chain[k]], ss[chain[j]]))
            && (forall s :: OnChain(ss, chain, s) <==> s in at && s.Contains(ss[i]))
    decreases ChainLength(ss, at, i)
  {
    assert Uplink(ss, at, at.Keys, ss[i], up[i]);
    ChainShrinks(ss, at, i, up[i]);
    var rest := Chain(ss, up, at, up[i]);
    if up[i] >= 0 {
      ChainIsEnclosing(ss, up, at, up[i]);
    }
    ChainOrder(ss, up, at, i, rest);
    forall s ensures OnChain(ss, [i] + rest, s) <==> s in at && s.Contains(ss[i]) {
      OnChainCons(ss, i, rest, s);
    }
  }

  lemma {:induction false} ChainOrder(ss: seq<Scope>, up: seq<int>, at: map<Scope, int>, i: int, rest: seq<int>)
    requires At(ss, at, i) && forall k :: 0 <= k < |rest| ==> At(ss, at, rest[k]) && Encloses(ss[rest[k]], ss[i])
    requires forall k :: 0 <= k < |rest| ==> 0 <= rest[k] < |ss|
    requires forall j, k :: 0 <= j < k < |rest| ==> Encloses(ss[rest[k]], ss[rest[j]])
    ensures var chain := [i] + rest;
            (forall k :: 0 <= k < |chain| ==> At(ss, at, chain[k]))
            && (forall j, k :: 0 <= j < k < |chain| ==> Encloses(ss[chain[k]], ss[chain[j]]))
  {
  }

  lemma {:induction false} OnChainCons(ss: seq<Scope>, i: int, rest: seq<int>, s: Scope)
    requires 0 <= i < |ss|
    ensures OnChain(ss, [i] + rest, s) <==> s == ss[i] || OnChain(ss, rest, s)
  {
    var chain := [i] + rest;
    assert chain[0] == i;
    if k :| 0 <= k < |rest| && 0 <= rest[k] < |ss| && ss[rest[k]] == s {
      assert chain[k + 1] == rest[k];
    }
  }

  // ---------------------------------------------------------------- walking up from the head of a step

  /** Every element covering the step lies on the chain that starts with index i. */
  ghost predicate CoversFrom(ss: seq<Scope>, at: map<Scope, int>, step: int, i: int) {
    && (i == -1 || (At(ss, at, i) && ss[i].end > step))
    && forall c | c in at && c.Covers(step) :: i >= 0 && c.Contains(ss[i])
  }

  lemma {:induction false} CoversFromHead(ss: seq<Scope>, up: seq<int>, at: map<Scope, int>, heads: map<int, int>,
                                          step: int, e: int)
    requires Forest(ss, up, at, heads) && LeastEnd(heads, step, e)
    ensures CoversFrom(ss, at, step, heads[e])
  {
    var h := heads[e];
    assert IsHead(ss, at, e, h);
    forall c | c in at && c.Covers(step) ensures c.Contains(ss[h]) {
      assert c.end in heads && Compatible(c, ss[h]);
    }
  }

  lemma {:induction false} CoversFromNone(ss: seq<Scope>, up: seq<int>, at: map<Scope, int>, heads: map<int, int>,
                                          step: int)
    requires Forest(ss, up, at, heads) && forall f | f in heads :: f <= step
    ensures CoversFrom(ss, at, step, -1)
  {
  }

  lemma {:induction false} CoversFromNext(ss: seq<Scope>, up: seq<int>, at: map<Scope, int>, step: int, i: int)
    requires Linked(ss, up, at) && CoversFrom(ss, at, step, i) && i >= 0 && ss[i].start > step
    ensures CoversFrom(ss, at, step, up[i])
  {
    assert Uplink(ss, at, at.Keys, ss[i], up[i]);
  }

  lemma {:induction false} CoversFromFound(ss: seq<Scope>, at: map<Scope, int>, step: int, i: int)
    requires CoversFrom(ss, at, step, i) && i >= 0 && ss[i].start <= step
    ensures Innermost(at.Keys, step, ss[i])
  {
  }

  // ---------------------------------------------------------------- walking up among the scopes with one end

  /** If sc is an element, it lies on the chain that starts with index i. */
  ghost predicate FindsFrom(ss: seq<Scope>, at: map<Scope, int>, sc: Scope, i: int) {
    (i == -1 || At(ss, at, i)) && (sc in at ==> i >= 0 && sc.Contains(ss[i]))
  }

  lemma {:induction false} FindsFromNext(ss: seq<Scope>, up: seq<int>, at: map<Scope, int>, sc: Scope, i: int)
    requires Linked(ss, up, at) && FindsFrom(ss, at, sc, i) && i >= 0 && ss[i] != sc
    ensures FindsFrom(ss, at, sc, up[i])
  {
    assert Uplink(ss, at, at.Keys, ss[i], up[i]);
  }

  // ---------------------------------------------------------------- the uplink of a scope not yet in the index

  /** Every element with a larger end that encloses sc lies on the chain that starts with index i. */
  ghost predicate EnclosersFrom(ss: seq<Scope>, at: map<Scope, int>, sc: Scope, i: int) {
    && (i == -1 || (At(ss, at, i) && ss[i].end > sc.end))
    && forall c | c in at && c.Contains(sc) && c.end > sc.end :: i >= 0 && c.Contains(ss[i])
  }

  lemma {:induction false} EnclosersFromHead(ss: seq<Scope>, up: seq<int>, at: map<Scope, int>, heads: map<int, int>,
                                             sc: Scope, e: int)
    requires Forest(ss, up, at, heads) && LeastEnd(heads, sc.end, e) && sc.NonEmpty()
    ensures EnclosersFrom(ss, at, sc, heads[e])
  {
    var h := heads[e];
    assert IsHead(ss, at, e, h);
    forall c | c in at && c.Contains(sc) && c.end > sc.end ensures c.Contains(ss[h]) {
      assert c.end in heads && Compatible(c, ss[h]);
    }
  }

  lemma {:induction false} EnclosersFromNext(ss: seq<Scope>, up: seq<int>, at: map<Scope, int>, sc: Scope, i: int)
    requires Linked(ss, up, at) && EnclosersFrom(ss, at, sc, i) && i >= 0 && !ss[i].Contains(sc)
    ensures EnclosersFrom(ss, at, sc, up[i])
  {
    assert Uplink(ss, at, at.Keys, ss[i], up[i]);
  }

  /** Index i is that of the smallest element enclosing sc among those with a larger end. */
  ghost predicate RightUplink(ss: seq<Scope>, at: map<Scope, int>, sc: Scope, i: int) {
    && (i == -1 || (At(ss, at, i) && ss[i].Contains(sc) && ss[i].end > sc.end))
    && forall c | c in at && c.Contains(sc) && c.end > sc.end :: i >= 0 && c.Contains(ss[i])
  }

  // ---------------------------------------------------------------- inserting a scope

  /** The scope sc has been appended under index n; at is the index with it, S are the elements before. The links of
      elements directly below sc that end behind b and before sc are still those from before. */
  ghost predicate Half(ss: seq<Scope>, up: seq<int>, at: map<Scope, int>, S: set<Scope>, sc: Scope, b: int) {
    && |up| == |ss| && Indexed(ss, at) && at.Keys == S + {sc} && sc !in S && Hierarchical(at.Keys)
    && Uplink(ss, at, at.Keys, sc, up[at[sc]])
    && forall s {:trigger LinkState(ss, up, at, S, sc, s, b)} | s in S :: LinkState(ss, up, at, S, sc, s, b)
  }

  ghost predicate LinkState(ss: seq<Scope>, up: seq<int>, at: map<Scope, int>, S: set<Scope>, sc: Scope, s: Scope,
                            b: int)
    requires |up| == |ss| && Indexed(ss, at)
  {
    s in at && (Uplink(ss, at, at.Keys, s, up[at[s]]) || StillOld(ss, up, at, S, sc, s, b))
  }

  ghost predicate StillOld(ss: seq<Scope>, up: seq<int>, at: map<Scope, int>, S: set<Scope>, sc: Scope, s: Scope,
                           b: int)
    requires |up| == |ss| && Indexed(ss, at) && s in at
  {
    b < s.end < sc.end && Parent(at.Keys, s, sc) && Uplink(ss, at, S, s, up[at[s]])
  }

  /** A new element changes only the uplinks of the elements directly below it. */
  lemma {:induction false} UplinkStable(ss: seq<Scope>, at: map<Scope, int>, sc: Scope, s: Scope, i: int)
    requires sc !in at && Indexed(ss, at) && Hierarchical(at.Keys + {sc}) && s in at && Uplink(ss, at, at.Keys, s, i)
    ensures var at' := at[sc := |ss|];
            Uplink(ss + [sc], at', at.Keys, s, i) && (Uplink(ss + [sc], at', at'.Keys, s, i) || Parent(at'.Keys, s, sc))
  {
    var S' := at.Keys + {sc};
    assert at[sc := |ss|].Keys == S';
    if i == -1 {
      assert Encloses(sc, s) ==> Parent(S', s, sc);
    } else if Encloses(sc, s) && !sc.Contains(ss[i]) {
      assert Compatible(sc, ss[i]);
      assert Parent(S', s, sc);
    } else {
      assert Parent(S', s, ss[i]);
    }
  }

  /** The state after appending sc with uplink i, the link of pred redirected to it. */
  lemma {:induction false} HalfAfterInsert(ss: seq<Scope>, up: seq<int>, at: map<Scope, int>, sc: Scope, i: int,
                                           pred: int)
    requires Linked(ss, up, at) && sc !in at && Hierarchical(at.Keys + {sc})
    requires Uplink(ss, at, at.Keys, sc, i)
    requires pred == -1 || (At(ss, at, pred) && Parent(at.Keys + {sc}, ss[pred], sc))
    requires forall m | m in at && m.end == sc.end && Parent(at.Keys + {sc}, m, sc) :: pred >= 0 && m == ss[pred]
    ensures var up' := if pred >= 0 then up[pred := |ss|] + [i] else up + [i];
            Half(ss + [sc], up', at[sc := |ss|], at.Keys, sc, sc.start)
  {
    var n := |ss|;
    var ss', at', S := ss + [sc], at[sc := n], at.Keys;
    var up' := if pred >= 0 then up[pred := n] + [i] else up + [i];
    assert at'.Keys == S + {sc};
    assert Uplink(ss', at', at'.Keys, sc, i);
    forall s | s in S ensures LinkState(ss', up', at', S, sc, s, sc.start) {
      assert s.NonEmpty();
      UplinkStable(ss, at, sc, s, up[at[s]]);
      if pred >= 0 && s == ss[pred] {
        assert At(ss', at', n) && Uplink(ss', at', at'.Keys, s, n);
      } else {
        assert up'[at'[s]] == up[at[s]];
      }
    }
  }

  lemma {:induction false} HeadsAfterInsert(ss: seq<Scope>, at: map<Scope, int>, heads: map<int, int>, sc: Scope,
                                            head: int)
    requires HeadsOk(ss, at, heads) && sc !in at && Indexed(ss, at)
    requires head == |ss| || (sc.end in heads && head == heads[sc.end])
    requires forall s | s in at && s.end == sc.end :: if head == |ss| then s.Contains(sc) else sc.Contains(ss[head])
    ensures HeadsOk(ss + [sc], at[sc := |ss|], heads[sc.end := head])
  {
    var ss', at', heads' := ss + [sc], at[sc := |ss|], heads[sc.end := head];
    forall e | e in heads' ensures IsHead(ss', at', e, heads'[e]) {
      if e != sc.end || head != |ss| {
        assert IsHead(ss, at, e, heads[e]);
        assert sc.end == e ==> ss[heads[e]] in at;
      }
    }
  }

  /** The walk from the head of the end of sc, in search of its place. */
  ghost predicate PlaceFrom(ss: seq<Scope>, up: seq<int>, at: map<Scope, int>, sc: Scope, pred: int, i: int) {
    && |up| == |ss|
    && (i == -1 || (At(ss, at, i) && ss[i].start < sc.end <= ss[i].end))
    && (if pred == -1 then IsHead(ss, at, sc.end, i)
        else At(ss, at, pred) && Encloses(sc, ss[pred]) && ss[pred].end == sc.end && i == up[pred])
    && (forall c | c in at && c.Contains(sc) :: i >= 0 && c.Contains(ss[i]))
    && (forall m | m in at && m.end == sc.end && Encloses(sc, m) ::
        (i >= 0 && m.Contains(ss[i])) || (pred >= 0 && ss[pred].Contains(m)))
  }

  lemma {:induction false} PlaceFromHead(ss: seq<Scope>, up: seq<int>, at: map<Scope, int>, heads: map<int, int>,
                                         sc: Scope)
    requires Forest(ss, up, at, heads) && sc.end in heads && sc.NonEmpty() && Hierarchical(at.Keys + {sc})
    ensures PlaceFrom(ss, up, at, sc, -1, heads[sc.end])
  {
    var h := heads[sc.end];
    assert IsHead(ss, at, sc.end, h);
    forall c | c in at && c.Contains(sc) ensures c.Contains(ss[h]) {
      assert Compatible(c, ss[h]);
    }
  }

  lemma {:induction false} PlaceFromNext(ss: seq<Scope>, up: seq<int>, at: map<Scope, int>, sc: Scope, pred: int,
                                         i: int)
    requires Linked(ss, up, at) && PlaceFrom(ss, up, at, sc, pred, i) && i >= 0 && Encloses(sc, ss[i])
        && Hierarchical(at.Keys + {sc})
    ensures PlaceFrom(ss, up, at, sc, i, up[i])
  {
    assert Uplink(ss, at, at.Keys, ss[i], up[i]);
    forall m | m in at && m.end == sc.end && Encloses(sc, m) ensures (up[i] >= 0 && m.Contains(ss[up[i]]))
        || ss[i].Contains(m) {
      assert Compatible(m, ss[i]);
    }
  }

  /** What the walk meets is nested with sc. */
  lemma {:induction false} PlaceFromNested(ss: seq<Scope>, up: seq<int>, at: map<Scope, int>, sc: Scope, pred: int,
                                           i: int)
    requires PlaceFrom(ss, up, at, sc, pred, i) && i >= 0 && Hierarchical(at.Keys + {sc})
    ensures sc.Contains(ss[i]) || ss[i].Contains(sc)
  {
    assert Compatible(sc, ss[i]);
  }

  /** The walk has ended: the place of sc is between pred and i. */
  lemma {:induction false} PlaceFound(ss: seq<Scope>, up: seq<int>, at: map<Scope, int>, heads: map<int, int>,
                                      sc: Scope, pred: int, i: int)
    requires Forest(ss, up, at, heads) && sc.end in heads && Hierarchical(at.Keys + {sc})
    requires PlaceFrom(ss, up, at, sc, pred, i) && (i >= 0 ==> Encloses(ss[i], sc))
    ensures sc !in at
    ensures Uplink(ss, at, at.Keys, sc, i)
    ensures pred >= 0 ==> Parent(at.Keys + {sc}, ss[pred], sc)
    ensures forall m | m in at && m.end == sc.end && Parent(at.Keys + {sc}, m, sc) :: pred >= 0 && m == ss[pred]
    ensures var up' := if pred >= 0 then up[pred := |ss|] + [i] else up + [i];
            Half(ss + [sc], up', at[sc := |ss|], at.Keys, sc, sc.start)
    ensures HeadsOk(ss + [sc], at[sc := |ss|], heads[sc.end := if pred == -1 then |ss| else heads[sc.end]])
  {
    if pred >= 0 {
      assert Uplink(ss, at, at.Keys, ss[pred], up[pred]);
      assert IsHead(ss, at, sc.end, heads[sc.end]);
    }
    HalfAfterInsert(ss, up, at, sc, i, pred);
    HeadsAfterInsert(ss, at, heads, sc, if pred == -1 then |ss| else heads[sc.end]);
  }

  lemma {:induction false} NewEnd(ss: seq<Scope>, up: seq<int>, at: map<Scope, int>, heads: map<int, int>, sc: Scope,
                                  i: int)
    requires Forest(ss, up, at, heads) && sc.end !in heads && Hierarchical(at.Keys + {sc}) && RightUplink(ss, at, sc, i)
    ensures sc !in at
    ensures Half(ss + [sc], up + [i], at[sc := |ss|], at.Keys, sc, sc.start)
    ensures HeadsOk(ss + [sc], at[sc := |ss|], heads[sc.end := |ss|])
  {
    HalfAfterInsert(ss, up, at, sc, i, -1);
    HeadsAfterInsert(ss, at, heads, sc, |ss|);
  }

  /** When the walk leaves the elements with the end of sc at the end of the chain, nothing encloses sc. */
  lemma {:induction false} NothingToTheRight(ss: seq<Scope>, up: seq<int>, at: map<Scope, int>, sc: Scope, pred: int,
                                             i: int)
    requires PlaceFrom(ss, up, at, sc, pred, -1) && RightUplink(ss, at, sc, i)
    ensures i == -1
  {
  }

  // ---------------------------------------------------------------- redirecting the links of the elements below

  /** The walk from the head of end e up to the last element inside sc. */
  ghost predicate InsideFrom(ss: seq<Scope>, up: seq<int>, at: map<Scope, int>, sc: Scope, e: int, pred: int, i: int) {
    && |up| == |ss|
    && (i == -1 || At(ss, at, i))
    && (pred == -1 || (At(ss, at, pred) && Encloses(sc, ss[pred]) && i == up[pred]))
    && forall m | m in at && m.end == e && Parent(at.Keys, m, sc) ::
        (i >= 0 && m.Contains(ss[i])) || (pred >= 0 && m == ss[pred])
  }

  lemma {:induction false} HalfLink(ss: seq<Scope>, up: seq<int>, at: map<Scope, int>, S: set<Scope>, sc: Scope,
                                    b: int, i: int)
    requires Half(ss, up, at, S, sc, b) && At(ss, at, i)
    ensures up[i] == -1 || (At(ss, at, up[i]) && Encloses(ss[up[i]], ss[i]))
    ensures ss[i] != sc ==> Uplink(ss, at, at.Keys, ss[i], up[i]) || StillOld(ss, up, at, S, sc, ss[i], b)
  {
    if ss[i] != sc { assert LinkState(ss, up, at, S, sc, ss[i], b); }
  }

  lemma {:induction false} InsideFromNext(ss: seq<Scope>, up: seq<int>, at: map<Scope, int>, S: set<Scope>, sc: Scope,
                                          b: int, e: int, pred: int, i: int)
    requires Half(ss, up, at, S, sc, b) && InsideFrom(ss, up, at, sc, e, pred, i) && i >= 0 && Encloses(sc, ss[i])
    ensures InsideFrom(ss, up, at, sc, e, i, up[i])
  {
    HalfLink(ss, up, at, S, sc, b, i);
    if pred >= 0 { HalfLink(ss, up, at, S, sc, b, pred); }
  }

  /** At an element that is sc itself the links were redirected before. */
  lemma {:induction false} AlreadyLinked(ss: seq<Scope>, up: seq<int>, at: map<Scope, int>, S: set<Scope>, sc: Scope,
                                         b: int, e: int, pred: int, i: int)
    requires Half(ss, up, at, S, sc, b) && InsideFrom(ss, up, at, sc, e, pred, i) && i >= 0 && ss[i] == sc
    requires b < e && forall s | s in S && b < s.end :: e <= s.end
    ensures Half(ss, up, at, S, sc, e)
  {
    forall s | s in S ensures LinkState(ss, up, at, S, sc, s, e) {
      assert LinkState(ss, up, at, S, sc, s, b);
      if s.end == e && Parent(at.Keys, s, sc) {
        assert pred >= 0 && s == ss[pred];
      }
    }
  }

  /** Outside sc the last element inside is linked to sc. */
  lemma {:induction false} LinkedNow(ss: seq<Scope>, up: seq<int>, at: map<Scope, int>, S: set<Scope>, sc: Scope,
                                     b: int, e: int, pred: int, i: int)
    requires Half(ss, up, at, S, sc, b) && InsideFrom(ss, up, at, sc, e, pred, i) && (i >= 0 ==> !sc.Contains(ss[i]))
    requires b < e && forall s | s in S && b < s.end :: e <= s.end
    ensures Half(ss, if pred >= 0 then up[pred := at[sc]] else up, at, S, sc, e)
  {
    var n := at[sc];
    var up' := if pred >= 0 then up[pred := n] else up;
    if pred >= 0 {
      HalfLink(ss, up, at, S, sc, b, pred);
      assert Parent(at.Keys, ss[pred], sc);
      assert pred != n;
    }
    forall s | s in S ensures LinkState(ss, up', at, S, sc, s, e) {
      assert LinkState(ss, up, at, S, sc, s, b);
      if pred >= 0 && s == ss[pred] {
        assert Uplink(ss, at, at.Keys, s, n);
      } else {
        assert up'[at[s]] == up[at[s]];
      }
    }
  }

  /** Nothing is left to be redirected. */
  lemma {:induction false} HalfIsWhole(ss: seq<Scope>, up: seq<int>, at: map<Scope, int>, S: set<Scope>, sc: Scope,
                                       b: int)
    requires Half(ss, up, at, S, sc, b) && forall s | s in S && b < s.end :: sc.end <= s.end
    ensures Linked(ss, up, at)
  {
    forall s | s in at ensures Uplink(ss, at, at.Keys, s, up[at[s]]) {
      if s != sc { assert LinkState(ss, up, at, S, sc, s, b); }
    }
  }
}
