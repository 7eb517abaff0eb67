/** Relations between types bound to scopes: for each scope and left side a list of weighted, tagged right sides. */
module RelationMap {
  import opened Guards
  import opened Scopes
  import opened ScopeForest
  import opened InvTree
  import opened ScopedMaps

  const MIN_TAG: int := 1
  const MAX_TAG: int := 32

  /** The selected tag values; a tag value is a tag minus one. */
  type TagMask = set<int>

  /** A relation as it was defined. */
  datatype Relation<N, V> = Relation(right: N, value: V, tagval: int, weight: real)

  datatype ListElement<N, V> = ListElement(relation: Relation<N, V>, next: int)

  datatype SetError = BadRelationTag | BadRelationWeight | DuplicateDefinition
  datatype SetOutcome = Defined | Refused(error: SetError)

  /** The checks on the arguments. */
  function Checked(tag: int, weight: real): (r: SetOutcome)
    ensures r == if !(1 <= tag <= 32) then Refused(BadRelationTag)
                 else if weight < 0.0 then Refused(BadRelationWeight) else Defined
  {
    if tag > MAX_TAG || tag < MIN_TAG then Refused(BadRelationTag)
    else if weight < 0.0 then Refused(BadRelationWeight)
    else Defined
  }

  // ---------------------------------------------------------------- linked lists in one array

  /** The elements idxs of the array form a list linked in this order. */
  ghost predicate IsList<N(!new), V>(list: seq<ListElement<N, V>>, idxs: seq<int>) {
    && |idxs| > 0
    && (forall j :: 0 <= j < |idxs| ==> 0 <= idxs[j] < |list|)
    && (forall j, k :: 0 <= j && k == j + 1 && k < |idxs| ==> list[idxs[j]].next == idxs[k])
    && list[idxs[|idxs| - 1]].next == -1
    && (forall j, k :: 0 <= j < k < |idxs| ==> idxs[j] < idxs[k])
  }

  /** The relations of a list in the order of their definition. */
  ghost function RelationsOf<N(!new), V>(list: seq<ListElement<N, V>>, idxs: seq<int>): (rs: seq<Relation<N, V>>)
    requires forall j :: 0 <= j < |idxs| ==> 0 <= idxs[j] < |list|
    ensures |rs| == |idxs| && forall j :: 0 <= j < |idxs| ==> rs[j] == list[idxs[j]].relation
  {
    seq(|idxs|, j requires 0 <= j < |idxs| => list[idxs[j]].relation)
  }

  /** Position of a relation with this right side and tag, the length if there is none. */
  ghost function Find<N(!new), V>(rs: seq<Relation<N, V>>, right: N, tagval: int): (j: nat)
    ensures j <= |rs|
    ensures forall i :: 0 <= i < j ==> !(rs[i].right == right && rs[i].tagval == tagval)
    ensures j < |rs| ==> rs[j].right == right && rs[j].tagval == tagval
  {
    if rs == [] then 0
    else if rs[0].right == right && rs[0].tagval == tagval then 0
    else Find(rs[1..], right, tagval) + 1
  }

  /** No two relations of a scope have the same right side and tag. */
  ghost predicate TagsDiffer<N(!new), V>(rs: seq<Relation<N, V>>) {
    forall i, j :: 0 <= i < j < |rs| ==> !(rs[i].right == rs[j].right && rs[i].tagval == rs[j].tagval)
  }

  /** What setting a relation does to the relations of its scope. */
  ghost function Extended<N(!new), V>(rs: seq<Relation<N, V>>, r: Relation<N, V>): (seq<Relation<N, V>>, SetOutcome) {
    var j := Find(rs, r.right, r.tagval);
    if j == |rs| then (rs + [r], Defined)
    else (rs, if rs[j].value == r.value then Defined else Refused(DuplicateDefinition))
  }

  /** What setting a relation does to the relations of its left side. */
  ghost function ExtendRelations<N(!new), V>(defs: map<Scope, seq<Relation<N, V>>>, scope: Scope, r: Relation<N, V>)
    : (map<Scope, seq<Relation<N, V>>>, SetOutcome) {
    var (rs, outcome) := Extended(if scope in defs then defs[scope] else [], r);
    (defs[scope := rs], outcome)
  }

  /** What setting a relation with any tag and weight does: refused arguments change nothing. */
  ghost predicate Relates<N(!new), V>(defs: map<Scope, seq<Relation<N, V>>>, defs': map<Scope, seq<Relation<N, V>>>,
                                      scope: Scope, right: N, value: V, tag: int, weight: real, r: SetOutcome)
  {
    if Checked(tag, weight) != Defined then defs' == defs && r == Checked(tag, weight)
    else (defs', r) == ExtendRelations(defs, scope, Relation(right, value, tag - 1, weight))
  }

  // ---------------------------------------------------------------- what a lookup of relations means

  /** A selected relation of this scope to this right side. */
  ghost predicate HasMatch<N(!new), V>(rs: seq<Relation<N, V>>, mask: TagMask, right: N) {
    exists j :: 0 <= j < |rs| && rs[j].right == right && rs[j].tagval in mask
  }

  /** The first of the selected relations of this scope to its right side. */
  ghost predicate FirstMatch<N(!new), V>(rs: seq<Relation<N, V>>, mask: TagMask, e: Relation<N, V>) {
    exists j :: 0 <= j < |rs| && rs[j] == e && e.tagval in mask && !HasMatch(rs[..j], mask, e.right)
  }

  /** The first selected relation to its right side in the innermost scope that has one. */
  ghost predicate Chosen<N(!new), V>(defs: map<Scope, seq<Relation<N, V>>>, step: int, mask: TagMask,
      e: Relation<N, V>) {
    exists s :: ChosenIn(defs, step, mask, e, s)
  }

  ghost predicate ChosenIn<N(!new), V>(defs: map<Scope, seq<Relation<N, V>>>, step: int, mask: TagMask,
                                       e: Relation<N, V>, s: Scope) {
    && s in defs && s.Covers(step) && FirstMatch(defs[s], mask, e)
    && forall t | t in defs && t.Covers(step) && Encloses(s, t) :: !HasMatch(defs[t], mask, e.right)
  }

  predicate HasRight<N(!new,==), V(==)>(res: seq<Relation<N, V>>, right: N) {
    exists i :: 0 <= i < |res| && res[i].right == right
  }

  /** Exactly one relation for each right side with a selected relation in a scope covering the step, the chosen one. */
  ghost predicate IsSelection<N(!new), V>(defs: map<Scope, seq<Relation<N, V>>>, step: int, mask: TagMask,
                                          res: seq<Relation<N, V>>) {
    && (forall i, j :: 0 <= i < j < |res| ==> res[i].right != res[j].right)
    && (forall i :: 0 <= i < |res| ==> Chosen(defs, step, mask, res[i]))
    && (forall s, right | s in defs && s.Covers(step) && HasMatch(defs[s], mask, right) :: HasRight(res, right))
  }

  lemma {:induction false} FirstMatchUnique<N(!new), V>(rs: seq<Relation<N, V>>, mask: TagMask, e: Relation<N, V>,
                                                        f: Relation<N, V>)
    requires FirstMatch(rs, mask, e) && FirstMatch(rs, mask, f) && e.right == f.right
    ensures e == f && HasMatch(rs, mask, e.right)
  {
    var j :| 0 <= j < |rs| && rs[j] == e && e.tagval in mask && !HasMatch(rs[..j], mask, e.right);
    var k :| 0 <= k < |rs| && rs[k] == f && f.tagval in mask && !HasMatch(rs[..k], mask, f.right);
    if j < k { MatchBefore(rs, mask, e.right, j, k); }
    if k < j { MatchBefore(rs, mask, e.right, k, j); }
  }

  lemma {:induction false} MatchBefore<N(!new), V>(rs: seq<Relation<N, V>>, mask: TagMask, right: N, j: int, k: int)
    requires 0 <= j < k <= |rs| && rs[j].right == right && rs[j].tagval in mask
    ensures HasMatch(rs[..k], mask, right)
  {
    assert rs[..k][j] == rs[j];
  }

  /** The chosen relation to a right side is unique. */
  lemma {:induction false} ChosenUnique<N(!new), V>(defs: map<Scope, seq<Relation<N, V>>>, step: int, mask: TagMask,
                                                    e: Relation<N, V>, f: Relation<N, V>)
    requires Hierarchical(defs.Keys) && Chosen(defs, step, mask, e) && Chosen(defs, step, mask, f) && e.right == f.right
    ensures e == f
  {
    var s :| ChosenIn(defs, step, mask, e, s);
    var t :| ChosenIn(defs, step, mask, f, t);
    FirstMatchUnique(defs[s], mask, e, e);
    FirstMatchUnique(defs[t], mask, f, f);
    OverlapIsNested(defs.Keys, s, t, step);
    FirstMatchUnique(defs[s], mask, e, f);
  }

  /** Two selections hold the same relations. */
  lemma {:induction false} SelectionUnique<N(!new), V>(defs: map<Scope, seq<Relation<N, V>>>, step: int, mask: TagMask,
                                                       a: seq<Relation<N, V>>, b: seq<Relation<N, V>>)
    requires Hierarchical(defs.Keys) && IsSelection(defs, step, mask, a) && IsSelection(defs, step, mask, b)
    ensures forall e | e in a :: e in b
  {
    forall e | e in a ensures e in b {
      var i :| 0 <= i < |a| && a[i] == e;
      var s :| ChosenIn(defs, step, mask, e, s);
      FirstMatchUnique(defs[s], mask, e, e);
      assert HasRight(b, e.right);
      var j :| 0 <= j < |b| && b[j].right == e.right;
      ChosenUnique(defs, step, mask, e, b[j]);
    }
  }

  // ---------------------------------------------------------------- collecting a selection from the inside out

  /** The scopes covering the step whose relations have been looked at when the walk stands at index ai. */
  ghost predicate Visited(ss: seq<Scope>, S: set<Scope>, step: int, ai: int, c: Scope) {
    c in S && c.Covers(step) && (ai < 0 || ai >= |ss| || Encloses(ss[ai], c))
  }

  ghost predicate CollectedSoFar<N(!new), V>(ss: seq<Scope>, defs: map<Scope, seq<Relation<N, V>>>, step: int,
                                             mask: TagMask, ai: int, res: seq<Relation<N, V>>) {
    && (forall i, j :: 0 <= i < j < |res| ==> res[i].right != res[j].right)
    && (forall i :: 0 <= i < |res| ==> Chosen(defs, step, mask, res[i]))
    && (forall c, right | Visited(ss, defs.Keys, step, ai, c) && HasMatch(defs[c], mask, right) :: HasRight(res, right))
  }

  /** Within the list of the scope at ai, the first j relations have been looked at too. */
  ghost predicate CollectedUpTo<N(!new), V>(ss: seq<Scope>, defs: map<Scope, seq<Relation<N, V>>>, step: int,
                                            mask: TagMask, ai: int, rs: seq<Relation<N, V>>, j: int,
                                            res: seq<Relation<N, V>>)
    requires 0 <= j <= |rs|
  {
    && CollectedSoFar(ss, defs, step, mask, ai, res)
    && forall right | HasMatch(rs[..j], mask, right) :: HasRight(res, right)
  }

  lemma {:induction false} HasRightSnoc<N(!new), V>(res: seq<Relation<N, V>>, e: Relation<N, V>)
    ensures HasRight(res + [e], e.right)
    ensures forall right | HasRight(res, right) :: HasRight(res + [e], right)
  {
    assert (res + [e])[|res|] == e;
    forall right | HasRight(res, right) ensures HasRight(res + [e], right) {
      var i :| 0 <= i < |res| && res[i].right == right;
      assert (res + [e])[i] == res[i];
    }
  }

  lemma {:induction false} HasMatchSnoc<N(!new), V>(rs: seq<Relation<N, V>>, j: int, mask: TagMask, right: N)
    requires 0 <= j < |rs|
    ensures HasMatch(rs[..j + 1], mask, right) <==>
        HasMatch(rs[..j], mask, right) || (rs[j].right == right && rs[j].tagval in mask)
  {
    if k :| 0 <= k < j && rs[k].right == right && rs[k].tagval in mask {
      assert rs[..j][k] == rs[k] && rs[..j + 1][k] == rs[k];
    }
    assert rs[..j + 1][j] == rs[j];
    if HasMatch(rs[..j + 1], mask, right) {
      var k :| 0 <= k < j + 1 && rs[..j + 1][k].right == right && rs[..j + 1][k].tagval in mask;
      if k < j { assert rs[..j][k] == rs[k]; }
    }
  }

  /** Looking at one relation: it is taken if it is selected and its right side is new. */
  lemma {:induction false} CollectStep<N(!new), V>(ss: seq<Scope>, defs: map<Scope, seq<Relation<N, V>>>, step: int,
                                                   mask: TagMask, ai: int, j: int, res: seq<Relation<N, V>>)
    requires 0 <= ai < |ss| && ss[ai] in defs && ss[ai].Covers(step) && 0 <= j < |defs[ss[ai]]|
    requires CollectedUpTo(ss, defs, step, mask, ai, defs[ss[ai]], j, res)
    ensures var e := defs[ss[ai]][j];
            CollectedUpTo(ss, defs, step, mask, ai, defs[ss[ai]], j + 1, if e.tagval in mask
                && !HasRight(res, e.right) then res + [e] else res)
  {
    var rs := defs[ss[ai]];
    var e := rs[j];
    forall right ensures HasMatch(rs[..j + 1], mask, right) <==>
        HasMatch(rs[..j], mask, right) || (e.right == right && e.tagval in mask) {
      HasMatchSnoc(rs, j, mask, right);
    }
    if e.tagval in mask && !HasRight(res, e.right) {
      HasRightSnoc(res, e);
      assert FirstMatch(rs, mask, e);
      assert ChosenIn(defs, step, mask, e, ss[ai]) by {
        forall t | t in defs && t.Covers(step) && Encloses(ss[ai], t) ensures !HasMatch(defs[t], mask, e.right) {
          assert Visited(ss, defs.Keys, step, ai, t);
        }
      }
    }
  }

  /** Going on to the next enclosing scope. */
  lemma {:induction false} CollectUp<N(!new), V>(ss: seq<Scope>, up: seq<int>, at: map<Scope, int>,
                                                 defs: map<Scope, seq<Relation<N, V>>>, step: int, mask: TagMask,
                                                 ai: int, res: seq<Relation<N, V>>)
    requires Linked(ss, up, at) && Hierarchical(at.Keys) && At(ss, at, ai) && defs.Keys == at.Keys
        && ss[ai].Covers(step)
    requires CollectedUpTo(ss, defs, step, mask, ai, defs[ss[ai]], |defs[ss[ai]]|, res)
    ensures CollectedSoFar(ss, defs, step, mask, up[ai], res)
    ensures up[ai] >= 0 ==> At(ss, at, up[ai]) && ss[up[ai]].Covers(step)
  {
    var cur := ss[ai];
    assert defs[cur][..|defs[cur]|] == defs[cur];
    assert Uplink(ss, at, at.Keys, cur, up[ai]);
    forall c, right | Visited(ss, defs.Keys, step, up[ai], c) && HasMatch(defs[c], mask, right)
        ensures HasRight(res, right) {
      OverlapIsNested(at.Keys, c, cur, step);
      assert c == cur || Visited(ss, defs.Keys, step, ai, c);
    }
  }

  lemma {:induction false} CollectStart<N(!new), V>(ss: seq<Scope>, defs: map<Scope, seq<Relation<N, V>>>, step: int,
                                                    mask: TagMask, ai: int)
    requires if ai == -1 then forall c | c in defs :: !c.Covers(step) else
        0 <= ai < |ss| && Innermost(defs.Keys, step, ss[ai])
    ensures CollectedSoFar(ss, defs, step, mask, ai, [])
  {
    forall c ensures !Visited(ss, defs.Keys, step, ai, c) {
      assert ai >= 0 && c in defs && c.Covers(step) ==> c.Contains(ss[ai]);
    }
  }

  lemma {:induction false} CollectEnd<N(!new), V>(ss: seq<Scope>, defs: map<Scope, seq<Relation<N, V>>>, step: int,
                                                  mask: TagMask, res: seq<Relation<N, V>>)
    requires CollectedSoFar(ss, defs, step, mask, -1, res)
    ensures IsSelection(defs, step, mask, res)
  {
    forall s, right | s in defs && s.Covers(step) && HasMatch(defs[s], mask, right) ensures HasRight(res, right) {
      assert Visited(ss, defs.Keys, step, -1, s);
    }
  }

  // ---------------------------------------------------------------- the lists of all scopes in one array

  /** The lists of the left sides and scopes, none sharing an element with another. */
  ghost predicate ListsOk<N(!new), V>(list: seq<ListElement<N, V>>, owner: seq<(N, Scope)>,
                                      lists: map<(N, Scope), seq<int>>) {
    |owner| == |list| && forall p {:trigger ListOk(list, owner, lists, p)} | p in lists :: ListOk(list, owner, lists, p)
  }

  ghost predicate ListOk<N(!new), V>(list: seq<ListElement<N, V>>, owner: seq<(N, Scope)>,
                                     lists: map<(N, Scope), seq<int>>, p: (N, Scope))
    requires |owner| == |list| && p in lists
  {
    && IsList(list, lists[p]) && TagsDifferIn(list, lists[p])
    && forall j :: 0 <= j < |lists[p]| ==> owner[lists[p][j]] == p
  }

  /** No two elements have the same right side and tag. */
  ghost predicate TagsDifferIn<N(!new), V>(list: seq<ListElement<N, V>>, idxs: seq<int>)
    requires forall j :: 0 <= j < |idxs| ==> 0 <= idxs[j] < |list|
  {
    forall z: int {:trigger Look(z)} :: Look(z) ==> TagsDiffer(RelationsOf(list, idxs))
  }

  lemma {:induction false} TagsSame<N(!new), V>(list: seq<ListElement<N, V>>, list': seq<ListElement<N, V>>,
                                                idxs: seq<int>)
    requires IsList(list, idxs) && IsList(list', idxs) && RelationsOf(list', idxs) == RelationsOf(list, idxs)
        && TagsDifferIn(list, idxs)
    ensures TagsDifferIn(list', idxs)
  {
  }

  lemma {:induction false} TagsMore<N(!new), V>(list: seq<ListElement<N, V>>, list': seq<ListElement<N, V>>,
                                                idxs: seq<int>, idxs': seq<int>, r: Relation<N, V>)
    requires (idxs == [] || (IsList(list, idxs) && TagsDifferIn(list, idxs))) && IsList(list', idxs')
    requires RelationsOf(list', idxs') == RelationsOf(list, idxs) + [r]
    requires Find(RelationsOf(list, idxs), r.right, r.tagval) == |idxs|
    ensures TagsDifferIn(list', idxs')
  {
    assert Look(0);
  }

  /** The heads of the lists of a left side are the values bound to its scopes. */
  ghost predicate HeadsTied<N(!new)>(lists: map<(N, Scope), seq<int>>, left: N, heads: map<Scope, int>) {
    && (forall s :: s in heads <==> (left, s) in lists)
    && (forall s | s in heads :: |lists[(left, s)]| > 0 && heads[s] == lists[(left, s)][0])
  }

  ghost predicate Tied<N(!new), V>(list: seq<ListElement<N, V>>, owner: seq<(N, Scope)>,
                                   lists: map<(N, Scope), seq<int>>, left: N, heads: map<Scope, int>) {
    ListsOk(list, owner, lists) && HeadsTied(lists, left, heads)
  }

  /** The relations of a left side by scope. */
  ghost function RelationMap<N(!new), V>(list: seq<ListElement<N, V>>, owner: seq<(N, Scope)>,
                                         lists: map<(N, Scope), seq<int>>, left: N, heads: map<Scope, int>)
    : (defs: map<Scope, seq<Relation<N, V>>>)
    requires Tied(list, owner, lists, left, heads)
    ensures defs.Keys == heads.Keys
  {
    map s | s in heads :: assert ListOk(list, owner, lists, (left, s)); RelationsOf(list, lists[(left, s)])
  }

  /** The array with an element appended behind prev. */
  function Chained<N, V>(list: seq<ListElement<N, V>>, r: Relation<N, V>, prev: int): seq<ListElement<N, V>>
    requires -1 <= prev < |list|
  {
    var pushed := list + [ListElement(r, -1)];
    if prev >= 0 then pushed[prev := pushed[prev].(next := |list|)] else pushed
  }

  lemma {:induction false} AppendedList<N(!new), V>(list: seq<ListElement<N, V>>, idxs: seq<int>, r: Relation<N, V>)
    requires idxs == [] || IsList(list, idxs)
    ensures var prev := if idxs == [] then -1 else idxs[|idxs| - 1];
            var idxs', list' := idxs + [|list|], Chained(list, r, prev);
            IsList(list', idxs') && RelationsOf(list', idxs') == RelationsOf(list, idxs) + [r]
  {
    var prev := if idxs == [] then -1 else idxs[|idxs| - 1];
    var list' := Chained(list, r, prev);
    forall j | 0 <= j < |idxs| ensures list'[idxs[j]] == if j + 1 < |idxs| then list[idxs[j]] else
        list[idxs[j]].(next := |list|) {
    }
  }

  lemma {:induction false} ListFrame<N(!new), V>(list: seq<ListElement<N, V>>, list': seq<ListElement<N, V>>,
                                                 idxs: seq<int>)
    requires IsList(list, idxs) && |list'| >= |list| && forall j :: 0 <= j < |idxs| ==> list'[idxs[j]] == list[idxs[j]]
    ensures IsList(list', idxs) && RelationsOf(list', idxs) == RelationsOf(list, idxs)
  {
  }

  lemma {:induction false} OtherList<N(!new), V>(list: seq<ListElement<N, V>>, owner: seq<(N, Scope)>,
                                                 lists: map<(N, Scope), seq<int>>, p: (N, Scope), r: Relation<N, V>,
                                                 prev: int, q: (N, Scope))
    requires ListsOk(list, owner, lists) && q in lists && q != p && -1 <= prev < |list|
        && (prev >= 0 ==> owner[prev] == p)
    ensures var lists' := lists[p := (if p in lists then lists[p] else []) + [|list|]];
            ListOk(Chained(list, r, prev), owner + [p], lists', q) && ListOk(list, owner, lists, q)
            && RelationsOf(Chained(list, r, prev), lists[q]) == RelationsOf(list, lists[q])
  {
    assert ListOk(list, owner, lists, q);
    var idxs, list' := lists[q], Chained(list, r, prev);
    forall j | 0 <= j < |idxs| ensures list'[idxs[j]] == list[idxs[j]] {
      assert owner[idxs[j]] == q;
    }
    ListFrame(list, list', idxs);
    TagsSame(list, list', idxs);
  }

  lemma {:induction false} OwnList<N(!new), V>(list: seq<ListElement<N, V>>, owner: seq<(N, Scope)>,
                                               lists: map<(N, Scope), seq<int>>, p: (N, Scope), r: Relation<N, V>,
                                               idxs: seq<int>)
    requires |owner| == |list| && (if p in lists then idxs == lists[p] && ListOk(list, owner, lists, p) else idxs == [])
    requires Find(RelationsOf(list, idxs), r.right, r.tagval) == |idxs|
    ensures var prev := if idxs == [] then -1 else idxs[|idxs| - 1];
            var list' := Chained(list, r, prev);
            ListOk(list', owner + [p], lists[p := idxs + [|list|]], p)
                && RelationsOf(list', idxs + [|list|]) == RelationsOf(list, idxs) + [r]
  {
    AppendedList(list, idxs, r);
    TagsMore(list, Chained(list, r, if idxs == [] then -1 else idxs[|idxs| - 1]), idxs, idxs + [|list|], r);
  }

  /** No element of the list has the right side and tag of the relation. */
  ghost predicate NotFound<N(!new), V>(list: seq<ListElement<N, V>>, idxs: seq<int>, r: Relation<N, V>) {
    (forall j :: 0 <= j < |idxs| ==> 0 <= idxs[j] < |list|)
    && Find(RelationsOf(list, idxs), r.right, r.tagval) == |idxs|
  }

  /** All lists after one of them got a new element at its end. */
  lemma {:induction false} ListsExtended<N(!new), V>(list: seq<ListElement<N, V>>, owner: seq<(N, Scope)>,
                                                     lists: map<(N, Scope), seq<int>>, p: (N, Scope),
                                                     r: Relation<N, V>, idxs: seq<int>, prev: int)
    requires ListsOk(list, owner, lists) && idxs == if p in lists then lists[p] else []
    requires prev == (if idxs == [] then -1 else idxs[|idxs| - 1]) && prev < |list|
    requires prev >= 0 ==> owner[prev] == p
    requires -1 <= prev && NotFound(list, idxs, r)
    ensures ListsOk(Chained(list, r, prev), owner + [p], lists[p := idxs + [|list|]])
  {
    var lists', list' := lists[p := idxs + [|list|]], Chained(list, r, prev);
    if p in lists { assert ListOk(list, owner, lists, p); }
    OwnList(list, owner, lists, p, r, idxs);
    forall q | q in lists' ensures ListOk(list', owner + [p], lists', q) {
      if q != p {
        OtherList(list, owner, lists, p, r, prev, q);
      }
    }
  }

  lemma {:induction false} MapOther<N(!new), V>(list: seq<ListElement<N, V>>, owner: seq<(N, Scope)>,
                                                lists: map<(N, Scope), seq<int>>, p: (N, Scope), r: Relation<N, V>,
                                                idxs: seq<int>, prev: int, l: N, heads: map<Scope, int>)
    requires Tied(list, owner, lists, l, heads) && l != p.0 && idxs == if p in lists then lists[p] else []
    requires -1 <= prev < |list| && (prev >= 0 ==> owner[prev] == p)
    requires ListsOk(Chained(list, r, prev), owner + [p], lists[p := idxs + [|list|]])
    ensures var list', owner', lists' := Chained(list, r, prev), owner + [p], lists[p := idxs + [|list|]];
            Tied(list', owner', lists', l, heads) && RelationMap(list', owner', lists', l, heads)
                == RelationMap(list, owner, lists, l, heads)
  {
    var list', owner', lists' := Chained(list, r, prev), owner + [p], lists[p := idxs + [|list|]];
    forall s | s in heads ensures RelationMap(list', owner', lists', l, heads)[s]
        == RelationMap(list, owner, lists, l, heads)[s] {
      OtherList(list, owner, lists, p, r, prev, (l, s));
    }
  }

  lemma {:induction false} TiedOwn<N(!new), V>(list: seq<ListElement<N, V>>, owner: seq<(N, Scope)>,
                                               lists: map<(N, Scope), seq<int>>, left: N, scope: Scope, idxs: seq<int>,
                                               heads: map<Scope, int>)
    requires Tied(list, owner, lists, left, heads) && idxs == if (left, scope) in lists then lists[(left, scope)] else
        []
    ensures HeadsTied(lists[(left, scope) := idxs + [|list|]], left, if scope in heads then heads else
        heads[scope := |list|])
  {
    var lists', heads' := lists[(left, scope) := idxs + [|list|]], if scope in heads then heads else
        heads[scope := |list|];
    forall s ensures s in heads' <==> (left, s) in lists' {
      assert s in heads <==> (left, s) in lists;
    }
  }

  lemma {:induction false} MapOwn<N(!new), V>(list: seq<ListElement<N, V>>, owner: seq<(N, Scope)>,
                                              lists: map<(N, Scope), seq<int>>, left: N, scope: Scope,
                                              r: Relation<N, V>, idxs: seq<int>, prev: int, heads: map<Scope, int>)
    requires Tied(list, owner, lists, left, heads) && idxs == if (left, scope) in lists then lists[(left, scope)] else
        []
    requires prev == (if idxs == [] then -1 else idxs[|idxs| - 1]) && -1 <= prev < |list|
        && (prev >= 0 ==> owner[prev] == (left, scope))
    requires NotFound(list, idxs, r)
    requires ListsOk(Chained(list, r, prev), owner + [(left, scope)], lists[(left, scope) := idxs + [|list|]])
    ensures var list', owner', lists' := Chained(list, r, prev), owner + [(left, scope)],
        lists[(left, scope) := idxs + [|list|]];
            var heads' := if scope in heads then heads else heads[scope := |list|];
            var defs := RelationMap(list, owner, lists, left, heads);
            Tied(list', owner', lists', left, heads')
            && RelationMap(list', owner', lists', left, heads')
                == defs[scope := (if scope in defs then defs[scope] else []) + [r]]
  {
    var p := (left, scope);
    var list', owner', lists' := Chained(list, r, prev), owner + [p], lists[p := idxs + [|list|]];
    var heads' := if scope in heads then heads else heads[scope := |list|];
    TiedOwn(list, owner, lists, left, scope, idxs, heads);
    var defs, defs' := RelationMap(list, owner, lists, left, heads), RelationMap(list', owner', lists', left, heads');
    assert defs'[scope] == (if scope in defs then defs[scope] else []) + [r] by {
      assert p in lists ==> ListOk(list, owner, lists, p);
      OwnList(list, owner, lists, p, r, idxs);
      assert lists'[p] == idxs + [|list|];
    }
    forall s | s in heads' && s != scope ensures defs'[s] == defs[s] {
      OtherList(list, owner, lists, p, r, prev, (left, s));
    }
  }

  /** The lists of all left sides. */
  ghost predicate AllTied<N(!new), V>(list: seq<ListElement<N, V>>, owner: seq<(N, Scope)>,
                                      lists: map<(N, Scope), seq<int>>, table: N -> map<Scope, int>) {
    forall left {:trigger Tied(list, owner, lists, left, table(left))} :: Tied(list, owner, lists, left, table(left))
  }

  lemma {:induction false} InitiallyTied<N(!new), V>(list: seq<ListElement<N, V>>, owner: seq<(N, Scope)>,
                                                     lists: map<(N, Scope), seq<int>>, table: N -> map<Scope, int>)
    requires list == [] && owner == [] && lists == map[] && forall l :: table(l) == map[]
    ensures AllTied(list, owner, lists, table)
    ensures forall l :: RelationMap(list, owner, lists, l, table(l)) == map[]
  {
  }

  /** Only the relations of one left side differ, they are defs now. */
  ghost predicate ChangedTo<N(!new), V>(list: seq<ListElement<N, V>>, owner: seq<(N, Scope)>,
                                        lists: map<(N, Scope), seq<int>>, table: N -> map<Scope, int>,
                                        list': seq<ListElement<N, V>>, owner': seq<(N, Scope)>,
                                        lists': map<(N, Scope), seq<int>>, table': N -> map<Scope, int>, left: N,
                                        defs: map<Scope, seq<Relation<N, V>>>)
    requires AllTied(list, owner, lists, table) && AllTied(list', owner', lists', table')
  {
    forall l {:trigger RelationMap(list', owner', lists', l, table'(l))} ::
      assert Tied(list, owner, lists, l, table(l)) && Tied(list', owner', lists', l, table'(l));
      RelationMap(list', owner', lists', l, table'(l)) == if l == left then defs else
          RelationMap(list, owner, lists, l, table(l))
  }

  /** A relation has been appended to the list of one left side and scope. */
  lemma {:induction false} AllExtended<N(!new), V>(list: seq<ListElement<N, V>>, owner: seq<(N, Scope)>,
                                                   lists: map<(N, Scope), seq<int>>, table: N -> map<Scope, int>,
                                                   left: N, scope: Scope, r: Relation<N, V>, idxs: seq<int>, prev: int,
                                                   table': N -> map<Scope, int>)
    requires AllTied(list, owner, lists, table) && idxs == if (left, scope) in lists then lists[(left, scope)] else []
    requires prev == (if idxs == [] then -1 else idxs[|idxs| - 1]) && -1 <= prev < |list|
    requires NotFound(list, idxs, r)
    requires forall l :: table'(l) == if l == left && scope !in table(l) then table(l)[scope := |list|] else table(l)
    ensures var list', owner', lists' := Chained(list, r, prev), owner + [(left, scope)],
        lists[(left, scope) := idxs + [|list|]];
            AllTied(list', owner', lists', table')
            && assert Tied(list, owner, lists, left, table(left));
               var defs := RelationMap(list, owner, lists, left, table(left));
               ChangedTo(list, owner, lists, table, list', owner', lists', table', left,
                   defs[scope := (if scope in defs then defs[scope] else []) + [r]])
  {
    var p := (left, scope);
    var list', owner', lists' := Chained(list, r, prev), owner + [p], lists[p := idxs + [|list|]];
    assert Tied(list, owner, lists, left, table(left));
    assert p in lists ==> ListOk(list, owner, lists, p);
    ListsExtended(list, owner, lists, p, r, idxs, prev);
    MapOwn(list, owner, lists, left, scope, r, idxs, prev, table(left));
    forall l | l != left
      ensures Tied(list, owner, lists, l, table(l)) && Tied(list', owner', lists', l, table'(l))
              && RelationMap(list', owner', lists', l, table'(l)) == RelationMap(list, owner, lists, l, table(l))
    {
      assert Tied(list, owner, lists, l, table(l));
      MapOther(list, owner, lists, p, r, idxs, prev, l, table(l));
    }
  }

  /** The elements of the array keep their relations, at most the given one is added. */
  ghost predicate OnlyAdds<N, V>(list: seq<ListElement<N, V>>, list': seq<ListElement<N, V>>, r: Relation<N, V>) {
    && |list| <= |list'| <= |list| + 1
    && (forall i :: 0 <= i < |list| ==> list'[i].relation == list[i].relation)
    && (|list| < |list'| ==> list'[|list|].relation == r)
  }

  /** The relations of all left sides by scope. */
  ghost function RelationTable<N(!new), V>(list: seq<ListElement<N, V>>, owner: seq<(N, Scope)>,
                                           lists: map<(N, Scope), seq<int>>, table: N -> map<Scope, int>)
    : N -> map<Scope, seq<Relation<N, V>>>
  {
    (left: N) => if Tied(list, owner, lists, left, table(left)) then RelationMap(list, owner, lists, left, table(left))
                 else map[]
  }

  /** What setting a valid relation does to all the relations. */
  ghost predicate SetTo<N(!new), V>(list: seq<ListElement<N, V>>, owner: seq<(N, Scope)>,
                                    lists: map<(N, Scope), seq<int>>, table: N -> map<Scope, int>,
                                    list': seq<ListElement<N, V>>, owner': seq<(N, Scope)>,
                                    lists': map<(N, Scope), seq<int>>, table': N -> map<Scope, int>, left: N,
                                    scope: Scope, r: Relation<N, V>, outcome: SetOutcome)
    requires AllTied(list, owner, lists, table) && AllTied(list', owner', lists', table')
  {
    assert Tied(list, owner, lists, left, table(left));
    var defs := RelationMap(list, owner, lists, left, table(left));
    var (defs', out) := ExtendRelations(defs, scope, r);
    outcome == out && ChangedTo(list, owner, lists, table, list', owner', lists', table', left, defs')
  }

  /** A relation has been set: the lists are tied to the new table, and mean what the specification says. */
  ghost predicate SetResult<N(!new), V>(list: seq<ListElement<N, V>>, owner: seq<(N, Scope)>,
                                        lists: map<(N, Scope), seq<int>>, table: N -> map<Scope, int>,
                                        list': seq<ListElement<N, V>>, owner': seq<(N, Scope)>,
                                        lists': map<(N, Scope), seq<int>>, table': N -> map<Scope, int>, left: N,
                                        scope: Scope, r: Relation<N, V>, outcome: SetOutcome)
    requires AllTied(list, owner, lists, table)
  {
    forall z: int {:trigger Look(z)} :: Look(z) ==>
      && AllTied(list', owner', lists', table') && OnlyAdds(list, list', r)
      && SetTo(list, owner, lists, table, list', owner', lists', table', left, scope, r, outcome)
  }

  lemma {:induction false} ResultHolds<N(!new), V>(list: seq<ListElement<N, V>>, owner: seq<(N, Scope)>,
                                                   lists: map<(N, Scope), seq<int>>, table: N -> map<Scope, int>,
                                                   list': seq<ListElement<N, V>>, owner': seq<(N, Scope)>,
                                                   lists': map<(N, Scope), seq<int>>, table': N -> map<Scope, int>,
                                                   left: N, scope: Scope, r: Relation<N, V>, outcome: SetOutcome)
    requires AllTied(list, owner, lists, table) && AllTied(list', owner', lists', table') && OnlyAdds(list, list', r)
    requires SetTo(list, owner, lists, table, list', owner', lists', table', left, scope, r, outcome)
    ensures SetResult(list, owner, lists, table, list', owner', lists', table', left, scope, r, outcome)
  {
  }

  lemma {:induction false} SetMeans<N(!new), V>(list: seq<ListElement<N, V>>, owner: seq<(N, Scope)>,
                                                lists: map<(N, Scope), seq<int>>, table: N -> map<Scope, int>,
                                                list': seq<ListElement<N, V>>, owner': seq<(N, Scope)>,
                                                lists': map<(N, Scope), seq<int>>, table': N -> map<Scope, int>,
                                                left: N, scope: Scope, r: Relation<N, V>, outcome: SetOutcome)
    requires AllTied(list, owner, lists, table)
    requires SetResult(list, owner, lists, table, list', owner', lists', table', left, scope, r, outcome)
    ensures AllTied(list', owner', lists', table') && OnlyAdds(list, list', r)
    ensures Tied(list, owner, lists, left, table(left)) && Tied(list', owner', lists', left, table'(left))
    ensures (RelationMap(list', owner', lists', left, table'(left)), outcome)
        == ExtendRelations(RelationMap(list, owner, lists, left, table(left)), scope, r)
    ensures forall l | l != left :: Tied(list, owner, lists, l, table(l)) && Tied(list', owner', lists', l, table'(l))
                                    && RelationMap(list', owner', lists', l, table'(l))
                                        == RelationMap(list, owner, lists, l, table(l))
  {
    assert Look(0);
    assert Tied(list, owner, lists, left, table(left)) && Tied(list', owner', lists', left, table'(left));
    forall l | l != left ensures Tied(list, owner, lists, l, table(l)) && Tied(list', owner', lists', l, table'(l))
                                 && RelationMap(list', owner', lists', l, table'(l))
                                     == RelationMap(list, owner, lists, l, table(l))
    {
      assert Tied(list, owner, lists, l, table(l)) && Tied(list', owner', lists', l, table'(l));
    }
  }

  lemma {:induction false} NewRelation<N(!new), V>(list: seq<ListElement<N, V>>, owner: seq<(N, Scope)>,
                                                   lists: map<(N, Scope), seq<int>>, table: N -> map<Scope, int>,
                                                   left: N, scope: Scope, r: Relation<N, V>, idxs: seq<int>, prev: int,
                                                   table': N -> map<Scope, int>)
    requires AllTied(list, owner, lists, table) && idxs == if (left, scope) in lists then lists[(left, scope)] else []
    requires NotFound(list, idxs, r)
    requires prev == (if idxs == [] then -1 else idxs[|idxs| - 1]) && -1 <= prev < |list|
    requires forall l :: table'(l) == if l == left && scope !in table(l) then table(l)[scope := |list|] else table(l)
    ensures var list', owner', lists' := Chained(list, r, prev), owner + [(left, scope)],
        lists[(left, scope) := idxs + [|list|]];
            AllTied(list', owner', lists', table')
                && SetTo(list, owner, lists, table, list', owner', lists', table', left, scope, r, Defined)
  {
    assert Tied(list, owner, lists, left, table(left));
    AllExtended(list, owner, lists, table, left, scope, r, idxs, prev, table');
  }

  lemma {:induction false} KnownRelation<N(!new), V>(list: seq<ListElement<N, V>>, owner: seq<(N, Scope)>,
                                                     lists: map<(N, Scope), seq<int>>, table: N -> map<Scope, int>,
                                                     left: N, scope: Scope, r: Relation<N, V>, found: int,
                                                     table': N -> map<Scope, int>, outcome: SetOutcome)
    requires AllTied(list, owner, lists, table) && (left, scope) in lists && 0 <= found < |list|
    requires forall j :: 0 <= j < |lists[(left, scope)]| ==> 0 <= lists[(left, scope)][j] < |list|
    requires var idxs := lists[(left, scope)];
             var j := Find(RelationsOf(list, idxs), r.right, r.tagval);
             j < |idxs| && idxs[j] == found
    requires outcome == if list[found].relation.value == r.value then Defined else Refused(DuplicateDefinition)
    requires forall l :: table'(l) == if l == left && scope !in table(l) then table(l)[scope := |list|] else table(l)
    ensures AllTied(list, owner, lists, table')
        && SetTo(list, owner, lists, table, list, owner, lists, table', left, scope, r, outcome)
  {
    assert Tied(list, owner, lists, left, table(left));
    forall l ensures Tied(list, owner, lists, l, table'(l)) && table'(l) == table(l) {
      assert Tied(list, owner, lists, l, table(l));
    }
  }

  lemma {:induction false} FindIs<N(!new), V>(rs: seq<Relation<N, V>>, right: N, tagval: int, j: int)
    requires 0 <= j <= |rs| && forall i :: 0 <= i < j ==> !(rs[i].right == right && rs[i].tagval == tagval)
    requires j < |rs| ==> rs[j].right == right && rs[j].tagval == tagval
    ensures Find(rs, right, tagval) == j
  {
  }

  /** Look for a relation with the same right side and tag in the list from li on. */
  method Search<N(==,!new), V>(list: seq<ListElement<N, V>>, li: int, right: N, tagval: int, ghost idxs: seq<int>)
    returns (found: int, prev: int)
    requires if idxs == [] then li == -1 else IsList(list, idxs) && li == idxs[0]
    ensures found == -1 ==> Find(RelationsOf(list, idxs), right, tagval) == |idxs| && prev == if idxs == [] then -1 else
                            idxs[|idxs| - 1]
    ensures found != -1 ==> 0 <= found < |list|
                            && var j := Find(RelationsOf(list, idxs), right, tagval); j < |idxs| && idxs[j] == found
  {
    found, prev := li, -1;
    ghost var j := 0;
    while found >= 0
      invariant 0 <= j <= |idxs|
      invariant found == (if j < |idxs| then idxs[j] else -1) && prev == if j > 0 then idxs[j - 1] else -1
      invariant forall i :: 0 <= i < j ==>
                            !(list[idxs[i]].relation.right == right && list[idxs[i]].relation.tagval == tagval)
      decreases |idxs| - j
    {
      var le := list[found];
      if le.relation.right == right && tagval == le.relation.tagval {
        FindIs(RelationsOf(list, idxs), right, tagval, j);
        return;
      }
      prev := found;
      found := le.next;
      j := j + 1;
    }
    FindIs(RelationsOf(list, idxs), right, tagval, j);
  }

  /** What a search along a list gives: the element with this right side and tag, or the last element. */
  ghost predicate Searched<N(!new), V>(list: seq<ListElement<N, V>>, idxs: seq<int>, r: Relation<N, V>, found: int,
                                       prev: int) {
    && (idxs == [] || IsList(list, idxs))
    && var j := Find(RelationsOf(list, idxs), r.right, r.tagval);
       if found == -1 then j == |idxs| && prev == if idxs == [] then -1 else idxs[|idxs| - 1]
       else 0 <= found < |list| && j < |idxs| && idxs[j] == found
  }

  lemma {:induction false} SetKnown<N(!new), V>(list: seq<ListElement<N, V>>, owner: seq<(N, Scope)>,
                                                lists: map<(N, Scope), seq<int>>, table: N -> map<Scope, int>, left: N,
                                                scope: Scope, r: Relation<N, V>, idxs: seq<int>, found: int, prev: int,
                                                table': N -> map<Scope, int>, outcome: SetOutcome)
    requires AllTied(list, owner, lists, table) && idxs == if (left, scope) in lists then lists[(left, scope)] else []
    requires Searched(list, idxs, r, found, prev) && found != -1
    requires outcome == if list[found].relation.value == r.value then Defined else Refused(DuplicateDefinition)
    requires forall l :: table'(l) == if l == left && scope !in table(l) then table(l)[scope := |list|] else table(l)
    ensures SetResult(list, owner, lists, table, list, owner, lists, table', left, scope, r, outcome)
  {
    KnownRelation(list, owner, lists, table, left, scope, r, found, table', outcome);
  }

  lemma {:induction false} SetNew<N(!new), V>(list: seq<ListElement<N, V>>, owner: seq<(N, Scope)>,
                                              lists: map<(N, Scope), seq<int>>, table: N -> map<Scope, int>, left: N,
                                              scope: Scope, r: Relation<N, V>, idxs: seq<int>, prev: int,
                                              table': N -> map<Scope, int>)
    requires AllTied(list, owner, lists, table) && idxs == if (left, scope) in lists then lists[(left, scope)] else []
    requires Searched(list, idxs, r, -1, prev)
    requires forall l :: table'(l) == if l == left && scope !in table(l) then table(l)[scope := |list|] else table(l)
    ensures -1 <= prev < |list|
    ensures SetResult(list, owner, lists, table, Chained(list, r, prev), owner + [(left, scope)],
        lists[(left, scope) := idxs + [|list|]], table', left, scope, r, Defined)
  {
    NewRelation(list, owner, lists, table, left, scope, r, idxs, prev, table');
    ChainedAdds(list, r, prev);
    ResultHolds(list, owner, lists, table, Chained(list, r, prev), owner + [(left, scope)],
        lists[(left, scope) := idxs + [|list|]], table', left, scope, r, Defined);
  }

  lemma {:induction false} ChainedAdds<N(!new), V>(list: seq<ListElement<N, V>>, r: Relation<N, V>, prev: int)
    requires -1 <= prev < |list|
    ensures OnlyAdds(list, Chained(list, r, prev), r)
  {
  }

  /** Set a valid relation in the list with head li, -1 for none. */
  method SetInList<N(==,!new), V(==)>(list: seq<ListElement<N, V>>, li: int, rel: Relation<N, V>, ghost left: N,
                                      ghost scope: Scope, ghost owner: seq<(N, Scope)>,
                                      ghost lists: map<(N, Scope), seq<int>>, ghost table: N -> map<Scope, int>,
                                      ghost table': N -> map<Scope, int>)
    returns (r: SetOutcome, list': seq<ListElement<N, V>>, ghost owner': seq<(N, Scope)>,
        ghost lists': map<(N, Scope), seq<int>>)
    requires AllTied(list, owner, lists, table) && li == ValueOr(table(left), scope, -1)
    requires forall l :: table'(l) == if l == left && scope !in table(l) then table(l)[scope := |list|] else table(l)
    ensures SetResult(list, owner, lists, table, list', owner', lists', table', left, scope, rel, r)
  {
    ghost var idxs := if (left, scope) in lists then lists[(left, scope)] else [];
    ListAt(list, owner, lists, table, left, scope, idxs);
    var found, prev := Search(list, li, rel.right, rel.tagval, idxs);
    assert Searched(list, idxs, rel, found, prev);
    if found >= 0 {
      r := if list[found].relation.value == rel.value then Defined else Refused(DuplicateDefinition);
      list', owner', lists' := list, owner, lists;
      SetKnown(list, owner, lists, table, left, scope, rel, idxs, found, prev, table', r);
    } else {
      SetNew(list, owner, lists, table, left, scope, rel, idxs, prev, table');
      r := Defined;
      list', lists', owner' := Chained(list, rel, prev), lists[(left, scope) := idxs + [|list|]],
          owner + [(left, scope)];
    }
  }

  lemma {:induction false} ListAt<N(!new), V>(list: seq<ListElement<N, V>>, owner: seq<(N, Scope)>,
                                              lists: map<(N, Scope), seq<int>>, table: N -> map<Scope, int>, left: N,
                                              scope: Scope, idxs: seq<int>)
    requires AllTied(list, owner, lists, table) && idxs == if (left, scope) in lists then lists[(left, scope)] else []
    ensures if idxs == [] then ValueOr(table(left), scope, -1) == -1
            else (left, scope) in lists && IsList(list, idxs) && ValueOr(table(left), scope, -1) == idxs[0]
  {
    assert Tied(list, owner, lists, left, table(left));
    assert (left, scope) in lists ==> ListOk(list, owner, lists, (left, scope));
  }

  class ScopedRelationMap<N(==,!new), V(==)> {
    const scopes: ScopedMap<N, int>
    var list: seq<ListElement<N, V>>
    ghost var lists: map<(N, Scope), seq<int>>
    ghost var owner: seq<(N, Scope)>

    ghost predicate Valid()
      reads this, scopes, scopes.invtree
    {
      && scopes.Valid() && scopes.invtree.nullval == -1
      && AllTied(list, owner, lists, scopes.Table())
    }

    lemma {:induction false} TagsAlwaysDiffer(left: N, scope: Scope)
      requires Valid()
      ensures scope in Contents(left) ==> TagsDiffer(Contents(left)[scope])
    {
      assert Tied(list, owner, lists, left, scopes.Table()(left));
      if scope in Contents(left) {
        assert ListOk(list, owner, lists, (left, scope));
        assert Look(0);
      }
    }

    ghost function Contents(left: N): (defs: map<Scope, seq<Relation<N, V>>>)
      reads this, scopes, scopes.invtree
      requires Valid()
    {
      assert Tied(list, owner, lists, left, scopes.Table()(left));
      RelationMap(list, owner, lists, left, scopes.Table()(left))
    }

    /** The relations of all left sides. */
    ghost function Relations(): (t: N -> map<Scope, seq<Relation<N, V>>>)
      reads this, scopes, scopes.invtree
      requires Valid()
      ensures forall left :: t(left) == Contents(left)
    {
      RelationTable(list, owner, lists, scopes.Table())
    }

    constructor ()
      ensures Valid() && (forall left :: Contents(left) == map[]) && list == [] && fresh(scopes)
          && fresh(scopes.invtree)
    {
      scopes := new ScopedMap<N, int>(-1);
      list, lists, owner := [], map[], [];
      new;
      InitiallyTied(list, owner, lists, scopes.Table());
    }

    /** Define a relation; equal duplicates are ignored, different ones refused. */
    method Set(scope: Scope, left: N, right: N, value: V, tag: int, weight: real) returns (r: SetOutcome)
      requires Valid() && scope.NonEmpty() && Hierarchical(Contents(left).Keys + {scope})
      modifies this, scopes, scopes.invtree
      ensures Valid()
      ensures forall l | l != left :: Contents(l) == old(Contents(l))
      ensures Relates(old(Contents(left)), Contents(left), scope, right, value, tag, weight, r)
      ensures Checked(tag, weight) != Defined ==> list == old(list)
      ensures OnlyAdds(old(list), list, Relation(right, value, tag - 1, weight))
    {
      r := Checked(tag, weight);
      if r == Defined {
        r := Extend(scope, left, Relation(right, value, tag - 1, weight));
      }
    }

    /** Set a valid relation. */
    method Extend(scope: Scope, left: N, rel: Relation<N, V>) returns (r: SetOutcome)
      requires Valid() && scope.NonEmpty() && Hierarchical(Contents(left).Keys + {scope})
      modifies this, scopes, scopes.invtree
      ensures Valid()
      ensures forall l | l != left :: Contents(l) == old(Contents(l))
      ensures (Contents(left), r) == ExtendRelations(old(Contents(left)), scope, rel)
      ensures OnlyAdds(old(list), list, rel)
    {
      ghost var list0, owner0, lists0, table := list, owner, lists, scopes.Table();
      assert Tied(list, owner, lists, left, table(left));
      var li := scopes.GetOrSet(scope, left, |list|);
      ghost var table' := scopes.Table();
      var list';
      ghost var owner', lists';
      r, list', owner', lists' := SetInList(list, li, rel, left, scope, owner, lists, table, table');
      SetMeans(list0, owner0, lists0, table, list', owner', lists', table', left, scope, rel, r);
      list, owner, lists := list', owner', lists';
    }

    /** The relations of a list whose right side is new and whose tag is selected. */
    method CollectList(li0: int, mask: TagMask, rt0: seq<Relation<N, V>>, candidatemap0: map<N, int>,
                       ghost idxs: seq<int>, ghost ss: seq<Scope>, ghost defs: map<Scope, seq<Relation<N, V>>>,
                       ghost step: int, ghost ai: int)
      returns (rt: seq<Relation<N, V>>, candidatemap: map<N, int>)
      requires IsList(list, idxs) && li0 == idxs[0] && 0 <= ai < |ss| && ss[ai] in defs && ss[ai].Covers(step)
          && defs[ss[ai]] == RelationsOf(list, idxs)
      requires CollectedSoFar(ss, defs, step, mask, ai, rt0) && CandidatesOf(rt0, candidatemap0)
      ensures CollectedUpTo(ss, defs, step, mask, ai, defs[ss[ai]], |defs[ss[ai]]|, rt)
          && CandidatesOf(rt, candidatemap)
    {
      rt, candidatemap := rt0, candidatemap0;
      var li := li0;
      ghost var j := 0;
      while li >= 0
        invariant 0 <= j <= |idxs| && li == if j < |idxs| then idxs[j] else -1
        invariant CollectedUpTo(ss, defs, step, mask, ai, defs[ss[ai]], j, rt) && CandidatesOf(rt, candidatemap)
        decreases |idxs| - j
      {
        var le := list[li];
        CollectStep(ss, defs, step, mask, ai, j, rt);
        if le.relation.tagval in mask && le.relation.right !in candidatemap {
          CandidatesSnoc(rt, candidatemap, le.relation);
          candidatemap := candidatemap[le.relation.right := |rt|];
          rt := rt + [le.relation];
        }
        li := le.next;
        j := j + 1;
      }
    }

    /** The relations with a selected tag in scopes covering the step, inner definitions hiding outer ones. */
    method Get(step: int, key: N, selectTags: TagMask) returns (rt: seq<Relation<N, V>>)
      requires Valid()
      ensures Hierarchical(Contents(key).Keys) && IsSelection(Contents(key), step, selectTags, rt)
    {
      ghost var ss, up, a := ScopesOf(scopes.invtree.ar), LinksOf(scopes.invtree.ar), AtOf(scopes.at, key);
      ghost var defs := Contents(key);
      KeyTree(scopes.invtree.ar, scopes.owner, scopes.at, scopes.heads, key);
      assert Tied(list, owner, lists, key, scopes.Table()(key));
      var ri := scopes.MatchRange(step, key);
      CollectStart(ss, defs, step, selectTags, ri);
      rt := [];
      var candidatemap: map<N, int> := map[];
      while ri >= 0
        invariant ri == -1 || (At(ss, a, ri) && ss[ri].Covers(step))
        invariant CollectedSoFar(ss, defs, step, selectTags, ri, rt) && CandidatesOf(rt, candidatemap)
        decreases ChainLength(ss, a, ri)
      {
        ghost var idxs := lists[(key, ss[ri])];
        assert ListOk(list, owner, lists, (key, ss[ri]));
        rt, candidatemap := CollectList(scopes.invtree.ar[ri].value, selectTags, rt, candidatemap, idxs, ss, defs, step,
            ri);
        CollectUp(ss, up, a, defs, step, selectTags, ri, rt);
        LinkedShrinks(scopes.invtree.ar, a, ri);
        ri := scopes.invtree.ar[ri].prev;
      }
      CollectEnd(ss, defs, step, selectTags, rt);
    }
  }

  /** The map holds the right sides of the result. */
  ghost predicate CandidatesOf<N(!new), V>(rt: seq<Relation<N, V>>, candidatemap: map<N, int>) {
    forall right :: right in candidatemap <==> HasRight(rt, right)
  }

  lemma {:induction false} CandidatesSnoc<N(!new), V>(rt: seq<Relation<N, V>>, candidatemap: map<N, int>,
                                                      e: Relation<N, V>)
    requires CandidatesOf(rt, candidatemap)
    ensures CandidatesOf(rt + [e], candidatemap[e.right := |rt|])
  {
    HasRightSnoc(rt, e);
    forall right | HasRight(rt + [e], right) ensures right == e.right || HasRight(rt, right) {
      var i :| 0 <= i < |rt + [e]| && (rt + [e])[i].right == right;
      assert i < |rt| ==> (rt + [e])[i] == rt[i];
    }
  }

  lemma {:induction false} KeyTree<K(!new), V>(ar: seq<UpValue<V>>, owner: seq<K>, at: map<K, map<Scope, int>>,
                                               heads: map<(K, int), int>, key: K)
    requires AllTrees(ar, owner, at, heads)
    ensures var a := AtOf(at, key);
            Linked(ScopesOf(ar), LinksOf(ar), a) && Hierarchical(a.Keys) && Definitions(ar, a).Keys == a.Keys
            && forall i | At(ScopesOf(ar), a, i) :: Definitions(ar, a)[ar[i].scope] == ar[i].value
  {
    assert TreeOf(ar, owner, at, heads, key);
  }
}
