/** Type definitions and reductions of the type database: definition, lookup, derivation of a type and resolving of a
    name. */
module TypeDatabases {
  import opened Guards
  import opened Scopes
  import opened ScopeForest
  import opened ScopedMaps
  import RelationMap
  import opened ReductionPaths
  import opened TypeSearch
  import opened TypeRecords

  type ReductionDefs = int -> map<Scope, seq<Reduction>>

  const INT_MAX: nat := 0x7fff_ffff

  /** The distance below which weights are taken as equal; the rounding unit of single precision numbers. */
  const EPSILON: real := 0.00000011920928955078125

  datatype TypeError =
    | InvalidHandle
    | InvalidBoundary
    | InvalidReductionDefinition
    | AmbiguousReductionDefinitions
    | TooManyTypeArguments
    | CompiledSourceTooComplex
    | LogicError
    | BadReduction(error: RelationMap.SetError)

  datatype Answer<T> = Ok(value: T) | Err(error: TypeError)

  datatype GetReductionResult = GetReductionResult(weight: real, ctor: int) {
    predicate Defined() {
      ctor >= 0
    }
  }

  datatype DeriveResult = DeriveResult(reductions: seq<TypeConstructorPair>, conflictPath: seq<int>, weightsum: real,
      defined: bool)

  datatype ResolveResult = ResolveResult(reductions: seq<TypeConstructorPair>, typerec: int, items: seq<nat>,
      rootIndex: int, contextType: int, conflictType: int, weightsum: real)

  // ---------------------------------------------------------------- the graph of the reductions visible at a step

  /** The reduction r leads away from type f: it is visible at the step, its tag selected, and no inner one hides it. */
  ghost function Edges(defs: ReductionDefs, step: int, mask: RelationMap.TagMask): (int, Reduction) -> bool {
    (f: int, r: Reduction) => RelationMap.Chosen(defs(f), step, mask, r)
  }

  /** All reductions have a type and a constructor that are handles, and a weight that is not negative. */
  ghost predicate ReductionsOk(defs: ReductionDefs, types: set<int>) {
    forall f, s, j {:trigger defs(f)[s][j]} | s in defs(f) && 0 <= j < |defs(f)[s]| ::
      var r := defs(f)[s][j];
      r.right in types && r.right >= 0 && r.value >= 0 && r.weight >= 0.0
  }

  ghost predicate AllHierarchical(defs: ReductionDefs) {
    forall f {:trigger defs(f)} :: Hierarchical(defs(f).Keys)
  }

  lemma {:induction false} EdgeOk(defs: ReductionDefs, types: set<int>, step: int, mask: RelationMap.TagMask, f: int,
                                  r: Reduction)
    requires ReductionsOk(defs, types) && RelationMap.Chosen(defs(f), step, mask, r)
    ensures r.right in types && r.right >= 0 && r.value >= 0 && r.weight >= 0.0
  {
    var s :| RelationMap.ChosenIn(defs(f), step, mask, r, s);
    var j :| 0 <= j < |defs(f)[s]| && defs(f)[s][j] == r;
  }

  lemma {:induction false} GraphIsOk(defs: ReductionDefs, types: set<int>, step: int, mask: RelationMap.TagMask,
                                     pr: Problem)
    requires ReductionsOk(defs, types) && AllHierarchical(defs) && pr.edge == Edges(defs, step, mask)
        && pr.types == types
    ensures GraphOk(pr)
  {
    forall f, r | pr.edge(f, r) ensures r.right in pr.types && r.weight >= 0.0 {
      EdgeOk(defs, types, step, mask, f, r);
    }
    forall f, r, s | pr.edge(f, r) && pr.edge(f, s) && r.right == s.right ensures r == s {
      assert Hierarchical(defs(f).Keys);
      RelationMap.ChosenUnique(defs(f), step, mask, r, s);
    }
  }

  /** A selection lists exactly the edges. */
  lemma {:induction false} SelectionIsEdgeList(defs: ReductionDefs, step: int, mask: RelationMap.TagMask, pr: Problem,
                                               f: int, rs: seq<Reduction>)
    requires AllHierarchical(defs) && pr.edge == Edges(defs, step, mask)
        && RelationMap.IsSelection(defs(f), step, mask, rs)
    ensures EdgeList(pr, f, rs)
  {
    forall r | pr.edge(f, r) ensures r in rs {
      assert Hierarchical(defs(f).Keys);
      var s :| RelationMap.ChosenIn(defs(f), step, mask, r, s);
      RelationMap.FirstMatchUnique(defs(f)[s], mask, r, r);
      assert RelationMap.HasRight(rs, r.right);
      var i :| 0 <= i < |rs| && rs[i].right == r.right;
      RelationMap.ChosenUnique(defs(f), step, mask, r, rs[i]);
    }
  }

  // ---------------------------------------------------------------- what the results mean

  /** The result of a derivation is a best walk; the conflict path is that of a rival, empty exactly if there is
      none. */
  ghost predicate DerivedBy(pr: Problem, target: int -> bool, res: DeriveResult, p: Path) {
    && Best(pr, target, p) && LightestWalk(pr, target, Weight(p.steps))
    && ReductionsOfSteps(res.reductions, p.steps) && res.weightsum == Weight(p.steps)
    && if res.conflictPath == [] then Unrivalled(pr, target, p, 1.0 / 8388608.0)
       else exists q :: Rival(pr, target, p, 1.0 / 8388608.0, q) && TypesOfSteps(res.conflictPath, q.steps)
  }

  /** The types and constructors of the steps. */
  predicate ReductionsOfSteps(reductions: seq<TypeConstructorPair>, steps: seq<Reduction>) {
    |reductions| == |steps| && forall i | 0 <= i < |steps| ::
      reductions[i].ty == steps[i].right && reductions[i].ctor == steps[i].value
  }

  predicate TypesOfSteps(types: seq<int>, steps: seq<Reduction>) {
    |types| == |steps| && forall i | 0 <= i < |steps| :: types[i] == steps[i].right
  }

  /** Defined exactly if some walk within the limit leads to the target; otherwise everything is empty. */
  ghost predicate DeriveMeans(pr: Problem, target: int -> bool, res: DeriveResult) {
    && (res.defined <==> exists p :: IsWalk(pr, p) && target(EndOf(p)))
    && if res.defined then exists p :: DerivedBy(pr, target, res, p)
       else res.reductions == [] && res.conflictPath == [] && res.weightsum == 0.0
  }

  /** Number of the first occurrence of the type, counted from 1. */
  ghost predicate FirstOccurrence(contextTypes: seq<int>, number: int, ty: int) {
    1 <= number <= |contextTypes| && contextTypes[number - 1] == ty && forall j ::
        0 <= j < number - 1 ==> contextTypes[j] != ty
  }

  /** The result of resolving a name is a best walk from one of the context types to one where the name is visible. */
  ghost predicate ResolvedBy(pr: Problem, visible: int -> int, contextTypes: seq<int>, res: ResolveResult, p: Path) {
    var target := (ty: int) => visible(ty) != 0;
    && Best(pr, target, p) && LightestWalk(pr, target, Weight(p.steps))
    && ReductionsOfSteps(res.reductions, p.steps) && res.weightsum == Weight(p.steps)
    && res.contextType == EndOf(p) && res.typerec == visible(EndOf(p))
        && FirstOccurrence(contextTypes, res.rootIndex, p.start)
    && if res.conflictType == -1 then Unrivalled(pr, target, p, 1.0 / 8388608.0)
       else exists q :: Rival(pr, target, p, 1.0 / 8388608.0, q) && res.conflictType == EndOf(q)
  }

  /** There is a context type exactly if some walk leads to a type where the name is visible. */
  ghost predicate ResolveMeans(pr: Problem, visible: int -> int, contextTypes: seq<int>, res: ResolveResult) {
    && (res.contextType >= 0 <==> exists p :: IsWalk(pr, p) && visible(EndOf(p)) != 0)
    && if res.contextType >= 0 then exists p :: ResolvedBy(pr, visible, contextTypes, res, p)
       else res == ResolveResult([], 0, [], -1, -1, -1, 0.0)
  }

  ghost function TypesOf(list: seq<RelationMap.ListElement<int, int>>): set<int> {
    set i | 0 <= i < |list| :: list[i].relation.right
  }

  ghost predicate ElementsOk(list: seq<RelationMap.ListElement<int, int>>) {
    forall i :: 0 <= i < |list| ==> var r := list[i].relation; r.right >= 0 && r.value >= 0 && r.weight >= 0.0
  }

  lemma {:induction false} ReductionsAreOk(list: seq<RelationMap.ListElement<int, int>>, owner: seq<(int, Scope)>,
                                           lists: map<(int, Scope), seq<int>>, table: int -> map<Scope, int>)
    requires RelationMap.AllTied(list, owner, lists, table) && ElementsOk(list)
    ensures ReductionsOk(RelationMap.RelationTable(list, owner, lists, table), TypesOf(list))
  {
    var defs := RelationMap.RelationTable(list, owner, lists, table);
    forall f, s, j | s in defs(f) && 0 <= j < |defs(f)[s]|
      ensures var r := defs(f)[s][j]; r.right in TypesOf(list) && r.right >= 0 && r.value >= 0 && r.weight >= 0.0
    {
      assert RelationMap.Tied(list, owner, lists, f, table(f));
      assert RelationMap.ListOk(list, owner, lists, (f, s));
      assert defs(f)[s][j] == list[lists[(f, s)][j]].relation;
    }
  }

  /** The search for derivations of a type from another. */
  ghost function DeriveProblem(defs: ReductionDefs, types: set<int>, step: int, fromType: int,
                               selectTags: RelationMap.TagMask, selectTagsCount: RelationMap.TagMask, maxCount: nat)
    : Problem
  {
    Problem(Edges(defs, step, selectTags), types, {fromType}, (r: Reduction) =>
        r.tagval in selectTagsCount, AtMost(maxCount))
  }

  lemma {:induction false} SingleStart(pr: Problem, ty: int)
    requires pr.starts == {ty} && GraphOk(pr)
    ensures Explored(pr, [Path(ty, [])], {0})
    ensures StackHolds([ReduStackElem(ty, 0, -1, 0)], [Path(ty, [])])
        && LengthsHold([ReduStackElem(ty, 0, -1, 0)], [Path(ty, [])], pr.counted)
  {
    var paths := [Path(ty, [])];
    forall p | SimpleWalk(pr, p) ensures Reached(paths, {0}, p) {
      assert Prefix(paths[0], p) && 0 in {0};
    }
  }

  /** The checks on the handles of a reduction. */
  function CheckedHandles(nofTypes: nat, toType: int, fromType: int, ctor: int): (r: Answer<()>)
    ensures r == if ctor >= 0 && 0 <= toType <= nofTypes && 0 < fromType <= nofTypes then
                   if toType == fromType then Err(InvalidReductionDefinition) else Ok(())
                 else Err(InvalidHandle)
  {
    if ctor < 0 || toType < 0 || toType > nofTypes || fromType <= 0 || fromType > nofTypes then Err(InvalidHandle)
    else if toType == fromType then Err(InvalidReductionDefinition)
    else Ok(())
  }

  /** A relation between the same types with the same tag is defined in the scope. */
  predicate Related(defs: map<Scope, seq<Reduction>>, scope: Scope, toType: int, tag: int) {
    scope in defs && exists j :: 0 <= j < |defs[scope]| && defs[scope][j].right == toType
                                 && defs[scope][j].tagval == tag - 1
  }

  /** It is defined with this constructor only. */
  predicate RelatedBy(defs: map<Scope, seq<Reduction>>, scope: Scope, toType: int, tag: int, ctor: int) {
    scope in defs ==> forall j | 0 <= j < |defs[scope]| && defs[scope][j].right == toType
                                 && defs[scope][j].tagval == tag - 1 :: defs[scope][j].value == ctor
  }

  /** The reductions of the type after a definition, and its outcome. */
  ghost predicate ReductionDefined(before: map<Scope, seq<Reduction>>, after: map<Scope, seq<Reduction>>, scope: Scope,
                                   toType: int, ctor: int, tag: int, weight: real, r: Answer<()>) {
    if !(1 <= tag <= 32) then after == before && r == Err(BadReduction(RelationMap.BadRelationTag))
    else if weight < 0.0 then after == before && r == Err(BadReduction(RelationMap.BadRelationWeight))
    else if !RelatedBy(before, scope, toType, tag, ctor) then
      after == before && r == Err(BadReduction(RelationMap.DuplicateDefinition))
    else
      && r == Ok(())
      && after == if Related(before, scope, toType, tag) then before else
           before[scope := (if scope in before then before[scope] else [])
                           + [RelationMap.Relation(toType, ctor, tag - 1, weight)]]
  }

  /** What the map of relations does, said of reductions. */
  lemma {:induction false} RelatesDefined(before: map<Scope, seq<Reduction>>, after: map<Scope, seq<Reduction>>,
                                          scope: Scope, toType: int, ctor: int, tag: int, weight: real,
                                          outcome: RelationMap.SetOutcome, r: Answer<()>)
    requires RelationMap.Relates(before, after, scope, toType, ctor, tag, weight, outcome)
    requires scope in before ==> RelationMap.TagsDiffer(before[scope])
    requires r == if outcome.Refused? then Err(BadReduction(outcome.error)) else Ok(())
    ensures ReductionDefined(before, after, scope, toType, ctor, tag, weight, r)
  {
    if 1 <= tag <= 32 && weight >= 0.0 {
      var rs := if scope in before then before[scope] else [];
      var j := RelationMap.Find(rs, toType, tag - 1);
      if scope in before { assert before[scope := rs] == before; }
    }
  }

  /** Defined exactly if an edge leads from one type to the other, with the values of this edge. */
  ghost predicate ReductionMeans(edge: (int, Reduction) -> bool, fromType: int, toType: int, res: GetReductionResult) {
    if res.ctor >= 0 then exists e :: edge(fromType, e) && e.right == toType
                                      && res == GetReductionResult(e.weight, e.value)
    else res == GetReductionResult(0.0, -1) && forall e | edge(fromType, e) :: e.right != toType
  }

  ghost predicate Selected(redulist: seq<Reduction>, toType: int, r: Answer<GetReductionResult>) {
    r.Ok? && if r.value.Defined() then exists j :: 0 <= j < |redulist| && redulist[j].right == toType
                                                   && r.value == GetReductionResult(redulist[j].weight,
                                                   redulist[j].value)
             else r.value == GetReductionResult(0.0, -1)
                  && forall j :: 0 <= j < |redulist| ==> redulist[j].right != toType
  }

  /** The reduction to a type in a list with different right sides; the ambiguity it looks for does not occur. */
  method SelectReduction(redulist: seq<Reduction>, toType: int) returns (r: Answer<GetReductionResult>)
    requires forall i, j :: 0 <= i < j < |redulist| ==> redulist[i].right != redulist[j].right
    requires forall i :: 0 <= i < |redulist| ==> redulist[i].value >= 0
    ensures Selected(redulist, toType, r)
  {
    var rt := GetReductionResult(0.0, -1);
    for i := 0 to |redulist|
      invariant Selected(redulist[..i], toType, Ok(rt))
    {
      var redu := redulist[i];
      assert forall j :: 0 <= j < i ==> redulist[..i][j] == redulist[j];
      if toType == redu.right {
        if rt.Defined() {
          if rt.weight < redu.weight - EPSILON {
            continue;
          }
          if rt.weight <= redu.weight + EPSILON {
            return Err(AmbiguousReductionDefinitions);
          }
        }
        rt := GetReductionResult(redu.weight, redu.value);
      }
      assert redulist[..i + 1] == redulist[..i] + [redu];
      assert toType == redu.right ==> redulist[..i + 1][i] == redu;
    }
    assert redulist[..|redulist|] == redulist;
    r := Ok(rt);
  }

  lemma {:induction false} SelectedMeans(pr: Problem, fromType: int, toType: int, redulist: seq<Reduction>,
                                         r: Answer<GetReductionResult>)
    requires EdgeList(pr, fromType, redulist) && Selected(redulist, toType, r)
    ensures ReductionMeans(pr.edge, fromType, toType, r.value)
  {
    if r.value.Defined() {
      var j :| 0 <= j < |redulist| && redulist[j].right == toType
          && r.value == GetReductionResult(redulist[j].weight, redulist[j].value);
      assert pr.edge(fromType, redulist[j]);
    }
  }

  lemma {:induction false} ElementsSet(list: seq<RelationMap.ListElement<int, int>>,
                                       list': seq<RelationMap.ListElement<int, int>>, toType: int, ctor: int, tag: int,
                                       weight: real)
    requires ElementsOk(list) && toType >= 0 && ctor >= 0
    requires RelationMap.Checked(tag, weight) != RelationMap.Defined ==> list' == list
    requires RelationMap.OnlyAdds(list, list', RelationMap.Relation(toType, ctor, tag - 1, weight))
    ensures ElementsOk(list')
  {
    if RelationMap.Checked(tag, weight) == RelationMap.Defined {
      ElementsKept(list, list', RelationMap.Relation(toType, ctor, tag - 1, weight));
    }
  }

  lemma {:induction false} ElementsKept(list: seq<RelationMap.ListElement<int, int>>,
                                        list': seq<RelationMap.ListElement<int, int>>, r: Reduction)
    requires ElementsOk(list) && RelationMap.OnlyAdds(list, list', r) && r.right >= 0 && r.value >= 0 && r.weight >= 0.0
    ensures ElementsOk(list')
  {
    forall i | 0 <= i < |list'| ensures list'[i].relation.right >= 0 && list'[i].relation.value >= 0
        && list'[i].relation.weight >= 0.0 {
      assert i < |list| ==> list'[i].relation == list[i].relation;
    }
  }

  ghost function ResolveProblem(defs: ReductionDefs, types: set<int>, step: int, contextTypes: seq<int>,
                                selectTags: RelationMap.TagMask): Problem {
    Problem(Edges(defs, step, selectTags), types, set i | 0 <= i < |contextTypes| ::
        contextTypes[i], (r: Reduction) => true, NoLimit)
  }

  /** The type record a name stands for in a context type, 0 if it is not visible at the step. */
  ghost function Visible(table: ((int, int)) -> map<Scope, int>, step: int, nameid: int): int -> int {
    (ty: int) => Lookup(table((ty, nameid)), step, 0)
  }

  const MAX_NOF_PARAMETER: nat := 32768

  /** The checks on a type definition. */
  function CheckedType(nofTypes: nat, nofParameters: nat, contextType: int, ctor: int, parameters: nat): (r: Answer<()>)
    ensures r == if parameters >= 32768 then Err(TooManyTypeArguments)
                 else if nofParameters + parameters >= 0x7fff_ffff then Err(CompiledSourceTooComplex)
                 else if ctor >= 0 && 0 <= contextType <= nofTypes then Ok(()) else Err(InvalidHandle)
  {
    if parameters >= MAX_NOF_PARAMETER then Err(TooManyTypeArguments)
    else if nofParameters + parameters >= INT_MAX then Err(CompiledSourceTooComplex)
    else if ctor < 0 || contextType < 0 || contextType > nofTypes then Err(InvalidHandle)
    else Ok(())
  }

  /** Names stand for types that have a record. */
  ghost predicate HandlesOk(table: ((int, int)) -> map<Scope, int>, nofTypes: nat) {
    forall k, s {:trigger table(k)[s]} | s in table(k) :: 0 < table(k)[s] <= nofTypes
  }

  lemma {:induction false} PreviousInRange(table: ((int, int)) -> map<Scope, int>, nofTypes: nat, key: (int, int),
                                           scope: Scope)
    requires HandlesOk(table, nofTypes)
    ensures 0 <= ValueOr(table(key), scope, 0) <= nofTypes
  {
  }

  lemma {:induction false} VisibleInRange(table: ((int, int)) -> map<Scope, int>, nofTypes: nat, step: int,
                                          key: (int, int))
    requires HandlesOk(table, nofTypes) && Hierarchical(table(key).Keys)
    ensures 0 <= Lookup(table(key), step, 0) <= nofTypes
  {
    LookupIsInnermost(table(key), step, 0);
  }

  lemma {:induction false} AliasInRange(table: ((int, int)) -> map<Scope, int>,
                                        table': ((int, int)) -> map<Scope, int>, nofTypes: nat, key: (int, int),
                                        scope: Scope, ty: int)
    requires HandlesOk(table, nofTypes) && 0 < ty <= nofTypes
    requires forall k | k != key :: table'(k) == table(k)
    requires table'(key) == if scope in table(key) then table(key) else table(key)[scope := ty]
    ensures HandlesOk(table', nofTypes)
  {
  }

  lemma {:induction false} HandlesStay(table: ((int, int)) -> map<Scope, int>, table': ((int, int)) -> map<Scope, int>,
                                       nofTypes: nat, key: (int, int), scope: Scope)
    requires HandlesOk(table, nofTypes)
    requires forall k | k != key :: table'(k) == table(k)
    requires table'(key) == if scope in table(key) then table(key) else table(key)[scope := nofTypes + 1]
    ensures HandlesOk(table', nofTypes + 1)
  {
    assert HandlesOk(table, nofTypes + 1);
    AliasInRange(table, table', nofTypes + 1, key, scope, nofTypes + 1);
  }

  /** The list of overloads from a type record on. */
  method CollectResultItems(recs: seq<TypeRecord>, ghost nofParameters: nat, typerec: nat) returns (items: seq<nat>)
    requires RecordsOk(recs, nofParameters) && typerec <= |recs|
    ensures items == Overloads(recs, typerec)
  {
    items := [];
    var typerecidx := typerec;
    while typerecidx > 0
      invariant typerecidx <= |recs| && Overloads(recs, typerec) == items + Overloads(recs, typerecidx)
      decreases if typerecidx == 0 then 0 else |recs| + 1 - typerecidx
    {
      OverloadsStep(recs, nofParameters, typerecidx);
      assert items + ([typerecidx] + Overloads(recs, recs[typerecidx - 1].next)) == (items + [typerecidx])
          + Overloads(recs, recs[typerecidx - 1].next);
      items := items + [typerecidx];
      typerecidx := recs[typerecidx - 1].next;
    }
  }

  /** The name stands for the new type in the scope, if it did not stand for an earlier one. */
  ghost predicate TypeNamed(before: map<Scope, int>, after: map<Scope, int>, scope: Scope, ty: nat) {
    0 <= ValueOr(before, scope, 0) < ty && after == if scope in before then before else before[scope := ty]
  }

  /** The record of a definition, with its parameters behind those there were before. */
  predicate RecordFor(rec: TypeRecord, scope: Scope, contextType: int, nameid: int, ctor: int, nofParameters: nat,
                      parameter: seq<TypeConstructorPair>) {
    && rec.ctor == ctor && rec.scope == scope && rec.contextType == contextType && rec.ident == nameid
    && rec.parameterlen == |parameter| && rec.parameter == if parameter == [] then 0 else nofParameters + 1
  }

  /** Put the record at the end behind the overloads from prev on, unless one of them has the signature. */
  method LinkOverload(ghost recs0: seq<TypeRecord>, ghost params0: seq<TypeConstructorPair>, recs1: seq<TypeRecord>,
                      params1: seq<TypeConstructorPair>, prev: nat, types: seq<int>)
    returns (r: Answer<int>, recs: seq<TypeRecord>)
    requires Pushed(recs0, params0, types, recs1, params1) && prev <= |recs0|
    ensures r.Ok? && Defines(recs0, params0, prev, types, recs, params1, r.value)
    ensures RecordsOk(recs, |params1|) && |recs| == |recs1| && recs[|recs0|] == recs1[|recs0|]
  {
    assert Look(0);
    recs := recs1;
    if prev == 0 {
      DefinedAlone(recs0, params0, 0, types, recs1, params1);
      return Ok(|recs1|), recs;
    }
    var tri, lastListIndex := FindTypeWithSignature(recs1, params1, prev, types);
    SearchedBefore(recs0, params0, types, recs1, params1, prev, tri);
    if tri != 0 {
      DefinedAlone(recs0, params0, prev, types, recs1, params1);
      return Ok(-1), recs;
    }
    if lastListIndex == 0 {
      return Err(LogicError), recs;
    }
    DefinedBehind(recs0, params0, prev, types, recs1, params1);
    recs := WithSuccessor(recs1, lastListIndex, |recs1|);
    r := Ok(|recs1|);
  }

  class TypeDatabase {
    const reduTable: RelationMap.ScopedRelationMap<int, int>
    const typeTable: ScopedMap<(int, int), int>
    var typerecs: seq<TypeRecord>
    var params: seq<TypeConstructorPair>

    ghost predicate ReductionsValid()
      reads reduTable, reduTable.scopes, reduTable.scopes.invtree
    {
      reduTable.Valid() && ElementsOk(reduTable.list)
    }

    ghost predicate Valid()
      reads this, reduTable, reduTable.scopes, reduTable.scopes.invtree, typeTable, typeTable.invtree
    {
      && ReductionsValid()
      && typeTable.Valid() && typeTable.invtree.nullval == 0
      && reduTable.scopes.invtree != typeTable.invtree
      && RecordsOk(typerecs, |params|) && HandlesOk(typeTable.Table(), |typerecs|)
    }

    /** The reductions of all types by scope. */
    ghost function Defs(): ReductionDefs
      reads reduTable, reduTable.scopes, reduTable.scopes.invtree
      requires reduTable.Valid()
    {
      reduTable.Relations()
    }

    ghost function ReductionTypes(): set<int>
      reads reduTable
    {
      TypesOf(reduTable.list)
    }

    constructor ()
      ensures Valid() && typerecs == [] && params == [] && fresh(typeTable) && fresh(typeTable.invtree)
      ensures forall c: int, n: int :: typeTable.Contents((c, n)) == map[]
    {
      reduTable := new RelationMap.ScopedRelationMap<int, int>();
      typeTable := new ScopedMap<(int, int), int>(0);
      typerecs, params := [], [];
    }

    lemma {:induction false} DefsOk()
      requires Valid()
      ensures ReductionsOk(Defs(), ReductionTypes()) && AllHierarchical(Defs())
    {
      ReductionsAreOk(reduTable.list, reduTable.owner, reduTable.lists, reduTable.scopes.Table());
      forall f ensures Hierarchical(Defs()(f).Keys) {
        KeysHierarchical(f);
      }
    }

    lemma {:induction false} KeysHierarchical(f: int)
      requires reduTable.Valid()
      ensures Hierarchical(reduTable.Contents(f).Keys)
    {
      var t := reduTable.scopes;
      RelationMap.KeyTree(t.invtree.ar, t.owner, t.at, t.heads, f);
      assert RelationMap.Tied(reduTable.list, reduTable.owner, reduTable.lists, f, t.Table()(f));
    }

    /** The reductions leading away from a type, as the graph of a search sees them. */
    method GetRedulist(step: int, ty: int, selectTags: RelationMap.TagMask, ghost pr: Problem)
      returns (redulist: seq<Reduction>)
      requires Valid() && pr.edge == Edges(Defs(), step, selectTags)
      ensures EdgeList(pr, ty, redulist)
    {
      redulist := reduTable.Get(step, ty, selectTags);
      DefsOk();
      SelectionIsEdgeList(Defs(), step, selectTags, pr, ty, redulist);
    }

    /** A lightest derivation of toType from fromType, and whether there is another one as light. */
    method DeriveType(step: int, toType: int, fromType: int, selectTags: RelationMap.TagMask,
                      selectTagsCount: RelationMap.TagMask, maxCount: int)
      returns (r: Answer<DeriveResult>)
      requires Valid()
      ensures if fromType <= 0 || fromType > |typerecs| || toType < 0 || toType > |typerecs| then
          r == Err(InvalidHandle)
              else if maxCount < -1 then r == Err(InvalidBoundary)
              else r.Ok? && DeriveMeans(DeriveProblem(Defs(), ReductionTypes(), step, fromType, selectTags,
                   selectTagsCount, if maxCount == -1 then 0x7fff_ffff else maxCount),
                                        (ty: int) => ty == toType, r.value)
    {
      if fromType <= 0 || fromType > |typerecs| {
        return Err(InvalidHandle);
      }
      if toType < 0 || toType > |typerecs| {
        return Err(InvalidHandle);
      }
      var limit := if maxCount == -1 then INT_MAX else maxCount;
      if limit < 0 {
        return Err(InvalidBoundary);
      }
      var res := SearchDerivation(step, toType, fromType, selectTags, selectTagsCount, limit);
      assert Look(0);
      r := Ok(res);
    }

    method SearchDerivation(step: int, toType: int, fromType: int, selectTags: RelationMap.TagMask,
                            selectTagsCount: RelationMap.TagMask, maxCount: nat)
      returns (rt: DeriveResult)
      requires Valid()
      ensures SearchMeans(DeriveProblem(Defs(), ReductionTypes(), step, fromType, selectTags, selectTagsCount,
          maxCount), (ty: int) => ty == toType, rt)
    {
      ghost var pr := DeriveProblem(Defs(), ReductionTypes(), step, fromType, selectTags, selectTagsCount, maxCount);
      ghost var target := (ty: int) => ty == toType;
      DefsOk();
      GraphIsOk(Defs(), ReductionTypes(), step, selectTags, pr);
      rt := DeriveResult([], [], 0.0, false);
      var altSearchstate := false;
      var counted := (r: Reduction) => r.tagval in selectTagsCount;
      var stack := new ReduStack();
      var index := stack.PushNonDuplicateStart(fromType, 0);
      var priorityQueue := {ReduQueueElem(0.0, index)};
      ghost var paths, open, found := [Path(fromType, [])], {0}, -1;
      SingleStart(pr, fromType);
      while priorityQueue != {}
        invariant Frontier(pr, target, stack.ar, priorityQueue, paths, open, found)
        invariant fresh(stack)
        invariant Recorded(rt, altSearchstate, paths, open, found, fromType)
        decreases OpenCost(|pr.types|, paths, open)
      {
        var qe := Top(priorityQueue);
        var done, elem;
        done, elem, rt, altSearchstate := Inspect(stack, priorityQueue, qe, toType, rt, altSearchstate, pr, target,
            paths, open, found, fromType);
        if done {
          return;
        }
        var redulist := GetRedulist(step, elem.ty, selectTags, pr);
        ghost var ar0, paths0, open0 := stack.ar, paths, open;
        priorityQueue, paths, open, found := Follow(stack, priorityQueue, qe, redulist, counted, AtMost(maxCount), pr,
            target, paths, open, found);
        RecordKept(rt, altSearchstate, ar0, paths0, open0, qe.index, found, fromType, stack.ar, paths, open);
      }
      Exhausted(pr, target, stack.ar, priorityQueue, paths, open, found, rt, altSearchstate, fromType);
    }

    /** Define a reduction of one type to another. */
    method DefineReduction(scope: Scope, toType: int, fromType: int, ctor: int, tag: int, weight: real)
      returns (r: Answer<()>)
      requires Valid() && scope.NonEmpty() && Hierarchical(reduTable.Contents(fromType).Keys + {scope})
      modifies reduTable, reduTable.scopes, reduTable.scopes.invtree
      ensures Valid()
      ensures forall f | f != fromType :: reduTable.Contents(f) == old(reduTable.Contents(f))
      ensures var checked := CheckedHandles(|typerecs|, toType, fromType, ctor);
              if checked.Err? then r == checked && reduTable.Contents(fromType) == old(reduTable.Contents(fromType))
              else ReductionDefined(old(reduTable.Contents(fromType)), reduTable.Contents(fromType), scope, toType,
                     ctor, tag, weight, r)
    {
      r := CheckedHandles(|typerecs|, toType, fromType, ctor);
      if r.Ok? {
        ghost var list, before := reduTable.list, reduTable.Contents(fromType);
        reduTable.TagsAlwaysDiffer(fromType, scope);
        var outcome := reduTable.Set(scope, fromType, toType, ctor, tag, weight);
        ElementsSet(list, reduTable.list, toType, ctor, tag, weight);
        r := if outcome.Refused? then Err(BadReduction(outcome.error)) else Ok(());
        RelatesDefined(before, reduTable.Contents(fromType), scope, toType, ctor, tag, weight, outcome, r);
      }
    }

    /** The reduction from a type to another that is visible at the step; never ambiguous. */
    method GetReduction(step: int, toType: int, fromType: int, selectTags: RelationMap.TagMask)
      returns (r: Answer<GetReductionResult>)
      requires Valid()
      ensures if fromType <= 0 || fromType > |typerecs| || toType < 0 || toType > |typerecs| then
          r == Err(InvalidHandle)
              else r.Ok? && ReductionMeans(Edges(Defs(), step, selectTags), fromType, toType, r.value)
    {
      if fromType <= 0 || fromType > |typerecs| {
        return Err(InvalidHandle);
      }
      if toType < 0 || toType > |typerecs| {
        return Err(InvalidHandle);
      }
      ghost var edge := Edges(Defs(), step, selectTags);
      ghost var pr := Problem(edge, ReductionTypes(), {}, (x: Reduction) => true, NoLimit);
      var redulist := GetRedulist(step, fromType, selectTags, pr);
      DefsOk();
      forall i | 0 <= i < |redulist| ensures redulist[i].value >= 0 {
        EdgeOk(Defs(), ReductionTypes(), step, selectTags, fromType, redulist[i]);
      }
      r := SelectReduction(redulist, toType);
      SelectedMeans(pr, fromType, toType, redulist, r);
    }

    /** Define a type. There is a new record in any case; it gets the name, or a place behind the overloads the name
        stands for in the scope, unless one of them has the same parameter types. */
    method DefineType(scope: Scope, contextType: int, nameid: int, ctor: int, parameter: seq<TypeConstructorPair>)
      returns (r: Answer<int>)
      requires Valid() && scope.NonEmpty() && Hierarchical(typeTable.Contents((contextType, nameid)).Keys + {scope})
      modifies this, typeTable, typeTable.invtree
      ensures Valid()
      ensures forall c: int, n: int | (c, n) != (contextType, nameid) ::
          typeTable.Contents((c, n)) == old(typeTable.Contents((c, n)))
      ensures var checked := CheckedType(old(|typerecs|), old(|params|), contextType, ctor, |parameter|);
              checked.Err? ==> r == Err(checked.error) && typerecs == old(typerecs) && params == old(params)
                               && typeTable.Contents((contextType, nameid))
                                   == old(typeTable.Contents((contextType, nameid)))
      ensures CheckedType(old(|typerecs|), old(|params|), contextType, ctor, |parameter|).Ok? ==>
                && r.Ok? && params == old(params) + parameter
                && TypeNamed(old(typeTable.Contents((contextType, nameid))), typeTable.Contents((contextType, nameid)),
                    scope, |typerecs|)
                && Defines(old(typerecs), old(params),
                    ValueOr(old(typeTable.Contents((contextType, nameid))), scope, 0), TypesOfParameters(parameter),
                           typerecs, params, r.value)
                && typerecs != [] && RecordFor(typerecs[|typerecs| - 1], scope, contextType, nameid, ctor,
                     old(|params|), parameter)
    {
      var checked := CheckedType(|typerecs|, |params|, contextType, ctor, |parameter|);
      if checked.Err? {
        return Err(checked.error);
      }
      ghost var recs0, params0 := typerecs, params;
      PushRecord(scope, contextType, nameid, ctor, parameter);
      var prev := NameType(scope, contextType, nameid);
      r, typerecs := LinkOverload(recs0, params0, typerecs, params, prev, TypesOfParameters(parameter));
    }

    /** A new record at the end. */
    method PushRecord(scope: Scope, contextType: int, nameid: int, ctor: int, parameter: seq<TypeConstructorPair>)
      requires RecordsOk(typerecs, |params|)
      modifies this
      ensures Pushed(old(typerecs), old(params), TypesOfParameters(parameter), typerecs, params)
          && params == old(params) + parameter
      ensures RecordFor(typerecs[|typerecs| - 1], scope, contextType, nameid, ctor, old(|params|), parameter)
    {
      ghost var recs0, params0 := typerecs, params;
      typerecs := typerecs + [TypeRecord(ctor, scope, if parameter == [] then 0 else
          |params| + 1, |parameter|, 0, contextType, nameid)];
      params := params + parameter;
      RecordPushed(recs0, params0, parameter, typerecs[|typerecs| - 1]);
    }

    /** The name stands for the last record, if it does not stand for another one in this scope; then this one is the
        result. */
    method NameType(scope: Scope, contextType: int, nameid: int) returns (prev: int)
      requires |typerecs| > 0 && typeTable.Valid() && typeTable.invtree.nullval == 0
          && HandlesOk(typeTable.Table(), |typerecs| - 1)
      requires scope.NonEmpty() && Hierarchical(typeTable.Contents((contextType, nameid)).Keys + {scope})
      modifies typeTable, typeTable.invtree
      ensures typeTable.Valid() && typeTable.invtree.nullval == 0 && HandlesOk(typeTable.Table(), |typerecs|)
      ensures forall c: int, n: int | (c, n) != (contextType, nameid) ::
          typeTable.Contents((c, n)) == old(typeTable.Contents((c, n)))
      ensures prev == ValueOr(old(typeTable.Contents((contextType, nameid))), scope, 0)
      ensures TypeNamed(old(typeTable.Contents((contextType, nameid))), typeTable.Contents((contextType, nameid)),
          scope, |typerecs|)
    {
      ghost var table := typeTable.Table();
      PreviousInRange(table, |typerecs| - 1, (contextType, nameid), scope);
      prev := typeTable.GetOrSet(scope, (contextType, nameid), |typerecs|);
      HandlesStay(table, typeTable.Table(), |typerecs| - 1, (contextType, nameid), scope);
    }

    /** Let a name stand for a type defined before, unless it stands for one in this scope; the type, or 0. */
    method DefineTypeAs(scope: Scope, contextType: int, nameid: int, ty: int) returns (r: Answer<int>)
      requires Valid() && scope.NonEmpty() && Hierarchical(typeTable.Contents((contextType, nameid)).Keys + {scope})
      modifies typeTable, typeTable.invtree
      ensures Valid()
      ensures forall c: int, n: int | (c, n) != (contextType, nameid) ::
          typeTable.Contents((c, n)) == old(typeTable.Contents((c, n)))
      ensures var before := old(typeTable.Contents((contextType, nameid)));
              if !(0 <= contextType <= |typerecs|) || !(0 < ty <= |typerecs|) then
                  r == Err(InvalidHandle) && typeTable.Contents((contextType, nameid)) == before
              else r == Ok(if scope in before then 0 else ty)
                   && typeTable.Contents((contextType, nameid)) == if scope in before then before else
                       before[scope := ty]
    {
      if contextType < 0 || contextType > |typerecs| || ty <= 0 || ty > |typerecs| {
        return Err(InvalidHandle);
      }
      ghost var table := typeTable.Table();
      var isNew := typeTable.Set(scope, (contextType, nameid), ty);
      AliasInRange(table, typeTable.Table(), |typerecs|, (contextType, nameid), scope, ty);
      r := Ok(if isNew then ty else 0);
    }

    /** The overload with these parameter types of what the name stands for in exactly this scope, 0 if there is
        none. */
    method GetType(scope: Scope, contextType: int, nameid: int, parameter: seq<int>) returns (r: Answer<int>)
      requires Valid()
      ensures if !(0 <= contextType <= |typerecs|) then r == Err(InvalidHandle)
              else r.Ok? && r.value >= 0 && 0 <= ValueOr(typeTable.Contents((contextType, nameid)), scope, 0)
                   && IsFirstWith(typerecs, params,
                       Overloads(typerecs, ValueOr(typeTable.Contents((contextType, nameid)), scope, 0)), parameter,
                       r.value)
    {
      if contextType < 0 || contextType > |typerecs| {
        return Err(InvalidHandle);
      }
      PreviousInRange(typeTable.Table(), |typerecs|, (contextType, nameid), scope);
      var typerec := typeTable.GetDef(scope, (contextType, nameid));
      if typerec == 0 {
        return Ok(0);
      }
      var tri, _ := FindTypeWithSignature(typerecs, params, typerec, parameter);
      r := Ok(tri);
    }

    /** All overloads of what the name stands for in exactly this scope. */
    method GetTypes(scope: Scope, contextType: int, nameid: int) returns (r: Answer<seq<nat>>)
      requires Valid()
      ensures if !(0 <= contextType <= |typerecs|) then r == Err(InvalidHandle)
              else 0 <= ValueOr(typeTable.Contents((contextType, nameid)), scope, 0)
                   && r == Ok(Overloads(typerecs, ValueOr(typeTable.Contents((contextType, nameid)), scope, 0)))
    {
      if contextType < 0 || contextType > |typerecs| {
        return Err(InvalidHandle);
      }
      PreviousInRange(typeTable.Table(), |typerecs|, (contextType, nameid), scope);
      var tri := typeTable.GetDef(scope, (contextType, nameid));
      var types := CollectResultItems(typerecs, |params|, tri);
      r := Ok(types);
    }

    lemma {:induction false} NameInRange(step: int, key: (int, int))
      requires Valid()
      ensures 0 <= Lookup(typeTable.Contents(key), step, 0) <= |typerecs|
    {
      RelationMap.KeyTree(typeTable.invtree.ar, typeTable.owner, typeTable.at, typeTable.heads, key);
      VisibleInRange(typeTable.Table(), |typerecs|, step, key);
    }

    /** Look up the name in the type of the element taken from the queue. */
    method TryName(stack: ReduStack, ghost queue: set<ReduQueueElem>, qe: ReduQueueElem, step: int, nameid: int,
                   rt0: ResolveResult, altSearchstate0: bool, ghost contextTypes: seq<int>, ghost pr: Problem,
                   ghost visible: int -> int, ghost paths: seq<Path>, ghost open: set<int>, ghost found: int)
      returns (done: bool, elem: ReduStackElem, rt: ResolveResult, altSearchstate: bool)
      requires Valid() && GraphOk(pr) && TypesNotNegative(pr) && visible == Visible(typeTable.Table(), step, nameid)
      requires Frontier(pr, (ty: int) => visible(ty) != 0, stack.ar, queue, paths, open, found) && IsLightest(queue, qe)
      requires NameRecorded(rt0, altSearchstate0, visible, contextTypes, stack.ar, paths, found)
          && ItemsListed(typerecs, rt0)
      ensures 0 <= qe.index < |paths| && elem.ty == EndOf(paths[qe.index]) && ItemsListed(typerecs, rt)
      ensures done ==> NameMeans(pr, visible, contextTypes, rt)
      ensures !done ==> (visible(elem.ty) != 0 ==> found == -1)
                        && NameRecorded(rt, altSearchstate, visible, contextTypes, stack.ar, paths,
                            if visible(elem.ty) != 0 then qe.index else found)
    {
      FrontierTop(pr, (ty: int) => visible(ty) != 0, stack.ar, queue, paths, open, found, qe, EPSILON);
      elem := stack.ar[qe.index];
      var typerecidx := typeTable.Get(step, (elem.ty, nameid));
      NameInRange(step, (elem.ty, nameid));
      done, rt, altSearchstate := InspectName(typerecs, |params|, stack, queue, qe, typerecidx, rt0, altSearchstate0,
          contextTypes, pr, visible, paths, open, found);
    }

    /** Go on from the element taken from the queue. */
    method FollowName(stack: ReduStack, queue0: set<ReduQueueElem>, qe: ReduQueueElem, ty: int, step: int,
                      selectTags: RelationMap.TagMask, ghost rt: ResolveResult, ghost altSearchstate: bool,
                      ghost contextTypes: seq<int>, ghost pr: Problem, ghost visible: int -> int,
                      ghost paths0: seq<Path>, ghost open0: set<int>, ghost found0: int)
      returns (queue: set<ReduQueueElem>, ghost paths: seq<Path>, ghost open: set<int>, ghost found: int)
      requires Valid() && GraphOk(pr) && pr.edge == Edges(Defs(), step, selectTags)
          && pr.counted == ((r: Reduction) => true) && pr.limit == NoLimit
      requires Frontier(pr, (ty: int) => visible(ty) != 0, stack.ar, queue0, paths0, open0, found0)
          && IsLightest(queue0, qe)
      requires 0 <= qe.index < |paths0| && ty == EndOf(paths0[qe.index]) && (visible(ty) != 0 ==> found0 == -1)
      requires NameRecorded(rt, altSearchstate, visible, contextTypes, stack.ar, paths0, if visible(ty) != 0 then
          qe.index else found0)
      modifies stack
      ensures Frontier(pr, (ty: int) => visible(ty) != 0, stack.ar, queue, paths, open, found)
      ensures NameRecorded(rt, altSearchstate, visible, contextTypes, stack.ar, paths, found)
      ensures OpenCost(|pr.types|, paths, open) < OpenCost(|pr.types|, paths0, open0)
    {
      ghost var target, ar0 := (ty: int) => visible(ty) != 0, stack.ar;
      var redulist := GetRedulist(step, ty, selectTags, pr);
      queue, paths, open, found := Follow(stack, queue0, qe, redulist, (r: Reduction) =>
          true, NoLimit, pr, target, paths0, open0, found0);
      FrontierSizes(pr, target, stack.ar, queue, paths, open, found);
      NameRecordKept(rt, altSearchstate, visible, contextTypes, ar0, paths0, open0, qe.index, found, stack.ar, paths,
          open);
    }

    /** The search loop for a name from the starts pushed. */
    method SearchName(stack: ReduStack, queue0: set<ReduQueueElem>, step: int, contextTypes: seq<int>, nameid: int,
                      selectTags: RelationMap.TagMask, ghost pr: Problem, ghost visible: int -> int,
                      ghost paths0: seq<Path>, ghost open0: set<int>) returns (rt: ResolveResult)
      requires Valid() && GraphOk(pr) && TypesNotNegative(pr) && pr.edge == Edges(Defs(), step, selectTags)
          && pr.counted == ((r: Reduction) => true) && pr.limit == NoLimit
      requires visible == Visible(typeTable.Table(), step, nameid)
      requires Frontier(pr, (ty: int) => visible(ty) != 0, stack.ar, queue0, paths0, open0, -1)
          && RootsHold(contextTypes, stack.ar, paths0)
      modifies stack
      ensures NameMeans(pr, visible, contextTypes, rt) && ItemsListed(typerecs, rt)
    {
      rt := ResolveResult([], 0, [], -1, -1, -1, 0.0);
      var altSearchstate, priorityQueue := false, queue0;
      ghost var target, paths, open, found := (ty: int) => visible(ty) != 0, paths0, open0, -1;
      while priorityQueue != {}
        invariant Frontier(pr, target, stack.ar, priorityQueue, paths, open, found)
        invariant NameRecorded(rt, altSearchstate, visible, contextTypes, stack.ar, paths, found)
            && ItemsListed(typerecs, rt)
        decreases OpenCost(|pr.types|, paths, open)
      {
        var qe := Top(priorityQueue);
        var done, elem;
        done, elem, rt, altSearchstate := TryName(stack, priorityQueue, qe, step, nameid, rt, altSearchstate,
            contextTypes, pr, visible, paths, open, found);
        if done {
          return;
        }
        priorityQueue, paths, open, found := FollowName(stack, priorityQueue, qe, elem.ty, step, selectTags, rt,
            altSearchstate, contextTypes, pr, visible, paths, open, found);
      }
      NameExhausted(pr, visible, contextTypes, stack.ar, priorityQueue, paths, open, found, rt, altSearchstate);
    }

    /** A lightest way from one of the context types to a type where the name is visible, and whether there is another
        one as light. The name is given by its number, 0 for an unknown name. */
    method ResolveType(step: int, contextTypes: seq<int>, nameid: int, selectTags: RelationMap.TagMask)
      returns (r: Answer<ResolveResult>)
      requires Valid()
      ensures if nameid == 0 then r == Ok(ResolveResult([], 0, [], -1, -1, -1, 0.0))
              else if exists i :: 0 <= i < |contextTypes| && !(0 <= contextTypes[i] <= |typerecs|) then
                                  r == Err(InvalidHandle)
              else r.Ok? && ResolveMeans(ResolveProblem(Defs(), ReductionTypes(), step, contextTypes, selectTags),
                                         Visible(typeTable.Table(), step, nameid), contextTypes, r.value)
                   && ItemsListed(typerecs, r.value)
    {
      if nameid == 0 {
        return Ok(ResolveResult([], 0, [], -1, -1, -1, 0.0));
      }
      ghost var pr := ResolveProblem(Defs(), ReductionTypes(), step, contextTypes, selectTags);
      ghost var visible := Visible(typeTable.Table(), step, nameid);
      DefsOk();
      GraphIsOk(Defs(), ReductionTypes(), step, selectTags, pr);
      var stack := new ReduStack();
      var ok, priorityQueue;
      ghost var paths, open;
      ok, priorityQueue, paths, open := PushStarts(stack, contextTypes, |typerecs|, pr, (ty: int) => visible(ty) != 0);
      if !ok {
        return Err(InvalidHandle);
      }
      EdgesNotNegative(Defs(), ReductionTypes(), step, selectTags, pr);
      var res := SearchName(stack, priorityQueue, step, contextTypes, nameid, selectTags, pr, visible, paths, open);
      assert Look(0);
      r := Ok(res);
    }
  }

  const FILE_SCOPE: Scope := Scope.Scope(0, 9)

  lemma {:induction false} OneScope(defs: map<Scope, int>)
    requires defs.Keys <= {FILE_SCOPE}
    ensures Hierarchical(defs.Keys + {FILE_SCOPE})
  {
    assert forall s | s in defs.Keys + {FILE_SCOPE} :: s == FILE_SCOPE;
  }

  /** What the names number 1 (f) and 2 (g) stand for in this scope. */
  ghost predicate Names(db: TypeDatabase, f: map<Scope, int>, g: map<Scope, int>)
    reads db, db.reduTable, db.reduTable.scopes, db.reduTable.scopes.invtree, db.typeTable, db.typeTable.invtree
  {
    db.Valid() && db.typeTable.Contents((0, 1)) == f && db.typeTable.Contents((0, 2)) == g
  }

  ghost predicate OnlyF(recs: seq<TypeRecord>, params: seq<TypeConstructorPair>) {
    |recs| == 1 && |params| == 0 && RecordsOk(recs, |params|) && Overloads(recs, 1) == [1]
        && HasSignature(recs, params, 1, [])
  }

  ghost predicate BothF(recs: seq<TypeRecord>, params: seq<TypeConstructorPair>) {
    && |recs| == 2 && |params| <= 1 && RecordsOk(recs, |params|) && Overloads(recs, 1) == [1, 2]
        && Overloads(recs, 2) == [2]
    && HasSignature(recs, params, 1, []) && HasSignature(recs, params, 2, [7])
  }

  /** f() */
  method DefineF() returns (db: TypeDatabase)
    ensures fresh(db) && fresh(db.typeTable) && fresh(db.typeTable.invtree)
    ensures Names(db, map[FILE_SCOPE := 1], map[]) && OnlyF(db.typerecs, db.params)
  {
    db := new TypeDatabase();
    OneScope(db.typeTable.Contents((0, 1)));
    assert db.typeTable.Contents((0, 2)) == map[];
    var r := db.DefineType(FILE_SCOPE, 0, 1, 0, []);
    FirstDefined(db.typerecs, db.params, r.value);
  }

  /** f(7) */
  method OverloadF(db: TypeDatabase)
    requires Names(db, map[FILE_SCOPE := 1], map[]) && OnlyF(db.typerecs, db.params)
    modifies db, db.typeTable, db.typeTable.invtree
    ensures Names(db, map[FILE_SCOPE := 1], map[]) && BothF(db.typerecs, db.params)
  {
    ghost var recs, params := db.typerecs, db.params;
    OneScope(db.typeTable.Contents((0, 1)));
    assert TypesOfParameters([TypeConstructorPair(7, 0)]) == [7];
    var r := db.DefineType(FILE_SCOPE, 0, 1, 0, [TypeConstructorPair(7, 0)]);
    SecondDefined(recs, params, db.typerecs, db.params, r.value);
  }

  /** g as another name of f(7) */
  method AliasG(db: TypeDatabase)
    requires Names(db, map[FILE_SCOPE := 1], map[]) && BothF(db.typerecs, db.params)
    modifies db.typeTable, db.typeTable.invtree
    ensures Names(db, map[FILE_SCOPE := 1], map[FILE_SCOPE := 2]) && BothF(db.typerecs, db.params)
  {
    OneScope(db.typeTable.Contents((0, 2)));
    var r := db.DefineTypeAs(FILE_SCOPE, 0, 2, 2);
  }

  /** g() */
  method OverloadG(db: TypeDatabase)
    requires Names(db, map[FILE_SCOPE := 1], map[FILE_SCOPE := 2]) && BothF(db.typerecs, db.params)
    modifies db, db.typeTable, db.typeTable.invtree
    ensures Names(db, map[FILE_SCOPE := 1], map[FILE_SCOPE := 2]) && Overloads(db.typerecs, 1) == [1, 2, 3]
    ensures HasSignature(db.typerecs, db.params, 1, []) && HasSignature(db.typerecs, db.params, 3, [])
  {
    ghost var recs, params := db.typerecs, db.params;
    OneScope(db.typeTable.Contents((0, 2)));
    var r := db.DefineType(FILE_SCOPE, 0, 2, 0, []);
    ThirdDefined(recs, params, db.typerecs, db.params, r.value);
  }

  /** After these four definitions f has two overloads without parameters. */
  method OverloadThroughAlias() returns (db: TypeDatabase)
    ensures db.Valid() && db.typeTable.Contents((0, 1)) == map[FILE_SCOPE := 1]
        && Overloads(db.typerecs, 1) == [1, 2, 3]
    ensures HasSignature(db.typerecs, db.params, 1, []) && HasSignature(db.typerecs, db.params, 3, [])
  {
    db := DefineF();
    OverloadF(db);
    AliasG(db);
    OverloadG(db);
  }

  lemma {:induction false} FirstDefined(recs: seq<TypeRecord>, params: seq<TypeConstructorPair>, r: int)
    requires Defines([], [], 0, [], recs, params, r) && |params| == 0
    ensures OnlyF(recs, params)
  {
    assert Look(0);
  }

  lemma {:induction false} SecondDefined(recs: seq<TypeRecord>, params: seq<TypeConstructorPair>,
                                         recs': seq<TypeRecord>, params': seq<TypeConstructorPair>, r: int)
    requires OnlyF(recs, params) && Defines(recs, params, 1, [7], recs', params', r) && |params'| <= 1
    ensures BothF(recs', params')
  {
    assert Look(0);
    assert !Known(recs, params, 1, [7]);
    assert Extended(recs, recs', 1, 2, r, 1) && SameType(recs, recs', 1);
    SignatureKept(recs, params, recs', params', 1);
  }

  lemma {:induction false} ThirdDefined(recs: seq<TypeRecord>, params: seq<TypeConstructorPair>,
                                        recs': seq<TypeRecord>, params': seq<TypeConstructorPair>, r: int)
    requires BothF(recs, params) && Defines(recs, params, 2, [], recs', params', r)
    ensures Overloads(recs', 1) == [1, 2, 3] && HasSignature(recs', params', 1, [])
        && HasSignature(recs', params', 3, [])
  {
    assert Look(0);
    assert !Known(recs, params, 2, []);
    assert Extended(recs, recs', 2, 3, r, 1) && SameType(recs, recs', 1);
    SignatureKept(recs, params, recs', params', 1);
  }

  /** Look at the element taken from the queue: the search ends, or a first result is recorded, or nothing happens. */
  method Inspect(stack: ReduStack, ghost queue: set<ReduQueueElem>, qe: ReduQueueElem, toType: int, rt0: DeriveResult,
                 altSearchstate0: bool, ghost pr: Problem, ghost target: int -> bool, ghost paths: seq<Path>,
                 ghost open: set<int>, ghost found: int, ghost fromType: int)
    returns (done: bool, elem: ReduStackElem, rt: DeriveResult, altSearchstate: bool)
    requires GraphOk(pr) && pr.starts == {fromType} && (forall ty :: target(ty) <==> ty == toType)
    requires Frontier(pr, target, stack.ar, queue, paths, open, found) && IsLightest(queue, qe)
    requires Recorded(rt0, altSearchstate0, paths, open, found, fromType)
    ensures 0 <= qe.index < |paths| && elem.ty == EndOf(paths[qe.index])
    ensures done ==> SearchMeans(pr, target, rt)
    ensures !done ==> (target(EndOf(paths[qe.index])) ==> found == -1)
                      && Recorded(rt, altSearchstate, paths, open, if target(EndOf(paths[qe.index])) then qe.index else
                          found, fromType)
  {
    FrontierTop(pr, target, stack.ar, queue, paths, open, found, qe, EPSILON);
    rt, altSearchstate, done := rt0, altSearchstate0, false;
    elem := stack.ar[qe.index];
    if altSearchstate && qe.weight > rt.weightsum + EPSILON {
      FrontierHeavier(pr, target, stack.ar, queue, paths, open, found, qe, EPSILON);
      Derived(pr, target, paths[found], rt, paths[found]);
      done := true;
    } else if elem.ty == toType {
      if !altSearchstate {
        var reductions := stack.CollectResult(qe.index, paths);
        rt := rt.(defined := true, weightsum := qe.weight, reductions := reductions);
        altSearchstate := true;
      } else {
        var conflictPath := stack.CollectConflictPath(qe.index, paths);
        rt := rt.(conflictPath := conflictPath);
        OnlyStartIsEmpty(pr, paths, qe.index, fromType);
        Derived(pr, target, paths[found], rt, paths[qe.index]);
        done := true;
      }
    }
  }

  /** What is recorded of the best path, if it has been found; the start is the first path looked at. */
  ghost predicate Recorded(rt: DeriveResult, altSearchstate: bool, paths: seq<Path>, open: set<int>, found: int,
                           fromType: int) {
    && altSearchstate == (found >= 0) && rt.conflictPath == [] && -1 <= found < |paths|
    && |paths| > 0 && paths[0] == Path(fromType, []) && (0 in open ==> |paths| == 1)
    && if found == -1 then rt == DeriveResult([], [], 0.0, false) else
        rt.defined && rt.reductions == Pairs(paths[found].steps) && rt.weightsum == Weight(paths[found].steps)
  }

  lemma {:induction false} RecordKept(rt: DeriveResult, altSearchstate: bool, ar0: seq<ReduStackElem>,
                                      paths0: seq<Path>, open0: set<int>, c: int, found: int, fromType: int,
                                      ar: seq<ReduStackElem>, paths: seq<Path>, open: set<int>)
    requires Recorded(rt, altSearchstate, paths0, open0, found, fromType) && 0 <= c < |paths0|
        && Added(ar0, paths0, open0, c, ar, paths, open)
    ensures Recorded(rt, altSearchstate, paths, open, found, fromType)
  {
  }

  lemma {:induction false} Exhausted(pr: Problem, target: int -> bool, ar: seq<ReduStackElem>,
                                     queue: set<ReduQueueElem>, paths: seq<Path>, open: set<int>, found: int,
                                     rt: DeriveResult, altSearchstate: bool, fromType: int)
    requires GraphOk(pr) && Frontier(pr, target, ar, queue, paths, open, found) && queue == {}
    requires Recorded(rt, altSearchstate, paths, open, found, fromType)
    ensures SearchMeans(pr, target, rt)
  {
    FrontierEmpty(pr, target, ar, queue, paths, open, found, EPSILON);
    if found >= 0 {
      Derived(pr, target, paths[found], rt, paths[found]);
    } else {
      NotDerived(pr, target);
    }
  }

  /** The meaning of the result, unfolded only where Look is mentioned. */
  ghost predicate SearchMeans(pr: Problem, target: int -> bool, res: DeriveResult) {
    forall z: int {:trigger Look(z)} :: Look(z) ==> DeriveMeans(pr, target, res)
  }

  lemma {:induction false} NotDerived(pr: Problem, target: int -> bool)
    requires NoWay(pr, target)
    ensures SearchMeans(pr, target, DeriveResult([], [], 0.0, false))
  {
  }

  lemma {:induction false} Derived(pr: Problem, target: int -> bool, p: Path, res: DeriveResult, q: Path)
    requires GraphOk(pr) && Best(pr, target, p) && res.defined && res.reductions == Pairs(p.steps)
        && res.weightsum == Weight(p.steps)
    requires if res.conflictPath == [] then Unrivalled(pr, target, p, EPSILON) else
        Rival(pr, target, p, EPSILON, q) && res.conflictPath == Types(q.steps)
    ensures SearchMeans(pr, target, res)
  {
    BestIsLightestWalk(pr, target, p);
    DerivedByBest(pr, target, p, res, q);
    assert IsWalk(pr, p) && target(EndOf(p));
  }

  lemma {:induction false} DerivedByBest(pr: Problem, target: int -> bool, p: Path, res: DeriveResult, q: Path)
    requires Best(pr, target, p) && LightestWalk(pr, target, Weight(p.steps)) && res.defined
        && res.reductions == Pairs(p.steps) && res.weightsum == Weight(p.steps)
    requires if res.conflictPath == [] then Unrivalled(pr, target, p, EPSILON) else
        Rival(pr, target, p, EPSILON, q) && res.conflictPath == Types(q.steps)
    ensures DerivedBy(pr, target, res, p)
  {
    PairsAreReductions(p.steps);
    if res.conflictPath != [] { TypesAreTypes(q.steps); }
  }

  lemma {:induction false} PairsAreReductions(steps: seq<Reduction>)
    ensures ReductionsOfSteps(Pairs(steps), steps)
  {
  }

  lemma {:induction false} TypesAreTypes(steps: seq<Reduction>)
    ensures TypesOfSteps(Types(steps), steps)
  {
  }

  lemma {:induction false} OnlyStartIsEmpty(pr: Problem, paths: seq<Path>, c: int, ty: int)
    requires pr.starts == {ty} && 0 < c < |paths| && SimpleWalk(pr, paths[c]) && paths[0] == Path(ty, [])
        && paths[c] != paths[0]
    ensures paths[c].steps != []
  {
  }

  // ---------------------------------------------------------------- resolving a name

  /** The start elements keep the number of the first occurrence of their type. */
  ghost predicate RootsHold(contextTypes: seq<int>, ar: seq<ReduStackElem>, paths: seq<Path>) {
    |ar| == |paths| && forall i :: 0 <= i < |ar| && ar[i].prev == -1 ==>
                                   FirstOccurrence(contextTypes, ar[i].ctor, paths[i].start)
  }

  /** An element of the stack that is a start. */
  ghost predicate StartElem(contextTypes: seq<int>, n: int, ar: seq<ReduStackElem>, paths: seq<Path>, i: int)
    requires |ar| == |paths| && 0 <= i < |ar|
  {
    && ar[i].prev == -1 && ar[i].pathlen == 0 && ar[i].ctor <= n && paths[i] == Path(ar[i].ty, [])
    && FirstOccurrence(contextTypes, ar[i].ctor, ar[i].ty)
  }

  predicate Seen(ar: seq<ReduStackElem>, ty: int) {
    exists i :: 0 <= i < |ar| && ar[i].ty == ty
  }

  ghost predicate AllStartElems(contextTypes: seq<int>, n: int, ar: seq<ReduStackElem>, paths: seq<Path>) {
    |ar| == |paths| && forall i {:trigger StartElem(contextTypes, n, ar, paths, i)} ::
        0 <= i < |ar| ==> StartElem(contextTypes, n, ar, paths, i)
  }

  ghost predicate AllSeen(contextTypes: seq<int>, n: int, ar: seq<ReduStackElem>) {
    forall j {:trigger Seen(ar, contextTypes[j])} :: 0 <= j < n && n <= |contextTypes| ==> Seen(ar, contextTypes[j])
  }

  ghost predicate TypesDiffer(ar: seq<ReduStackElem>) {
    forall i, j :: 0 <= i < j < |ar| ==> ar[i].ty != ar[j].ty
  }

  /** The first n context types have been pushed, each once. */
  ghost predicate Started(contextTypes: seq<int>, n: int, ar: seq<ReduStackElem>, queue: set<ReduQueueElem>,
                          paths: seq<Path>, open: set<int>) {
    && AllStartElems(contextTypes, n, ar, paths) && AllSeen(contextTypes, n, ar) && TypesDiffer(ar)
    && QueueHolds(queue, paths, open) && (forall i :: i in open <==> 0 <= i < |paths|)
  }

  lemma {:induction false} SeenMore(ar: seq<ReduStackElem>, e: ReduStackElem, ty: int)
    ensures Seen(ar + [e], ty) <==> Seen(ar, ty) || e.ty == ty
  {
    var ar' := ar + [e];
    assert ar'[|ar|] == e;
    if i :| 0 <= i < |ar| && ar[i].ty == ty { assert ar'[i] == ar[i]; }
  }

  lemma {:induction false} NewStartElems(contextTypes: seq<int>, n: int, ar: seq<ReduStackElem>, paths: seq<Path>)
    requires AllStartElems(contextTypes, n, ar, paths) && AllSeen(contextTypes, n, ar) && 0 <= n < |contextTypes|
        && !Seen(ar, contextTypes[n])
    ensures AllStartElems(contextTypes, n + 1, ar + [ReduStackElem(contextTypes[n], n + 1, -1, 0)],
        paths + [Path(contextTypes[n], [])])
  {
    var ar', paths' := ar + [ReduStackElem(contextTypes[n], n + 1, -1, 0)], paths + [Path(contextTypes[n], [])];
    forall j | 0 <= j < n ensures contextTypes[j] != contextTypes[n] {
      assert Seen(ar, contextTypes[j]);
    }
    var m := n + 1;
    forall i | 0 <= i < |ar'| ensures StartElem(contextTypes, m, ar', paths', i) {
      if i < |ar| { assert StartElem(contextTypes, n, ar, paths, i); }
    }
  }

  lemma {:induction false} StartPushed(contextTypes: seq<int>, n: int, ar: seq<ReduStackElem>,
                                       queue: set<ReduQueueElem>, paths: seq<Path>, open: set<int>)
    requires Started(contextTypes, n, ar, queue, paths, open) && 0 <= n < |contextTypes| && !Seen(ar, contextTypes[n])
    ensures Started(contextTypes, n + 1, ar + [ReduStackElem(contextTypes[n], n + 1, -1, 0)],
        queue + {ReduQueueElem(0.0, |paths|)},
                    paths + [Path(contextTypes[n], [])], open + {|paths|})
  {
    var e := ReduStackElem(contextTypes[n], n + 1, -1, 0);
    NewStartElems(contextTypes, n, ar, paths);
    QueuePush(queue, paths, open, Path(contextTypes[n], []));
    forall j | 0 <= j < n + 1 ensures Seen(ar + [e], contextTypes[j]) {
      SeenMore(ar, e, contextTypes[j]);
      assert j < n ==> Seen(ar, contextTypes[j]);
    }
    assert forall i :: 0 <= i < |ar| ==> ar[i].ty != contextTypes[n];
  }

  lemma {:induction false} StartKnown(contextTypes: seq<int>, n: int, ar: seq<ReduStackElem>,
                                      queue: set<ReduQueueElem>, paths: seq<Path>, open: set<int>)
    requires Started(contextTypes, n, ar, queue, paths, open) && 0 <= n < |contextTypes| && Seen(ar, contextTypes[n])
    ensures Started(contextTypes, n + 1, ar, queue, paths, open)
  {
    var m := n + 1;
    forall i | 0 <= i < |ar| ensures StartElem(contextTypes, m, ar, paths, i) {
      assert StartElem(contextTypes, n, ar, paths, i);
    }
    forall j | 0 <= j < n + 1 ensures Seen(ar, contextTypes[j]) {
    }
  }

  /** All starts pushed are the frontier of the search. */
  lemma {:induction false} StartsAreFrontier(contextTypes: seq<int>, ar: seq<ReduStackElem>, queue: set<ReduQueueElem>,
                                             paths: seq<Path>, open: set<int>, pr: Problem, target: int -> bool)
    requires Started(contextTypes, |contextTypes|, ar, queue, paths, open)
        && pr.starts == (set i | 0 <= i < |contextTypes| :: contextTypes[i])
    requires pr.limit == NoLimit
    ensures Frontier(pr, target, ar, queue, paths, open, -1) && RootsHold(contextTypes, ar, paths)
  {
    StartsExplored(contextTypes, ar, paths, open, pr);
    StartsHold(contextTypes, ar, paths, pr.counted);
  }

  lemma {:induction false} StartsHold(contextTypes: seq<int>, ar: seq<ReduStackElem>, paths: seq<Path>,
                                      counted: Reduction -> bool)
    requires AllStartElems(contextTypes, |contextTypes|, ar, paths)
    ensures StackHolds(ar, paths) && LengthsHold(ar, paths, counted) && RootsHold(contextTypes, ar, paths)
  {
    forall i | 0 <= i < |ar| ensures Holds(ar, paths, i) && ar[i].pathlen == Count(paths[i].steps, counted)
        && FirstOccurrence(contextTypes, ar[i].ctor, paths[i].start) {
      assert StartElem(contextTypes, |contextTypes|, ar, paths, i);
    }
  }

  lemma {:induction false} StartsExplored(contextTypes: seq<int>, ar: seq<ReduStackElem>, paths: seq<Path>,
                                          open: set<int>, pr: Problem)
    requires AllStartElems(contextTypes, |contextTypes|, ar, paths) && AllSeen(contextTypes, |contextTypes|, ar)
        && TypesDiffer(ar)
    requires forall i :: i in open <==> 0 <= i < |paths|
    requires pr.starts == (set i | 0 <= i < |contextTypes| :: contextTypes[i]) && pr.limit == NoLimit
    ensures Explored(pr, paths, open)
  {
    forall i, j | 0 <= i < |paths| && 0 <= j < |paths| && i != j ensures paths[i].start != paths[j].start {
      assert StartElem(contextTypes, |contextTypes|, ar, paths, i)
          && StartElem(contextTypes, |contextTypes|, ar, paths, j);
    }
    forall p | SimpleWalk(pr, p) ensures Reached(paths, open, p) {
      var j :| 0 <= j < |contextTypes| && contextTypes[j] == p.start;
      assert Seen(ar, contextTypes[j]);
      var i :| 0 <= i < |ar| && ar[i].ty == contextTypes[j];
      assert StartElem(contextTypes, |contextTypes|, ar, paths, i);
      assert Prefix(paths[i], p) && i in open;
    }
    forall i | 0 <= i < |paths| ensures SimpleWalk(pr, paths[i]) {
      assert StartElem(contextTypes, |contextTypes|, ar, paths, i);
      assert paths[i].start == contextTypes[ar[i].ctor - 1];
    }
  }

  method PushStarts(stack: ReduStack, contextTypes: seq<int>, nofTypes: nat, ghost pr: Problem,
                    ghost target: int -> bool)
    returns (ok: bool, priorityQueue: set<ReduQueueElem>, ghost paths: seq<Path>, ghost open: set<int>)
    requires stack.ar == [] && pr.starts == (set i | 0 <= i < |contextTypes| :: contextTypes[i]) && pr.limit == NoLimit
    modifies stack
    ensures ok == forall i :: 0 <= i < |contextTypes| ==> 0 <= contextTypes[i] <= nofTypes
    ensures ok ==> Frontier(pr, target, stack.ar, priorityQueue, paths, open, -1)
                   && RootsHold(contextTypes, stack.ar, paths)
  {
    priorityQueue, paths, open := {}, [], {};
    var ci := 0;
    while ci < |contextTypes|
      invariant 0 <= ci <= |contextTypes| && forall i :: 0 <= i < ci ==> 0 <= contextTypes[i] <= nofTypes
      invariant Started(contextTypes, ci, stack.ar, priorityQueue, paths, open)
    {
      if contextTypes[ci] < 0 || contextTypes[ci] > nofTypes {
        ok := false;
        return;
      }
      ghost var ar := stack.ar;
      var index := stack.PushNonDuplicateStart(contextTypes[ci], ci + 1);
      if index >= 0 {
        StartPushed(contextTypes, ci, ar, priorityQueue, paths, open);
        priorityQueue := priorityQueue + {ReduQueueElem(0.0, index)};
        open := open + {|paths|};
        paths := paths + [Path(contextTypes[ci], [])];
      } else {
        StartKnown(contextTypes, ci, ar, priorityQueue, paths, open);
      }
      ci := ci + 1;
    }
    StartsAreFrontier(contextTypes, stack.ar, priorityQueue, paths, open, pr, target);
    ok := true;
  }

  /** The types on all walks are handles. */
  ghost predicate TypesNotNegative(pr: Problem) {
    (forall s | s in pr.starts :: s >= 0) && forall f, r | pr.edge(f, r) :: r.right >= 0
  }

  lemma {:induction false} EndNotNegative(pr: Problem, p: Path)
    requires TypesNotNegative(pr) && IsWalk(pr, p)
    ensures EndOf(p) >= 0
  {
    if p.steps != [] {
      assert pr.edge(TypeAt(p, |p.steps| - 1), p.steps[|p.steps| - 1]);
    }
  }

  lemma {:induction false} EdgesNotNegative(defs: ReductionDefs, types: set<int>, step: int, mask: RelationMap.TagMask,
                                            pr: Problem)
    requires ReductionsOk(defs, types) && pr.edge == Edges(defs, step, mask) && forall s | s in pr.starts :: s >= 0
    ensures TypesNotNegative(pr)
  {
    forall f, r | pr.edge(f, r) ensures r.right >= 0 {
      EdgeOk(defs, types, step, mask, f, r);
    }
  }

  /** The meaning of the result, unfolded only where Look is mentioned. */
  ghost predicate NameMeans(pr: Problem, visible: int -> int, contextTypes: seq<int>, res: ResolveResult) {
    forall z: int {:trigger Look(z)} :: Look(z) ==> ResolveMeans(pr, visible, contextTypes, res)
  }

  lemma {:induction false} Resolved(pr: Problem, visible: int -> int, contextTypes: seq<int>, p: Path,
                                    res: ResolveResult, q: Path)
    requires GraphOk(pr) && TypesNotNegative(pr) && Best(pr, (ty: int) => visible(ty) != 0, p)
        && res.reductions == Pairs(p.steps)
        && res.weightsum == Weight(p.steps)
    requires res.contextType == EndOf(p) && res.typerec == visible(EndOf(p))
        && FirstOccurrence(contextTypes, res.rootIndex, p.start)
    requires if res.conflictType == -1 then Unrivalled(pr, (ty: int) => visible(ty) != 0, p, EPSILON)
             else Rival(pr, (ty: int) => visible(ty) != 0, p, EPSILON, q) && res.conflictType == EndOf(q)
    ensures NameMeans(pr, visible, contextTypes, res)
  {
    BestIsLightestWalk(pr, (ty: int) => visible(ty) != 0, p);
    EndNotNegative(pr, p);
    assert ResolvedBy(pr, visible, contextTypes, res, p);
  }

  /** What is recorded of the best path, if it has been found. */
  ghost predicate NameRecorded(rt: ResolveResult, altSearchstate: bool, visible: int -> int, contextTypes: seq<int>,
                               ar: seq<ReduStackElem>, paths: seq<Path>, found: int) {
    && altSearchstate == (found >= 0) && rt.conflictType == -1 && -1 <= found < |paths|
        && RootsHold(contextTypes, ar, paths)
    && if found == -1 then rt == ResolveResult([], 0, [], -1, -1, -1, 0.0)
       else
         var p := paths[found];
         rt.reductions == Pairs(p.steps) && rt.weightsum == Weight(p.steps) && rt.contextType == EndOf(p)
             && rt.typerec == visible(EndOf(p))
         && FirstOccurrence(contextTypes, rt.rootIndex, p.start)
  }

  lemma {:induction false} NameRecordKept(rt: ResolveResult, altSearchstate: bool, visible: int -> int,
                                          contextTypes: seq<int>, ar0: seq<ReduStackElem>, paths0: seq<Path>,
                                          open0: set<int>, c: int, found: int, ar: seq<ReduStackElem>,
                                          paths: seq<Path>, open: set<int>)
    requires NameRecorded(rt, altSearchstate, visible, contextTypes, ar0, paths0, found)
        && Added(ar0, paths0, open0, c, ar, paths, open) && |ar| == |paths|
    ensures NameRecorded(rt, altSearchstate, visible, contextTypes, ar, paths, found)
  {
  }

  lemma {:induction false} FrontierSizes(pr: Problem, target: int -> bool, ar: seq<ReduStackElem>,
                                         queue: set<ReduQueueElem>, paths: seq<Path>, open: set<int>, found: int)
    requires Frontier(pr, target, ar, queue, paths, open, found)
    ensures |ar| == |paths|
  {
    assert Look(0);
  }

  lemma {:induction false} NameExhausted(pr: Problem, visible: int -> int, contextTypes: seq<int>,
                                         ar: seq<ReduStackElem>, queue: set<ReduQueueElem>, paths: seq<Path>,
                                         open: set<int>, found: int, rt: ResolveResult, altSearchstate: bool)
    requires GraphOk(pr) && TypesNotNegative(pr)
        && Frontier(pr, (ty: int) => visible(ty) != 0, ar, queue, paths, open, found) && queue == {}
    requires NameRecorded(rt, altSearchstate, visible, contextTypes, ar, paths, found)
    ensures NameMeans(pr, visible, contextTypes, rt)
  {
    FrontierEmpty(pr, (ty: int) => visible(ty) != 0, ar, queue, paths, open, found, EPSILON);
    if found >= 0 {
      Resolved(pr, visible, contextTypes, paths[found], rt, paths[found]);
    }
  }

  /** The items are the overloads of the type record found. */
  ghost predicate ItemsListed(recs: seq<TypeRecord>, rt: ResolveResult) {
    forall z: int {:trigger Look(z)} :: Look(z) ==> rt.typerec >= 0 && rt.items == Overloads(recs, rt.typerec)
  }

  /** Look at the element taken from the queue, whose type has the type record given for the name. */
  method InspectName(recs: seq<TypeRecord>, ghost nofParameters: nat, stack: ReduStack,
                     ghost queue: set<ReduQueueElem>, qe: ReduQueueElem, typerecidx: int, rt0: ResolveResult,
                     altSearchstate0: bool, ghost contextTypes: seq<int>, ghost pr: Problem, ghost visible: int -> int,
                     ghost paths: seq<Path>, ghost open: set<int>, ghost found: int)
    returns (done: bool, rt: ResolveResult, altSearchstate: bool)
    requires GraphOk(pr) && TypesNotNegative(pr)
        && Frontier(pr, (ty: int) => visible(ty) != 0, stack.ar, queue, paths, open, found) && IsLightest(queue, qe)
    requires NameRecorded(rt0, altSearchstate0, visible, contextTypes, stack.ar, paths, found)
    requires 0 <= qe.index < |paths| && typerecidx == visible(EndOf(paths[qe.index]))
    requires RecordsOk(recs, nofParameters) && 0 <= typerecidx <= |recs| && ItemsListed(recs, rt0)
    ensures ItemsListed(recs, rt)
    ensures done ==> NameMeans(pr, visible, contextTypes, rt)
    ensures !done ==> (typerecidx != 0 ==> found == -1)
                      && NameRecorded(rt, altSearchstate, visible, contextTypes, stack.ar, paths,
                          if typerecidx != 0 then qe.index else found)
  {
    FrontierTop(pr, (ty: int) => visible(ty) != 0, stack.ar, queue, paths, open, found, qe, EPSILON);
    rt, altSearchstate, done := rt0, altSearchstate0, false;
    if altSearchstate && qe.weight > rt.weightsum + EPSILON {
      FrontierHeavier(pr, (ty: int) => visible(ty) != 0, stack.ar, queue, paths, open, found, qe, EPSILON);
      Resolved(pr, visible, contextTypes, paths[found], rt, paths[found]);
      done := true;
    } else if typerecidx != 0 {
      var elem := stack.ar[qe.index];
      if !altSearchstate {
        var rootIndex, reductions := stack.CollectResultWithRootIndex(qe.index, paths);
        var items := CollectResultItems(recs, nofParameters, typerecidx);
        rt := rt.(weightsum := qe.weight, contextType := elem.ty, rootIndex := rootIndex, reductions := reductions,
            typerec := typerecidx, items := items);
        altSearchstate := true;
      } else {
        EndNotNegative(pr, paths[qe.index]);
        rt := rt.(conflictType := elem.ty);
        Resolved(pr, visible, contextTypes, paths[found], rt, paths[qe.index]);
        done := true;
      }
    }
  }
}
