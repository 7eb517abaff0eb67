/** Type records and the lists of overloads they are linked to. */
module TypeRecords {
  import opened Guards
  import opened Scopes
  import opened TypeSearch

  /** Parameters are a range of the parameter map counted from 1; next is the handle of the next overload, 0 for
      none. */
  datatype TypeRecord = TypeRecord(ctor: int, scope: Scope, parameter: nat, parameterlen: nat, next: nat,
      contextType: int, ident: int)

  ghost predicate RecordOk(recs: seq<TypeRecord>, nofParameters: nat, h: nat) {
    && 0 < h <= |recs| && (recs[h - 1].next == 0 || h < recs[h - 1].next <= |recs|)
    && (recs[h - 1].parameterlen > 0 ==> recs[h - 1].parameter > 0
                                         && recs[h - 1].parameter - 1 + recs[h - 1].parameterlen <= nofParameters)
  }

  /** Lists lead from smaller to larger handles. */
  ghost predicate RecordsOk(recs: seq<TypeRecord>, nofParameters: nat) {
    forall h: nat {:trigger RecordOk(recs, nofParameters, h)} | 0 < h <= |recs| :: RecordOk(recs, nofParameters, h)
  }

  /** The handles of the overloads from a type on. */
  function Overloads(recs: seq<TypeRecord>, h: nat): (r: seq<nat>)
    ensures forall t | t in r :: h <= t <= |recs| && t > 0
    ensures 0 < h <= |recs| ==> |r| > 0 && r[0] == h
    decreases if h == 0 then 0 else |recs| + 1 - h
  {
    if h == 0 || h > |recs| then []
    else if recs[h - 1].next <= h then [h]
    else [h] + Overloads(recs, recs[h - 1].next)
  }

  /** The last of the overloads from a type on. */
  ghost function LastOf(recs: seq<TypeRecord>, h: nat): (l: nat)
    requires 0 < h <= |recs|
    ensures h <= l <= |recs| && l in Overloads(recs, h)
  {
    var o := Overloads(recs, h);
    assert o[|o| - 1] in o;
    o[|o| - 1]
  }

  /** The types of the parameters. */
  function Signature(recs: seq<TypeRecord>, params: seq<TypeConstructorPair>, h: nat): (r: seq<int>)
    requires RecordOk(recs, |params|, h)
    ensures |r| == recs[h - 1].parameterlen
  {
    var rec := recs[h - 1];
    seq(rec.parameterlen, j requires 0 <= j < rec.parameterlen => params[rec.parameter - 1 + j].ty)
  }

  function TypesOfParameters(parameter: seq<TypeConstructorPair>): (r: seq<int>)
    ensures |r| == |parameter|
  {
    seq(|parameter|, j requires 0 <= j < |parameter| => parameter[j].ty)
  }

  ghost predicate HasSignature(recs: seq<TypeRecord>, params: seq<TypeConstructorPair>, h: nat, types: seq<int>) {
    RecordOk(recs, |params|, h) && Signature(recs, params, h) == types
  }

  method CompareParameterSignature(types: seq<int>, recs: seq<TypeRecord>, params: seq<TypeConstructorPair>, h: nat)
    returns (same: bool)
    requires RecordOk(recs, |params|, h)
    ensures same <==> HasSignature(recs, params, h, types)
    ensures var rec := recs[h - 1];
            same <==> |types| == rec.parameterlen
                      && forall j | 0 <= j < |types| :: types[j] == params[rec.parameter - 1 + j].ty
  {
    var rec := recs[h - 1];
    if |types| != rec.parameterlen {
      return false;
    }
    for pi := 0 to rec.parameterlen
      invariant forall j | 0 <= j < pi :: types[j] == Signature(recs, params, h)[j]
    {
      if types[pi] != params[rec.parameter - 1 + pi].ty {
        assert types[pi] != Signature(recs, params, h)[pi];
        return false;
      }
    }
    same := true;
  }

  /** The first overload with the signature, 0 if there is none. */
  ghost predicate IsFirstWith(recs: seq<TypeRecord>, params: seq<TypeConstructorPair>, list: seq<nat>, types: seq<int>,
                              tri: nat) {
    if tri == 0 then forall t | t in list :: !HasSignature(recs, params, t, types)
    else exists k :: 0 <= k < |list| && list[k] == tri && HasSignature(recs, params, tri, types)
                     && forall j | 0 <= j < k :: !HasSignature(recs, params, list[j], types)
  }

  lemma {:induction false} OverloadsStep(recs: seq<TypeRecord>, nofParameters: nat, h: nat)
    requires RecordsOk(recs, nofParameters) && 0 < h <= |recs|
    ensures RecordOk(recs, nofParameters, h) && Overloads(recs, h) == [h] + Overloads(recs, recs[h - 1].next)
  {
    assert RecordOk(recs, nofParameters, h);
  }

  /** The search along the list; when nothing is found, the second result is the last of the list. */
  method FindTypeWithSignature(recs: seq<TypeRecord>, params: seq<TypeConstructorPair>, typerec: nat, types: seq<int>)
    returns (tri: nat, lastListIndex: nat)
    requires RecordsOk(recs, |params|) && typerec <= |recs|
    ensures tri <= |recs| && IsFirstWith(recs, params, Overloads(recs, typerec), types, tri)
    ensures tri == 0 ==> lastListIndex == if typerec == 0 then 0 else LastOf(recs, typerec)
  {
    lastListIndex, tri := 0, typerec;
    ghost var before: seq<nat> := [];
    while tri != 0
      invariant tri <= |recs| && Overloads(recs, typerec) == before + Overloads(recs, tri)
      invariant forall t | t in before :: !HasSignature(recs, params, t, types)
      invariant lastListIndex == if before == [] then 0 else before[|before| - 1]
      decreases if tri == 0 then 0 else |recs| + 1 - tri
    {
      OverloadsStep(recs, |params|, tri);
      var same := CompareParameterSignature(types, recs, params, tri);
      if same {
        assert (before + Overloads(recs, tri))[|before|] == tri;
        assert forall j | 0 <= j < |before| :: (before + Overloads(recs, tri))[j] == before[j] && before[j] in before;
        return;
      }
      before := before + [tri];
      lastListIndex := tri;
      tri := recs[tri - 1].next;
    }
    assert before == Overloads(recs, typerec);
  }

  // ---------------------------------------------------------------- a new record

  lemma {:induction false} PushedOk(recs: seq<TypeRecord>, params: seq<TypeConstructorPair>, rec: TypeRecord,
                                    params': seq<TypeConstructorPair>)
    requires RecordsOk(recs, |params|) && |params| <= |params'| && rec.next == 0
    requires rec.parameterlen > 0 ==> rec.parameter > 0 && rec.parameter - 1 + rec.parameterlen <= |params'|
    ensures RecordsOk(recs + [rec], |params'|)
  {
    forall h: nat | 0 < h <= |recs| + 1 ensures RecordOk(recs + [rec], |params'|, h) {
      if h <= |recs| { assert RecordOk(recs, |params|, h); }
    }
  }

  lemma {:induction false} PushedOverloads(recs: seq<TypeRecord>, nofParameters: nat, rec: TypeRecord, h: nat)
    requires RecordsOk(recs, nofParameters) && h <= |recs|
    ensures Overloads(recs + [rec], h) == Overloads(recs, h)
    decreases if h == 0 then 0 else |recs| + 1 - h
  {
    if h > 0 {
      assert RecordOk(recs, nofParameters, h);
      PushedOverloads(recs, nofParameters, rec, recs[h - 1].next);
    }
  }

  predicate LeadsTo(recs: seq<TypeRecord>, h: nat, n: nat) {
    0 < h <= |recs| && recs[h - 1].next == n
  }

  /** The record l gets the successor n. */
  function WithSuccessor(recs: seq<TypeRecord>, l: nat, n: nat): seq<TypeRecord>
    requires 0 < l <= |recs|
  {
    recs[l - 1 := recs[l - 1].(next := n)]
  }

  lemma {:induction false} LinkedOk(recs: seq<TypeRecord>, nofParameters: nat, l: nat, n: nat)
    requires RecordsOk(recs, nofParameters) && 0 < l < n <= |recs|
    ensures RecordsOk(WithSuccessor(recs, l, n), nofParameters)
  {
    forall h: nat | 0 < h <= |recs| ensures RecordOk(WithSuccessor(recs, l, n), nofParameters, h) {
      assert RecordOk(recs, nofParameters, h);
    }
  }

  lemma {:induction false} LinkedOverloads(recs: seq<TypeRecord>, nofParameters: nat, l: nat, n: nat, h: nat)
    requires RecordsOk(recs, nofParameters) && 0 < l < n == |recs| && recs[l - 1].next == 0 && recs[n - 1].next == 0
        && 0 < h < n
    requires forall t: nat | 0 < t <= n :: !LeadsTo(recs, t, n)
    ensures Overloads(WithSuccessor(recs, l, n), h) == if l in Overloads(recs, h) then Overloads(recs, h) + [n] else
        Overloads(recs, h)
    decreases n - h
  {
    var recs' := WithSuccessor(recs, l, n);
    assert RecordOk(recs, nofParameters, h);
    if h == l {
      assert Overloads(recs', n) == [n];
      assert Overloads(recs, h) == [h];
      assert Overloads(recs', h) == [h] + Overloads(recs', n);
    } else if recs[h - 1].next != 0 {
      assert !LeadsTo(recs, h, n);
      LinkedOverloads(recs, nofParameters, l, n, recs[h - 1].next);
    }
  }

  /** A list that holds the last record of another one ends with it. */
  lemma {:induction false} EndsWith(recs: seq<TypeRecord>, nofParameters: nat, h: nat, l: nat)
    requires RecordsOk(recs, nofParameters) && 0 < h <= |recs| && 0 < l <= |recs| && recs[l - 1].next == 0
    ensures l in Overloads(recs, h) <==> LastOf(recs, h) == l
    ensures recs[LastOf(recs, h) - 1].next == 0
    decreases |recs| - h
  {
    assert RecordOk(recs, nofParameters, h);
    if recs[h - 1].next != 0 {
      EndsWith(recs, nofParameters, recs[h - 1].next, l);
      assert Overloads(recs, h) == [h] + Overloads(recs, recs[h - 1].next);
    }
  }

  // ---------------------------------------------------------------- defining a type

  /** Some overload from the type on has the signature. */
  ghost predicate Known(recs: seq<TypeRecord>, params: seq<TypeConstructorPair>, h: nat, types: seq<int>) {
    exists t :: t in Overloads(recs, h) && HasSignature(recs, params, t, types)
  }

  /** The overloads of a type after a definition with handle n added behind those from prev on. */
  ghost predicate Extended(recs: seq<TypeRecord>, recs': seq<TypeRecord>, prev: nat, n: nat, r: int, h: nat)
    requires prev <= |recs| && 0 < h <= |recs|
  {
    Overloads(recs', h) == if r == n && prev > 0 && LastOf(recs, h) == LastOf(recs, prev) then Overloads(recs, h) + [n]
        else Overloads(recs, h)
  }

  /** What a definition does: there is a new record in any case. With prev the type already defined for the name, it
      is put behind the overloads of prev, and so behind all lists with the same end, unless one of them from prev on
      has the signature. */
  ghost predicate Defines(recs: seq<TypeRecord>, params: seq<TypeConstructorPair>, prev: nat, types: seq<int>,
                          recs': seq<TypeRecord>, params': seq<TypeConstructorPair>, r: int)
    requires prev <= |recs|
  {
    forall z: int {:trigger Look(z)} :: Look(z) ==> DefinesParts(recs, params, prev, types, recs', params', r)
  }

  ghost predicate DefinesParts(recs: seq<TypeRecord>, params: seq<TypeConstructorPair>, prev: nat, types: seq<int>,
                               recs': seq<TypeRecord>, params': seq<TypeConstructorPair>, r: int)
    requires prev <= |recs|
  {
    var n := |recs| + 1;
    && RecordsOk(recs', |params'|) && |recs'| == n && params <= params'
    && r == (if prev > 0 && Known(recs, params, prev, types) then -1 else n)
    && Overloads(recs', n) == [n] && HasSignature(recs', params', n, types)
    && (forall h: nat {:trigger Extended(recs, recs', prev, n, r, h)} | 0 < h <= |recs| ::
        Extended(recs, recs', prev, n, r, h))
    && forall h: nat {:trigger SameType(recs, recs', h)} | 0 < h <= |recs| :: SameType(recs, recs', h)
  }

  /** The record has not changed apart from its successor. */
  ghost predicate SameType(recs: seq<TypeRecord>, recs': seq<TypeRecord>, h: nat) {
    0 < h <= |recs| <= |recs'| && recs'[h - 1] == recs[h - 1].(next := recs'[h - 1].next)
  }

  lemma {:induction false} SignatureKept(recs: seq<TypeRecord>, params: seq<TypeConstructorPair>,
                                         recs': seq<TypeRecord>, params': seq<TypeConstructorPair>, h: nat)
    requires RecordsOk(recs, |params|) && RecordsOk(recs', |params'|) && params <= params' && SameType(recs, recs', h)
    ensures RecordOk(recs, |params|, h) && RecordOk(recs', |params'|, h)
        && Signature(recs', params', h) == Signature(recs, params, h)
  {
    assert RecordOk(recs, |params|, h) && RecordOk(recs', |params'|, h);
  }

  /** A record without successor has been added at the end. */
  ghost predicate Pushed(recs: seq<TypeRecord>, params: seq<TypeConstructorPair>, types: seq<int>,
                         recs1: seq<TypeRecord>, params1: seq<TypeConstructorPair>) {
    && RecordsOk(recs, |params|) && RecordsOk(recs1, |params1|) && params <= params1
    && |recs1| == |recs| + 1 && recs1[..|recs|] == recs && recs1[|recs|].next == 0
        && HasSignature(recs1, params1, |recs| + 1, types)
  }

  lemma {:induction false} RecordPushed(recs: seq<TypeRecord>, params: seq<TypeConstructorPair>,
                                        parameter: seq<TypeConstructorPair>, rec: TypeRecord)
    requires RecordsOk(recs, |params|) && rec.next == 0 && rec.parameterlen == |parameter|
    requires rec.parameter == if parameter == [] then 0 else |params| + 1
    ensures Pushed(recs, params, TypesOfParameters(parameter), recs + [rec], params + parameter)
  {
    PushedOk(recs, params, rec, params + parameter);
    assert RecordOk(recs + [rec], |params + parameter|, |recs| + 1);
    assert Signature(recs + [rec], params + parameter, |recs| + 1) == TypesOfParameters(parameter);
  }

  lemma {:induction false} PushedSame(recs: seq<TypeRecord>, params: seq<TypeConstructorPair>, types: seq<int>,
                                      recs1: seq<TypeRecord>, params1: seq<TypeConstructorPair>, h: nat)
    requires Pushed(recs, params, types, recs1, params1) && 0 < h <= |recs|
    ensures Overloads(recs1, h) == Overloads(recs, h) && LastOf(recs1, h) == LastOf(recs, h) && SameType(recs, recs1, h)
  {
    assert recs1 == recs + [recs1[|recs|]];
    PushedOverloads(recs, |params|, recs1[|recs|], h);
  }

  /** The search after the push finds an overload exactly if there was one before. */
  lemma {:induction false} SearchedBefore(recs: seq<TypeRecord>, params: seq<TypeConstructorPair>, types: seq<int>,
                                          recs1: seq<TypeRecord>, params1: seq<TypeConstructorPair>, prev: nat,
                                          tri: nat)
    requires Pushed(recs, params, types, recs1, params1) && 0 < prev <= |recs|
        && IsFirstWith(recs1, params1, Overloads(recs1, prev), types, tri)
    ensures tri != 0 <==> Known(recs, params, prev, types)
  {
    PushedSame(recs, params, types, recs1, params1, prev);
    forall t | t in Overloads(recs, prev) ensures HasSignature(recs1, params1, t, types) <==>
        HasSignature(recs, params, t, types) {
      PushedSame(recs, params, types, recs1, params1, t);
      SignatureKept(recs, params, recs1, params1, t);
    }
    if tri != 0 { assert tri in Overloads(recs1, prev); }
  }

  /** Nothing is linked for a new name, or when an overload has the signature. */
  lemma {:induction false} DefinedAlone(recs: seq<TypeRecord>, params: seq<TypeConstructorPair>, prev: nat,
                                        types: seq<int>, recs1: seq<TypeRecord>, params1: seq<TypeConstructorPair>)
    requires Pushed(recs, params, types, recs1, params1) && prev <= |recs|
        && (prev > 0 ==> Known(recs, params, prev, types))
    ensures Defines(recs, params, prev, types, recs1, params1, if prev > 0 then -1 else |recs| + 1)
  {
    var n, r := |recs| + 1, if prev > 0 then -1 else |recs| + 1;
    forall h: nat | 0 < h <= |recs| ensures Extended(recs, recs1, prev, n, r, h) && SameType(recs, recs1, h) {
      PushedSame(recs, params, types, recs1, params1, h);
    }
  }

  lemma {:induction false} NobodyLeads(recs: seq<TypeRecord>, params: seq<TypeConstructorPair>, types: seq<int>,
                                       recs1: seq<TypeRecord>, params1: seq<TypeConstructorPair>)
    requires Pushed(recs, params, types, recs1, params1)
    ensures forall t: nat | 0 < t <= |recs1| :: !LeadsTo(recs1, t, |recs1|)
  {
    forall t: nat | 0 < t <= |recs1| ensures !LeadsTo(recs1, t, |recs1|) {
      if t <= |recs| { assert RecordOk(recs, |params|, t) && recs1[t - 1] == recs[t - 1]; }
    }
  }

  /** Otherwise the new record comes behind the last overload. */
  lemma {:induction false} DefinedBehind(recs: seq<TypeRecord>, params: seq<TypeConstructorPair>, prev: nat,
                                         types: seq<int>, recs1: seq<TypeRecord>, params1: seq<TypeConstructorPair>)
    requires Pushed(recs, params, types, recs1, params1) && 0 < prev <= |recs| && !Known(recs, params, prev, types)
    ensures LastOf(recs1, prev) <= |recs|
    ensures Defines(recs, params, prev, types, WithSuccessor(recs1, LastOf(recs1, prev), |recs| + 1), params1,
        |recs| + 1)
  {
    var n := |recs| + 1;
    PushedSame(recs, params, types, recs1, params1, prev);
    var l := LastOf(recs1, prev);
    var recs' := WithSuccessor(recs1, l, n);
    EndsWith(recs1, |params1|, prev, n);
    NobodyLeads(recs, params, types, recs1, params1);
    LinkedOk(recs1, |params1|, l, n);
    forall h: nat | 0 < h <= |recs| ensures Extended(recs, recs', prev, n, n, h) && SameType(recs, recs', h) {
      PushedSame(recs, params, types, recs1, params1, h);
      EndsWith(recs1, |params1|, h, l);
      LinkedOverloads(recs1, |params1|, l, n, h);
    }
    assert RecordOk(recs', |params1|, n) && Signature(recs', params1, n) == Signature(recs1, params1, n);
  }

  ghost predicate Differ(recs: seq<TypeRecord>, params: seq<TypeConstructorPair>, s: nat, t: nat) {
    RecordOk(recs, |params|, s) && RecordOk(recs, |params|, t)
        && Signature(recs, params, s) != Signature(recs, params, t)
  }

  /** No signature occurs twice among the overloads. */
  ghost predicate Unambiguous(recs: seq<TypeRecord>, params: seq<TypeConstructorPair>, h: nat) {
    forall s, t {:trigger Differ(recs, params, s, t)} | s in Overloads(recs, h) && t in Overloads(recs, h) && s != t ::
        Differ(recs, params, s, t)
  }

  /** A definition keeps the overloads of a type unambiguous exactly if they do not get the new type, or none of them
      has its signature. */
  lemma {:induction false} UnambiguousExactly(recs: seq<TypeRecord>, params: seq<TypeConstructorPair>, prev: nat,
                                              types: seq<int>, recs': seq<TypeRecord>,
                                              params': seq<TypeConstructorPair>, r: int, h: nat)
    requires RecordsOk(recs, |params|) && prev <= |recs| && Defines(recs, params, prev, types, recs', params', r)
    requires 0 < h <= |recs| && Unambiguous(recs, params, h)
    ensures Unambiguous(recs', params', h) <==>
            !(prev > 0 && !Known(recs, params, prev, types) && LastOf(recs, h) == LastOf(recs, prev)
                && Known(recs, params, h, types))
  {
    assert Look(0);
    var n, list := |recs| + 1, Overloads(recs, h);
    assert Extended(recs, recs', prev, n, r, h);
    forall t | t in list ensures RecordOk(recs, |params|, t) && RecordOk(recs', |params'|, t)
        && Signature(recs', params', t) == Signature(recs, params, t) {
      assert SameType(recs, recs', t);
      SignatureKept(recs, params, recs', params', t);
    }
    forall s, t | s in list && t in list && s != t ensures Differ(recs', params', s, t) {
      assert Differ(recs, params, s, t);
    }
    if Overloads(recs', h) != list {
      assert RecordOk(recs', |params'|, n);
      if Known(recs, params, h, types) {
        var t :| t in list && HasSignature(recs, params, t, types);
        assert !Differ(recs', params', t, n) && t in Overloads(recs', h) && n in Overloads(recs', h);
      } else {
        forall s, t | s in list + [n] && t in list + [n] && s != t ensures Differ(recs', params', s, t) {
          assert s in list ==> !HasSignature(recs, params, s, types);
          assert t in list ==> !HasSignature(recs, params, t, types);
        }
      }
    }
  }

  /** The overloads of the name that is defined stay unambiguous. */
  lemma {:induction false} DefinedNameUnambiguous(recs: seq<TypeRecord>, params: seq<TypeConstructorPair>, prev: nat,
                                                  types: seq<int>, recs': seq<TypeRecord>,
                                                  params': seq<TypeConstructorPair>, r: int)
    requires RecordsOk(recs, |params|) && 0 < prev <= |recs| && Defines(recs, params, prev, types, recs', params', r)
        && Unambiguous(recs, params, prev)
    ensures Unambiguous(recs', params', prev)
  {
    assert Look(0);
    UnambiguousExactly(recs, params, prev, types, recs', params', r, prev);
  }
}
