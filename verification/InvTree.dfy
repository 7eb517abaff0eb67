/** The array of scoped values with links to the next enclosing scope. */
module InvTree {
  import opened Scopes
  import opened ScopeForest

  datatype UpValue<V> = UpValue(scope: Scope, value: V, prev: int)

  function ScopesOf<V>(ar: seq<UpValue<V>>): (ss: seq<Scope>)
    ensures |ss| == |ar| && forall i :: 0 <= i < |ar| ==> ss[i] == ar[i].scope
  {
    seq(|ar|, i requires 0 <= i < |ar| => ar[i].scope)
  }

  function LinksOf<V>(ar: seq<UpValue<V>>): (up: seq<int>)
    ensures |up| == |ar| && forall i :: 0 <= i < |ar| ==> up[i] == ar[i].prev
  {
    seq(|ar|, i requires 0 <= i < |ar| => ar[i].prev)
  }

  ghost predicate IsForest<V>(ar: seq<UpValue<V>>, at: map<Scope, int>, heads: map<int, int>) {
    Forest(ScopesOf(ar), LinksOf(ar), at, heads)
  }

  /** Only links of elements in at differ. */
  ghost predicate Relinked<V>(ar: seq<UpValue<V>>, ar': seq<UpValue<V>>, at: map<Scope, int>) {
    && |ar| <= |ar'|
    && forall i :: 0 <= i < |ar| ==>
         ar'[i].scope == ar[i].scope && ar'[i].value == ar[i].value && (ar'[i] == ar[i] || At(ScopesOf(ar), at, i))
  }

  lemma {:induction false} LinkedFrame(ss: seq<Scope>, up: seq<int>, ss': seq<Scope>, up': seq<int>,
                                       at: map<Scope, int>)
    requires Linked(ss, up, at) && |up'| == |ss'| >= |ss|
    requires forall i | At(ss, at, i) :: ss'[i] == ss[i] && up'[i] == up[i]
    ensures Linked(ss', up', at)
  {
    forall s | s in at ensures ss'[at[s]] == s && Uplink(ss', at, at.Keys, s, up'[at[s]]) {
      assert At(ss, at, at[s]) && Uplink(ss, at, at.Keys, s, up[at[s]]);
    }
  }

  lemma {:induction false} HeadsFrame(ss: seq<Scope>, ss': seq<Scope>, at: map<Scope, int>, heads: map<int, int>)
    requires HeadsOk(ss, at, heads) && |ss'| >= |ss|
    requires forall i | At(ss, at, i) :: ss'[i] == ss[i]
    ensures HeadsOk(ss', at, heads)
  {
    forall e | e in heads ensures IsHead(ss', at, e, heads[e]) {
      assert IsHead(ss, at, e, heads[e]);
    }
  }

  /** Elements of other trees in the same array do not matter. */
  lemma {:induction false} ForestFrame<V>(ar: seq<UpValue<V>>, ar': seq<UpValue<V>>, at: map<Scope, int>,
                                          heads: map<int, int>)
    requires IsForest(ar, at, heads) && |ar| <= |ar'|
    requires forall i | At(ScopesOf(ar), at, i) :: ar'[i].scope == ar[i].scope && ar'[i].prev == ar[i].prev
    ensures IsForest(ar', at, heads)
  {
    LinkedFrame(ScopesOf(ar), LinksOf(ar), ScopesOf(ar'), LinksOf(ar'), at);
    HeadsFrame(ScopesOf(ar), ScopesOf(ar'), at, heads);
  }

  /** The first element of an ordered map behind a key. */
  datatype Bound = Found(e: int) | NoEnd

  function UpperBound(heads: map<int, int>, x: int): (r: Bound)
    ensures match r case Found(e) => LeastEnd(heads, x, e) case NoEnd => forall f | f in heads :: f <= x
  {
    var above := set f | f in heads && x < f :: Found(f);
    assert forall f | f in heads && x < f :: Found(f) in above;
    if above == {} then NoEnd
    else
      LeastExists(above);
      var least :| IsLeast(above, least);
      least
  }

  predicate IsLeast(s: set<Bound>, least: Bound) {
    least in s && forall f | f in s :: least.Found? && f.Found? && least.e <= f.e
  }

  lemma {:induction false} LeastExists(s: set<Bound>)
    requires s != {} && forall f | f in s :: f.Found?
    ensures exists least :: IsLeast(s, least)
    decreases |s|
  {
    var x :| x in s;
    var rest := s - {x};
    if rest == {} {
      assert s == {x} && IsLeast(s, x);
    } else {
      LeastExists(rest);
      var m :| IsLeast(rest, m);
      var n := if x.e < m.e then x else m;
      forall f | f in s ensures n.e <= f.e { assert f == x || f in rest; }
      assert IsLeast(s, n);
    }
  }

  /** The scope has been appended; links of elements below it are still to be redirected. */
  ghost predicate HalfInserted<V>(ar: seq<UpValue<V>>, ar': seq<UpValue<V>>, at: map<Scope, int>, heads: map<int, int>,
                                  scope: Scope, value: V, head: int) {
    && Grown(ar, ar', at, scope, value)
    && Half(ScopesOf(ar'), LinksOf(ar'), at[scope := |ar|], at.Keys, scope, scope.start)
    && HeadsOk(ScopesOf(ar'), at[scope := |ar|], heads[scope.end := head])
  }

  /** The array with an element appended and the link of pred redirected to it. */
  function Spliced<V>(ar: seq<UpValue<V>>, scope: Scope, value: V, i: int, pred: int): (ar': seq<UpValue<V>>)
    requires -1 <= pred < |ar|
  {
    (if pred >= 0 then ar[pred := ar[pred].(prev := |ar|)] else ar) + [UpValue(scope, value, i)]
  }

  lemma {:induction false} PushAndLink<V>(ar: seq<UpValue<V>>, scope: Scope, value: V, i: int, pred: int)
    requires -1 <= pred < |ar|
    ensures var pushed := ar + [UpValue(scope, value, i)];
            Spliced(ar, scope, value, i, pred) == if pred >= 0 then pushed[pred := pushed[pred].(prev := |ar|)] else
                pushed
  {
  }

  lemma {:induction false} PlaceHalf<V>(ar: seq<UpValue<V>>, at: map<Scope, int>, heads: map<int, int>, scope: Scope,
                                        value: V, i: int, pred: int, head: int)
    requires Seeking(ar, at, heads, scope, pred, i) && -1 <= pred < |ar| && (i >= 0 ==> Encloses(ar[i].scope, scope))
    requires head == if pred == -1 then |ar| else heads[scope.end]
    ensures scope !in at && HalfInserted(ar, Spliced(ar, scope, value, i, pred), at, heads, scope, value, head)
  {
    var ar' := Spliced(ar, scope, value, i, pred);
    PlaceFound(ScopesOf(ar), LinksOf(ar), at, heads, scope, pred, i);
    Pushed(ar, ar', scope, value, i, pred);
    PushedRelinks(ar, ar', at, scope, value, i, pred);
  }

  lemma {:induction false} PlacePushed<V>(ar: seq<UpValue<V>>, at: map<Scope, int>, heads: map<int, int>, scope: Scope,
                                          value: V, overwrite: bool, i: int, pred: int, head: int)
    requires Seeking(ar, at, heads, scope, pred, i) && -1 <= pred < |ar| && (i >= 0 ==> Encloses(ar[i].scope, scope))
    requires head == if pred == -1 then |ar| else heads[scope.end]
    ensures var pushed := ar + [UpValue(scope, value, i)];
            HalfDefined(ar, at, heads, scope, value, overwrite, if pred >= 0 then
                pushed[pred := pushed[pred].(prev := |ar|)] else pushed,
                        heads[scope.end := head], Inserted(|ar|))
  {
    PlaceHalf(ar, at, heads, scope, value, i, pred, head);
    PushAndLink(ar, scope, value, i, pred);
    HalfInsertedDefined(ar, Spliced(ar, scope, value, i, pred), at, heads, scope, value, overwrite, head);
  }

  lemma {:induction false} HalfInsertedDefined<V>(ar: seq<UpValue<V>>, ar': seq<UpValue<V>>, at: map<Scope, int>,
                                                  heads: map<int, int>, scope: Scope, value: V, overwrite: bool,
                                                  head: int)
    requires scope !in at && HalfInserted(ar, ar', at, heads, scope, value, head)
    ensures HalfDefined(ar, at, heads, scope, value, overwrite, ar', heads[scope.end := head], Inserted(|ar|))
  {
    assert heads[scope.end := head][scope.end := head] == heads[scope.end := head];
  }

  lemma {:induction false} PushedRelinks<V>(ar: seq<UpValue<V>>, ar': seq<UpValue<V>>, at: map<Scope, int>,
                                            scope: Scope, value: V, i: int, pred: int)
    requires pred >= 0 ==> At(ScopesOf(ar), at, pred)
    requires pred >= -1 && ar' == (if pred >= 0 then ar[pred := ar[pred].(prev := |ar|)] else ar)
        + [UpValue(scope, value, i)]
    ensures Grown(ar, ar', at, scope, value)
  {
  }

  /** On the walk in search of the place of a scope. */
  ghost predicate Seeking<V>(ar: seq<UpValue<V>>, at: map<Scope, int>, heads: map<int, int>, scope: Scope, pred: int,
                             ai: int) {
    && IsForest(ar, at, heads) && scope.end in heads && Hierarchical(at.Keys + {scope})
    && PlaceFrom(ScopesOf(ar), LinksOf(ar), at, scope, pred, ai)
  }

  lemma {:induction false} SeekingIndex<V>(ar: seq<UpValue<V>>, at: map<Scope, int>, heads: map<int, int>,
                                           scope: Scope, pred: int, ai: int)
    requires Seeking(ar, at, heads, scope, pred, ai) && ai >= 0
    ensures ai < |ar| && (pred == -1 || 0 <= pred < |ar|)
    ensures scope.Contains(ar[ai].scope) || ar[ai].scope.Contains(scope)
    ensures ar[ai].scope == scope ==> scope in at && at[scope] == ai
  {
    PlaceFromNested(ScopesOf(ar), LinksOf(ar), at, scope, pred, ai);
  }

  lemma {:induction false} SeekingNext<V>(ar: seq<UpValue<V>>, at: map<Scope, int>, heads: map<int, int>, scope: Scope,
                                          pred: int, ai: int)
    requires Seeking(ar, at, heads, scope, pred, ai) && ai >= 0 && ai < |ar| && Encloses(scope, ar[ai].scope)
    ensures Seeking(ar, at, heads, scope, ai, ar[ai].prev) && -1 <= ar[ai].prev
    ensures ChainLength(ScopesOf(ar), at, ar[ai].prev) < ChainLength(ScopesOf(ar), at, ai)
  {
    PlaceFromNext(ScopesOf(ar), LinksOf(ar), at, scope, pred, ai);
    LinkedShrinks(ar, at, ai);
  }

  datatype InsertResult<V> = Inserted(newindex: int) | Known(was: V) | ScopeHierarchyError | LogicError

  class ScopedUpValueInvTree<V(==)> {
    var ar: seq<UpValue<V>>
    const nullval: V

    constructor (nullval: V)
      ensures ar == [] && this.nullval == nullval
    {
      this.nullval := nullval;
      ar := [];
    }

    /** Index of the innermost of the scopes covering the step, by the chain from index on. */
    method First(index: int, step: int, ghost at: map<Scope, int>) returns (ai: int)
      requires Linked(ScopesOf(ar), LinksOf(ar), at) && CoversFrom(ScopesOf(ar), at, step, index)
      ensures if ai == -1 then forall c | c in at :: !c.Covers(step)
              else At(ScopesOf(ar), at, ai) && Innermost(at.Keys, step, ar[ai].scope)
    {
      ai := index;
      while ai >= 0
        invariant CoversFrom(ScopesOf(ar), at, step, ai)
        decreases ChainLength(ScopesOf(ar), at, ai)
      {
        if ar[ai].scope.start <= step {
          CoversFromFound(ScopesOf(ar), at, step, ai);
          return;
        }
        CoversFromNext(ScopesOf(ar), LinksOf(ar), at, step, ai);
        LinkedShrinks(ar, at, ai);
        ai := ar[ai].prev;
      }
    }

    method GetInnerValue(index: int, step: int, ghost at: map<Scope, int>) returns (v: V)
      requires Linked(ScopesOf(ar), LinksOf(ar), at) && CoversFrom(ScopesOf(ar), at, step, index)
      ensures (forall c | c in at :: !c.Covers(step)) ==> v == nullval
      ensures forall s | Innermost(at.Keys, step, s) :: v == ar[at[s]].value
    {
      var ai := index;
      while ai >= 0
        invariant CoversFrom(ScopesOf(ar), at, step, ai)
        decreases ChainLength(ScopesOf(ar), at, ai)
      {
        if ar[ai].scope.start <= step {
          CoversFromFound(ScopesOf(ar), at, step, ai);
          return ar[ai].value;
        }
        CoversFromNext(ScopesOf(ar), LinksOf(ar), at, step, ai);
        LinkedShrinks(ar, at, ai);
        ai := ar[ai].prev;
      }
      return nullval;
    }

    /** Value of exactly this scope. */
    method FindUpValue(index: int, scope: Scope, ghost at: map<Scope, int>) returns (v: V)
      requires Linked(ScopesOf(ar), LinksOf(ar), at) && IsHead(ScopesOf(ar), at, scope.end, index)
      ensures v == if scope in at then ar[at[scope]].value else nullval
    {
      v := nullval;
      var ai := index;
      while ai >= 0
        invariant FindsFrom(ScopesOf(ar), at, scope, ai) && (ai >= 0 ==> ar[ai].scope.end >= scope.end)
        invariant v == nullval
        decreases ChainLength(ScopesOf(ar), at, ai)
      {
        var uv := ar[ai];
        if uv.scope.end != scope.end {
          return v;
        }
        if uv.scope.start == scope.start {
          v := uv.value;
          break;
        }
        if uv.scope.start < scope.start {
          break;
        }
        FindsFromNext(ScopesOf(ar), LinksOf(ar), at, scope, ai);
        LinkedShrinks(ar, at, ai);
        ai := uv.prev;
      }
    }

    method RightNeighborUpLink(index: int, scope: Scope, ghost at: map<Scope, int>) returns (ai: int)
      requires Linked(ScopesOf(ar), LinksOf(ar), at) && EnclosersFrom(ScopesOf(ar), at, scope, index)
      ensures RightUplink(ScopesOf(ar), at, scope, ai)
    {
      ai := index;
      while ai >= 0
        invariant EnclosersFrom(ScopesOf(ar), at, scope, ai)
        decreases ChainLength(ScopesOf(ar), at, ai)
      {
        if ar[ai].scope.Contains(scope) {
          return;
        }
        EnclosersFromNext(ScopesOf(ar), LinksOf(ar), at, scope, ai);
        LinkedShrinks(ar, at, ai);
        ai := ar[ai].prev;
      }
    }

    method PushUpValue(scope: Scope, value: V, uplink: int) returns (index: int)
      modifies this
      ensures index == |old(ar)| && ar == old(ar) + [UpValue(scope, value, uplink)]
    {
      index := |ar|;
      ar := ar + [UpValue(scope, value, uplink)];
    }

    /** Insert among the scopes with the same end, whose chain starts with index. */
    method InsertUpValue(index: int, scope: Scope, value: V, uplink: int, overwrite: bool, ghost at: map<Scope, int>,
                         ghost heads: map<int, int>)
      returns (r: InsertResult<V>, head: int)
      requires IsForest(ar, at, heads) && scope.end in heads && heads[scope.end] == index
      requires scope.NonEmpty() && Hierarchical(at.Keys + {scope}) && RightUplink(ScopesOf(ar), at, scope, uplink)
      modifies this
      ensures HalfDefined(old(ar), at, heads, scope, value, overwrite, ar, heads[scope.end := head], r)
    {
      head := index;
      var pred := -1;
      var ai := index;
      PlaceFromHead(ScopesOf(ar), LinksOf(ar), at, heads, scope);
      while ai >= 0
        invariant Seeking(ar, at, heads, scope, pred, ai) && -1 <= ai && -1 <= pred < |ar| && (ai == -1 ==> 0 <= pred)
        invariant ar == old(ar) && head == index
        decreases ChainLength(ScopesOf(ar), at, ai)
      {
        SeekingIndex(ar, at, heads, scope, pred, ai);
        var uv := ar[ai];
        if scope.Contains(uv.scope) {
          if uv.scope == scope {
            if overwrite {
              ar := ar[ai := uv.(value := value)];
            }
            KnownDefined(old(ar), at, heads, scope, value, overwrite);
            return Known(uv.value), head;
          }
          SeekingNext(ar, at, heads, scope, pred, ai);
          pred := ai;
          ai := uv.prev;
        } else if !uv.scope.Contains(scope) {
          return ScopeHierarchyError, head;
        } else if pred == -1 {
          var n := PushUpValue(scope, value, ai);
          PlacePushed(old(ar), at, heads, scope, value, overwrite, ai, pred, n);
          return Inserted(n), n;
        } else {
          var n := PushUpValue(scope, value, ai);
          ar := ar[pred := ar[pred].(prev := n)];
          PlacePushed(old(ar), at, heads, scope, value, overwrite, ai, pred, head);
          return Inserted(n), head;
        }
      }
      NothingToTheRight(ScopesOf(ar), LinksOf(ar), at, scope, pred, uplink);
      var n := PushUpValue(scope, value, uplink);
      ar := ar[pred := ar[pred].(prev := n)];
      PlacePushed(old(ar), at, heads, scope, value, overwrite, -1, pred, head);
      r := Inserted(n);
    }

    /** Redirect the link of the last element inside scope on the chain from the head of end e. */
    method LinkLeftNeighbours(index: int, scope: Scope, newindex: int, ghost at: map<Scope, int>, ghost S: set<Scope>,
                              ghost b: int, ghost e: int)
      requires Half(ScopesOf(ar), LinksOf(ar), at, S, scope, b) && newindex == at[scope]
          && IsHead(ScopesOf(ar), at, e, index)
      requires b < e && forall s | s in S && b < s.end :: e <= s.end
      modifies this
      ensures Relinked(old(ar), ar, at) && |ar| == |old(ar)| && ScopesOf(ar) == ScopesOf(old(ar))
      ensures Half(ScopesOf(ar), LinksOf(ar), at, S, scope, e)
    {
      var pred := -1;
      var ai := index;
      ghost var ss, up := ScopesOf(ar), LinksOf(ar);
      ghost var known := false;
      while ai >= 0
        invariant InsideFrom(ss, up, at, scope, e, pred, ai)
        invariant ar == old(ar)
        decreases ChainLength(ss, at, ai)
      {
        var uv := ar[ai];
        if scope == uv.scope {
          AlreadyLinked(ss, up, at, S, scope, b, e, pred, ai);
          pred := -1;
          known := true;
          break;
        } else if scope.Contains(uv.scope) {
          InsideFromNext(ss, up, at, S, scope, b, e, pred, ai);
          HalfLink(ss, up, at, S, scope, b, ai);
          ChainShrinks(ss, at, ai, uv.prev);
          pred := ai;
          ai := uv.prev;
        } else {
          break;
        }
      }
      if !known { LinkedNow(ss, up, at, S, scope, b, e, pred, ai); }
      if pred != -1 {
        ar := ar[pred := ar[pred].(prev := newindex)];
        assert LinksOf(ar) == up[pred := newindex];
      }
      assert ScopesOf(ar) == ss;
    }

    /** Define a scope in the tree whose heads by scope end are given; the part common to all the maps of scoped
        values. */
    method Define(heads: map<int, int>, scope: Scope, value: V, overwrite: bool, ghost at: map<Scope, int>)
      returns (r: InsertResult<V>, heads': map<int, int>)
      requires IsForest(ar, at, heads) && scope.NonEmpty() && Hierarchical(at.Keys + {scope})
      modifies this
      ensures Defined(old(ar), at, heads, scope, value, overwrite, ar, heads', r)
    {
      var uplink := FindUplink(heads, scope, at);
      r, heads' := Insert(heads, scope, value, uplink, overwrite, at);
      if r.Inserted? {
        match UpperBound(heads', scope.start) {
          case NoEnd => return LogicError, heads';
          case Found(e) => LinkLeft(heads', scope, value, r.newindex, e, old(ar), at);
        }
      }
    }

    /** The uplink by way of the next larger end. */
    method FindUplink(heads: map<int, int>, scope: Scope, ghost at: map<Scope, int>) returns (uplink: int)
      requires IsForest(ar, at, heads) && scope.NonEmpty()
      ensures RightUplink(ScopesOf(ar), at, scope, uplink)
    {
      match UpperBound(heads, scope.end) {
        case Found(e) =>
          EnclosersFromHead(ScopesOf(ar), LinksOf(ar), at, heads, scope, e);
          uplink := RightNeighborUpLink(heads[e], scope, at);
        case NoEnd =>
          uplink := -1;
          NoneToTheRight(ScopesOf(ar), at, heads, scope);
      }
    }

    /** A new head for a new end, an insertion into the chain of a known one. */
    method Insert(heads: map<int, int>, scope: Scope, value: V, uplink: int, overwrite: bool, ghost at: map<Scope, int>)
      returns (r: InsertResult<V>, heads': map<int, int>)
      requires IsForest(ar, at, heads) && scope.NonEmpty() && Hierarchical(at.Keys + {scope})
          && RightUplink(ScopesOf(ar), at, scope, uplink)
      modifies this
      ensures HalfDefined(old(ar), at, heads, scope, value, overwrite, ar, heads', r)
    {
      if scope.end !in heads {
        var n := PushUpValue(scope, value, uplink);
        EndDefined(old(ar), ar, at, heads, scope, value, overwrite, uplink);
        r, heads' := Inserted(n), heads[scope.end := n];
      } else {
        var head;
        r, head := InsertUpValue(heads[scope.end], scope, value, uplink, overwrite, at, heads);
        heads' := heads[scope.end := head];
      }
    }

    /** Visit the heads of all ends inside the scope, beginning with end e. */
    method LinkLeft(heads: map<int, int>, scope: Scope, ghost value: V, newindex: int, e: int,
                    ghost ar0: seq<UpValue<V>>, ghost at: map<Scope, int>)
      requires newindex == |ar0| && Grown(ar0, ar, at, scope, value) && LeastEnd(heads, scope.start, e)
          && scope.end in heads && scope.NonEmpty()
      requires Half(ScopesOf(ar), LinksOf(ar), at[scope := newindex], at.Keys, scope, scope.start)
      requires HeadsOk(ScopesOf(ar), at[scope := newindex], heads)
      modifies this
      ensures Grown(ar0, ar, at, scope, value) && IsForest(ar, at[scope := newindex], heads)
    {
      ghost var at' := at[scope := newindex];
      ghost var b := scope.start;
      var left := e;
      while left != scope.end
        invariant b < left <= scope.end && LeastEnd(heads, b, left)
        invariant Grown(ar0, ar, at, scope, value)
        invariant Half(ScopesOf(ar), LinksOf(ar), at', at.Keys, scope, b) && HeadsOk(ScopesOf(ar), at', heads)
        decreases scope.end - left
      {
        assert IsHead(ScopesOf(ar), at', left, heads[left]);
        EndsBehind(ScopesOf(ar), at', heads, b, left);
        ghost var before := ar;
        LinkLeftNeighbours(heads[left], scope, newindex, at', at.Keys, b, left);
        GrownRelinked(ar0, before, ar, at, scope, value);
        b := left;
        match UpperBound(heads, left) {
          case Found(f) => left := f;
        }
      }
      EndsBehind(ScopesOf(ar), at', heads, b, scope.end);
      HalfIsWhole(ScopesOf(ar), LinksOf(ar), at', at.Keys, scope, b);
    }
  }

  /** The same before links of elements below the new one are redirected. */
  ghost predicate HalfDefined<V>(ar: seq<UpValue<V>>, at: map<Scope, int>, heads: map<int, int>, scope: Scope,
                                 value: V, overwrite: bool, ar': seq<UpValue<V>>, heads': map<int, int>,
                                 r: InsertResult<V>) {
    && scope.end in heads' && heads' == heads[scope.end := heads'[scope.end]]
    && (scope in at ==> 0 <= at[scope] < |ar| && heads' == heads && r == Known(ar[at[scope]].value)
                        && ar' == if overwrite then ar[at[scope] := ar[at[scope]].(value := value)] else ar)
    && (scope !in at ==> r == Inserted(|ar|) && HalfInserted(ar, ar', at, heads, scope, value, heads'[scope.end]))
  }

  lemma {:induction false} KnownDefined<V>(ar: seq<UpValue<V>>, at: map<Scope, int>, heads: map<int, int>,
                                           scope: Scope, value: V, overwrite: bool)
    requires scope in at && 0 <= at[scope] < |ar| && scope.end in heads
    ensures HalfDefined(ar, at, heads, scope, value, overwrite, if overwrite then
        ar[at[scope] := ar[at[scope]].(value := value)] else ar,
                        heads[scope.end := heads[scope.end]], Known(ar[at[scope]].value))
  {
    assert heads[scope.end := heads[scope.end]] == heads;
  }

  lemma {:induction false} EndDefined<V>(ar: seq<UpValue<V>>, ar': seq<UpValue<V>>, at: map<Scope, int>,
                                         heads: map<int, int>, scope: Scope, value: V, overwrite: bool, i: int)
    requires IsForest(ar, at, heads) && scope.end !in heads && Hierarchical(at.Keys + {scope})
        && RightUplink(ScopesOf(ar), at, scope, i)
    requires ar' == ar + [UpValue(scope, value, i)]
    ensures HalfDefined(ar, at, heads, scope, value, overwrite, ar', heads[scope.end := |ar|], Inserted(|ar|))
  {
    EndPushed(ar, ar', at, heads, scope, value, i);
  }

  /** What defining a scope does: an element with the scope is known and kept or overwritten, or one is added. */
  ghost predicate Defined<V>(ar: seq<UpValue<V>>, at: map<Scope, int>, heads: map<int, int>, scope: Scope, value: V,
                             overwrite: bool, ar': seq<UpValue<V>>, heads': map<int, int>, r: InsertResult<V>) {
    && scope.end in heads' && heads' == heads[scope.end := heads'[scope.end]]
    && (scope in at ==> 0 <= at[scope] < |ar| && heads' == heads && r == Known(ar[at[scope]].value)
                        && ar' == if overwrite then ar[at[scope] := ar[at[scope]].(value := value)] else ar)
    && (scope !in at ==> r == Inserted(|ar|) && Grown(ar, ar', at, scope, value)
                         && IsForest(ar', at[scope := |ar|], heads'))
  }

  /** One element has been appended, only links of elements in at have changed. */
  ghost predicate Grown<V>(ar: seq<UpValue<V>>, ar': seq<UpValue<V>>, at: map<Scope, int>, scope: Scope, value: V) {
    |ar'| == |ar| + 1 && Relinked(ar, ar', at) && ar'[|ar|].scope == scope && ar'[|ar|].value == value
  }

  lemma {:induction false} GrownRelinked<V>(ar0: seq<UpValue<V>>, ar: seq<UpValue<V>>, ar': seq<UpValue<V>>,
                                            at: map<Scope, int>, scope: Scope, value: V)
    requires Grown(ar0, ar, at, scope, value) && |ar'| == |ar| && Relinked(ar, ar', at[scope := |ar0|])
    ensures Grown(ar0, ar', at, scope, value)
  {
    forall i | 0 <= i < |ar0| && ar'[i] != ar0[i] ensures At(ScopesOf(ar0), at, i) {
      assert ar'[i] != ar[i] ==> At(ScopesOf(ar), at[scope := |ar0|], i);
    }
  }

  lemma {:induction false} EndsBehind(ss: seq<Scope>, at: map<Scope, int>, heads: map<int, int>, b: int, e: int)
    requires HeadsOk(ss, at, heads) && LeastEnd(heads, b, e)
    ensures forall s | s in at && b < s.end :: e <= s.end
  {
  }

  lemma {:induction false} NoneToTheRight(ss: seq<Scope>, at: map<Scope, int>, heads: map<int, int>, scope: Scope)
    requires HeadsOk(ss, at, heads) && forall f | f in heads :: f <= scope.end
    ensures RightUplink(ss, at, scope, -1)
  {
  }

  lemma {:induction false} EndPushed<V>(ar: seq<UpValue<V>>, ar': seq<UpValue<V>>, at: map<Scope, int>,
                                        heads: map<int, int>, scope: Scope, value: V, i: int)
    requires IsForest(ar, at, heads) && scope.end !in heads && Hierarchical(at.Keys + {scope})
        && RightUplink(ScopesOf(ar), at, scope, i)
    requires ar' == ar + [UpValue(scope, value, i)]
    ensures scope !in at && HalfInserted(ar, ar', at, heads, scope, value, |ar|)
  {
    NewEnd(ScopesOf(ar), LinksOf(ar), at, heads, scope, i);
    Pushed(ar, ar', scope, value, i, -1);
    PushedRelinks(ar, ar', at, scope, value, i, -1);
  }

  lemma {:induction false} LinkedShrinks<V>(ar: seq<UpValue<V>>, at: map<Scope, int>, i: int)
    requires Linked(ScopesOf(ar), LinksOf(ar), at) && At(ScopesOf(ar), at, i)
    ensures ChainLength(ScopesOf(ar), at, ar[i].prev) < ChainLength(ScopesOf(ar), at, i)
  {
    assert Uplink(ScopesOf(ar), at, at.Keys, ar[i].scope, LinksOf(ar)[i]);
    ChainShrinks(ScopesOf(ar), at, i, ar[i].prev);
  }

  lemma {:induction false} Pushed<V>(ar: seq<UpValue<V>>, ar': seq<UpValue<V>>, scope: Scope, value: V, i: int,
                                     pred: int)
    requires -1 <= pred < |ar|
    requires ar' == (if pred >= 0 then ar[pred := ar[pred].(prev := |ar|)] else ar) + [UpValue(scope, value, i)]
    ensures ScopesOf(ar') == ScopesOf(ar) + [scope]
    ensures LinksOf(ar') == if pred >= 0 then LinksOf(ar)[pred := |ar|] + [i] else LinksOf(ar) + [i]
  {
  }
}
