/** The search stack, the priority queue and the steps common to both searches over reductions. */
module TypeSearch {
  import opened Guards
  import opened RelationMap
  import opened ReductionPaths

  // ---------------------------------------------------------------- the search stack

  datatype ReduStackElem = ReduStackElem(ty: int, ctor: int, prev: int, pathlen: nat)

  /** The chain from the element at i back to a start spells the path. */
  ghost predicate Holds(ar: seq<ReduStackElem>, paths: seq<Path>, i: int)
    requires |ar| == |paths| && 0 <= i < |ar|
  {
    var e, p := ar[i], paths[i];
    var n := |p.steps|;
    && e.ty == EndOf(p)
    && if e.prev == -1 then n == 0
       else 0 <= e.prev < i && n > 0 && paths[e.prev] == Path(p.start, p.steps[..n - 1])
            && p.steps[n - 1].value == e.ctor
  }

  ghost predicate StackHolds(ar: seq<ReduStackElem>, paths: seq<Path>) {
    |ar| == |paths| && forall i :: 0 <= i < |ar| ==> Holds(ar, paths, i)
  }

  ghost predicate LengthsHold(ar: seq<ReduStackElem>, paths: seq<Path>, counted: Reduction -> bool) {
    |ar| == |paths| && forall i :: 0 <= i < |ar| ==> ar[i].pathlen == Count(paths[i].steps, counted)
  }

  predicate Visits(p: Path, ty: int) {
    exists k :: 0 <= k <= |p.steps| && TypeAt(p, k) == ty
  }

  /** The part of p behind its first n steps does not visit the type. */
  ghost predicate Avoids(p: Path, n: int, ty: int) {
    forall k :: n < k <= |p.steps| && 0 <= k ==> TypeAt(p, k) != ty
  }

  datatype TypeConstructorPair = TypeConstructorPair(ty: int, ctor: int)

  function Pairs(steps: seq<Reduction>): (r: seq<TypeConstructorPair>)
    ensures |r| == |steps|
  {
    seq(|steps|, i requires 0 <= i < |steps| => TypeConstructorPair(steps[i].right, steps[i].value))
  }

  function Types(steps: seq<Reduction>): (r: seq<int>)
    ensures |r| == |steps|
  {
    seq(|steps|, i requires 0 <= i < |steps| => steps[i].right)
  }

  function Reversed<T>(s: seq<T>): (r: seq<T>)
    ensures |r| == |s|
  {
    if s == [] then [] else Reversed(s[1..]) + [s[0]]
  }

  lemma {:induction false} ReversedSnoc<T>(s: seq<T>, x: T)
    ensures Reversed(s + [x]) == [x] + Reversed(s)
    decreases |s|
  {
    if s == [] {
      assert [x][1..] == [];
      assert s + [x] == [x];
    } else {
      ReversedSnoc(s[1..], x);
      assert (s + [x])[1..] == s[1..] + [x];
    }
  }

  /** Moving the last step over to what is collected backwards. */
  lemma {:induction false} PairsMove(steps: seq<Reduction>, result: seq<TypeConstructorPair>)
    requires steps != []
    ensures var last := steps[|steps| - 1];
            Pairs(steps[..|steps| - 1]) + Reversed(result + [TypeConstructorPair(last.right, last.value)])
                == Pairs(steps) + Reversed(result)
  {
    var last := steps[|steps| - 1];
    ReversedSnoc(result, TypeConstructorPair(last.right, last.value));
    assert Pairs(steps) == Pairs(steps[..|steps| - 1]) + [TypeConstructorPair(last.right, last.value)];
  }

  lemma {:induction false} TypesMove(steps: seq<Reduction>, result: seq<int>)
    requires steps != []
    ensures Types(steps[..|steps| - 1]) + Reversed(result + [steps[|steps| - 1].right]) == Types(steps)
        + Reversed(result)
  {
    ReversedSnoc(result, steps[|steps| - 1].right);
    assert Types(steps) == Types(steps[..|steps| - 1]) + [steps[|steps| - 1].right];
  }

  class ReduStack {
    var ar: seq<ReduStackElem>

    constructor ()
      ensures ar == []
    {
      ar := [];
    }

    /** A start whose type has no start yet; its index, -1 otherwise. */
    method PushNonDuplicateStart(ty: int, ctor: int) returns (rt: int)
      modifies this
      ensures if exists i :: 0 <= i < |old(ar)| && old(ar)[i].ty == ty then rt == -1 && ar == old(ar)
              else rt == |old(ar)| && ar == old(ar) + [ReduStackElem(ty, ctor, -1, 0)]
    {
      rt := -1;
      var ai := 0;
      while ai < |ar| && ar[ai].ty != ty
        invariant 0 <= ai <= |ar| && forall i :: 0 <= i < ai ==> ar[i].ty != ty
        invariant ar == old(ar)
      {
        ai := ai + 1;
      }
      if ai == |ar| {
        rt := ai;
        ar := ar + [ReduStackElem(ty, ctor, -1, 0)];
      }
    }

    /** An element behind prev, unless the path up to prev visits the type already; its index, -1 otherwise. */
    method PushIfNew(ty: int, ctor: int, prev: int, pathlen: nat, ghost paths: seq<Path>) returns (rt: int)
      requires StackHolds(ar, paths) && 0 <= prev < |ar|
      modifies this
      ensures if Visits(paths[prev], ty) then rt == -1 && ar == old(ar)
              else rt == |old(ar)| && ar == old(ar) + [ReduStackElem(ty, ctor, prev, pathlen)]
    {
      rt := -1;
      var index := prev;
      while index >= 0
        invariant -1 <= index < |ar| && ar == old(ar) && rt == -1
        invariant index >= 0 ==> Prefix(paths[index], paths[prev]) && Avoids(paths[prev], |paths[index].steps|, ty)
        invariant index == -1 ==> Avoids(paths[prev], -1, ty)
        decreases index
      {
        var ee := ar[index];
        assert Holds(ar, paths, index);
        PrefixTypes(paths[index], paths[prev]);
        if ee.ty == ty {
          assert TypeAt(paths[prev], |paths[index].steps|) == ty;
          return;
        }
        if ee.prev >= 0 {
          PrefixTransitive(paths[ee.prev], paths[index], paths[prev]);
        }
        index := ee.prev;
      }
      rt := |ar|;
      ar := ar + [ReduStackElem(ty, ctor, prev, pathlen)];
    }

    /** The reductions on the path to the element. */
    method CollectResult(index0: int, ghost paths: seq<Path>) returns (result: seq<TypeConstructorPair>)
      requires StackHolds(ar, paths) && 0 <= index0 < |ar|
      ensures result == Pairs(paths[index0].steps)
    {
      result := [];
      var index := index0;
      while index >= 0
        invariant -1 <= index < |ar|
        invariant (if index >= 0 then Pairs(paths[index].steps) else []) + Reversed(result)
            == Pairs(paths[index0].steps)
        decreases index
      {
        var ee := ar[index];
        assert Holds(ar, paths, index);
        if ee.prev != -1 {
          PairsMove(paths[index].steps, result);
          result := result + [TypeConstructorPair(ee.ty, ee.ctor)];
        }
        index := ee.prev;
      }
      result := Reversed(result);
    }

    /** The same with the number of the start, which is kept as constructor of the start element. */
    method CollectResultWithRootIndex(index0: int, ghost paths: seq<Path>)
      returns (rootIndex: int, result: seq<TypeConstructorPair>)
      requires StackHolds(ar, paths) && 0 <= index0 < |ar|
      ensures result == Pairs(paths[index0].steps)
      ensures exists i :: 0 <= i < |ar| && paths[i] == Path(paths[index0].start, []) && ar[i].prev == -1
                          && rootIndex == ar[i].ctor
    {
      result := [];
      rootIndex := -1;
      var index := index0;
      while index >= 0
        invariant -1 <= index < |ar|
        invariant (if index >= 0 then Pairs(paths[index].steps) else []) + Reversed(result)
            == Pairs(paths[index0].steps)
        invariant index >= 0 ==> paths[index].start == paths[index0].start
        invariant index == -1 ==> exists i :: 0 <= i < |ar| && paths[i] == Path(paths[index0].start, [])
                                              && ar[i].prev == -1 && rootIndex == ar[i].ctor
        decreases index
      {
        var ee := ar[index];
        assert Holds(ar, paths, index);
        if ee.prev != -1 {
          PairsMove(paths[index].steps, result);
          result := result + [TypeConstructorPair(ee.ty, ee.ctor)];
        } else {
          rootIndex := ee.ctor;
          assert paths[index] == Path(paths[index0].start, []);
        }
        index := ee.prev;
      }
      result := Reversed(result);
    }

    /** The types on the path to the element. */
    method CollectConflictPath(index0: int, ghost paths: seq<Path>) returns (result: seq<int>)
      requires StackHolds(ar, paths) && 0 <= index0 < |ar|
      ensures result == Types(paths[index0].steps)
    {
      result := [];
      var index := index0;
      while index >= 0
        invariant -1 <= index < |ar|
        invariant (if index >= 0 then Types(paths[index].steps) else []) + Reversed(result)
            == Types(paths[index0].steps)
        decreases index
      {
        var ee := ar[index];
        assert Holds(ar, paths, index);
        if ee.prev != -1 {
          TypesMove(paths[index].steps, result);
          result := result + [ee.ty];
        }
        index := ee.prev;
      }
      result := Reversed(result);
    }
  }

  // ---------------------------------------------------------------- the priority queue

  datatype ReduQueueElem = ReduQueueElem(weight: real, index: int)

  predicate Before(a: ReduQueueElem, b: ReduQueueElem) {
    if a.weight == b.weight then a.index < b.index else a.weight < b.weight
  }

  predicate IsTop(queue: set<ReduQueueElem>, e: ReduQueueElem) {
    e in queue && forall f | f in queue :: f == e || Before(e, f)
  }

  lemma {:induction false} TopExists(queue: set<ReduQueueElem>)
    requires queue != {}
    ensures exists e :: IsTop(queue, e)
    decreases |queue|
  {
    var x :| x in queue;
    var rest := queue - {x};
    if rest == {} {
      assert queue == {x} && IsTop(queue, x);
    } else {
      TopExists(rest);
      var m :| IsTop(rest, m);
      var n := if Before(x, m) then x else m;
      forall f | f in queue ensures f == n || Before(n, f) { assert f == x || f in rest; }
      assert IsTop(queue, n);
    }
  }

  /** The least element by weight, then by index. */
  function Top(queue: set<ReduQueueElem>): (e: ReduQueueElem)
    requires queue != {}
    ensures e in queue && forall f | f in queue :: e.weight <= f.weight
  {
    TopExists(queue);
    var e :| IsTop(queue, e);
    e
  }

  /** The queue holds the open paths with their weights. */
  ghost predicate QueueHolds(queue: set<ReduQueueElem>, paths: seq<Path>, open: set<int>) {
    && (forall e | e in queue :: e.index in open && 0 <= e.index < |paths| && e.weight == Weight(paths[e.index].steps))
    && (forall i | i in open && 0 <= i < |paths| :: ReduQueueElem(Weight(paths[i].steps), i) in queue)
  }

  lemma {:induction false} QueuePush(queue: set<ReduQueueElem>, paths: seq<Path>, open: set<int>, p: Path)
    requires QueueHolds(queue, paths, open) && forall i | i in open :: 0 <= i < |paths|
    ensures QueueHolds(queue + {ReduQueueElem(Weight(p.steps), |paths|)}, paths + [p], open + {|paths|})
  {
    var e, paths' := ReduQueueElem(Weight(p.steps), |paths|), paths + [p];
    forall f | f in queue + {e} ensures f.index in open + {|paths|} && 0 <= f.index < |paths'|
        && f.weight == Weight(paths'[f.index].steps) {
      assert f == e || f in queue;
    }
    forall i | i in open + {|paths|} && 0 <= i < |paths'|
        ensures ReduQueueElem(Weight(paths'[i].steps), i) in queue + {e} {
    }
  }

  lemma {:induction false} QueuePop(queue: set<ReduQueueElem>, paths: seq<Path>, open: set<int>, e: ReduQueueElem)
    requires QueueHolds(queue, paths, open) && e in queue
    ensures QueueHolds(queue - {e}, paths, open - {e.index})
  {
  }

  // ---------------------------------------------------------------- what the open paths may still cost

  /** Number of paths that can go on from one with d types left to visit among u, itself included, at most. */
  function Cost(u: nat, d: nat): nat {
    if d == 0 then 1 else 1 + Times(u, Cost(u, d - 1))
  }

  function Times(a: nat, b: nat): nat {
    if a == 0 then 0 else b + Times(a - 1, b)
  }

  function Left(u: nat, p: Path): nat {
    if |p.steps| <= u then u - |p.steps| else 0
  }

  ghost function OpenCost(u: nat, paths: seq<Path>, open: set<int>): nat {
    if paths == [] then 0
    else OpenCost(u, paths[..|paths| - 1], open) + if |paths| - 1 in open then Cost(u, Left(u, paths[|paths| - 1])) else
         0
  }

  lemma {:induction false} CostOutside(u: nat, paths: seq<Path>, open: set<int>, c: int)
    requires c >= |paths|
    ensures OpenCost(u, paths, open + {c}) == OpenCost(u, paths, open) == OpenCost(u, paths, open - {c})
    decreases |paths|
  {
    if paths != [] { CostOutside(u, paths[..|paths| - 1], open, c); }
  }

  lemma {:induction false} CostPop(u: nat, paths: seq<Path>, open: set<int>, c: int)
    requires 0 <= c < |paths| && c in open
    ensures OpenCost(u, paths, open - {c}) + Cost(u, Left(u, paths[c])) == OpenCost(u, paths, open)
    decreases |paths|
  {
    var n := |paths| - 1;
    if c == n {
      CostOutside(u, paths[..n], open, c);
    } else {
      CostPop(u, paths[..n], open, c);
    }
  }

  lemma {:induction false} CostPush(u: nat, paths: seq<Path>, open: set<int>, p: Path)
    ensures OpenCost(u, paths + [p], open + {|paths|}) == OpenCost(u, paths, open) + Cost(u, Left(u, p))
  {
    assert (paths + [p])[..|paths|] == paths;
    CostOutside(u, paths, open, |paths|);
  }

  lemma {:induction false} TimesMonotone(a: nat, b: nat, c: nat)
    requires a <= b
    ensures Times(a, c) <= Times(b, c)
    decreases b
  {
    if a < b { TimesMonotone(a, b - 1, c); }
  }

  lemma {:induction false} EdgeListSize(pr: Problem, f: int, rs: seq<Reduction>)
    requires GraphOk(pr) && EdgeList(pr, f, rs)
    ensures |rs| <= |pr.types|
  {
    forall k | 0 <= k < |rs| ensures rs[k].right in pr.types {
      assert pr.edge(f, rs[k]);
    }
    DistinctSize(rs, pr.types);
  }

  /** What the children pushed so far may cost. */
  ghost predicate ChildrenCost(u: nat, before: nat, cur: Path, k: nat, cost: nat) {
    cost <= before + if Left(u, cur) == 0 then 0 else Times(k, Cost(u, Left(u, cur) - 1))
  }

  lemma {:induction false} ChildCost(pr: Problem, before: nat, cur: Path, r: Reduction, k: nat, cost: nat)
    requires GraphOk(pr) && ChildrenCost(|pr.types|, before, cur, k, cost) && SimpleWalk(pr, Then(cur, r))
    ensures ChildrenCost(|pr.types|, before, cur, k + 1, cost + Cost(|pr.types|, Left(|pr.types|, Then(cur, r))))
  {
    SimpleWalkLength(pr, Then(cur, r));
  }

  lemma {:induction false} NoChildCost(u: nat, before: nat, cur: Path, k: nat, cost: nat)
    requires ChildrenCost(u, before, cur, k, cost)
    ensures ChildrenCost(u, before, cur, k + 1, cost)
  {
  }

  lemma {:induction false} AllChildrenCost(pr: Problem, before: nat, cur: Path, rs: seq<Reduction>, cost: nat)
    requires GraphOk(pr) && EdgeList(pr, EndOf(cur), rs) && ChildrenCost(|pr.types|, before, cur, |rs|, cost)
    ensures cost < before + Cost(|pr.types|, Left(|pr.types|, cur))
  {
    EdgeListSize(pr, EndOf(cur), rs);
    var d := Left(|pr.types|, cur);
    if d > 0 { TimesMonotone(|rs|, |pr.types|, Cost(|pr.types|, d - 1)); }
  }

  // ---------------------------------------------------------------- putting follow elements into the queue

  /** The path goes on from cur with r as a simple walk exactly if the type is new on it and the limit is kept. */
  lemma {:induction false} GoesOn(pr: Problem, cur: Path, r: Reduction)
    requires SimpleWalk(pr, cur) && pr.edge(EndOf(cur), r)
    ensures Count(Then(cur, r).steps, pr.counted) == Count(cur.steps, pr.counted) + if pr.counted(r) then 1 else 0
    ensures SimpleWalk(pr, Then(cur, r)) <==>
        !Visits(cur, r.right) && Within(pr.limit, Count(Then(cur, r).steps, pr.counted))
  {
    var q, n := Then(cur, r), |cur.steps|;
    assert q.steps[..n] == cur.steps;
    PrefixTypes(cur, q);
    assert TypeAt(q, n + 1) == r.right;
    forall k | 0 <= k < n + 1 ensures pr.edge(TypeAt(q, k), q.steps[k]) {
      if k < n { assert pr.edge(TypeAt(cur, k), cur.steps[k]); }
    }
    if Visits(cur, r.right) {
      var k :| 0 <= k <= n && TypeAt(cur, k) == r.right;
      assert TypeAt(q, k) == TypeAt(q, n + 1);
    } else {
      forall j, k | 0 <= j < k <= n + 1 ensures TypeAt(q, j) != TypeAt(q, k) {
        if k <= n { assert TypeAt(cur, j) != TypeAt(cur, k); }
      }
    }
  }

  /** The stack, the queue and the frontier they stand for. */
  ghost predicate SearchState(pr: Problem, ar: seq<ReduStackElem>, queue: set<ReduQueueElem>, paths: seq<Path>,
                              open: set<int>) {
    StackHolds(ar, paths) && LengthsHold(ar, paths, pr.counted) && QueueHolds(queue, paths, open)
  }

  lemma {:induction false} PushedStack(ar: seq<ReduStackElem>, paths: seq<Path>, c: int, r: Reduction, pathlen: nat)
    requires StackHolds(ar, paths) && 0 <= c < |paths|
    ensures StackHolds(ar + [ReduStackElem(r.right, r.value, c, pathlen)], paths + [Then(paths[c], r)])
  {
    var q := Then(paths[c], r);
    var ar', paths' := ar + [ReduStackElem(r.right, r.value, c, pathlen)], paths + [q];
    assert q.steps[..|q.steps| - 1] == paths[c].steps;
    forall i | 0 <= i < |ar'| ensures Holds(ar', paths', i) {
      if i < |ar| { assert Holds(ar, paths, i); }
    }
  }

  lemma {:induction false} PushedState(pr: Problem, ar: seq<ReduStackElem>, queue: set<ReduQueueElem>,
                                       paths: seq<Path>, open: set<int>, c: int, r: Reduction)
    requires SearchState(pr, ar, queue, paths, open) && 0 <= c < |paths| && forall i | i in open :: 0 <= i < |paths|
    ensures var q := Then(paths[c], r);
            SearchState(pr, ar + [ReduStackElem(r.right, r.value, c, Count(q.steps, pr.counted))],
                queue + {ReduQueueElem(Weight(q.steps), |paths|)},
                        paths + [q], open + {|paths|})
  {
    var q := Then(paths[c], r);
    PushedStack(ar, paths, c, r, Count(q.steps, pr.counted));
    QueuePush(queue, paths, open, q);
  }

  lemma {:induction false} ThenWeight(p: Path, r: Reduction)
    ensures Weight(Then(p, r).steps) == Weight(p.steps) + r.weight
  {
    assert Then(p, r).steps[..|p.steps|] == p.steps;
  }

  /** Paths have been added, all of them open. */
  ghost predicate NewAreOpen(ar0: seq<ReduStackElem>, paths0: seq<Path>, open0: set<int>, ar: seq<ReduStackElem>,
                             paths: seq<Path>, open: set<int>) {
    && |paths0| <= |paths| && paths[..|paths0|] == paths0 && |ar0| <= |ar| && ar[..|ar0|] == ar0
    && (forall i :: |ar0| <= i < |ar| ==> ar[i].prev >= 0)
    && (forall i | i in open :: i in open0 || i >= |paths0|)
    && (forall i | 0 <= i < |paths| && i !in open :: i < |paths0| && i !in open0)
  }

  /** While the path with index c is being extended. */
  ghost predicate ExpandState(pr: Problem, ar0: seq<ReduStackElem>, paths0: seq<Path>, open0: set<int>, c: int,
                              rs: seq<Reduction>, k: int, ar: seq<ReduStackElem>, queue: set<ReduQueueElem>,
                              paths: seq<Path>, open: set<int>) {
    forall z: int {:trigger Look(z)} :: Look(z) ==>
                                        ExpandParts(pr, ar0, paths0, open0, c, rs, k, ar, queue, paths, open)
  }

  ghost predicate ExpandParts(pr: Problem, ar0: seq<ReduStackElem>, paths0: seq<Path>, open0: set<int>, c: int,
                              rs: seq<Reduction>, k: int, ar: seq<ReduStackElem>, queue: set<ReduQueueElem>,
                              paths: seq<Path>, open: set<int>) {
    && Expanding(pr, paths, open, c, rs, k) && SearchState(pr, ar, queue, paths, open)
    && 0 <= c < |paths0| && paths[c] == paths0[c] && NewAreOpen(ar0, paths0, open0, ar, paths, open)
    && ChildrenCost(|pr.types|, OpenCost(|pr.types|, paths0, open0), paths0[c], k, OpenCost(|pr.types|, paths, open))
  }

  lemma {:induction false} PushedNew(ar0: seq<ReduStackElem>, paths0: seq<Path>, open0: set<int>,
                                     ar: seq<ReduStackElem>, paths: seq<Path>, open: set<int>, e: ReduStackElem,
                                     q: Path)
    requires NewAreOpen(ar0, paths0, open0, ar, paths, open) && e.prev >= 0
    ensures NewAreOpen(ar0, paths0, open0, ar + [e], paths + [q], open + {|paths|})
  {
    assert (paths + [q])[..|paths0|] == paths[..|paths0|] && (ar + [e])[..|ar0|] == ar[..|ar0|];
  }

  lemma {:induction false} ExpandPush(pr: Problem, ar0: seq<ReduStackElem>, paths0: seq<Path>, open0: set<int>, c: int,
                                      rs: seq<Reduction>, k: int, ar: seq<ReduStackElem>, queue: set<ReduQueueElem>,
                                      paths: seq<Path>, open: set<int>, e: ReduStackElem, n: ReduQueueElem)
    requires GraphOk(pr) && 0 <= k < |rs| && ExpandState(pr, ar0, paths0, open0, c, rs, k, ar, queue, paths, open)
        && 0 <= c < |paths| && SimpleWalk(pr, Then(paths[c], rs[k]))
    requires e == ReduStackElem(rs[k].right, rs[k].value, c, Count(Then(paths[c], rs[k]).steps, pr.counted))
    requires n == ReduQueueElem(Weight(Then(paths[c], rs[k]).steps), |paths|)
    ensures ExpandState(pr, ar0, paths0, open0, c, rs, k + 1, ar + [e], queue + {n}, paths + [Then(paths[c], rs[k])],
        open + {|paths|})
  {
    var q := Then(paths[c], rs[k]);
    assert Look(0);
    PushChild(pr, paths, open, c, rs, k);
    PushedState(pr, ar, queue, paths, open, c, rs[k]);
    ChildCost(pr, OpenCost(|pr.types|, paths0, open0), paths0[c], rs[k], k, OpenCost(|pr.types|, paths, open));
    CostPush(|pr.types|, paths, open, q);
    PushedNew(ar0, paths0, open0, ar, paths, open, e, q);
  }

  lemma {:induction false} ExpandPass(pr: Problem, ar0: seq<ReduStackElem>, paths0: seq<Path>, open0: set<int>, c: int,
                                      rs: seq<Reduction>, k: int, ar: seq<ReduStackElem>, queue: set<ReduQueueElem>,
                                      paths: seq<Path>, open: set<int>)
    requires GraphOk(pr) && 0 <= k < |rs| && ExpandState(pr, ar0, paths0, open0, c, rs, k, ar, queue, paths, open)
        && 0 <= c < |paths| && !SimpleWalk(pr, Then(paths[c], rs[k]))
    ensures ExpandState(pr, ar0, paths0, open0, c, rs, k + 1, ar, queue, paths, open)
  {
    assert Look(0);
    PassOver(pr, paths, open, c, rs, k);
    NoChildCost(|pr.types|, OpenCost(|pr.types|, paths0, open0), paths0[c], k, OpenCost(|pr.types|, paths, open));
  }

  lemma {:induction false} ExpandFacts(pr: Problem, ar0: seq<ReduStackElem>, paths0: seq<Path>, open0: set<int>,
                                       c: int, rs: seq<Reduction>, k: int, ar: seq<ReduStackElem>,
                                       queue: set<ReduQueueElem>, paths: seq<Path>, open: set<int>)
    requires 0 <= k < |rs| && ExpandState(pr, ar0, paths0, open0, c, rs, k, ar, queue, paths, open)
    ensures 0 <= c < |paths| == |ar| && StackHolds(ar, paths) && c < |paths0| && paths[c] == paths0[c]
    ensures Count(Then(paths[c], rs[k]).steps, pr.counted) == ar[c].pathlen + if pr.counted(rs[k]) then 1 else 0
    ensures Weight(Then(paths[c], rs[k]).steps) == Weight(paths[c].steps) + rs[k].weight
    ensures SimpleWalk(pr, Then(paths[c], rs[k])) <==>
        !Visits(paths[c], rs[k].right) && Within(pr.limit, Count(Then(paths[c], rs[k]).steps, pr.counted))
  {
    assert Look(0);
    GoesOn(pr, paths[c], rs[k]);
    ThenWeight(paths[c], rs[k]);
  }

  lemma {:induction false} ExpandEnd(pr: Problem, ar0: seq<ReduStackElem>, paths0: seq<Path>, open0: set<int>, c: int,
                                     rs: seq<Reduction>, ar: seq<ReduStackElem>, queue: set<ReduQueueElem>,
                                     paths: seq<Path>, open: set<int>)
    requires GraphOk(pr) && ExpandState(pr, ar0, paths0, open0, c, rs, |rs|, ar, queue, paths, open)
        && 0 <= c < |paths0|
    ensures Explored(pr, paths, open) && SearchState(pr, ar, queue, paths, open)
        && NewAreOpen(ar0, paths0, open0, ar, paths, open)
    ensures OpenCost(|pr.types|, paths, open) < OpenCost(|pr.types|, paths0, open0)
        + Cost(|pr.types|, Left(|pr.types|, paths0[c]))
  {
    assert Look(0);
    EndExpanding(pr, paths, open, c, rs);
    AllChildrenCost(pr, OpenCost(|pr.types|, paths0, open0), paths0[c], rs, OpenCost(|pr.types|, paths, open));
  }

  lemma {:induction false} ExpandBegin(pr: Problem, paths: seq<Path>, open: set<int>, c: int, rs: seq<Reduction>,
                                       ar: seq<ReduStackElem>, queue: set<ReduQueueElem>)
    requires Expanding(pr, paths, open, c, rs, 0) && SearchState(pr, ar, queue, paths, open)
    ensures ExpandState(pr, ar, paths, open, c, rs, 0, ar, queue, paths, open)
  {
    assert paths[..|paths|] == paths && ar[..|ar|] == ar;
  }

  /** Extend the path of the element taken from the queue by one reduction, if it leads on. */
  method PutFollowElement(stack: ReduStack, queue0: set<ReduQueueElem>, qe: ReduQueueElem, redulist: seq<Reduction>,
                          k: nat, counted: Reduction -> bool, limit: Limit, ghost pr: Problem,
                          ghost ar0: seq<ReduStackElem>, ghost paths0: seq<Path>, ghost open0: set<int>,
                          ghost paths1: seq<Path>, ghost open1: set<int>)
    returns (queue: set<ReduQueueElem>, ghost paths: seq<Path>, ghost open: set<int>)
    requires GraphOk(pr) && pr.counted == counted && pr.limit == limit && k < |redulist|
    requires 0 <= qe.index < |paths0| && qe.weight == Weight(paths0[qe.index].steps)
    requires ExpandState(pr, ar0, paths0, open0, qe.index, redulist, k, stack.ar, queue0, paths1, open1)
    modifies stack
    ensures ExpandState(pr, ar0, paths0, open0, qe.index, redulist, k + 1, stack.ar, queue, paths, open)
  {
    queue, paths, open := queue0, paths1, open1;
    ghost var ar := stack.ar;
    var redu := redulist[k];
    StackKnown(pr, ar0, paths0, open0, qe.index, redulist, k, ar, queue, paths, open);
    var elem := stack.ar[qe.index];
    var pathlen := if counted(redu) then elem.pathlen + 1 else elem.pathlen;
    var index := -1;
    if Within(limit, pathlen) {
      index := stack.PushIfNew(redu.right, redu.value, qe.index, pathlen, paths);
    }
    if index >= 0 {
      queue := queue + {ReduQueueElem(qe.weight + redu.weight, index)};
      open := open + {|paths|};
      paths := paths + [Then(paths[qe.index], redu)];
    }
    ExpandOne(pr, ar0, paths0, open0, qe, redulist, k, ar, queue0, paths1, open1, pathlen, index >= 0, stack.ar, queue,
        paths, open);
  }

  lemma {:induction false} StackKnown(pr: Problem, ar0: seq<ReduStackElem>, paths0: seq<Path>, open0: set<int>, c: int,
                                      rs: seq<Reduction>, k: int, ar: seq<ReduStackElem>, queue: set<ReduQueueElem>,
                                      paths: seq<Path>, open: set<int>)
    requires 0 <= k < |rs| && ExpandState(pr, ar0, paths0, open0, c, rs, k, ar, queue, paths, open)
    ensures 0 <= c < |paths| == |ar| && StackHolds(ar, paths)
  {
    assert Look(0);
  }

  /** One reduction has been dealt with: the path goes on, or is passed over. */
  lemma {:induction false} ExpandOne(pr: Problem, ar0: seq<ReduStackElem>, paths0: seq<Path>, open0: set<int>,
                                     qe: ReduQueueElem, rs: seq<Reduction>, k: int, ar: seq<ReduStackElem>,
                                     queue: set<ReduQueueElem>, paths: seq<Path>, open: set<int>, pathlen: nat,
                                     leads: bool, ar': seq<ReduStackElem>, queue': set<ReduQueueElem>,
                                     paths': seq<Path>, open': set<int>)
    requires GraphOk(pr) && 0 <= k < |rs| && 0 <= qe.index < |paths0| && qe.weight == Weight(paths0[qe.index].steps)
    requires ExpandState(pr, ar0, paths0, open0, qe.index, rs, k, ar, queue, paths, open) && qe.index < |paths| == |ar|
    requires pathlen == ar[qe.index].pathlen + (if pr.counted(rs[k]) then 1 else 0)
    requires leads <==> Within(pr.limit, pathlen) && !Visits(paths[qe.index], rs[k].right)
    requires ar' == if leads then ar + [ReduStackElem(rs[k].right, rs[k].value, qe.index, pathlen)] else ar
    requires queue' == if leads then queue + {ReduQueueElem(qe.weight + rs[k].weight, |ar|)} else queue
    requires paths' == if leads then paths + [Then(paths[qe.index], rs[k])] else paths
    requires open' == if leads then open + {|paths|} else open
    ensures ExpandState(pr, ar0, paths0, open0, qe.index, rs, k + 1, ar', queue', paths', open')
  {
    OneFacts(pr, ar0, paths0, open0, qe, rs, k, ar, queue, paths, open, pathlen, leads);
    if leads {
      ExpandPush(pr, ar0, paths0, open0, qe.index, rs, k, ar, queue, paths, open,
                 ReduStackElem(rs[k].right, rs[k].value, qe.index, pathlen),
                     ReduQueueElem(qe.weight + rs[k].weight, |ar|));
    } else {
      ExpandPass(pr, ar0, paths0, open0, qe.index, rs, k, ar, queue, paths, open);
    }
  }

  lemma {:induction false} OneFacts(pr: Problem, ar0: seq<ReduStackElem>, paths0: seq<Path>, open0: set<int>,
                                    qe: ReduQueueElem, rs: seq<Reduction>, k: int, ar: seq<ReduStackElem>,
                                    queue: set<ReduQueueElem>, paths: seq<Path>, open: set<int>, pathlen: nat,
                                    leads: bool)
    requires 0 <= k < |rs| && 0 <= qe.index < |paths0| && qe.weight == Weight(paths0[qe.index].steps)
    requires ExpandState(pr, ar0, paths0, open0, qe.index, rs, k, ar, queue, paths, open) && qe.index < |paths| == |ar|
    requires pathlen == ar[qe.index].pathlen + (if pr.counted(rs[k]) then 1 else 0)
    requires leads <==> Within(pr.limit, pathlen) && !Visits(paths[qe.index], rs[k].right)
    ensures pathlen == Count(Then(paths[qe.index], rs[k]).steps, pr.counted)
    ensures qe.weight + rs[k].weight == Weight(Then(paths[qe.index], rs[k]).steps)
    ensures leads <==> SimpleWalk(pr, Then(paths[qe.index], rs[k]))
  {
    ExpandFacts(pr, ar0, paths0, open0, qe.index, rs, k, ar, queue, paths, open);
  }

  /** Extend the path of the element taken from the queue by all the reductions that lead on. */
  method PutFollowElements(stack: ReduStack, queue0: set<ReduQueueElem>, qe: ReduQueueElem, redulist: seq<Reduction>,
                           counted: Reduction -> bool, limit: Limit, ghost pr: Problem, ghost paths0: seq<Path>,
                           ghost open0: set<int>)
    returns (queue: set<ReduQueueElem>, ghost paths: seq<Path>, ghost open: set<int>)
    requires GraphOk(pr) && pr.counted == counted && pr.limit == limit
    requires 0 <= qe.index < |paths0| && qe.weight == Weight(paths0[qe.index].steps)
    requires ExpandState(pr, stack.ar, paths0, open0, qe.index, redulist, 0, stack.ar, queue0, paths0, open0)
    modifies stack
    ensures ExpandState(pr, old(stack.ar), paths0, open0, qe.index, redulist, |redulist|, stack.ar, queue, paths, open)
  {
    queue, paths, open := queue0, paths0, open0;
    ghost var ar0 := stack.ar;
    for k := 0 to |redulist|
      invariant ExpandState(pr, ar0, paths0, open0, qe.index, redulist, k, stack.ar, queue, paths, open)
    {
      queue, paths, open := PutFollowElement(stack, queue, qe, redulist, k, counted, limit, pr, ar0, paths0, open0,
          paths, open);
    }
  }

  // ---------------------------------------------------------------- what has been found

  /** A simple walk to a target that is not heavier than any other. */
  ghost predicate Best(pr: Problem, target: int -> bool, p: Path) {
    SimpleWalk(pr, p) && target(EndOf(p)) && forall q | SimpleWalk(pr, q) && target(EndOf(q)) ::
        Weight(p.steps) <= Weight(q.steps)
  }

  /** Another simple walk to a target that is as light within the tolerance. */
  ghost predicate Rival(pr: Problem, target: int -> bool, p: Path, tolerance: real, q: Path) {
    SimpleWalk(pr, q) && target(EndOf(q)) && q != p && Weight(q.steps) <= Weight(p.steps) + tolerance
  }

  ghost predicate Unrivalled(pr: Problem, target: int -> bool, p: Path, tolerance: real) {
    forall q :: !Rival(pr, target, p, tolerance, q)
  }

  /** No walk, with cycles or without, leads to a target. */
  ghost predicate NoWay(pr: Problem, target: int -> bool) {
    forall p | IsWalk(pr, p) :: !target(EndOf(p))
  }

  /** Not heavier than any walk to a target, with cycles or without. */
  ghost predicate LightestWalk(pr: Problem, target: int -> bool, weight: real) {
    forall p | IsWalk(pr, p) && target(EndOf(p)) :: weight <= Weight(p.steps)
  }

  lemma {:induction false} BestIsLightestWalk(pr: Problem, target: int -> bool, p: Path)
    requires GraphOk(pr) && Best(pr, target, p)
    ensures LightestWalk(pr, target, Weight(p.steps))
  {
    forall w | IsWalk(pr, w) && target(EndOf(w)) ensures Weight(p.steps) <= Weight(w.steps) {
      var q := SimpleWalkExists(pr, w);
    }
  }

  ghost predicate Finished(paths: seq<Path>, open: set<int>, p: Path) {
    exists i :: 0 <= i < |paths| && i !in open && paths[i] == p
  }

  /** Between two steps of the search: no finished path leads to a target, or only the best one with index found. */
  ghost predicate Searching(pr: Problem, target: int -> bool, paths: seq<Path>, open: set<int>, found: int) {
    && Explored(pr, paths, open)
    && (found == -1 || (0 <= found < |paths| && found !in open && Best(pr, target, paths[found])))
    && forall i :: 0 <= i < |paths| && i !in open && target(EndOf(paths[i])) ==> i == found
  }

  /** The simple walks not finished when the lightest open path is taken are not lighter than it. */
  lemma {:induction false} OthersAreHeavier(pr: Problem, paths: seq<Path>, open: set<int>, c: int, p: Path)
    requires GraphOk(pr) && Explored(pr, paths, open) && c in open && 0 <= c < |paths| && SimpleWalk(pr, p)
    requires forall i | i in open && 0 <= i < |paths| :: Weight(paths[c].steps) <= Weight(paths[i].steps)
    ensures Finished(paths, open, p) || Weight(paths[c].steps) <= Weight(p.steps)
  {
    assert Reached(paths, open, p);
    if i :| 0 <= i < |paths| && i in open && Prefix(paths[i], p) {
      PrefixLighter(pr, paths[i], p);
    }
  }

  lemma {:induction false} FirstIsBest(pr: Problem, target: int -> bool, paths: seq<Path>, open: set<int>, c: int)
    requires GraphOk(pr) && Searching(pr, target, paths, open, -1) && c in open && 0 <= c < |paths|
        && target(EndOf(paths[c]))
    requires forall i | i in open && 0 <= i < |paths| :: Weight(paths[c].steps) <= Weight(paths[i].steps)
    ensures Best(pr, target, paths[c])
  {
    forall q | SimpleWalk(pr, q) && target(EndOf(q)) ensures Weight(paths[c].steps) <= Weight(q.steps) {
      OthersAreHeavier(pr, paths, open, c, q);
    }
  }

  lemma {:induction false} HeavierMeansUnrivalled(pr: Problem, target: int -> bool, paths: seq<Path>, open: set<int>,
                                                  found: int, c: int, tolerance: real)
    requires GraphOk(pr) && Searching(pr, target, paths, open, found) && found >= 0 && c in open && 0 <= c < |paths|
    requires forall i | i in open && 0 <= i < |paths| :: Weight(paths[c].steps) <= Weight(paths[i].steps)
    requires Weight(paths[c].steps) > Weight(paths[found].steps) + tolerance
    ensures Unrivalled(pr, target, paths[found], tolerance)
  {
    forall q ensures !Rival(pr, target, paths[found], tolerance, q) {
      if SimpleWalk(pr, q) && target(EndOf(q)) {
        OthersAreHeavier(pr, paths, open, c, q);
      }
    }
  }

  lemma {:induction false} EmptyQueue(queue: set<ReduQueueElem>, paths: seq<Path>, open: set<int>)
    requires QueueHolds(queue, paths, open) && queue == {} && OpenAreEnds(paths, open)
    ensures open == {}
  {
    forall i | 0 <= i < |paths| ensures i !in open {
      assert ReduQueueElem(Weight(paths[i].steps), i) !in queue;
    }
    assert forall i :: i !in open;
  }

  lemma {:induction false} NothingOpen(pr: Problem, target: int -> bool, paths: seq<Path>, open: set<int>, found: int,
                                       tolerance: real)
    requires GraphOk(pr) && Searching(pr, target, paths, open, found) && open == {}
    ensures found == -1 ==> NoWay(pr, target)
    ensures found >= 0 ==> Unrivalled(pr, target, paths[found], tolerance)
  {
    forall q | SimpleWalk(pr, q) && target(EndOf(q)) ensures found >= 0 && q == paths[found] {
      assert Reached(paths, open, q);
    }
    if found == -1 {
      forall w | IsWalk(pr, w) ensures !target(EndOf(w)) {
        var q := SimpleWalkExists(pr, w);
      }
    }
  }

  /** The path with index c is finished now. */
  lemma {:induction false} StepDone(pr: Problem, target: int -> bool, ar0: seq<ReduStackElem>, paths: seq<Path>,
                                    open: set<int>, found: int, c: int, ar: seq<ReduStackElem>, paths': seq<Path>,
                                    open': set<int>)
    requires Searching(pr, target, paths, open, found) && c in open && 0 <= c < |paths|
    requires Explored(pr, paths', open') && NewAreOpen(ar0, paths, open - {c}, ar, paths', open')
    requires target(EndOf(paths[c])) ==> found == -1 && Best(pr, target, paths[c])
    ensures Searching(pr, target, paths', open', if target(EndOf(paths[c])) then c else found)
  {
    assert forall i :: 0 <= i < |paths| ==> paths'[i] == paths'[..|paths|][i];
  }

  /** The state of the search between two steps, unfolded only where Look is mentioned. */
  ghost predicate Frontier(pr: Problem, target: int -> bool, ar: seq<ReduStackElem>, queue: set<ReduQueueElem>,
                           paths: seq<Path>, open: set<int>, found: int) {
    forall z: int {:trigger Look(z)} :: Look(z) ==> Searching(pr, target, paths, open, found)
                                                    && SearchState(pr, ar, queue, paths, open)
  }

  predicate IsLightest(queue: set<ReduQueueElem>, qe: ReduQueueElem) {
    qe in queue && forall f | f in queue :: qe.weight <= f.weight
  }

  lemma {:induction false} FrontierTop(pr: Problem, target: int -> bool, ar: seq<ReduStackElem>,
                                       queue: set<ReduQueueElem>, paths: seq<Path>, open: set<int>, found: int,
                                       qe: ReduQueueElem, tolerance: real)
    requires Frontier(pr, target, ar, queue, paths, open, found) && qe in queue
    ensures 0 <= qe.index < |paths| == |ar| && StackHolds(ar, paths) && ar[qe.index].ty == EndOf(paths[qe.index])
    ensures qe.weight == Weight(paths[qe.index].steps) && SimpleWalk(pr, paths[qe.index]) && qe.index in open
    ensures found >= 0 ==> found < |paths| && found != qe.index && Best(pr, target, paths[found])
    ensures forall i :: 0 <= i < |paths| && i != qe.index ==> paths[i] != paths[qe.index]
    ensures found >= 0 && target(EndOf(paths[qe.index])) && qe.weight <= Weight(paths[found].steps) + tolerance ==>
        Rival(pr, target, paths[found], tolerance, paths[qe.index])
  {
    assert Look(0) && Holds(ar, paths, qe.index);
  }

  lemma {:induction false} FrontierHeavier(pr: Problem, target: int -> bool, ar: seq<ReduStackElem>,
                                           queue: set<ReduQueueElem>, paths: seq<Path>, open: set<int>, found: int,
                                           qe: ReduQueueElem, tolerance: real)
    requires GraphOk(pr) && Frontier(pr, target, ar, queue, paths, open, found) && IsLightest(queue, qe)
    requires 0 <= found < |paths| && qe.weight > Weight(paths[found].steps) + tolerance
    ensures Unrivalled(pr, target, paths[found], tolerance)
  {
    assert Look(0);
    QueueLightest(queue, paths, open, qe);
    HeavierMeansUnrivalled(pr, target, paths, open, found, qe.index, tolerance);
  }

  lemma {:induction false} QueueLightest(queue: set<ReduQueueElem>, paths: seq<Path>, open: set<int>, qe: ReduQueueElem)
    requires QueueHolds(queue, paths, open) && IsLightest(queue, qe)
    ensures qe.index in open && 0 <= qe.index < |paths| && qe.weight == Weight(paths[qe.index].steps)
    ensures forall i | i in open && 0 <= i < |paths| :: Weight(paths[qe.index].steps) <= Weight(paths[i].steps)
  {
    forall i | i in open && 0 <= i < |paths| ensures Weight(paths[qe.index].steps) <= Weight(paths[i].steps) {
      assert ReduQueueElem(Weight(paths[i].steps), i) in queue;
    }
  }

  lemma {:induction false} FrontierEmpty(pr: Problem, target: int -> bool, ar: seq<ReduStackElem>,
                                         queue: set<ReduQueueElem>, paths: seq<Path>, open: set<int>, found: int,
                                         tolerance: real)
    requires GraphOk(pr) && Frontier(pr, target, ar, queue, paths, open, found) && queue == {}
    ensures found == -1 || 0 <= found < |paths|
    ensures if found == -1 then NoWay(pr, target) else
        Best(pr, target, paths[found]) && Unrivalled(pr, target, paths[found], tolerance)
  {
    assert Look(0);
    EmptyQueue(queue, paths, open);
    NothingOpen(pr, target, paths, open, found, tolerance);
  }

  /** What a step adds. */
  ghost predicate Added(ar0: seq<ReduStackElem>, paths0: seq<Path>, open0: set<int>, c: int, ar: seq<ReduStackElem>,
                        paths: seq<Path>, open: set<int>) {
    && |paths0| <= |paths| && (forall i :: 0 <= i < |paths0| ==> paths[i] == paths0[i])
    && |ar0| <= |ar| && (forall i :: 0 <= i < |ar0| ==> ar[i] == ar0[i])
        && (forall i :: |ar0| <= i < |ar| ==> ar[i].prev >= 0)
    && c !in open && forall i | i in open :: i in open0 || i >= |paths0|
  }

  /** One step of the search: take the lightest element from the queue and extend its path. */
  method Follow(stack: ReduStack, queue0: set<ReduQueueElem>, qe: ReduQueueElem, redulist: seq<Reduction>,
                counted: Reduction -> bool, limit: Limit, ghost pr: Problem, ghost target: int -> bool,
                ghost paths0: seq<Path>, ghost open0: set<int>, ghost found0: int)
    returns (queue: set<ReduQueueElem>, ghost paths: seq<Path>, ghost open: set<int>, ghost found: int)
    requires GraphOk(pr) && pr.counted == counted && pr.limit == limit && IsLightest(queue0, qe)
    requires Frontier(pr, target, stack.ar, queue0, paths0, open0, found0) && 0 <= qe.index < |paths0|
    requires target(EndOf(paths0[qe.index])) ==> found0 == -1
    requires EdgeList(pr, EndOf(paths0[qe.index]), redulist)
    modifies stack
    ensures found == if target(EndOf(paths0[qe.index])) then qe.index else found0
    ensures Frontier(pr, target, stack.ar, queue, paths, open, found)
    ensures Added(old(stack.ar), paths0, open0, qe.index, stack.ar, paths, open)
    ensures OpenCost(|pr.types|, paths, open) < OpenCost(|pr.types|, paths0, open0)
  {
    ghost var c, ar0 := qe.index, stack.ar;
    FollowBegin(pr, target, ar0, queue0, paths0, open0, found0, qe, redulist);
    queue, paths, open := PutFollowElements(stack, queue0 - {qe}, qe, redulist, counted, limit, pr, paths0,
        open0 - {c});
    found := if target(EndOf(paths0[qe.index])) then qe.index else found0;
    FollowEnd(pr, target, ar0, queue0, paths0, open0, found0, qe, redulist, stack.ar, queue, paths, open);
  }

  lemma {:induction false} FollowBegin(pr: Problem, target: int -> bool, ar: seq<ReduStackElem>,
                                       queue: set<ReduQueueElem>, paths: seq<Path>, open: set<int>, found: int,
                                       qe: ReduQueueElem, redulist: seq<Reduction>)
    requires Frontier(pr, target, ar, queue, paths, open, found) && qe in queue && 0 <= qe.index < |paths|
        && EdgeList(pr, EndOf(paths[qe.index]), redulist)
    ensures qe.weight == Weight(paths[qe.index].steps)
    ensures ExpandState(pr, ar, paths, open - {qe.index}, qe.index, redulist, 0, ar, queue - {qe}, paths,
        open - {qe.index})
  {
    assert Look(0);
    QueuePop(queue, paths, open, qe);
    BeginExpanding(pr, paths, open, qe.index, redulist);
    ExpandBegin(pr, paths, open - {qe.index}, qe.index, redulist, ar, queue - {qe});
  }

  lemma {:induction false} FollowEnd(pr: Problem, target: int -> bool, ar0: seq<ReduStackElem>,
                                     queue0: set<ReduQueueElem>, paths0: seq<Path>, open0: set<int>, found: int,
                                     qe: ReduQueueElem, redulist: seq<Reduction>, ar: seq<ReduStackElem>,
                                     queue: set<ReduQueueElem>, paths: seq<Path>, open: set<int>)
    requires GraphOk(pr) && Frontier(pr, target, ar0, queue0, paths0, open0, found) && IsLightest(queue0, qe)
        && 0 <= qe.index < |paths0|
    requires target(EndOf(paths0[qe.index])) ==> found == -1
    requires ExpandState(pr, ar0, paths0, open0 - {qe.index}, qe.index, redulist, |redulist|, ar, queue, paths, open)
    ensures Frontier(pr, target, ar, queue, paths, open, if target(EndOf(paths0[qe.index])) then qe.index else found)
    ensures Added(ar0, paths0, open0, qe.index, ar, paths, open)
    ensures OpenCost(|pr.types|, paths, open) < OpenCost(|pr.types|, paths0, open0)
  {
    assert Look(0);
    var c := qe.index;
    QueueLightest(queue0, paths0, open0, qe);
    if target(EndOf(paths0[c])) { FirstIsBest(pr, target, paths0, open0, c); }
    CostPop(|pr.types|, paths0, open0, c);
    ExpandEnd(pr, ar0, paths0, open0 - {c}, c, redulist, ar, queue, paths, open);
    StepDone(pr, target, ar0, paths0, open0, found, c, ar, paths, open);
    NewIsAdded(ar0, paths0, open0, c, ar, paths, open);
  }

  lemma {:induction false} NewIsAdded(ar0: seq<ReduStackElem>, paths0: seq<Path>, open0: set<int>, c: int,
                                      ar: seq<ReduStackElem>, paths: seq<Path>, open: set<int>)
    requires NewAreOpen(ar0, paths0, open0 - {c}, ar, paths, open) && 0 <= c < |paths0|
    ensures Added(ar0, paths0, open0, c, ar, paths, open)
  {
    assert forall i :: 0 <= i < |paths0| ==> paths[i] == paths[..|paths0|][i];
    assert forall i :: 0 <= i < |ar0| ==> ar[i] == ar[..|ar0|][i];
  }
}
