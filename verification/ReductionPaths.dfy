/** Walks over reductions from one type to another, and the frontier of a best-first search over the simple ones. */
module ReductionPaths {
  import opened RelationMap

  type Reduction = Relation<int, int>

  /** A start type and the reductions taken from there. */
  datatype Path = Path(start: int, steps: seq<Reduction>)

  function TypeAt(p: Path, k: int): int
    requires 0 <= k <= |p.steps|
  {
    if k == 0 then p.start else p.steps[k - 1].right
  }

  function EndOf(p: Path): int {
    TypeAt(p, |p.steps|)
  }

  function Weight(steps: seq<Reduction>): (w: real)
    ensures steps == [] ==> w == 0.0
    ensures |steps| == 1 ==> w == steps[0].weight
  {
    if steps == [] then 0.0 else Weight(steps[..|steps| - 1]) + steps[|steps| - 1].weight
  }

  function Count(steps: seq<Reduction>, counted: Reduction -> bool): (n: nat)
    ensures steps == [] ==> n == 0
    ensures |steps| == 1 ==> n == if counted(steps[0]) then 1 else 0
  {
    if steps == [] then 0 else Count(steps[..|steps| - 1], counted) + if counted(steps[|steps| - 1]) then 1 else 0
  }

  datatype Limit = NoLimit | AtMost(n: nat)

  predicate Within(limit: Limit, n: nat) {
    limit.NoLimit? || n <= limit.n
  }

  /** Which reductions lead away from a type, all types they lead to, where to begin, which of them count and how many
      may. */
  datatype Problem = Problem(edge: (int, Reduction) -> bool, types: set<int>, starts: set<int>,
      counted: Reduction -> bool, limit: Limit)

  ghost predicate GraphOk(pr: Problem) {
    && (forall f, r | pr.edge(f, r) :: r.right in pr.types && r.weight >= 0.0)
    && (forall f, r, s | pr.edge(f, r) && pr.edge(f, s) && r.right == s.right :: r == s)
  }

  /** A walk, possibly with cycles, that keeps within the limit. */
  ghost predicate IsWalk(pr: Problem, p: Path) {
    && p.start in pr.starts
    && (forall k :: 0 <= k < |p.steps| ==> pr.edge(TypeAt(p, k), p.steps[k]))
    && (pr.limit.AtMost? ==> Count(p.steps, pr.counted) <= pr.limit.n)
  }

  /** No type is visited twice. */
  predicate Simple(p: Path) {
    forall j, k :: 0 <= j < k <= |p.steps| ==> TypeAt(p, j) != TypeAt(p, k)
  }

  ghost predicate SimpleWalk(pr: Problem, p: Path) {
    IsWalk(pr, p) && Simple(p)
  }

  predicate Prefix(a: Path, p: Path) {
    a.start == p.start && |a.steps| <= |p.steps| && p.steps[..|a.steps|] == a.steps
  }

  function Then(p: Path, r: Reduction): (q: Path)
    ensures Prefix(p, q) && EndOf(q) == r.right && |q.steps| == |p.steps| + 1
  {
    Path(p.start, p.steps + [r])
  }

  // ---------------------------------------------------------------- weights and counts

  lemma {:induction false} Additive(a: seq<Reduction>, b: seq<Reduction>, counted: Reduction -> bool)
    ensures Weight(a + b) == Weight(a) + Weight(b) && Count(a + b, counted) == Count(a, counted) + Count(b, counted)
    decreases |b|
  {
    if b == [] {
      assert a + b == a;
    } else {
      assert (a + b)[..|a + b| - 1] == a + b[..|b| - 1];
      Additive(a, b[..|b| - 1], counted);
    }
  }

  lemma {:induction false} WeightNotNegative(steps: seq<Reduction>)
    requires forall k :: 0 <= k < |steps| ==> steps[k].weight >= 0.0
    ensures Weight(steps) >= 0.0
    decreases |steps|
  {
    if steps != [] { WeightNotNegative(steps[..|steps| - 1]); }
  }

  lemma {:induction false} WalkWeights(pr: Problem, p: Path)
    requires GraphOk(pr) && IsWalk(pr, p)
    ensures forall k :: 0 <= k < |p.steps| ==> p.steps[k].weight >= 0.0 && p.steps[k].right in pr.types
  {
    forall k | 0 <= k < |p.steps| ensures p.steps[k].weight >= 0.0 && p.steps[k].right in pr.types {
      assert pr.edge(TypeAt(p, k), p.steps[k]);
    }
  }

  lemma {:induction false} PrefixTypes(a: Path, p: Path)
    requires Prefix(a, p)
    ensures forall k :: 0 <= k <= |a.steps| ==> TypeAt(a, k) == TypeAt(p, k)
    ensures forall k :: 0 <= k < |a.steps| ==> a.steps[k] == p.steps[k]
  {
    forall k | 0 <= k <= |a.steps| ensures TypeAt(a, k) == TypeAt(p, k) {
      if k > 0 { assert p.steps[..|a.steps|][k - 1] == p.steps[k - 1]; }
    }
    forall k | 0 <= k < |a.steps| ensures a.steps[k] == p.steps[k] {
      assert p.steps[..|a.steps|][k] == p.steps[k];
    }
  }

  ghost predicate NotNegative(steps: seq<Reduction>) {
    forall k :: 0 <= k < |steps| ==> steps[k].weight >= 0.0
  }

  lemma {:induction false} PrefixSums(a: Path, p: Path, counted: Reduction -> bool)
    requires NotNegative(p.steps) && Prefix(a, p)
    ensures Weight(a.steps) <= Weight(p.steps) && Count(a.steps, counted) <= Count(p.steps, counted)
  {
    var rest := p.steps[|a.steps|..];
    assert p.steps == a.steps + rest;
    Additive(a.steps, rest, counted);
    WeightNotNegative(rest);
  }

  /** A prefix is not heavier, and again a simple walk. */
  lemma {:induction false} PrefixLighter(pr: Problem, a: Path, p: Path)
    requires GraphOk(pr) && IsWalk(pr, p) && Prefix(a, p)
    ensures Weight(a.steps) <= Weight(p.steps) && IsWalk(pr, a) && (Simple(p) ==> Simple(a))
  {
    WalkWeights(pr, p);
    PrefixSums(a, p, pr.counted);
    PrefixTypes(a, p);
    forall k | 0 <= k < |a.steps| ensures pr.edge(TypeAt(a, k), a.steps[k]) {
      assert pr.edge(TypeAt(p, k), p.steps[k]);
    }
  }

  // ---------------------------------------------------------------- a cycle can be left out

  /** The path without the steps from j to k. */
  function Cut(p: Path, j: int, k: int): Path
    requires 0 <= j <= k <= |p.steps|
  {
    Path(p.start, p.steps[..j] + p.steps[k..])
  }

  lemma {:induction false} CutTypes(p: Path, j: int, k: int)
    requires 0 <= j < k <= |p.steps| && TypeAt(p, j) == TypeAt(p, k)
    ensures var q := Cut(p, j, k); |q.steps| == |p.steps| - (k - j) && EndOf(q) == EndOf(p)
    ensures forall i :: 0 <= i <= j ==> TypeAt(Cut(p, j, k), i) == TypeAt(p, i)
    ensures forall i :: j <= i <= |p.steps| - (k - j) ==> TypeAt(Cut(p, j, k), i) == TypeAt(p, i + (k - j))
  {
  }

  lemma {:induction false} CutSums(p: Path, j: int, k: int, counted: Reduction -> bool)
    requires NotNegative(p.steps) && 0 <= j < k <= |p.steps|
    ensures Weight(Cut(p, j, k).steps) <= Weight(p.steps)
        && Count(Cut(p, j, k).steps, counted) <= Count(p.steps, counted)
  {
    var a, b, c := p.steps[..j], p.steps[j..k], p.steps[k..];
    assert p.steps == (a + b) + c;
    Additive(a, b, counted);
    Additive(a + b, c, counted);
    Additive(a, c, counted);
    WeightNotNegative(b);
  }

  lemma {:induction false} CutCycle(pr: Problem, p: Path, j: int, k: int)
    requires GraphOk(pr) && IsWalk(pr, p) && 0 <= j < k <= |p.steps| && TypeAt(p, j) == TypeAt(p, k)
    ensures var q := Cut(p, j, k); IsWalk(pr, q) && |q.steps| < |p.steps| && EndOf(q) == EndOf(p)
                                   && Weight(q.steps) <= Weight(p.steps)
  {
    WalkWeights(pr, p);
    CutSums(p, j, k, pr.counted);
    CutTypes(p, j, k);
    CutEdges(pr.edge, p, j, k);
  }

  lemma {:induction false} CutEdges(edge: (int, Reduction) -> bool, p: Path, j: int, k: int)
    requires 0 <= j < k <= |p.steps| && TypeAt(p, j) == TypeAt(p, k)
    requires forall i :: 0 <= i < |p.steps| ==> edge(TypeAt(p, i), p.steps[i])
    ensures var q := Cut(p, j, k); forall i :: 0 <= i < |q.steps| ==> edge(TypeAt(q, i), q.steps[i])
  {
    var q := Cut(p, j, k);
    CutTypes(p, j, k);
    forall i | 0 <= i < |q.steps| ensures edge(TypeAt(q, i), q.steps[i]) {
      var i' := if i < j then i else i + (k - j);
      assert edge(TypeAt(p, i'), p.steps[i']) && q.steps[i] == p.steps[i'];
    }
  }

  /** For every walk there is a simple one to the same type that is not heavier. */
  lemma {:induction false} SimpleWalkExists(pr: Problem, p: Path) returns (q: Path)
    requires GraphOk(pr) && IsWalk(pr, p)
    ensures SimpleWalk(pr, q) && EndOf(q) == EndOf(p) && Weight(q.steps) <= Weight(p.steps)
    decreases |p.steps|
  {
    if Simple(p) {
      q := p;
    } else {
      var j, k :| 0 <= j < k <= |p.steps| && TypeAt(p, j) == TypeAt(p, k);
      CutCycle(pr, p, j, k);
      q := SimpleWalkExists(pr, Cut(p, j, k));
    }
  }

  // ---------------------------------------------------------------- the number of steps of a simple walk

  lemma {:induction false} DistinctSize(steps: seq<Reduction>, types: set<int>)
    requires forall k :: 0 <= k < |steps| ==> steps[k].right in types
    requires forall j, k :: 0 <= j < k < |steps| ==> steps[j].right != steps[k].right
    ensures |steps| <= |types|
    decreases |steps|
  {
    if steps != [] {
      var n := |steps| - 1;
      DistinctSize(steps[..n], types - {steps[n].right});
    }
  }

  lemma {:induction false} SimpleWalkLength(pr: Problem, p: Path)
    requires GraphOk(pr) && SimpleWalk(pr, p)
    ensures |p.steps| <= |pr.types|
  {
    WalkWeights(pr, p);
    forall j, k | 0 <= j < k < |p.steps| ensures p.steps[j].right != p.steps[k].right {
      assert TypeAt(p, j + 1) != TypeAt(p, k + 1);
    }
    DistinctSize(p.steps, pr.types);
  }

  // ---------------------------------------------------------------- the frontier of the search

  /** p is one of the finished paths or goes on from an open one. */
  ghost predicate Reached(paths: seq<Path>, open: set<int>, p: Path) {
    || (exists i :: 0 <= i < |paths| && i !in open && paths[i] == p)
    || (exists i :: 0 <= i < |paths| && i in open && Prefix(paths[i], p))
  }

  ghost predicate Distinct(paths: seq<Path>) {
    forall i, j :: 0 <= i < j < |paths| ==> paths[i] != paths[j]
  }

  ghost predicate AllSimpleWalks(pr: Problem, paths: seq<Path>) {
    forall i :: 0 <= i < |paths| ==> SimpleWalk(pr, paths[i])
  }

  /** No known path goes on from an open one. */
  ghost predicate OpenAreEnds(paths: seq<Path>, open: set<int>) {
    && (forall i | i in open :: 0 <= i < |paths|)
    && (forall i, j :: 0 <= i < |paths| && i in open && 0 <= j < |paths| && Prefix(paths[i], paths[j]) ==> i == j)
  }

  /** The known paths are different simple walks, and every simple walk is known or goes on from an open one. */
  ghost predicate Explored(pr: Problem, paths: seq<Path>, open: set<int>) {
    && AllSimpleWalks(pr, paths) && Distinct(paths) && OpenAreEnds(paths, open)
    && forall p | SimpleWalk(pr, p) :: Reached(paths, open, p)
  }

  /** rs are the reductions that lead away from type f. */
  ghost predicate EdgeList(pr: Problem, f: int, rs: seq<Reduction>) {
    && (forall i, j :: 0 <= i < j < |rs| ==> rs[i].right != rs[j].right)
    && (forall i :: 0 <= i < |rs| ==> pr.edge(f, rs[i]))
    && (forall r | pr.edge(f, r) :: r in rs)
  }

  /** p goes on from path cur with one of the reductions from the k-th on. */
  ghost predicate Later(cur: Path, rs: seq<Reduction>, k: int, p: Path) {
    Prefix(cur, p) && |p.steps| > |cur.steps| && exists m :: k <= m < |rs| && 0 <= m && rs[m] == p.steps[|cur.steps|]
  }

  ghost predicate Child(cur: Path, rs: seq<Reduction>, k: int, p: Path) {
    exists m :: 0 <= m < k && m < |rs| && p == Then(cur, rs[m])
  }

  /** The path with index c is being extended, k of the reductions that lead on have been looked at. */
  ghost predicate Expanding(pr: Problem, paths: seq<Path>, open: set<int>, c: int, rs: seq<Reduction>, k: int) {
    && 0 <= c < |paths| && c !in open && 0 <= k <= |rs| && EdgeList(pr, EndOf(paths[c]), rs)
    && AllSimpleWalks(pr, paths) && Distinct(paths) && OpenAreEnds(paths, open)
    && (forall j :: 0 <= j < |paths| && Prefix(paths[c], paths[j]) ==> j == c || Child(paths[c], rs, k, paths[j]))
    && (forall p | SimpleWalk(pr, p) :: Reached(paths, open, p) || Later(paths[c], rs, k, p))
  }

  lemma {:induction false} PrefixEqual(a: Path, p: Path)
    requires Prefix(a, p) && |a.steps| == |p.steps|
    ensures a == p
  {
    assert p.steps[..|p.steps|] == p.steps;
  }

  lemma {:induction false} PrefixTransitive(a: Path, b: Path, p: Path)
    requires Prefix(a, b) && Prefix(b, p)
    ensures Prefix(a, p)
  {
    assert p.steps[..|b.steps|][..|a.steps|] == p.steps[..|a.steps|];
  }

  /** Two prefixes of one path are prefixes of one another. */
  lemma {:induction false} PrefixesNested(a: Path, b: Path, p: Path)
    requires Prefix(a, p) && Prefix(b, p) && |a.steps| <= |b.steps|
    ensures Prefix(a, b)
  {
    assert p.steps[..|b.steps|][..|a.steps|] == p.steps[..|a.steps|];
  }

  lemma {:induction false} BeginExpanding(pr: Problem, paths: seq<Path>, open: set<int>, c: int, rs: seq<Reduction>)
    requires Explored(pr, paths, open) && c in open && EdgeList(pr, EndOf(paths[c]), rs)
    ensures Expanding(pr, paths, open - {c}, c, rs, 0)
  {
    forall p | SimpleWalk(pr, p) ensures Reached(paths, open - {c}, p) || Later(paths[c], rs, 0, p) {
      assert Reached(paths, open, p);
      if i :| 0 <= i < |paths| && i !in open && paths[i] == p {
        assert i !in open - {c};
      } else {
        var i :| 0 <= i < |paths| && i in open && Prefix(paths[i], p);
        if i == c {
          NextStep(pr, paths[c], rs, p);
        } else {
          assert i in open - {c};
        }
      }
    }
  }

  lemma {:induction false} NextStep(pr: Problem, cur: Path, rs: seq<Reduction>, p: Path)
    requires SimpleWalk(pr, p) && Prefix(cur, p) && EdgeList(pr, EndOf(cur), rs)
    ensures p == cur || Later(cur, rs, 0, p)
  {
    var n := |cur.steps|;
    if |p.steps| == n {
      PrefixEqual(cur, p);
    } else {
      assert pr.edge(TypeAt(p, n), p.steps[n]);
      assert n > 0 ==> p.steps[..n][n - 1] == p.steps[n - 1];
      assert TypeAt(p, n) == EndOf(cur);
      assert p.steps[n] in rs;
    }
  }

  /** A reduction that does not lead on to a simple walk can be passed over. */
  lemma {:induction false} PassOver(pr: Problem, paths: seq<Path>, open: set<int>, c: int, rs: seq<Reduction>, k: int)
    requires GraphOk(pr) && Expanding(pr, paths, open, c, rs, k) && k < |rs| && !SimpleWalk(pr, Then(paths[c], rs[k]))
    ensures Expanding(pr, paths, open, c, rs, k + 1)
  {
    forall p | SimpleWalk(pr, p) ensures Reached(paths, open, p) || Later(paths[c], rs, k + 1, p) {
      if Later(paths[c], rs, k, p) {
        LaterSplit(paths[c], rs, k, p);
        if Prefix(Then(paths[c], rs[k]), p) {
          PrefixLighter(pr, Then(paths[c], rs[k]), p);
        }
      }
    }
    ChildMore(paths[c], rs, k);
  }

  lemma {:induction false} ChildMore(cur: Path, rs: seq<Reduction>, k: int)
    requires 0 <= k < |rs|
    ensures forall p :: Child(cur, rs, k + 1, p) <==> Child(cur, rs, k, p) || p == Then(cur, rs[k])
  {
    forall p ensures Child(cur, rs, k + 1, p) <==> Child(cur, rs, k, p) || p == Then(cur, rs[k]) {
      if Child(cur, rs, k, p) {
        var m :| 0 <= m < k && m < |rs| && p == Then(cur, rs[m]);
        assert m < k + 1;
      }
    }
  }

  lemma {:induction false} LaterSplit(cur: Path, rs: seq<Reduction>, k: int, p: Path)
    requires 0 <= k < |rs| && Later(cur, rs, k, p)
    ensures Later(cur, rs, k + 1, p) || Prefix(Then(cur, rs[k]), p)
  {
    var m :| k <= m < |rs| && rs[m] == p.steps[|cur.steps|];
    if m == k {
      assert p.steps[..|cur.steps| + 1] == cur.steps + [rs[k]];
    }
  }

  /** A reduction that leads on to a simple walk gives a new open path. */
  lemma {:induction false} PushChild(pr: Problem, paths: seq<Path>, open: set<int>, c: int, rs: seq<Reduction>, k: int)
    requires GraphOk(pr) && Expanding(pr, paths, open, c, rs, k) && k < |rs| && SimpleWalk(pr, Then(paths[c], rs[k]))
    ensures Expanding(pr, paths + [Then(paths[c], rs[k])], open + {|paths|}, c, rs, k + 1)
  {
    var cur, child, n := paths[c], Then(paths[c], rs[k]), |paths|;
    var paths', open' := paths + [child], open + {n};
    ChildIsNew(pr, paths, open, c, rs, k);
    ChildMore(cur, rs, k);
    forall p | SimpleWalk(pr, p) ensures Reached(paths', open', p) || Later(cur, rs, k + 1, p) {
      if Later(cur, rs, k, p) {
        LaterSplit(cur, rs, k, p);
        assert Prefix(child, p) ==> paths'[n] == child && n in open';
      } else {
        ReachedMore(paths, open, child, p);
      }
    }
  }

  lemma {:induction false} ReachedMore(paths: seq<Path>, open: set<int>, child: Path, p: Path)
    requires Reached(paths, open, p)
    ensures Reached(paths + [child], open + {|paths|}, p)
  {
    var paths' := paths + [child];
    if i :| 0 <= i < |paths| && i !in open && paths[i] == p {
      assert paths'[i] == p && i !in open + {|paths|};
    } else {
      var i :| 0 <= i < |paths| && i in open && Prefix(paths[i], p);
      assert paths'[i] == paths[i] && i in open + {|paths|};
    }
  }

  lemma {:induction false} ChildIsNew(pr: Problem, paths: seq<Path>, open: set<int>, c: int, rs: seq<Reduction>, k: int)
    requires Expanding(pr, paths, open, c, rs, k) && k < |rs|
    ensures var paths' := paths + [Then(paths[c], rs[k])]; Distinct(paths') && OpenAreEnds(paths', open + {|paths|})
  {
    var cur, child := paths[c], Then(paths[c], rs[k]);
    forall j | 0 <= j < |paths| ensures !Prefix(child, paths[j]) {
      NotExtended(pr, paths, open, c, rs, k, j);
    }
    forall i | 0 <= i < |paths| && i in open ensures !Prefix(paths[i], child) {
      if Prefix(paths[i], child) {
        if |paths[i].steps| <= |cur.steps| {
          PrefixesNested(paths[i], cur, child);
        } else {
          PrefixEqual(paths[i], child);
        }
      }
    }
    OpenMore(paths, open, child);
  }

  lemma {:induction false} OpenMore(paths: seq<Path>, open: set<int>, child: Path)
    requires Distinct(paths) && OpenAreEnds(paths, open)
    requires forall j :: 0 <= j < |paths| ==> !Prefix(child, paths[j])
    requires forall i :: 0 <= i < |paths| && i in open ==> !Prefix(paths[i], child)
    ensures Distinct(paths + [child]) && OpenAreEnds(paths + [child], open + {|paths|})
  {
    assert forall j :: 0 <= j < |paths| && paths[j] == child ==> Prefix(child, paths[j]);
  }

  lemma {:induction false} NotExtended(pr: Problem, paths: seq<Path>, open: set<int>, c: int, rs: seq<Reduction>,
                                       k: int, j: int)
    requires Expanding(pr, paths, open, c, rs, k) && k < |rs| && 0 <= j < |paths|
    ensures !Prefix(Then(paths[c], rs[k]), paths[j])
  {
    var cur, child := paths[c], Then(paths[c], rs[k]);
    if Child(cur, rs, k, paths[j]) {
      ChildDiffers(pr, cur, rs, k, paths[j]);
    } else if Prefix(child, paths[j]) {
      PrefixTransitive(cur, child, paths[j]);
    }
  }

  lemma {:induction false} ChildDiffers(pr: Problem, cur: Path, rs: seq<Reduction>, k: int, p: Path)
    requires EdgeList(pr, EndOf(cur), rs) && 0 <= k < |rs| && Child(cur, rs, k, p)
    ensures !Prefix(Then(cur, rs[k]), p)
  {
    var m :| 0 <= m < k && m < |rs| && p == Then(cur, rs[m]);
    var n := |cur.steps|;
    assert p.steps[..n + 1][n] == rs[m] && Then(cur, rs[k]).steps[n] == rs[k];
  }

  lemma {:induction false} EndExpanding(pr: Problem, paths: seq<Path>, open: set<int>, c: int, rs: seq<Reduction>)
    requires Expanding(pr, paths, open, c, rs, |rs|)
    ensures Explored(pr, paths, open)
  {
  }
}
