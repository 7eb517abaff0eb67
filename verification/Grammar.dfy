/** Context-free grammars as the grammar parser hands them to the table builder, parse trees over them, and rightmost
    derivations. */
module Grammar {

  /** A resolved right-hand-side element. Terminal 0 is the end marker '$'. */
  datatype Symbol = T(t: nat) | N(n: nat)

  datatype Assoziativity = Undefined | Left | Right

  datatype Priority = Priority(value: int, assoziativity: Assoziativity) {
    predicate Defined() {
      value != 0 || assoziativity != Undefined
    }
  }

  datatype ScopeFlag = NoScope | Step | Scope

  datatype Production = Production(left: nat, right: seq<Symbol>, priority: Priority, callidx: nat, scope: ScopeFlag)

  type Productions = seq<Production>

  const NO_PRIORITY := Priority(0, Assoziativity.Undefined)

  /** A production without priority, call and scope. */
  function Rule(left: nat, right: seq<Symbol>): Production {
    Production(left, right, NO_PRIORITY, 0, NoScope)
  }

  /** What the final checks of the grammar parser guarantee: nonterminal 1 heads production 0
      and nothing else, no right side mentions it, every nonterminal used has a production, the
      end marker is not a terminal of the grammar, and productions are pairwise different. */
  ghost predicate WellFormed(g: Productions, nofTerminals: nat) {
    && |g| > 0
    && g[0].left == 1
    && (forall p :: 0 < p < |g| ==> g[p].left != 1)
    && (forall p, i :: 0 <= p < |g| && 0 <= i < |g[p].right| ==> SymbolOk(g, nofTerminals, g[p].right[i]))
    && (forall p, q :: 0 <= p < q < |g| ==> !SameRule(g[p], g[q]))
  }

  predicate SameRule(a: Production, b: Production) {
    a.left == b.left && a.right == b.right && a.priority == b.priority
  }

  ghost predicate SymbolOk(g: Productions, nofTerminals: nat, s: Symbol) {
    match s
    case T(t) => 1 <= t <= nofTerminals
    case N(n) => n != 1 && HasProduction(g, n)
  }

  ghost predicate HasProduction(g: Productions, n: nat) {
    exists q :: 0 <= q < |g| && g[q].left == n
  }

  // ---------------------------------------------------------------- parse trees

  /** A parse tree whose leaves may still be nonterminals, so that its frontier is any sentential form. */
  datatype Tree = Leaf(sym: Symbol) | Node(prod: nat, kids: seq<Tree>)

  function Root(g: Productions, t: Tree): Symbol {
    match t
    case Leaf(s) => s
    case Node(p, _) => if p < |g| then N(g[p].left) else T(0)
  }

  function Roots(g: Productions, ts: seq<Tree>): (r: seq<Symbol>)
    ensures |r| == |ts|
  {
    seq(|ts|, i requires 0 <= i < |ts| => Root(g, ts[i]))
  }

  ghost predicate Valid(g: Productions, t: Tree)
    decreases t
  {
    match t
    case Leaf(_) => true
    case Node(p, kids) => p < |g| && Roots(g, kids) == g[p].right && forall k | k in kids :: Valid(g, k)
  }

  ghost predicate ValidAll(g: Productions, ts: seq<Tree>) {
    forall k | k in ts :: Valid(g, k)
  }

  function Frontier(t: Tree): seq<Symbol>
    decreases t, 1
  {
    match t
    case Leaf(s) => [s]
    case Node(_, kids) => FrontierAll(kids)
  }

  function FrontierAll(ts: seq<Tree>): seq<Symbol>
    decreases ts, 0
  {
    if ts == [] then [] else Frontier(ts[0]) + FrontierAll(ts[1..])
  }

  /** Productions in the order a bottom-up parser reduces them. */
  function PostOrder(t: Tree): seq<nat>
    decreases t, 1
  {
    match t
    case Leaf(_) => []
    case Node(p, kids) => PostOrderAll(kids) + [p]
  }

  function PostOrderAll(ts: seq<Tree>): seq<nat>
    decreases ts, 0
  {
    if ts == [] then [] else PostOrder(ts[0]) + PostOrderAll(ts[1..])
  }

  predicate AllTerminal(f: seq<Symbol>) {
    forall s | s in f :: s.T?
  }

  lemma {:induction false} FrontierAllConcat(a: seq<Tree>, b: seq<Tree>)
    ensures FrontierAll(a + b) == FrontierAll(a) + FrontierAll(b)
    ensures PostOrderAll(a + b) == PostOrderAll(a) + PostOrderAll(b)
    decreases |a|
  {
    if a == [] {
      assert a + b == b;
    } else {
      assert (a + b)[1..] == a[1..] + b;
      FrontierAllConcat(a[1..], b);
    }
  }

  lemma {:induction false} FrontierAllAppend(a: seq<Tree>, t: Tree)
    ensures FrontierAll(a + [t]) == FrontierAll(a) + Frontier(t)
    ensures PostOrderAll(a + [t]) == PostOrderAll(a) + PostOrder(t)
  {
    FrontierAllConcat(a, [t]);
    assert FrontierAll([t]) == Frontier(t) + FrontierAll([]);
    assert PostOrderAll([t]) == PostOrder(t) + PostOrderAll([]);
  }

  /** A production sequence applied top down, each time to the last nonterminal, turns one sentential form into
      another. */
  ghost predicate RightmostStep(g: Productions, from: seq<Symbol>, p: nat, to: seq<Symbol>) {
    p < |g| && exists i ::
      && 0 <= i < |from|
      && from[i] == N(g[p].left)
      && AllTerminal(from[i + 1..])
      && to == from[..i] + g[p].right + from[i + 1..]
  }

  ghost predicate RightmostDerivation(g: Productions, from: seq<Symbol>, ps: seq<nat>, to: seq<Symbol>)
    decreases |ps|
  {
    if ps == [] then from == to
    else exists mid :: RightmostStep(g, from, ps[0], mid) && RightmostDerivation(g, mid, ps[1..], to)
  }

  function Reverse<A>(s: seq<A>): (r: seq<A>)
    ensures |r| == |s|
  {
    if s == [] then [] else Reverse(s[1..]) + [s[0]]
  }

  lemma {:induction false} ReverseConcat<A>(a: seq<A>, b: seq<A>)
    ensures Reverse(a + b) == Reverse(b) + Reverse(a)
    decreases |a|
  {
    if a == [] {
      assert a + b == b;
    } else {
      assert (a + b)[1..] == a[1..] + b;
      ReverseConcat(a[1..], b);
    }
  }

  lemma {:induction false} StepInContext(g: Productions, u: seq<Symbol>, a: seq<Symbol>, p: nat, b: seq<Symbol>,
                                         w: seq<Symbol>)
    requires RightmostStep(g, a, p, b) && AllTerminal(w)
    ensures RightmostStep(g, u + a + w, p, u + b + w)
  {
    var i :| 0 <= i < |a| && a[i] == N(g[p].left) && AllTerminal(a[i + 1..])
             && b == a[..i] + g[p].right + a[i + 1..];
    var from, j := u + a + w, |u| + i;
    assert from[j] == a[i];
    assert from[..j] == u + a[..i];
    assert from[j + 1..] == a[i + 1..] + w;
    assert AllTerminal(from[j + 1..]);
    assert u + b + w == from[..j] + g[p].right + from[j + 1..];
  }

  lemma {:induction false} RightmostInContext(g: Productions, u: seq<Symbol>, a: seq<Symbol>, ps: seq<nat>,
                                              b: seq<Symbol>, w: seq<Symbol>)
    requires RightmostDerivation(g, a, ps, b) && AllTerminal(w)
    ensures RightmostDerivation(g, u + a + w, ps, u + b + w)
    decreases |ps|
  {
    if ps != [] {
      var mid :| RightmostStep(g, a, ps[0], mid) && RightmostDerivation(g, mid, ps[1..], b);
      StepInContext(g, u, a, ps[0], mid, w);
      RightmostInContext(g, u, mid, ps[1..], b, w);
    }
  }

  lemma {:induction false} RightmostCompose(g: Productions, a: seq<Symbol>, ps: seq<nat>, b: seq<Symbol>, qs: seq<nat>,
                                            c: seq<Symbol>)
    requires RightmostDerivation(g, a, ps, b) && RightmostDerivation(g, b, qs, c)
    ensures RightmostDerivation(g, a, ps + qs, c)
    decreases |ps|
  {
    if ps == [] {
      assert ps + qs == qs;
    } else {
      var mid :| RightmostStep(g, a, ps[0], mid) && RightmostDerivation(g, mid, ps[1..], b);
      RightmostCompose(g, mid, ps[1..], b, qs, c);
      assert (ps + qs)[1..] == ps[1..] + qs;
    }
  }

  /** The reductions of a complete parse tree, read backwards, are a rightmost derivation of its frontier. */
  lemma {:induction false} TreeIsRightmostDerivation(g: Productions, t: Tree)
    requires Valid(g, t) && AllTerminal(Frontier(t))
    ensures RightmostDerivation(g, [Root(g, t)], Reverse(PostOrder(t)), Frontier(t))
    decreases t, 1, 0
  {
    match t
    case Leaf(_) =>
    case Node(p, kids) =>
      ForestIsRightmostDerivation(g, kids);
      var ps := Reverse(PostOrderAll(kids));
      ReverseConcat(PostOrderAll(kids), [p]);
      assert Reverse([p]) == [p];
      assert Reverse(PostOrder(t)) == [p] + ps;
      var from := [Root(g, t)];
      assert from[0] == N(g[p].left) && from[1..] == [] && from[..0] + g[p].right + from[1..] == g[p].right;
      assert RightmostStep(g, from, p, Roots(g, kids));
      assert ([p] + ps)[1..] == ps;
  }

  lemma {:induction false} ForestIsRightmostDerivation(g: Productions, ts: seq<Tree>)
    requires ValidAll(g, ts) && AllTerminal(FrontierAll(ts))
    ensures RightmostDerivation(g, Roots(g, ts), Reverse(PostOrderAll(ts)), FrontierAll(ts))
    decreases ts, 0, |ts|
  {
    if ts == [] {
      assert Roots(g, ts) == [];
    } else {
      var init, t := ts[1..], ts[0];
      assert t in ts;
      AllTerminalSplit(Frontier(t), FrontierAll(init));
      ForestIsRightmostDerivation(g, init);
      TreeIsRightmostDerivation(g, t);
      RightmostSideBySide(g, Root(g, t), Reverse(PostOrder(t)), Frontier(t),
                          Roots(g, init), Reverse(PostOrderAll(init)), FrontierAll(init));
      assert [Root(g, t)] + Roots(g, init) == Roots(g, ts);
      ReverseConcat(PostOrder(t), PostOrderAll(init));
    }
  }

  lemma {:induction false} AllTerminalSplit(a: seq<Symbol>, b: seq<Symbol>)
    requires AllTerminal(a + b)
    ensures AllTerminal(a) && AllTerminal(b)
  {
    forall s | s in a ensures s.T? { assert s in a + b; }
    forall s | s in b ensures s.T? { assert s in a + b; }
  }

  lemma {:induction false} RightmostToTheRight(g: Productions, x: Symbol, ys: seq<Symbol>, qs: seq<nat>,
                                               fy: seq<Symbol>)
    requires RightmostDerivation(g, ys, qs, fy)
    ensures RightmostDerivation(g, [x] + ys, qs, [x] + fy)
  {
    RightmostInContext(g, [x], ys, qs, fy, []);
    assert [x] + ys + [] == [x] + ys && [x] + fy + [] == [x] + fy;
  }

  lemma {:induction false} RightmostToTheLeft(g: Productions, xs: seq<Symbol>, ps: seq<nat>, fx: seq<Symbol>,
                                              fy: seq<Symbol>)
    requires RightmostDerivation(g, xs, ps, fx) && AllTerminal(fy)
    ensures RightmostDerivation(g, xs + fy, ps, fx + fy)
  {
    RightmostInContext(g, [], xs, ps, fx, fy);
    assert [] + xs + fy == xs + fy && [] + fx + fy == fx + fy;
  }

  /** What stands right of a nonterminal is expanded before the nonterminal itself. */
  lemma {:induction false} RightmostSideBySide(g: Productions, x: Symbol, ps: seq<nat>, fx: seq<Symbol>,
                                               ys: seq<Symbol>, qs: seq<nat>, fy: seq<Symbol>)
    requires RightmostDerivation(g, [x], ps, fx) && RightmostDerivation(g, ys, qs, fy) && AllTerminal(fy)
    ensures RightmostDerivation(g, [x] + ys, qs + ps, fx + fy)
  {
    RightmostToTheRight(g, x, ys, qs, fy);
    RightmostToTheLeft(g, [x], ps, fx, fy);
    RightmostCompose(g, [x] + ys, qs, [x] + fy, ps, fx + fy);
  }
}
