/** Trees in one array, with links to the first child and to the next sibling. Nodes are numbered from 1, 0 is no
    node. */
module Trees {
  import opened Guards

  datatype Node<T> = Node(item: T, next: nat, chld: nat)

  /** Where a node hangs: its parent and its place among the children. */
  datatype Place = Place(parent: nat, pos: nat)

  // ---------------------------------------------------------------- the shape behind the links

  /** The children of every node, and the place of every node but the root, agree. */
  ghost predicate IsShape(kids: seq<seq<nat>>, place: seq<Place>) {
    && |place| == |kids| > 0
    && (forall i {:trigger KidsOk(kids, place, i)} :: 0 <= i < |kids| ==> KidsOk(kids, place, i))
    && (forall c {:trigger PlaceOk(kids, place, c)} :: 1 < c <= |place| ==> PlaceOk(kids, place, c))
  }

  ghost predicate KidsOk(kids: seq<seq<nat>>, place: seq<Place>, i: int)
    requires 0 <= i < |kids| == |place|
  {
    forall j {:trigger kids[i][j]} :: 0 <= j < |kids[i]| ==>
                                      i + 1 < kids[i][j] <= |kids| && place[kids[i][j] - 1] == Place(i + 1, j)
  }

  ghost predicate PlaceOk(kids: seq<seq<nat>>, place: seq<Place>, c: int)
    requires 0 < c <= |place|
  {
    var p := place[c - 1];
    0 < p.parent <= |kids| && p.pos < |kids[p.parent - 1]| && kids[p.parent - 1][p.pos] == c
  }

  /** A new node as last child of the node p. */
  function GrownKids(kids: seq<seq<nat>>, p: nat): seq<seq<nat>>
    requires 0 < p <= |kids|
  {
    kids[p - 1 := kids[p - 1] + [|kids| + 1]] + [[]]
  }

  /** The node p has one more child, the last node, which has none itself; the children of all others are the same. */
  ghost predicate KidAdded(kids: seq<seq<nat>>, kids': seq<seq<nat>>, p: nat)
    requires 0 < p <= |kids|
  {
    forall z: int {:trigger Look(z)} :: Look(z) ==>
      && |kids'| == |kids| + 1 && kids'[p - 1] == kids[p - 1] + [|kids'|] && kids'[|kids|] == []
      && forall i | 0 <= i < |kids| && i != p - 1 :: kids'[i] == kids[i]
  }

  lemma {:induction false} GrownShape(kids: seq<seq<nat>>, place: seq<Place>, p: nat)
    requires IsShape(kids, place) && 0 < p <= |kids|
    ensures IsShape(GrownKids(kids, p), place + [Place(p, |kids[p - 1]|)])
  {
    var kids', place' := GrownKids(kids, p), place + [Place(p, |kids[p - 1]|)];
    forall i | 0 <= i < |kids'| ensures KidsOk(kids', place', i) {
      if i < |kids| {
        assert KidsOk(kids, place, i);
        forall j | 0 <= j < |kids'[i]| ensures i + 1 < kids'[i][j] <= |kids'|
            && place'[kids'[i][j] - 1] == Place(i + 1, j) {
          if j < |kids[i]| { assert kids'[i][j] == kids[i][j]; }
        }
      }
    }
    forall c | 1 < c <= |place'| ensures PlaceOk(kids', place', c) {
      if c <= |place| {
        assert PlaceOk(kids, place, c);
      }
    }
  }

  // ---------------------------------------------------------------- the links

  ghost predicate NextOk<T>(ar: seq<Node<T>>, ks: seq<nat>, j: int)
    requires 0 <= j < |ks|
  {
    0 < ks[j] <= |ar| && ar[ks[j] - 1].next == if j + 1 < |ks| then ks[j + 1] else 0
  }

  ghost predicate ChainOk<T>(ar: seq<Node<T>>, ks: seq<nat>) {
    forall j {:trigger NextOk(ar, ks, j)} :: 0 <= j < |ks| ==> NextOk(ar, ks, j)
  }

  /** The children of node i are linked from its first child on. */
  ghost predicate LinksOk<T>(ar: seq<Node<T>>, kids: seq<seq<nat>>, i: int)
    requires 0 <= i < |kids| == |ar|
  {
    ar[i].chld == (if kids[i] == [] then 0 else kids[i][0]) && ChainOk(ar, kids[i])
  }

  ghost predicate LastOk(lastar: seq<nat>, kids: seq<seq<nat>>, i: int)
    requires 0 <= i < |kids| == |lastar|
  {
    var ks := kids[i];
    ks != [] ==> 0 < ks[0] <= |lastar| && lastar[ks[0] - 1] == ks[|ks| - 1]
  }

  ghost predicate TreeOk<T>(ar: seq<Node<T>>, lastar: seq<nat>, kids: seq<seq<nat>>, place: seq<Place>) {
    && |ar| == |lastar| == |kids| && IsShape(kids, place) && ar[0].next == 0
    && (forall i {:trigger LinksOk(ar, kids, i)} :: 0 <= i < |kids| ==> LinksOk(ar, kids, i))
    && (forall i {:trigger LastOk(lastar, kids, i)} :: 0 <= i < |kids| ==> LastOk(lastar, kids, i))
  }

  /** The array after adding a node behind last, or as first child of p if last is 0. */
  function GrownArray<T>(ar: seq<Node<T>>, p: nat, last: nat, item: T): seq<Node<T>>
    requires 0 < p <= |ar| && last <= |ar|
  {
    var pushed := ar + [Node(item, 0, 0)];
    if last == 0 then pushed[p - 1 := pushed[p - 1].(chld := |ar| + 1)]
    else pushed[last - 1 := pushed[last - 1].(next := |ar| + 1)]
  }

  function GrownLast(lastar: seq<nat>, first: nat): seq<nat>
    requires first <= |lastar|
  {
    if first == 0 then lastar + [|lastar| + 1] else (lastar + [0])[first - 1 := |lastar| + 1]
  }

  lemma {:induction false} KidPlace(kids: seq<seq<nat>>, place: seq<Place>, i: int, j: int)
    requires IsShape(kids, place) && 0 <= i < |kids| && 0 <= j < |kids[i]|
    ensures i + 1 < kids[i][j] <= |kids| && place[kids[i][j] - 1] == Place(i + 1, j)
  {
    assert KidsOk(kids, place, i);
  }

  lemma {:induction false} GrownLinks<T>(ar: seq<Node<T>>, kids: seq<seq<nat>>, place: seq<Place>, p: nat, last: nat,
                                         item: T, i: int)
    requires IsShape(kids, place) && |ar| == |kids| && 0 < p <= |ar| && 0 <= i < |ar| && LinksOk(ar, kids, i)
    requires last == (if kids[p - 1] == [] then 0 else kids[p - 1][|kids[p - 1]| - 1]) && last <= |ar|
    ensures LinksOk(GrownArray(ar, p, last, item), GrownKids(kids, p), i)
  {
    var ks, ar' := kids[i], GrownArray(ar, p, last, item);
    var ks' := GrownKids(kids, p)[i];
    if kids[p - 1] != [] { KidPlace(kids, place, p - 1, |kids[p - 1]| - 1); }
    assert ks' == if i == p - 1 then ks + [|ar| + 1] else ks;
    forall j | 0 <= j < |ks'| ensures NextOk(ar', ks', j) {
      if j < |ks| {
        KidPlace(kids, place, i, j);
        assert NextOk(ar, ks, j);
      }
    }
  }

  lemma {:induction false} GrownLastOk(lastar: seq<nat>, kids: seq<seq<nat>>, place: seq<Place>, p: nat, i: int)
    requires |lastar| == |kids| && IsShape(kids, place) && 0 < p <= |kids| && 0 <= i <= |kids|
    requires forall i {:trigger LastOk(lastar, kids, i)} :: 0 <= i < |kids| ==> LastOk(lastar, kids, i)
    requires kids[p - 1] != [] ==> kids[p - 1][0] <= |kids|
    ensures LastOk(GrownLast(lastar, if kids[p - 1] == [] then 0 else kids[p - 1][0]), GrownKids(kids, p), i)
  {
    if kids[p - 1] != [] { KidPlace(kids, place, p - 1, 0); }
    if i < |kids| && kids[i] != [] {
      assert LastOk(lastar, kids, i);
      KidPlace(kids, place, i, 0);
    }
  }

  lemma {:induction false} FirstAndLast<T>(ar: seq<Node<T>>, lastar: seq<nat>, kids: seq<seq<nat>>, place: seq<Place>,
                                           p: nat)
    requires TreeOk(ar, lastar, kids, place) && 0 < p <= |ar|
    ensures var ks := kids[p - 1];
            if ks == [] then ar[p - 1].chld == 0
            else 1 < ks[0] <= |ar| && 1 < ks[|ks| - 1] <= |ar| && ar[p - 1].chld == ks[0]
                 && lastar[ks[0] - 1] == ks[|ks| - 1]
  {
    assert LinksOk(ar, kids, p - 1) && LastOk(lastar, kids, p - 1);
    if kids[p - 1] != [] {
      KidPlace(kids, place, p - 1, 0);
      KidPlace(kids, place, p - 1, |kids[p - 1]| - 1);
    }
  }

  lemma {:induction false} GrownTree<T>(ar: seq<Node<T>>, lastar: seq<nat>, kids: seq<seq<nat>>, place: seq<Place>,
                                        p: nat, item: T, first: nat, last: nat)
    requires TreeOk(ar, lastar, kids, place) && 0 < p <= |ar| && first <= |ar| && last <= |ar|
    requires first == (if kids[p - 1] == [] then 0 else kids[p - 1][0]) && last == if kids[p - 1] == [] then 0 else
        kids[p - 1][|kids[p - 1]| - 1]
    ensures TreeOk(GrownArray(ar, p, last, item), GrownLast(lastar, first), GrownKids(kids, p),
        place + [Place(p, |kids[p - 1]|)])
  {
    FirstAndLast(ar, lastar, kids, place, p);
    GrownShape(kids, place, p);
    var ar', lastar', kids' := GrownArray(ar, p, last, item), GrownLast(lastar, first), GrownKids(kids, p);
    forall i | 0 <= i < |kids'| ensures LinksOk(ar', kids', i) {
      if i < |ar| {
        assert LinksOk(ar, kids, i);
        GrownLinks(ar, kids, place, p, last, item, i);
      }
    }
    forall i | 0 <= i < |kids'| ensures LastOk(lastar', kids', i) {
      GrownLastOk(lastar, kids, place, p, i);
    }
  }

  // ---------------------------------------------------------------- the order of a depth-first walk

  ghost predicate Increasing(kids: seq<seq<nat>>) {
    forall i, j {:trigger kids[i][j]} :: 0 <= i < |kids| && 0 <= j < |kids[i]| ==> i + 1 < kids[i][j] <= |kids|
  }

  /** The node i and all below it, every node before its children. */
  ghost function PreOrder(kids: seq<seq<nat>>, i: nat): seq<nat>
    requires Increasing(kids) && 0 < i <= |kids|
    decreases |kids| - i, 1, 0
  {
    [i] + PreOrders(kids, i, 0)
  }

  /** The children of node i from number j on and all below them. */
  ghost function PreOrders(kids: seq<seq<nat>>, i: nat, j: nat): seq<nat>
    requires Increasing(kids) && 0 < i <= |kids| && j <= |kids[i - 1]|
    decreases |kids| - i, 0, |kids[i - 1]| - j
  {
    if j == |kids[i - 1]| then [] else PreOrder(kids, kids[i - 1][j]) + PreOrders(kids, i, j + 1)
  }

  lemma {:induction false} ShapeIncreasing(kids: seq<seq<nat>>, place: seq<Place>)
    requires IsShape(kids, place)
    ensures Increasing(kids)
  {
    forall i, j | 0 <= i < |kids| && 0 <= j < |kids[i]| ensures i + 1 < kids[i][j] <= |kids| {
      KidPlace(kids, place, i, j);
    }
  }

  /** What is below a node comes from i on, and each but i itself has its parent there. */
  lemma {:induction false} BelowFacts(kids: seq<seq<nat>>, place: seq<Place>, i: nat)
    requires IsShape(kids, place) && Increasing(kids) && 0 < i <= |kids|
    ensures forall x | x in PreOrder(kids, i) ::
        i <= x <= |kids| && (x == i || place[x - 1].parent in PreOrder(kids, i))
    decreases |kids| - i, 1, 0
  {
    BelowAll(kids, place, i, 0);
  }

  lemma {:induction false} BelowAll(kids: seq<seq<nat>>, place: seq<Place>, i: nat, j: nat)
    requires IsShape(kids, place) && Increasing(kids) && 0 < i <= |kids| && j <= |kids[i - 1]|
    ensures forall x | x in PreOrders(kids, i, j) ::
        i < x <= |kids| && (place[x - 1].parent == i || place[x - 1].parent in PreOrders(kids, i, j))
    decreases |kids| - i, 0, |kids[i - 1]| - j
  {
    if j < |kids[i - 1]| {
      KidPlace(kids, place, i - 1, j);
      BelowFacts(kids, place, kids[i - 1][j]);
      BelowAll(kids, place, i, j + 1);
    }
  }

  /** Nothing is below two nodes of which neither is below the other. */
  lemma {:induction false} Apart(kids: seq<seq<nat>>, place: seq<Place>, a: nat, b: nat, x: nat)
    requires IsShape(kids, place) && Increasing(kids) && 0 < a <= |kids| && 0 < b <= |kids|
    requires a !in PreOrder(kids, b) && b !in PreOrder(kids, a)
    ensures !(x in PreOrder(kids, a) && x in PreOrder(kids, b))
    decreases x
  {
    BelowFacts(kids, place, a);
    BelowFacts(kids, place, b);
    if x in PreOrder(kids, a) && x in PreOrder(kids, b) {
      assert PlaceOk(kids, place, x);
      KidPlace(kids, place, place[x - 1].parent - 1, place[x - 1].pos);
      Apart(kids, place, a, b, place[x - 1].parent);
    }
  }

  predicate NoDuplicates(s: seq<nat>) {
    forall i, j :: 0 <= i < j < |s| ==> s[i] != s[j]
  }

  /** A sibling is not below another. */
  lemma {:induction false} SiblingsApart(kids: seq<seq<nat>>, place: seq<Place>, i: nat, j: nat, k: nat)
    requires IsShape(kids, place) && Increasing(kids) && 0 < i <= |kids| && j < |kids[i - 1]| && k < |kids[i - 1]|
        && j != k
    ensures kids[i - 1][j] !in PreOrder(kids, kids[i - 1][k])
  {
    KidPlace(kids, place, i - 1, j);
    KidPlace(kids, place, i - 1, k);
    BelowFacts(kids, place, kids[i - 1][k]);
    assert i !in PreOrder(kids, kids[i - 1][k]);
  }

  lemma {:induction false} FirstApartFromRest(kids: seq<seq<nat>>, place: seq<Place>, i: nat, j: nat, k: nat, x: nat)
    requires IsShape(kids, place) && Increasing(kids) && 0 < i <= |kids| && j < k <= |kids[i - 1]|
    requires x in PreOrder(kids, kids[i - 1][j])
    ensures x !in PreOrders(kids, i, k)
    decreases |kids[i - 1]| - k
  {
    if k < |kids[i - 1]| {
      SiblingsApart(kids, place, i, j, k);
      SiblingsApart(kids, place, i, k, j);
      Apart(kids, place, kids[i - 1][j], kids[i - 1][k], x);
      FirstApartFromRest(kids, place, i, j, k + 1, x);
    }
  }

  lemma {:induction false} PreOrderNoDuplicates(kids: seq<seq<nat>>, place: seq<Place>, i: nat)
    requires IsShape(kids, place) && Increasing(kids) && 0 < i <= |kids|
    ensures NoDuplicates(PreOrder(kids, i))
    decreases |kids| - i, 1, 0
  {
    PreOrdersNoDuplicates(kids, place, i, 0);
    BelowAll(kids, place, i, 0);
    assert forall k :: 0 <= k < |PreOrders(kids, i, 0)| ==> PreOrders(kids, i, 0)[k] in PreOrders(kids, i, 0);
  }

  lemma {:induction false} PreOrdersNoDuplicates(kids: seq<seq<nat>>, place: seq<Place>, i: nat, j: nat)
    requires IsShape(kids, place) && Increasing(kids) && 0 < i <= |kids| && j <= |kids[i - 1]|
    ensures NoDuplicates(PreOrders(kids, i, j))
    decreases |kids| - i, 0, |kids[i - 1]| - j
  {
    if j < |kids[i - 1]| {
      var a, b := PreOrder(kids, kids[i - 1][j]), PreOrders(kids, i, j + 1);
      PreOrderNoDuplicates(kids, place, kids[i - 1][j]);
      PreOrdersNoDuplicates(kids, place, i, j + 1);
      forall x | x in a ensures x !in b {
        FirstApartFromRest(kids, place, i, j, j + 1, x);
      }
      ConcatNoDuplicates(a, b);
    }
  }

  lemma {:induction false} ConcatNoDuplicates(a: seq<nat>, b: seq<nat>)
    requires NoDuplicates(a) && NoDuplicates(b) && forall x | x in a :: x !in b
    ensures NoDuplicates(a + b)
  {
    assert forall k :: 0 <= k < |a| ==> a[k] in a;
    assert forall k :: 0 <= k < |b| ==> b[k] in b;
  }

  /** The children of a node below i are below i. */
  lemma {:induction false} KidBelow(kids: seq<seq<nat>>, i: nat, q: nat, j: nat)
    requires Increasing(kids) && 0 < i <= |kids| && 0 < q <= |kids| && q in PreOrder(kids, i) && j < |kids[q - 1]|
    ensures kids[q - 1][j] in PreOrder(kids, i)
    decreases |kids| - i, 1, 0
  {
    if q == i {
      KidHere(kids, i, j, 0);
    } else {
      KidBelowAll(kids, i, q, j, 0);
    }
  }

  lemma {:induction false} KidBelowAll(kids: seq<seq<nat>>, i: nat, q: nat, j: nat, k: nat)
    requires Increasing(kids) && 0 < i <= |kids| && 0 < q <= |kids| && k <= |kids[i - 1]| && q in PreOrders(kids, i, k)
        && j < |kids[q - 1]|
    ensures kids[q - 1][j] in PreOrders(kids, i, k)
    decreases |kids| - i, 0, |kids[i - 1]| - k
  {
    if q in PreOrder(kids, kids[i - 1][k]) {
      KidBelow(kids, kids[i - 1][k], q, j);
    } else {
      KidBelowAll(kids, i, q, j, k + 1);
    }
  }

  lemma {:induction false} KidHere(kids: seq<seq<nat>>, i: nat, j: nat, k: nat)
    requires Increasing(kids) && 0 < i <= |kids| && k <= j < |kids[i - 1]|
    ensures kids[i - 1][j] in PreOrders(kids, i, k)
    decreases j - k
  {
    if k < j { KidHere(kids, i, j, k + 1); }
  }

  /** The walk from the root meets every node. */
  lemma {:induction false} AllBelowRoot(kids: seq<seq<nat>>, place: seq<Place>, x: nat)
    requires IsShape(kids, place) && Increasing(kids) && 0 < x <= |kids|
    ensures x in PreOrder(kids, 1)
    decreases x
  {
    if x > 1 {
      var p := place[x - 1];
      assert PlaceOk(kids, place, x);
      KidPlace(kids, place, p.parent - 1, p.pos);
      AllBelowRoot(kids, place, p.parent);
      KidBelow(kids, 1, p.parent, p.pos);
    }
  }

  /** The order of the walk from the root holds every node exactly once. */
  lemma {:induction false} WalkIsComplete(kids: seq<seq<nat>>, place: seq<Place>)
    requires IsShape(kids, place)
    ensures Increasing(kids) && NoDuplicates(PreOrder(kids, 1)) && forall x: nat ::
        x in PreOrder(kids, 1) <==> 0 < x <= |kids|
  {
    ShapeIncreasing(kids, place);
    PreOrderNoDuplicates(kids, place, 1);
    BelowFacts(kids, place, 1);
    forall x: nat | 0 < x <= |kids| ensures x in PreOrder(kids, 1) {
      AllBelowRoot(kids, place, x);
    }
  }

  // ---------------------------------------------------------------- the position of the walk

  /** What is left to visit behind all that is below p: the later siblings and what is behind the parent. */
  ghost function Behind(kids: seq<seq<nat>>, place: seq<Place>, p: nat): seq<nat>
    requires IsShape(kids, place) && Increasing(kids) && 0 < p <= |kids|
    decreases p
  {
    if p == 1 then []
    else
      assert PlaceOk(kids, place, p);
      assert place[p - 1].parent < p by { KidPlace(kids, place, place[p - 1].parent - 1, place[p - 1].pos); }
      PreOrders(kids, place[p - 1].parent, place[p - 1].pos + 1) + Behind(kids, place, place[p - 1].parent)
  }

  /** The numbers from the root to the parent of p, above the number behind the last node. */
  ghost function Ancestors(kids: seq<seq<nat>>, place: seq<Place>, p: nat): (s: seq<nat>)
    requires IsShape(kids, place) && 0 < p <= |kids|
    ensures s != []
    decreases p
  {
    if p == 1 then [|kids| + 1]
    else
      assert PlaceOk(kids, place, p);
      assert place[p - 1].parent < p by { KidPlace(kids, place, place[p - 1].parent - 1, place[p - 1].pos); }
      Ancestors(kids, place, place[p - 1].parent) + [place[p - 1].parent]
  }

  /** The nodes from p on in the order of the walk. */
  ghost function From(kids: seq<seq<nat>>, place: seq<Place>, p: nat): seq<nat>
    requires IsShape(kids, place) && Increasing(kids) && 0 < p <= |kids| + 1
  {
    if p == |kids| + 1 then [] else PreOrder(kids, p) + Behind(kids, place, p)
  }

  lemma {:induction false} Regrouped(a: seq<nat>, b: seq<nat>, c: seq<nat>, d: seq<nat>)
    ensures (a + (b + c)) + d == a + (b + (c + d)) && (b + c) + d == b + (c + d)
  {
  }

  /** The next node of a node with children is the first of them. */
  lemma {:induction false} DownToChild(kids: seq<seq<nat>>, place: seq<Place>, p: nat)
    requires IsShape(kids, place) && Increasing(kids) && 0 < p <= |kids| && kids[p - 1] != []
    ensures var c := kids[p - 1][0];
            0 < c <= |kids| && From(kids, place, p) == [p] + From(kids, place, c)
                && Ancestors(kids, place, c) == Ancestors(kids, place, p) + [p]
  {
    KidPlace(kids, place, p - 1, 0);
    var c := kids[p - 1][0];
    assert PreOrders(kids, p, 0) == PreOrder(kids, c) + PreOrders(kids, p, 1);
    Regrouped([p], PreOrder(kids, c), PreOrders(kids, p, 1), Behind(kids, place, p));
  }

  /** Behind a node with a later sibling comes this sibling. */
  lemma {:induction false} OnToSibling(kids: seq<seq<nat>>, place: seq<Place>, p: nat)
    requires IsShape(kids, place) && Increasing(kids) && 1 < p <= |kids|
    requires 0 < place[p - 1].parent <= |kids| && place[p - 1].pos + 1 < |kids[place[p - 1].parent - 1]|
    ensures var s := kids[place[p - 1].parent - 1][place[p - 1].pos + 1];
            0 < s <= |kids| && Behind(kids, place, p) == From(kids, place, s)
                && Ancestors(kids, place, s) == Ancestors(kids, place, p)
  {
    var q, pos := place[p - 1].parent, place[p - 1].pos;
    KidPlace(kids, place, q - 1, pos + 1);
    var s := kids[q - 1][pos + 1];
    assert PreOrders(kids, q, pos + 1) == PreOrder(kids, s) + PreOrders(kids, q, pos + 2);
    Regrouped([], PreOrder(kids, s), PreOrders(kids, q, pos + 2), Behind(kids, place, q));
  }

  /** Behind a last sibling comes what is behind the parent. */
  lemma {:induction false} UpToParent(kids: seq<seq<nat>>, place: seq<Place>, p: nat)
    requires IsShape(kids, place) && Increasing(kids) && 1 < p <= |kids|
    requires 0 < place[p - 1].parent <= |kids| && place[p - 1].pos + 1 == |kids[place[p - 1].parent - 1]|
    ensures Behind(kids, place, p) == Behind(kids, place, place[p - 1].parent)
    ensures Ancestors(kids, place, p) == Ancestors(kids, place, place[p - 1].parent) + [place[p - 1].parent]
  {
    assert [] + Behind(kids, place, place[p - 1].parent) == Behind(kids, place, place[p - 1].parent);
  }

  /** The link of a node tells whether it has a later sibling. */
  lemma {:induction false} NextLink<T>(ar: seq<Node<T>>, lastar: seq<nat>, kids: seq<seq<nat>>, place: seq<Place>,
                                       p: nat)
    requires TreeOk(ar, lastar, kids, place) && 1 < p <= |kids|
    ensures var q, pos := place[p - 1].parent, place[p - 1].pos;
            0 < q < p && pos < |kids[q - 1]|
                && (if pos + 1 < |kids[q - 1]| then ar[p - 1].next == kids[q - 1][pos + 1] > 0 else ar[p - 1].next == 0)
  {
    var q, pos := place[p - 1].parent, place[p - 1].pos;
    assert PlaceOk(kids, place, p);
    KidPlace(kids, place, q - 1, pos);
    assert LinksOk(ar, kids, q - 1) && NextOk(ar, kids[q - 1], pos);
    if pos + 1 < |kids[q - 1]| { KidPlace(kids, place, q - 1, pos + 1); }
  }

  /** The child link of a node leads to the next node; a node without one is all there is below it. */
  lemma {:induction false} ChildStep<T>(ar: seq<Node<T>>, lastar: seq<nat>, kids: seq<seq<nat>>, place: seq<Place>,
                                        p: nat)
    requires TreeOk(ar, lastar, kids, place) && Increasing(kids) && 0 < p <= |kids|
    ensures var c := ar[p - 1].chld;
            if c == 0 then From(kids, place, p) == [p] + Behind(kids, place, p)
            else c <= |kids| && From(kids, place, p) == [p] + From(kids, place, c)
                 && Ancestors(kids, place, c) == Ancestors(kids, place, p) + [p]
  {
    assert LinksOk(ar, kids, p - 1);
    if kids[p - 1] != [] {
      KidPlace(kids, place, p - 1, 0);
      DownToChild(kids, place, p);
    } else {
      assert PreOrder(kids, p) == [p];
    }
  }

  /** The next link of a node leads to what is behind all below it. */
  lemma {:induction false} SiblingStep<T>(ar: seq<Node<T>>, lastar: seq<nat>, kids: seq<seq<nat>>, place: seq<Place>,
                                          p: nat)
    requires TreeOk(ar, lastar, kids, place) && Increasing(kids) && 0 < p <= |kids| && ar[p - 1].next != 0
    ensures var s := ar[p - 1].next; s <= |kids| && Behind(kids, place, p) == From(kids, place, s)
                                     && Ancestors(kids, place, s) == Ancestors(kids, place, p)
  {
    if p > 1 {
      NextLink(ar, lastar, kids, place, p);
      OnToSibling(kids, place, p);
    }
  }

  /** Without a next link it is behind the parent. */
  lemma {:induction false} ParentStep<T>(ar: seq<Node<T>>, lastar: seq<nat>, kids: seq<seq<nat>>, place: seq<Place>,
                                         p: nat)
    requires TreeOk(ar, lastar, kids, place) && Increasing(kids) && 1 < p <= |kids| && ar[p - 1].next == 0
    ensures var q := place[p - 1].parent;
            0 < q < p && Behind(kids, place, p) == Behind(kids, place, q)
                && Ancestors(kids, place, p) == Ancestors(kids, place, q) + [q]
  {
    var q, pos := place[p - 1].parent, place[p - 1].pos;
    NextLink(ar, lastar, kids, place, p);
    UpToParent(kids, place, p);
  }

  lemma {:induction false} ItemSet<T>(ar: seq<Node<T>>, lastar: seq<nat>, kids: seq<seq<nat>>, place: seq<Place>,
                                      p: nat, item: T)
    requires TreeOk(ar, lastar, kids, place) && 0 < p <= |ar|
    ensures var ar' := ar[p - 1 := ar[p - 1].(item := item)];
            TreeOk(ar', lastar, kids, place) && ItemsOf(ar') == ItemsOf(ar)[p - 1 := item]
  {
    var ar' := ar[p - 1 := ar[p - 1].(item := item)];
    forall i | 0 <= i < |kids| ensures LinksOk(ar', kids, i) {
      assert LinksOk(ar, kids, i);
      var ks := kids[i];
      forall j | 0 <= j < |ks| ensures NextOk(ar', ks, j) {
        assert NextOk(ar, ks, j);
      }
    }
  }

  datatype Added = Added(index: nat) | LogicError

  class Tree<T(0)> {
    var ar: seq<Node<T>>
    var lastar: seq<nat>
    ghost var kids: seq<seq<nat>>
    ghost var place: seq<Place>

    ghost predicate Valid()
      reads this
    {
      TreeOk(ar, lastar, kids, place)
    }

    constructor (root: T)
      ensures Valid() && |ar| == 1 && ar[0].item == root && lastar == [0] && kids == [[]]
    {
      ar, lastar, kids, place := [Node(root, 0, 0)], [0], [[]], [Place(0, 0)];
    }

    /** Replace the item of a node. */
    method SetItem(nodeidx: nat, item: T)
      requires Valid() && 0 < nodeidx <= |ar|
      modifies this`ar
      ensures Valid() && ItemsOf(ar) == ItemsOf(old(ar))[nodeidx - 1 := item]
    {
      ItemSet(ar, lastar, kids, place, nodeidx, item);
      ar := ar[nodeidx - 1 := ar[nodeidx - 1].(item := item)];
    }

    /** A node behind the last sibling of a first child. On any other node there is no record of the last sibling. */
    method AddSibling(nodeidx: nat, item: T, ghost p: nat) returns (r: Added)
      requires Valid() && 0 < p <= |ar| && nodeidx <= |ar|
      requires nodeidx > 0 && lastar[nodeidx - 1] != 0 ==> kids[p - 1] != [] && kids[p - 1][0] == nodeidx
      modifies this
      ensures if nodeidx == 0 then r == LogicError && ar == old(ar) && lastar == old(lastar) && kids == old(kids)
                                   && place == old(place)
              else if old(lastar)[nodeidx - 1] == 0 then
                   r == LogicError && ar == old(ar) + [Node(item, 0, 0)] && lastar == old(lastar) + [0] && !Valid()
              else Valid() && r == Added(|old(ar)| + 1) && kids == GrownKids(old(kids), p)
                   && place == old(place) + [Place(p, |old(kids)[p - 1]|)]
                   && ItemsGrown(old(ar), ar, item) && KidAdded(old(kids), kids, p)
    {
      if nodeidx == 0 {
        return LogicError;
      }
      var newindex := |ar| + 1;
      var lastref := lastar[nodeidx - 1];
      if lastref == 0 {
        ar := ar + [Node(item, 0, 0)];
        lastar := lastar + [0];
        return LogicError;
      }
      FirstAndLast(ar, lastar, kids, place, p);
      GrownTree(ar, lastar, kids, place, p, item, nodeidx, lastref);
      ghost var grown := GrownArray(ar, p, lastref, item);
      ar := ar + [Node(item, 0, 0)];
      ar := ar[lastref - 1 := ar[lastref - 1].(next := newindex)];
      lastar := (lastar + [0])[nodeidx - 1 := newindex];
      assert ar == grown;
      kids, place := GrownKids(kids, p), place + [Place(p, |kids[p - 1]|)];
      r := Added(newindex);
    }

    /** A node as last child of another. */
    method AddChild(nodeidx: nat, item: T) returns (r: Added)
      requires Valid() && nodeidx <= |ar|
      modifies this
      ensures Valid()
      ensures if nodeidx == 0 then r == LogicError && ar == old(ar) && kids == old(kids) && place == old(place)
              else r == Added(|old(ar)| + 1) && kids == GrownKids(old(kids), nodeidx)
                   && place == old(place) + [Place(nodeidx, |old(kids)[nodeidx - 1]|)]
                   && ItemsGrown(old(ar), ar, item) && KidAdded(old(kids), kids, nodeidx)
    {
      if nodeidx == 0 {
        return LogicError;
      }
      FirstAndLast(ar, lastar, kids, place, nodeidx);
      if ar[nodeidx - 1].chld == 0 {
        var newindex := |ar| + 1;
        GrownTree(ar, lastar, kids, place, nodeidx, item, 0, 0);
        ghost var grown := GrownArray(ar, nodeidx, 0, item);
        ar := ar + [Node(item, 0, 0)];
        lastar := lastar + [newindex];
        ar := ar[nodeidx - 1 := ar[nodeidx - 1].(chld := newindex)];
        assert ar == grown;
        kids, place := GrownKids(kids, nodeidx), place + [Place(nodeidx, |kids[nodeidx - 1]|)];
        r := Added(newindex);
      } else {
        r := AddSibling(ar[nodeidx - 1].chld, item, nodeidx);
      }
    }
  }

  lemma {:induction false} CopyStart<T, U>(items: seq<T>, kids: seq<seq<nat>>, place: seq<Place>, tr: T -> U, item: U)
    requires IsShape(kids, place) && |items| == |kids| && item == tr(items[0])
    ensures Copied(items, kids, place, tr, [item], [[]], map[1 := 1], {1}, 0, 0)
  {
    assert Look(0);
    forall i | i in map[1 := 1] ensures ItemCopied(items, tr, [item], map[1 := 1], i) {
    }
    forall j | 0 <= j < |kids[0]| ensures kids[0][j] > 1 {
      KidPlace(kids, place, 0, j);
    }
    assert KidsCopied(kids, [[]], map[1 := 1], 1, NumberCopied(kids, {1}, 0, 0, 1));
  }

  /** An open node is taken up, or one with all its children is done. */
  lemma {:induction false} CopyTakeUp<T, U>(items: seq<T>, kids: seq<seq<nat>>, place: seq<Place>, tr: T -> U,
                                            items': seq<U>, kids': seq<seq<nat>>, m: map<nat, nat>, open: set<nat>,
                                            cur: nat)
    requires Copied(items, kids, place, tr, items', kids', m, open, 0, 0) && cur in open && cur != 0
    ensures Copied(items, kids, place, tr, items', kids', m, open - {cur}, cur, 0)
    ensures cur in m && 0 < cur <= |kids| && 0 < m[cur] <= |kids'|
  {
    assert Look(0);
    assert cur in m && ItemCopied(items, tr, items', m, cur);
    forall i | i in m ensures ItemCopied(items, tr, items', m, i)
        && KidsCopied(kids, kids', m, i, NumberCopied(kids, open - {cur}, cur, 0, i)) {
      assert ItemCopied(items, tr, items', m, i);
      assert NumberCopied(kids, open - {cur}, cur, 0, i) == NumberCopied(kids, open, 0, 0, i);
      assert KidsCopied(kids, kids', m, i, NumberCopied(kids, open, 0, 0, i));
    }
  }

  lemma {:induction false} CopyDone<T, U>(items: seq<T>, kids: seq<seq<nat>>, place: seq<Place>, tr: T -> U,
                                          items': seq<U>, kids': seq<seq<nat>>, m: map<nat, nat>, open: set<nat>,
                                          cur: nat)
    requires 0 < cur <= |kids| && Copied(items, kids, place, tr, items', kids', m, open, cur, |kids[cur - 1]|)
        && cur !in open
    ensures Copied(items, kids, place, tr, items', kids', m, open, 0, 0)
  {
    assert Look(0);
    forall i | i in m ensures ItemCopied(items, tr, items', m, i)
        && KidsCopied(kids, kids', m, i, NumberCopied(kids, open, 0, 0, i)) {
      assert ItemCopied(items, tr, items', m, i);
      assert NumberCopied(kids, open, 0, 0, i) == NumberCopied(kids, open, cur, |kids[cur - 1]|, i);
      assert KidsCopied(kids, kids', m, i, NumberCopied(kids, open, cur, |kids[cur - 1]|, i));
    }
  }

  /** The stack holds the open nodes with their counterparts. */
  ghost predicate StackHolds(stack: seq<(nat, nat)>, m: map<nat, nat>, open: set<nat>) {
    && (forall k :: 0 <= k < |stack| ==> stack[k].0 in open && stack[k].0 in m && m[stack[k].0] == stack[k].1)
    && (forall k, l :: 0 <= k < l < |stack| ==> stack[k].0 != stack[l].0)
    && (forall i | i in open :: i in m && (i, m[i]) in stack)
  }

  lemma {:induction false} StackPop(stack: seq<(nat, nat)>, m: map<nat, nat>, open: set<nat>)
    requires StackHolds(stack, m, open) && stack != []
    ensures var top := stack[|stack| - 1];
            top.0 in open && top.0 in m && m[top.0] == top.1 && StackHolds(stack[..|stack| - 1], m, open - {top.0})
  {
    var n := |stack| - 1;
    forall i | i in open - {stack[n].0} ensures (i, m[i]) in stack[..n] {
      var k :| 0 <= k < |stack| && stack[k] == (i, m[i]);
      assert stack[..n][k] == stack[k];
    }
  }

  lemma {:induction false} StackPush(stack: seq<(nat, nat)>, m: map<nat, nat>, open: set<nat>, c: nat, d: nat)
    requires StackHolds(stack, m, open) && c !in m
    ensures StackHolds(stack + [(c, d)], m[c := d], open + {c})
  {
    var stack', m' := stack + [(c, d)], m[c := d];
    assert stack'[|stack|] == (c, d);
    forall i | i in open + {c} ensures (i, m'[i]) in stack' {
      if i != c {
        var k :| 0 <= k < |stack| && stack[k] == (i, m[i]);
        assert stack'[k] == stack[k];
      }
    }
  }

  /** The nodes that have been copied with all their children. */
  ghost predicate Finished(m: map<nat, nat>, open: set<nat>, finished: set<nat>, n: nat) {
    finished == m.Keys - open && forall i | i in m :: 0 < i <= n
  }

  lemma {:induction false} AtMost(s: set<nat>, n: nat)
    requires forall i | i in s :: 0 < i <= n
    ensures |s| <= n
    decreases n
  {
    if n > 0 {
      AtMost(s - {n}, n - 1);
      if n in s { assert s == s - {n} + {n}; } else { assert s == s - {n}; }
    } else {
      if i :| i in s { }
    }
  }

  lemma {:induction false} FinishOne(m: map<nat, nat>, open: set<nat>, finished: set<nat>, n: nat, cur: nat)
    requires Finished(m, open, finished, n) && cur in open && cur in m
    ensures Finished(m, open - {cur}, finished + {cur}, n) && |finished| < |finished + {cur}| <= n
  {
    AtMost(finished + {cur}, n);
  }

  /** The stack and the sets of nodes in the course of copying, unfolded only where Look is mentioned. */
  ghost predicate Stacked(stack: seq<(nat, nat)>, m: map<nat, nat>, open: set<nat>, finished: set<nat>, n: nat) {
    forall z: int {:trigger Look(z)} :: Look(z) ==> StackHolds(stack, m, open) && Finished(m, open, finished, n)
                                                    && 1 in m && m[1] == 1
  }

  lemma {:induction false} StackedPush(stack: seq<(nat, nat)>, m: map<nat, nat>, open: set<nat>, finished: set<nat>,
                                       n: nat, c: nat, d: nat)
    requires Stacked(stack, m, open, finished, n) && c !in m && 0 < c <= n
    ensures Stacked(stack + [(c, d)], m[c := d], open + {c}, finished, n)
  {
    assert Look(0);
    StackPush(stack, m, open, c, d);
  }

  lemma {:induction false} StackedPop(stack: seq<(nat, nat)>, m: map<nat, nat>, open: set<nat>, finished: set<nat>,
                                      n: nat)
    requires Stacked(stack, m, open, finished, n) && stack != []
    ensures var top := stack[|stack| - 1];
            top.0 in open && 0 < top.0 && top.0 in m && m[top.0] == top.1
                && Stacked(stack[..|stack| - 1], m, open - {top.0}, finished + {top.0}, n)
            && |finished| < |finished + {top.0}| <= n
  {
    assert Look(0);
    StackPop(stack, m, open);
    FinishOne(m, open, finished, n, stack[|stack| - 1].0);
  }

  /** A copy with other items and the same shape. */
  method Translate<T(0), U(0)>(t: Tree<T>, tr: T -> U) returns (rt: Tree<U>)
    requires t.Valid()
    ensures fresh(rt) && rt.Valid() && Increasing(t.kids) && Increasing(rt.kids)
    ensures forall translated: seq<U> | |translated| == |t.ar|
        && (forall k :: 0 <= k < |t.ar| ==> translated[k] == tr(t.ar[k].item)) ::
              RoseOf(ItemsOf(rt.ar), rt.kids, 1) == RoseOf(translated, t.kids, 1)
  {
    var ar := t.ar;
    ghost var lastar, items, kids, place := t.lastar, ItemsOf(ar), t.kids, t.place;
    rt := new Tree<U>(tr(ar[0].item));
    var stack: seq<(nat, nat)> := [(1, 1)];
    ghost var m, open, finished: set<nat> := map[1 := 1], {1}, {};
    CopyStart(items, kids, place, tr, rt.ar[0].item);
    assert ItemsOf(rt.ar) == [rt.ar[0].item];
    while stack != []
      invariant fresh(rt) && rt.Valid()
      invariant Copied(items, kids, place, tr, ItemsOf(rt.ar), rt.kids, m, open, 0, 0)
      invariant Stacked(stack, m, open, finished, |kids|)
      decreases |kids| - |finished|
    {
      var top := stack[|stack| - 1];
      ghost var cur := top.0;
      StackedPop(stack, m, open, finished, |kids|);
      stack := stack[..|stack| - 1];
      CopyTakeUp(items, kids, place, tr, ItemsOf(rt.ar), rt.kids, m, open, cur);
      open, finished := open - {cur}, finished + {cur};
      stack, m, open := CopyKids(ar, lastar, kids, place, tr, rt, top, stack, m, open, finished);
      CopyDone(items, kids, place, tr, ItemsOf(rt.ar), rt.kids, m, open, cur);
    }
    CopyFinished(ar, kids, place, tr, rt.ar, rt.kids, rt.place, m, open, finished);
  }

  /** A copy without open nodes has the same shape. */
  lemma {:induction false} CopyFinished<T, U>(ar: seq<Node<T>>, kids: seq<seq<nat>>, place: seq<Place>, tr: T -> U,
                                              ar': seq<Node<U>>, kids': seq<seq<nat>>, place': seq<Place>,
                                              m: map<nat, nat>, open: set<nat>, finished: set<nat>)
    requires IsShape(kids, place) && IsShape(kids', place') && |ar| == |kids| && |ar'| == |kids'|
    requires Copied(ItemsOf(ar), kids, place, tr, ItemsOf(ar'), kids', m, open, 0, 0)
        && Stacked([], m, open, finished, |kids|)
    ensures Increasing(kids) && Increasing(kids')
    ensures forall translated: seq<U> | |translated| == |ar|
        && (forall k :: 0 <= k < |ar| ==> translated[k] == tr(ar[k].item)) ::
              RoseOf(ItemsOf(ar'), kids', 1) == RoseOf(translated, kids, 1)
  {
    assert Look(0) && open == {};
    ShapeIncreasing(kids, place);
    ShapeIncreasing(kids', place');
    forall translated: seq<U> | |translated| == |ar| && (forall k :: 0 <= k < |ar| ==> translated[k] == tr(ar[k].item))
      ensures RoseOf(ItemsOf(ar'), kids', 1) == RoseOf(translated, kids, 1)
    {
      SameRose(ItemsOf(ar), kids, tr, ItemsOf(ar'), kids', place, m, translated, 1);
    }
  }

  /** Copy the children of a node. */
  method CopyKids<T, U(0)>(ar: seq<Node<T>>, ghost lastar: seq<nat>, ghost kids: seq<seq<nat>>,
                           ghost place: seq<Place>, tr: T -> U, rt: Tree<U>, top: (nat, nat), stack0: seq<(nat, nat)>,
                           ghost m0: map<nat, nat>, ghost open0: set<nat>, ghost finished: set<nat>)
    returns (stack: seq<(nat, nat)>, ghost m: map<nat, nat>, ghost open: set<nat>)
    requires TreeOk(ar, lastar, kids, place) && rt.Valid() && 0 < top.0 <= |ar| && 0 < top.1 <= |rt.ar| && top.0 in m0
        && m0[top.0] == top.1 && top.0 !in open0
    requires Copied(ItemsOf(ar), kids, place, tr, ItemsOf(rt.ar), rt.kids, m0, open0, top.0, 0)
    requires Stacked(stack0, m0, open0, finished, |kids|)
    modifies rt
    ensures rt.Valid() && top.0 !in open
    ensures Copied(ItemsOf(ar), kids, place, tr, ItemsOf(rt.ar), rt.kids, m, open, top.0, |kids[top.0 - 1]|)
    ensures Stacked(stack, m, open, finished, |kids|)
  {
    stack, m, open := stack0, m0, open0;
    ghost var ks := kids[top.0 - 1];
    assert LinksOk(ar, kids, top.0 - 1);
    var chld := ar[top.0 - 1].chld;
    ghost var j := 0;
    while chld != 0
      invariant j <= |ks| && chld == if j < |ks| then ks[j] else 0
      invariant rt.Valid() && top.0 in m && m[top.0] == top.1 && top.0 !in open && top.1 <= |rt.ar|
      invariant Copied(ItemsOf(ar), kids, place, tr, ItemsOf(rt.ar), rt.kids, m, open, top.0, j)
      invariant Stacked(stack, m, open, finished, |kids|)
      decreases |ks| - j
    {
      KidPlace(kids, place, top.0 - 1, j);
      ghost var ar0, kids0 := rt.ar, rt.kids;
      var added := rt.AddChild(top.1, tr(ar[chld - 1].item));
      assert ItemsOf(rt.ar) == ItemsOf(ar0) + [tr(ItemsOf(ar)[chld - 1])];
      CopyChild(ItemsOf(ar), kids, place, tr, ItemsOf(ar0), kids0, m, open, top.0, j, ItemsOf(rt.ar));
      StackedPush(stack, m, open, finished, |kids|, chld, added.index);
      stack := stack + [(chld, added.index)];
      m, open := m[chld := added.index], open + {chld};
      assert NextOk(ar, ks, j);
      chld := ar[chld - 1].next;
      j := j + 1;
    }
    if j < |ks| { KidPlace(kids, place, top.0 - 1, j); }
  }

  /** The items are those before and a new one. */
  ghost predicate ItemsGrown<T>(ar: seq<Node<T>>, ar': seq<Node<T>>, item: T) {
    |ar'| == |ar| + 1 && (forall i :: 0 <= i < |ar| ==> ar'[i].item == ar[i].item) && ar'[|ar|].item == item
  }

  /** Visits the nodes of a tree depth first. The position counts from 0, the stack holds numbers from 1. */
  class DepthFirstIterator<T> {
    const ar: seq<Node<T>>
    var position: nat
    var stack: seq<nat>

    constructor Begin(ar: seq<Node<T>>)
      requires ar != []
      ensures this.ar == ar && position == 0 && stack == [|ar| + 1]
    {
      this.ar := ar;
      position, stack := 0, [|ar| + 1];
    }

    /** The iterator stands on a node with its ancestors on the stack, or at the end; rest are the nodes from here
        on. */
    ghost predicate Valid(lastar: seq<nat>, kids: seq<seq<nat>>, place: seq<Place>, rest: seq<nat>)
      reads this
    {
      Stands(ar, lastar, kids, place, position, stack, rest)
    }

    /** Go on to the next node. */
    method Skip(ghost lastar: seq<nat>, ghost kids: seq<seq<nat>>, ghost place: seq<Place>, ghost rest: seq<nat>)
      returns (ghost rest': seq<nat>)
      requires Valid(lastar, kids, place, rest) && position < |ar|
      modifies this
      ensures Valid(lastar, kids, place, rest') && position <= |ar| && rest == [old(position) + 1] + rest'
    {
      rest' := StepDown(ar, lastar, kids, place, position, stack, rest);
      var node := ar[position];
      if node.chld != 0 {
        stack, position := stack + [position + 1], node.chld - 1;
      } else if node.next != 0 {
        StepOn(ar, lastar, kids, place, position, stack, rest');
        position := node.next - 1;
      } else {
        ClimbUp(lastar, kids, place, rest');
      }
    }

    /** From a last sibling up to the first ancestor with a later sibling, or to the end. */
    method ClimbUp(ghost lastar: seq<nat>, ghost kids: seq<seq<nat>>, ghost place: seq<Place>, ghost rest: seq<nat>)
      requires StandsBehind(ar, lastar, kids, place, position, stack, rest) && position < |ar| && ar[position].next == 0
      modifies this
      ensures Valid(lastar, kids, place, rest) && position <= |ar|
    {
      while stack != []
        invariant position <= |ar|
        invariant if stack == [] then Valid(lastar, kids, place, rest)
                  else position < |ar| && ar[position].next == 0
                       && StandsBehind(ar, lastar, kids, place, position, stack, rest)
        decreases |stack|
      {
        StepUp(ar, lastar, kids, place, position, stack, rest);
        position := stack[|stack| - 1] - 1;
        stack := stack[..|stack| - 1];
        if stack != [] && ar[position].next != 0 {
          StepOn(ar, lastar, kids, place, position, stack, rest);
          position := ar[position].next - 1;
          return;
        }
      }
    }
  }

  ghost predicate Stands<T>(ar: seq<Node<T>>, lastar: seq<nat>, kids: seq<seq<nat>>, place: seq<Place>, position: nat,
                            stack: seq<nat>, rest: seq<nat>) {
    forall z: int {:trigger Look(z)} :: Look(z) ==>
      && TreeOk(ar, lastar, kids, place) && Increasing(kids) && position <= |ar|
      && stack == (if position == |ar| then [] else Ancestors(kids, place, position + 1))
          && rest == From(kids, place, position + 1)
  }

  /** On a node below which all has been visited; rest are the nodes behind. */
  ghost predicate StandsBehind<T>(ar: seq<Node<T>>, lastar: seq<nat>, kids: seq<seq<nat>>, place: seq<Place>,
                                  position: nat, stack: seq<nat>, rest: seq<nat>) {
    forall z: int {:trigger Look(z)} :: Look(z) ==>
      && TreeOk(ar, lastar, kids, place) && Increasing(kids) && position < |ar|
      && stack == Ancestors(kids, place, position + 1) && rest == Behind(kids, place, position + 1)
  }

  /** Down to the first child, if there is one. */
  lemma {:induction false} StepDown<T>(ar: seq<Node<T>>, lastar: seq<nat>, kids: seq<seq<nat>>, place: seq<Place>,
                                       position: nat, stack: seq<nat>, rest: seq<nat>)
    returns (rest': seq<nat>)
    requires Stands(ar, lastar, kids, place, position, stack, rest) && position < |ar|
    ensures rest == [position + 1] + rest'
    ensures var c := ar[position].chld;
            if c == 0 then StandsBehind(ar, lastar, kids, place, position, stack, rest')
            else c <= |ar| && Stands(ar, lastar, kids, place, c - 1, stack + [position + 1], rest')
  {
    assert Look(0);
    ChildStep(ar, lastar, kids, place, position + 1);
    rest' := if ar[position].chld == 0 then Behind(kids, place, position + 1) else From(kids, place, ar[position].chld);
  }

  /** On to the next sibling. */
  lemma {:induction false} StepOn<T>(ar: seq<Node<T>>, lastar: seq<nat>, kids: seq<seq<nat>>, place: seq<Place>,
                                     position: nat, stack: seq<nat>, rest: seq<nat>)
    requires StandsBehind(ar, lastar, kids, place, position, stack, rest) && position < |ar| && ar[position].next != 0
    ensures ar[position].next <= |ar| && Stands(ar, lastar, kids, place, ar[position].next - 1, stack, rest)
  {
    assert Look(0);
    SiblingStep(ar, lastar, kids, place, position + 1);
  }

  /** From a node without a next link to its parent, or from the root to the end. */
  lemma {:induction false} StepUp<T>(ar: seq<Node<T>>, lastar: seq<nat>, kids: seq<seq<nat>>, place: seq<Place>,
                                     position: nat, stack: seq<nat>, rest: seq<nat>)
    requires StandsBehind(ar, lastar, kids, place, position, stack, rest) && position < |ar| && ar[position].next == 0
    ensures stack != []
    ensures var q, below := stack[|stack| - 1], stack[..|stack| - 1];
            if below == [] then q == |ar| + 1 && Stands(ar, lastar, kids, place, q - 1, below, rest)
            else 0 < q <= |ar| && StandsBehind(ar, lastar, kids, place, q - 1, below, rest)
  {
    assert Look(0);
    if position > 0 {
      ParentStep(ar, lastar, kids, place, position + 1);
      var q := place[position].parent;
      assert stack[..|stack| - 1] == Ancestors(kids, place, q);
    } else {
      assert stack == [|ar| + 1] && stack[..0] == [];
    }
  }

  /** A whole walk from the root visits the nodes in the order of the tree and ends. */
  method Walk<T>(ar: seq<Node<T>>, ghost lastar: seq<nat>, ghost kids: seq<seq<nat>>, ghost place: seq<Place>)
    returns (visited: seq<nat>)
    requires TreeOk(ar, lastar, kids, place)
    ensures Increasing(kids) && visited == PreOrder(kids, 1)
  {
    visited := [];
    var it := new DepthFirstIterator<T>.Begin(ar);
    ShapeIncreasing(kids, place);
    ghost var rest := PreOrder(kids, 1);
    StandsAtBegin(ar, lastar, kids, place);
    while it.position < |ar|
      invariant fresh(it) && it.ar == ar && it.position <= |ar| && it.Valid(lastar, kids, place, rest)
      invariant visited + rest == PreOrder(kids, 1)
      decreases |rest|
    {
      ghost var p, before := it.position + 1, visited;
      visited := visited + [it.position + 1];
      rest := it.Skip(lastar, kids, place, rest);
      Shifted(before, p, rest);
    }
    StandsAtEnd(ar, lastar, kids, place, it.position, it.stack, rest);
    assert visited + [] == visited;
  }

  lemma {:induction false} StandsAtBegin<T>(ar: seq<Node<T>>, lastar: seq<nat>, kids: seq<seq<nat>>, place: seq<Place>)
    requires TreeOk(ar, lastar, kids, place)
    ensures Increasing(kids) && Stands(ar, lastar, kids, place, 0, [|ar| + 1], PreOrder(kids, 1))
  {
    ShapeIncreasing(kids, place);
    assert PreOrder(kids, 1) + [] == PreOrder(kids, 1);
  }

  lemma {:induction false} StandsAtEnd<T>(ar: seq<Node<T>>, lastar: seq<nat>, kids: seq<seq<nat>>, place: seq<Place>,
                                          position: nat, stack: seq<nat>, rest: seq<nat>)
    requires Stands(ar, lastar, kids, place, position, stack, rest) && position >= |ar|
    ensures rest == []
  {
    assert Look(0);
  }

  lemma {:induction false} Shifted(a: seq<nat>, p: nat, b: seq<nat>)
    ensures a + ([p] + b) == (a + [p]) + b
  {
  }

  // ---------------------------------------------------------------- a copy of the same shape

  datatype Rose<T> = Rose(item: T, kids: seq<Rose<T>>)

  /** The tree below node i without its numbering. */
  ghost function RoseOf<T>(items: seq<T>, kids: seq<seq<nat>>, i: nat): Rose<T>
    requires Increasing(kids) && |items| == |kids| && 0 < i <= |kids|
    decreases |kids| - i, 1, 0
  {
    Rose(items[i - 1], RosesOf(items, kids, i, 0))
  }

  ghost function RosesOf<T>(items: seq<T>, kids: seq<seq<nat>>, i: nat, j: nat): seq<Rose<T>>
    requires Increasing(kids) && |items| == |kids| && 0 < i <= |kids| && j <= |kids[i - 1]|
    decreases |kids| - i, 0, |kids[i - 1]| - j
  {
    if j == |kids[i - 1]| then [] else [RoseOf(items, kids, kids[i - 1][j])] + RosesOf(items, kids, i, j + 1)
  }

  ghost function ItemsOf<T>(ar: seq<Node<T>>): (items: seq<T>)
    ensures |items| == |ar| && forall i :: 0 <= i < |ar| ==> items[i] == ar[i].item
  {
    seq(|ar|, i requires 0 <= i < |ar| => ar[i].item)
  }

  /** The first n children of node i of one tree are those of its counterpart in the other, the later ones have no
      counterpart yet. */
  ghost predicate KidsCopied(kids: seq<seq<nat>>, kids': seq<seq<nat>>, m: map<nat, nat>, i: nat, n: nat)
    requires i in m && 0 < i <= |kids| && 0 < m[i] <= |kids'|
  {
    var ks, ks' := kids[i - 1], kids'[m[i] - 1];
    && |ks'| == n <= |ks|
    && (forall j :: 0 <= j < n ==> ks[j] in m && ks'[j] == m[ks[j]])
    && (forall j :: n <= j < |ks| ==> ks[j] !in m)
  }

  ghost predicate ItemCopied<T, U>(items: seq<T>, tr: T -> U, items': seq<U>, m: map<nat, nat>, i: nat)
    requires i in m
  {
    0 < i <= |items| && 0 < m[i] <= |items'| && items'[m[i] - 1] == tr(items[i - 1])
  }

  ghost predicate Injective(m: map<nat, nat>) {
    forall i, k | i in m && k in m && m[i] == m[k] :: i == k
  }

  ghost predicate Copied<T, U>(items: seq<T>, kids: seq<seq<nat>>, place: seq<Place>, tr: T -> U, items': seq<U>,
                               kids': seq<seq<nat>>, m: map<nat, nat>, open: set<nat>, cur: nat, n: nat) {
    forall z: int {:trigger Look(z)} :: Look(z) ==> CopiedParts(items, kids, place, tr, items', kids', m, open, cur, n)
  }

  /** m maps nodes to their counterparts; those in open have their children still to come, of cur the first n are
      there. */
  ghost predicate CopiedParts<T, U>(items: seq<T>, kids: seq<seq<nat>>, place: seq<Place>, tr: T -> U, items': seq<U>,
                                    kids': seq<seq<nat>>, m: map<nat, nat>, open: set<nat>, cur: nat, n: nat) {
    && |items| == |kids| == |place| && |items'| == |kids'| && Injective(m)
    && (forall i {:trigger ItemCopied(items, tr, items', m, i)} | i in m :: ItemCopied(items, tr, items', m, i))
    && (forall i | i in open :: i in m)
    && (forall i {:trigger KidsCopied(kids, kids', m, i, NumberCopied(kids, open, cur, n, i))} | i in m ::
          ItemCopied(items, tr, items', m, i) && KidsCopied(kids, kids', m, i, NumberCopied(kids, open, cur, n, i)))
    && (forall i | i in m && 1 < i <= |place| :: place[i - 1].parent in m)
  }

  function NumberCopied(kids: seq<seq<nat>>, open: set<nat>, cur: nat, n: nat, i: nat): nat {
    if i == cur then n else if i in open || i == 0 || i > |kids| then 0 else |kids[i - 1]|
  }

  lemma {:induction false} CopyChild<T, U>(items: seq<T>, kids: seq<seq<nat>>, place: seq<Place>, tr: T -> U,
                                           items': seq<U>, kids': seq<seq<nat>>, m: map<nat, nat>, open: set<nat>,
                                           cur: nat, n: nat, items'': seq<U>)
    requires Copied(items, kids, place, tr, items', kids', m, open, cur, n) && IsShape(kids, place) && cur in m
        && cur !in open
    requires |items| == |kids| && 0 < cur <= |kids| && n < |kids[cur - 1]| && 0 < kids[cur - 1][n] <= |kids|
    requires items'' == items' + [tr(items[kids[cur - 1][n] - 1])]
    ensures var c := kids[cur - 1][n];
            c !in m && 0 < m[cur] <= |kids'|
            && Copied(items, kids, place, tr, items'', GrownKids(kids', m[cur]), m[c := |kids'| + 1], open + {c}, cur,
                n + 1)
  {
    assert Look(0);
    var c := kids[cur - 1][n];
    assert NumberCopied(kids, open, cur, n, cur) == n;
    assert ItemCopied(items, tr, items', m, cur);
    assert KidsCopied(kids, kids', m, cur, n);
    KidPlace(kids, place, cur - 1, n);
    var kids'', m', open' := GrownKids(kids', m[cur]), m[c := |kids'| + 1], open + {c};
    forall i | i in m ensures ItemCopied(items, tr, items', m, i) {
    }
    forall i | i in m' ensures ItemCopied(items, tr, items'', m', i) {
      if i != c { assert ItemCopied(items, tr, items', m, i); }
    }
    forall i | i in m' ensures KidsCopied(kids, kids'', m', i, NumberCopied(kids, open', cur, n + 1, i)) {
      CopyChildKids(items, kids, place, tr, items', kids', m, open, cur, n, i);
    }
  }

  lemma {:induction false} CopyChildKids<T, U>(items: seq<T>, kids: seq<seq<nat>>, place: seq<Place>, tr: T -> U,
                                               items': seq<U>, kids': seq<seq<nat>>, m: map<nat, nat>, open: set<nat>,
                                               cur: nat, n: nat, i: nat)
    requires Copied(items, kids, place, tr, items', kids', m, open, cur, n) && IsShape(kids, place) && cur in m
        && cur !in open
    requires 0 < cur <= |kids| && n < |kids[cur - 1]| && 0 < m[cur] <= |kids'|
    requires var c := kids[cur - 1][n]; c !in m && (i in m || i == c) && 0 < i <= |kids| && 0 < c <= |kids|
    requires i in m ==> 0 < m[i] <= |kids'|
    ensures var c := kids[cur - 1][n];
            KidsCopied(kids, GrownKids(kids', m[cur]), m[c := |kids'| + 1], i,
                NumberCopied(kids, open + {c}, cur, n + 1, i))
  {
    assert Look(0);
    var c := kids[cur - 1][n];
    KidPlace(kids, place, cur - 1, n);
    var ks := kids[i - 1];
    forall j | 0 <= j < |ks| ensures i < ks[j] <= |kids| && place[ks[j] - 1] == Place(i, j)
        && (ks[j] == c ==> i == cur && j == n) {
      KidPlace(kids, place, i - 1, j);
    }
    if i == c {
      assert forall j :: 0 <= j < |ks| ==> 1 < ks[j] <= |place| && place[ks[j] - 1].parent == c;
      assert forall j :: 0 <= j < |ks| ==> ks[j] !in m;
    } else {
      assert KidsCopied(kids, kids', m, i, NumberCopied(kids, open, cur, n, i));
    }
  }

  lemma {:induction false} SameRose<T, U>(items: seq<T>, kids: seq<seq<nat>>, tr: T -> U, items': seq<U>,
                                          kids': seq<seq<nat>>, place: seq<Place>, m: map<nat, nat>,
                                          translated: seq<U>, i: nat)
    requires Increasing(kids) && Increasing(kids') && Copied(items, kids, place, tr, items', kids', m, {}, 0, 0)
        && i in m && 0 < i <= |kids|
    requires |items| == |kids| && |items'| == |kids'|
    requires |translated| == |items| && forall k :: 0 <= k < |items| ==> translated[k] == tr(items[k])
    ensures 0 < m[i] <= |kids'| && RoseOf(items', kids', m[i]) == RoseOf(translated, kids, i)
    decreases |kids| - i, 1, 0
  {
    assert Look(0);
    assert ItemCopied(items, tr, items', m, i) && NumberCopied(kids, {}, 0, 0, i) == |kids[i - 1]|;
    assert KidsCopied(kids, kids', m, i, NumberCopied(kids, {}, 0, 0, i));
    SameRoses(items, kids, tr, items', kids', place, m, translated, i, 0);
  }

  lemma {:induction false} SameRoses<T, U>(items: seq<T>, kids: seq<seq<nat>>, tr: T -> U, items': seq<U>,
                                           kids': seq<seq<nat>>, place: seq<Place>, m: map<nat, nat>,
                                           translated: seq<U>, i: nat, j: nat)
    requires Increasing(kids) && Increasing(kids') && Copied(items, kids, place, tr, items', kids', m, {}, 0, 0)
        && i in m && 0 < i <= |kids|
    requires |items| == |kids| && |items'| == |kids'| && 0 < m[i] <= |kids'|
        && KidsCopied(kids, kids', m, i, |kids[i - 1]|)
    requires |translated| == |items| && (forall k :: 0 <= k < |items| ==> translated[k] == tr(items[k]))
        && j <= |kids[i - 1]|
    ensures RosesOf(items', kids', m[i], j) == RosesOf(translated, kids, i, j)
    decreases |kids| - i, 0, |kids[i - 1]| - j
  {
    assert Look(0);
    if j < |kids[i - 1]| {
      SameRose(items, kids, tr, items', kids', place, m, translated, kids[i - 1][j]);
      SameRoses(items, kids, tr, items', kids', place, m, translated, i, j + 1);
    }
  }
}
