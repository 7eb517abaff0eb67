/** Finite sets. */
module Sets {
  lemma {:induction false} SubsetSize<A>(a: set<A>, b: set<A>)
    requires a <= b
    ensures |a| <= |b|
  {
    assert b == a + (b - a);
  }

  predicate IsLeast(s: set<nat>, x: nat) {
    x in s && forall y | y in s :: x <= y
  }

  lemma {:induction false} LeastNatExists(s: set<nat>)
    requires s != {}
    ensures exists x :: IsLeast(s, x)
    decreases |s|
  {
    var x: nat :| x in s;
    var rest := s - {x};
    if rest != {} {
      LeastNatExists(rest);
      var y :| IsLeast(rest, y);
      var w := if x < y then x else y;
      forall z | z in s ensures w <= z { assert z == x || z in rest; }
      assert IsLeast(s, w);
    } else {
      assert s == {x} && IsLeast(s, x);
    }
  }

  function LeastNat(s: set<nat>): (x: nat)
    requires s != {}
    ensures IsLeast(s, x)
  {
    LeastNatExists(s);
    var x :| IsLeast(s, x);
    x
  }
}
