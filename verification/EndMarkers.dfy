/** A grammar in which the end marker goes astray. */
module EndMarkers {
  import opened Grammar
  import opened FirstSets
  import opened Tables
  import opened FollowSets
  import opened LalrProperties
  import opened LookaheadBounds

  /** S = X A, X = "1", A = B "2", B = . */
  const STRAY: Productions := [Rule(1, [N(2), N(3)]), Rule(2, [T(1)]), Rule(3, [N(4), T(2)]), Rule(4, [])]

  lemma {:induction false} StrayWellFormed()
    ensures WellFormed(STRAY, 2)
  {
    assert STRAY[1].left == 2 && STRAY[2].left == 3 && STRAY[3].left == 4;
    assert HasProduction(STRAY, 2) && HasProduction(STRAY, 3) && HasProduction(STRAY, 4);
    forall p, i | 0 <= p < |STRAY| && 0 <= i < |STRAY[p].right| ensures SymbolOk(STRAY, 2, STRAY[p].right[i]) {
      assert p == 0 || p == 1 || p == 2;
      assert STRAY[p].right[i] in [N(2), N(3), T(1), N(4), T(2)];
    }
  }

  /** A does not vanish, and yet its FIRST set has the end marker, copied from the one of B. */
  lemma {:induction false} StrayFirst()
    ensures WellFormed(STRAY, 2) && !Nullable(STRAY, 3) && InFirst(STRAY, 3, 0)
  {
    StrayWellFormed();
    NullableByProduction(STRAY, 3);
    assert EndWithin(STRAY, 4, 0);
    assert LeadsOn(STRAY, 3, 2, 0);
    assert EndWithin(STRAY, 3, 1);
    assert STRAY[2].right[1] in STRAY[2].right;
    if Nullable(STRAY, 3) {
      var p := NullableHead(STRAY, 3);
    }
  }

  lemma {:induction false} StrayRest()
    ensures FirstSeq(STRAY, STRAY[0].right[1..], 0) && !NullableSeq(STRAY, STRAY[0].right[1..])
  {
    StrayFirst();
    var rest := STRAY[0].right[1..];
    assert rest == [N(3)] && rest[..0] == [];
    assert FirstAt(STRAY, rest, 0, 0);
    assert rest[0] in rest;
  }

  lemma {:induction false} XCannotEnd(d: nat)
    ensures !EndsWithin(STRAY, 2, d)
  {
    StrayRest();
    forall p: nat, i: nat ensures !VanishesBehind(STRAY, 2, p, i) {
      if StandsAt(STRAY, 2, p, i) {
        OnlyAtFront(p, i);
      }
    }
  }

  lemma {:induction false} OnlyAtFront(p: nat, i: nat)
    requires StandsAt(STRAY, 2, p, i)
    ensures p == 0 && i == 0
  {
    assert p == 0 || p == 1 || p == 2 || p == 3;
    assert i == 0 || i == 1;
  }

  lemma {:induction false} XIsFollowed()
    ensures Follow(STRAY, 2, 0)
  {
    StrayRest();
    assert ReachableWithin(STRAY, 1, 0);
    assert FollowBy(STRAY, 2, 0, 0, 0);
    assert FollowWithin(STRAY, 2, 0, 0);
  }

  /** So the end marker becomes a lookahead of X, although X cannot end a sentential form. */
  lemma {:induction false} EndMarkerOutsideFollow(m: Merge)
    requires MergeOk(STRAY, 2, m)
    ensures IsLookahead(m, 1, 0) && !CanEnd(STRAY, STRAY[1].left)
  {
    XIsFollowed();
    LookaheadsAreFollow(STRAY, 2, m, 1, 0);
    forall d: nat ensures !EndsWithin(STRAY, 2, d) { XCannotEnd(d); }
  }
}
