/** Scopes: half-open ranges of scope steps. */
module Scopes {

  const MAX_STEP: int := 0x7fff_ffff

  datatype Scope = Scope(start: int, end: int) {
    predicate Contains(o: Scope) {
      o.start >= start && o.end <= end
    }

    predicate Covers(step: int) {
      start <= step < end
    }

    predicate NonEmpty() {
      start < end
    }
  }

  /** Nested or disjoint. */
  predicate Compatible(a: Scope, b: Scope) {
    a.Contains(b) || b.Contains(a) || a.end <= b.start || b.end <= a.start
  }

  /** A set of non-empty scopes that are pairwise nested or disjoint. */
  ghost predicate Hierarchical(ss: set<Scope>) {
    && (forall s | s in ss :: s.NonEmpty())
    && (forall a, b | a in ss && b in ss :: Compatible(a, b))
  }

  /** Two scopes of a hierarchy that share a step are nested. */
  lemma {:induction false} OverlapIsNested(ss: set<Scope>, a: Scope, b: Scope, step: int)
    requires Hierarchical(ss) && a in ss && b in ss && a.Covers(step) && b.Covers(step)
    ensures a.Contains(b) || b.Contains(a)
  {
    assert Compatible(a, b);
  }
}
