/** A guard for large predicates. */
module Guards {
  /** Predicates of the form `forall z :: Look(z) ==> parts` are only unfolded where Look is mentioned; they state
      the same as their parts. */
  ghost predicate Look(z: int) {
    true
  }
}
