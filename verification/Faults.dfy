/** What becomes of one primitive effect, shared by the models that inject failures. */
module Faults {
  datatype Fate = Works | Fails | FailsAfterwards

  /** From some primitive on nothing fails. */
  ghost predicate CalmFrom(fate: nat -> Fate, from: nat) {
    forall n :: from <= n ==> fate(n).Works?
  }
}
