/** A fact about real multiplication that the proofs about scaling use. */
module Reals {

  lemma NonnegProduct(a: real, b: real)
    requires a >= 0.0 && b >= 0.0
    ensures a * b >= 0.0
  {
  }
}
