/** Facts about sequences that the other modules share. */
module Seqs {

  /** Concatenation is associative; stated apart because the solver finds the
      regrouping expensive inside larger proofs. */
  lemma Assoc<T>(a: seq<T>, b: seq<T>, c: seq<T>)
    ensures a + (b + c) == a + b + c
  {
  }
}
