/** The one law about sequence concatenation that the proofs elsewhere call on by name. */
module Sequences {

  /** Concatenation is associative; calling this names the regrouping a proof step needs. */
  lemma Assoc<T>(a: seq<T>, b: seq<T>, c: seq<T>)
    ensures a + (b + c) == (a + b) + c
  {
  }
}
