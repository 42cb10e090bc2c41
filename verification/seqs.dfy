/** Regrouping facts about sequence concatenation, shared by the proofs that split token spans. */
module Seqs {
  /** Concatenation is associative. */
  lemma Associative<T>(a: seq<T>, b: seq<T>, c: seq<T>)
    ensures a + (b + c) == (a + b) + c
  {
  }

  /** The empty sequence is a left unit. */
  lemma EmptyLeft<T>(a: seq<T>)
    ensures [] + a == a
  {
  }
}
