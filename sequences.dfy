/** Facts about sequences that the loops of the facet and of the equality
    checks use to keep their invariants. */
module Sequences {

  /** Regrouping a concatenation of three sequences. */
  lemma Regrouped<T>(a: seq<T>, b: seq<T>, c: seq<T>)
    ensures (a + b) + c == a + (b + c)
  {
  }
}
