/** Small facts about sequences that the proofs elsewhere cite. */
module SeqFacts {

  /** Concatenation regroups freely; naming the regrouping keeps the solver
      from searching for it. */
  lemma AppendAssoc<T>(a: seq<T>, b: seq<T>, c: seq<T>)
    ensures a + b + c == a + (b + c)
  {
  }
}
