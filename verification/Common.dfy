/** Notions used all over. */
module Common {

  datatype Option<T> = None | Some(value: T)

  /** A number beyond all of a set: there is always another address, and another temporary. */
  lemma Beyond(s: set<nat>) returns (p: nat)
    ensures forall q :: q in s ==> q < p
  {
    p := 0;
    var rest := s;
    while rest != {}
      invariant rest <= s && forall q :: q in s && q !in rest ==> q < p
      decreases rest
    {
      var q :| q in rest;
      rest := rest - {q};
      p := if q < p then p else q + 1;
    }
  }
}
