/** Identities are numbers: there is always one that is not in use. */
module Numbers {

  /** Some number above all that are taken. */
  lemma {:induction false} Unused(taken: set<int>) returns (free: int)
    ensures forall n :: n in taken ==> n < free
  {
    free := 0;
    if n :| n in taken {
      var rest := Unused(taken - {n});
      free := if rest <= n then n + 1 else rest;
      assert forall m :: m in taken ==> m == n || m in taken - {n};
    }
  }
}
