/** Multiples of a real number, kept behind a name so that proofs need not multiply. */
module Reals {

  function Times(a: real, k: int): real {
    a * k as real
  }

  lemma TimesAdd(a: real, k: int, m: int)
    ensures Times(a, k + m) == Times(a, k) + Times(a, m)
    ensures Times(a, 1) == a && Times(a, 0) == 0.0
    ensures a >= 0.0 && k >= 0 ==> Times(a, k) >= 0.0
  {
    assert (k + m) as real == k as real + m as real;
  }
}
