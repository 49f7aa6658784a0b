module Arithmetic {
  lemma Distribute(m: nat, p: nat, k: nat)
    ensures m * (p + 1 + k) == m * p + m + m * k && m * k >= 0
  {
  }
}
