/** What the solver has to be told about products. */
module Arithmetic {
  lemma Mono(a: int, b: int, c: nat)
    requires a <= b
    ensures a * c <= b * c
  {
    assert 0 <= (b - a) * c == b * c - a * c;
  }
}
