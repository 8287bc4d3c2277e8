/** Facts about products of reals that the solver does not find on its own. */
module Reals {

  lemma MulNonNeg(a: real, b: real)
    requires 0.0 <= a && 0.0 <= b
    ensures 0.0 <= a * b
  {
  }

  lemma MulPos(a: real, b: real)
    requires 0.0 < a && 0.0 < b
    ensures 0.0 < a * b
  {
  }

  lemma MulMono(a: real, b: real, c: real)
    requires 0.0 <= a && b <= c
    ensures a * b <= a * c
  {
    MulNonNeg(a, c - b);
    assert a * (c - b) == a * c - a * b;
  }

  lemma MulUnit(a: real, b: real)
    requires 0.0 <= a <= 1.0 && 0.0 <= b <= 1.0
    ensures 0.0 <= a * b <= a && a * b <= b
  {
    MulMono(a, b, 1.0);
    MulMono(b, a, 1.0);
    MulNonNeg(a, b);
  }
}
