/**
 `fast_exp_neg`: the exponential of a non-positive argument by range reduction,
 a fifth-degree polynomial and a power of two assembled from its bit pattern.
 Arithmetic is exact on the decimal constants of the source.
 */
module FastExp {
  import opened Reals
  import opened Products

  const LOG2E: real := 1.44269504
  const LN2_HI: real := 0.69314575
  const LN2_LO: real := 0.0000014286068
  const C3: real := 0.16666667
  const C4: real := 0.041666668
  const C5: real := 0.008333334

  // 2^k for any integer k.
  function Pow2(k: int): (r: real)
    ensures r > 0.0
    ensures k <= 0 ==> r <= 1.0
    ensures k <= -1 ==> r <= 0.5
    decreases if k < 0 then -k else k
  {
    if k == 0 then 1.0 else if k > 0 then 2.0 * Pow2(k - 1) else Pow2(k + 1) / 2.0
  }

  // The value of a normal, non-negative binary32 bit pattern (IEEE 754-2019, section 3.4).
  function FromBits(bits: nat): real
    requires 1 <= bits / 0x80_0000 <= 254
  {
    (1.0 + (bits % 0x80_0000) as real / 8388608.0) * Pow2(bits / 0x80_0000 - 127)
  }

  // The integer multiple of ln 2 taken out of the argument.
  function Multiple(x: real): int {
    (x * LOG2E + 0.5).Floor
  }

  // What is left of the argument.
  function Reduced(x: real): real {
    x - Multiple(x) as real * LN2_HI - Multiple(x) as real * LN2_LO
  }

  const COEFFICIENTS: seq<real> := [1.0, 1.0, 0.5, C3, C4, C5]

  // A polynomial in Horner form, lowest coefficient first.
  function Horner(cs: seq<real>, r: real): real {
    if cs == [] then 0.0 else cs[0] + r * Horner(cs[1..], r)
  }

  function Polynomial(r: real): real {
    Horner(COEFFICIENTS, r)
  }

  function ScaleBits(n: int): nat
    requires -126 <= n <= 0
  {
    (n + 127) * 0x80_0000
  }

  // The reduced argument stays within 0.347 of zero, and the biased exponent is
  // that of a normal number no larger than one.
  lemma ReductionInRange(x: real)
    requires -87.0 <= x <= 0.0
    ensures -0.347 <= Reduced(x) <= 0.347
    ensures 1 <= Multiple(x) + 127 <= 127
    ensures Multiple(x) == 0 ==> Reduced(x) == x
  {
    var t := x * LOG2E;
    var n := Multiple(x);
    assert n as real <= t + 0.5 < n as real + 1.0;
    assert -125.6 <= t <= 0.0;
    assert -126 <= n <= 0;
    var c := LN2_HI + LN2_LO;
    assert Reduced(x) == x - n as real * c;
    assert LOG2E * Reduced(x) == t - n as real * (c * LOG2E);
  }

  lemma ProductInRange(r: real, h: real, bound: real)
    requires -0.347 <= r <= 0.347
    requires 0.0 <= h <= bound
    ensures -0.347 * bound <= r * h <= 0.347 * bound
    ensures r <= 0.0 ==> r * h <= 0.0
  {
    MulNonNeg(0.347 - r, h);
    MulNonNeg(0.347 + r, h);
    if r <= 0.0 {
      MulNonNeg(-r, h);
    }
  }

  // The polynomial from coefficient `i` on.
  function Tail(i: nat, r: real): real
    requires i <= 6
  {
    Horner(COEFFICIENTS[i..], r)
  }

  lemma TailStep(i: nat, r: real)
    requires i < 6
    ensures Tail(i, r) == COEFFICIENTS[i] + r * Tail(i + 1, r)
  {
    assert COEFFICIENTS[i..][1..] == COEFFICIENTS[i + 1..];
  }

  lemma AllTails(r: real)
    ensures Tail(6, r) == 0.0 && Tail(5, r) == C5 + r * Tail(6, r) && Tail(4, r) == C4 + r * Tail(5, r)
    ensures Tail(3, r) == C3 + r * Tail(4, r) && Tail(2, r) == 0.5 + r * Tail(3, r)
    ensures Tail(1, r) == 1.0 + r * Tail(2, r) && Polynomial(r) == 1.0 + r * Tail(1, r)
  {
    assert COEFFICIENTS[0..] == COEFFICIENTS;
    assert Tail(6, r) == 0.0;
    TailStep(5, r);
    TailStep(4, r);
    TailStep(3, r);
    TailStep(2, r);
    TailStep(1, r);
    TailStep(0, r);
    hide Horner;
  }

  lemma PolynomialInRange(r: real)
    requires -0.347 <= r <= 0.347
    ensures 0.5 < Polynomial(r) < 1.5
    ensures r < 0.0 ==> Polynomial(r) < 1.0
    ensures r == 0.0 ==> Polynomial(r) == 1.0
  {
    AllTails(r);
    hide Tail, Polynomial;
    ProductInRange(r, Tail(5, r), 0.01);
    ProductInRange(r, Tail(4, r), 0.05);
    ProductInRange(r, Tail(3, r), 0.19);
    ProductInRange(r, Tail(2, r), 0.57);
    ProductInRange(r, Tail(1, r), 1.2);
    if r < 0.0 {
      MulPos(-r, Tail(1, r));
    }
  }

  lemma ScaleIsPowerOfTwo(n: int)
    requires -126 <= n <= 0
    ensures 1 <= ScaleBits(n) / 0x80_0000 <= 127
    ensures FromBits(ScaleBits(n)) == Pow2(n)
  {
    assert ScaleBits(n) / 0x80_0000 == n + 127;
    assert ScaleBits(n) % 0x80_0000 == 0;
  }

  // The power of two whose biased exponent is n + 127.
  function Scale(n: int): (r: real)
    requires -126 <= n <= 0
    ensures r == Pow2(n)
  {
    ScaleIsPowerOfTwo(n);
    FromBits(ScaleBits(n))
  }

  function Reconstruct(p: real, n: int): real
    requires -126 <= n <= 0
  {
    Times(p, Scale(n))
  }

  // Scaled by a half or less the polynomial stays below three quarters.
  lemma ScaledByHalf(p: real, s: real)
    requires 0.0 < p < 1.5 && 0.0 < s <= 0.5
    ensures 0.0 < Times(p, s) < 1.0
  {
    hide Times;
    TimesPos(p, s);
    TimesMono(p, s, 0.5);
    TimesHalf(p);
  }

  lemma ReconstructInRange(p: real, n: int)
    requires -126 <= n <= 0
    requires 0.5 < p < 1.5 && (n == 0 ==> p <= 1.0)
    ensures 0.0 < Reconstruct(p, n) <= 1.0
    ensures n < 0 || p < 1.0 ==> Reconstruct(p, n) < 1.0
    ensures n == 0 ==> Reconstruct(p, n) == p
  {
    assert n == 0 ==> Pow2(n) == 1.0;
    hide Scale, Pow2, Times;
    if n == 0 {
      TimesOne(p);
    } else {
      ScaledByHalf(p, Scale(n));
    }
  }

  function FastExpNeg(x: real): (r: real)
    requires x <= 0.0
    ensures 0.0 <= r <= 1.0
    ensures r == 1.0 <==> x == 0.0
    ensures r == 0.0 <==> x < -87.0
  {
    if x < -87.0 then
      0.0
    else
      ReductionInRange(x);
      PolynomialInRange(Reduced(x));
      ReconstructInRange(Polynomial(Reduced(x)), Multiple(x));
      Reconstruct(Polynomial(Reduced(x)), Multiple(x))
  }

  lemma ValueOf(x: real)
    requires -87.0 <= x <= 0.0
    ensures FastExpNeg(x) == Times(Polynomial(Reduced(x)), Pow2(Multiple(x)))
  {
    ReductionInRange(x);
    hide Polynomial, Multiple, Reduced, Pow2, Scale, Times;
  }

  lemma SecondTail(r: real)
    requires -0.347 <= r <= 0.347
    ensures 0.43 <= Tail(2, r) <= 0.57
    ensures Polynomial(r) == 1.0 + r + Tail(2, r) * (r * r)
  {
    AllTails(r);
    hide Tail, Polynomial;
    ProductInRange(r, Tail(5, r), 0.01);
    ProductInRange(r, Tail(4, r), 0.05);
    ProductInRange(r, Tail(3, r), 0.19);
  }

  // With x = n.ln 2 + r, the result is 2^n (1 + r + theta.r^2) for a theta near a half, as it
  // is for the exponential.
  lemma SecondOrder(x: real)
    requires -87.0 <= x <= 0.0
    ensures var n, r := Multiple(x), Reduced(x);
            && x == n as real * LN2_HI + n as real * LN2_LO + r
            && 0.43 <= Tail(2, r) <= 0.57
            && Polynomial(r) == 1.0 + r + Tail(2, r) * (r * r)
            && FastExpNeg(x) == Times(Polynomial(r), Pow2(n))
  {
    hide FastExpNeg, Polynomial, Tail, Pow2, Times;
    ReductionInRange(x);
    ValueOf(x);
    SecondTail(Reduced(x));
  }
}
