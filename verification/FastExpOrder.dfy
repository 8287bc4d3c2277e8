/**
 When `fast_exp_neg` keeps the order of its arguments.  Between two breakpoints of the range
 reduction it increases; across one it can drop, by so little that arguments a few
 millionths apart are never out of order.
 */
module FastExpOrder {
  import opened Reals
  import opened Products
  import opened FastExp
  import opened Domain
  import MarkovEdge

  // No reduced argument leaves [-BOUND, BOUND].
  const BOUND: real := 0.346574

  // Arguments at least this far apart are in order.
  const GAP: real := 0.000002

  /* ---------- the polynomial increases ---------- */

  // The slope of the chord of the polynomial, from coefficient `i` on.
  function Slope(i: nat, u: real, v: real): real
    requires i <= 6
    decreases 6 - i
  {
    if i == 6 then 0.0 else Tail(i + 1, u) + Times(v, Slope(i + 1, u, v))
  }

  lemma ChordIdentity(u: real, v: real, t: real, t': real, s: real)
    requires t - t' == Times(u - v, s)
    ensures Times(u, t) - Times(v, t') == Times(u - v, t + Times(v, s))
  {
    assert v * (t - t') == v * ((u - v) * s);
  }

  lemma {:induction false} SlopeIsChord(i: nat, u: real, v: real)
    requires i <= 6
    ensures Tail(i, u) - Tail(i, v) == Times(u - v, Slope(i, u, v))
    decreases 6 - i
  {
    if i == 6 {
      AllTails(u);
      AllTails(v);
      TimesZero(u - v);
    } else {
      SlopeIsChord(i + 1, u, v);
      TailTimes(i, u);
      TailTimes(i, v);
      var s := Slope(i + 1, u, v);
      assert Slope(i, u, v) == Tail(i + 1, u) + Times(v, s);
      hide Tail, Slope, Times;
      ChordIdentity(u, v, Tail(i + 1, u), Tail(i + 1, v), s);
    }
  }

  lemma TimesZero(a: real)
    ensures Times(a, 0.0) == 0.0
  {
  }

  lemma TailTimes(i: nat, r: real)
    requires i < 6
    ensures Tail(i, r) == COEFFICIENTS[i] + Times(r, Tail(i + 1, r))
  {
    TailStep(i, r);
    hide Tail;
  }

  lemma AllSlopes(u: real, v: real)
    ensures Slope(4, u, v) == C5
    ensures Slope(3, u, v) == Tail(4, u) + Times(v, Slope(4, u, v))
    ensures Slope(2, u, v) == Tail(3, u) + Times(v, Slope(3, u, v))
    ensures Slope(1, u, v) == Tail(2, u) + Times(v, Slope(2, u, v))
    ensures Slope(0, u, v) == Tail(1, u) + Times(v, Slope(1, u, v))
  {
    AllTails(u);
    assert Slope(6, u, v) == 0.0;
    assert Slope(5, u, v) == Tail(6, u) + Times(v, Slope(6, u, v));
    assert Slope(4, u, v) == Tail(5, u) + Times(v, Slope(5, u, v));
    hide Tail;
    TimesZero(v);
    TimesZero(u);
  }

  // Products of a reduced argument with numbers of either sign.
  lemma ProductBetween(r: real, h: real, low: real, high: real)
    requires -0.347 <= r <= 0.347 && 0.0 <= low <= h <= high
    ensures -0.347 * high <= Times(r, h) <= 0.347 * high
    ensures 0.3 <= r ==> 0.3 * low <= Times(r, h)
  {
    ProductInRange(r, h, high);
    if 0.3 <= r {
      MulNonNeg(r - 0.3, h);
      MulNonNeg(0.3, h - low);
    }
  }

  lemma TailsBounded(u: real)
    requires -0.347 <= u <= 0.347
    ensures 0.0387 <= Tail(4, u) <= 0.0446 && 0.1511 <= Tail(3, u) <= 0.1823
    ensures 0.4367 <= Tail(2, u) <= 0.5633 && 0.8045 <= Tail(1, u) <= 1.1955
    ensures 0.3 <= u ==> 1.13 <= Tail(1, u)
  {
    TailTimes(5, u);
    TailTimes(4, u);
    TailTimes(3, u);
    TailTimes(2, u);
    TailTimes(1, u);
    assert Tail(6, u) == 0.0;
    hide Tail, Times;
    ProductBetween(u, Tail(6, u), 0.0, 0.0);
    ProductBetween(u, Tail(5, u), 0.0083, 0.0084);
    ProductBetween(u, Tail(4, u), 0.0387, 0.0446);
    ProductBetween(u, Tail(3, u), 0.1511, 0.1823);
    ProductBetween(u, Tail(2, u), 0.4367, 0.5633);
  }

  // On the whole reduced range the slope exceeds 0.585, and 1.17 towards its right end.
  lemma SlopeBounded(u: real, v: real)
    requires -0.347 <= u <= 0.347 && -0.347 <= v <= 0.347
    ensures 0.585 <= Slope(0, u, v)
    ensures 0.3 <= u && 0.3 <= v ==> 1.17 <= Slope(0, u, v)
  {
    TailsBounded(u);
    AllSlopes(u, v);
    hide Tail, Slope, Times;
    ProductBetween(v, Slope(4, u, v), 0.0083, 0.0084);
    ProductBetween(v, Slope(3, u, v), 0.0357, 0.0476);
    ProductBetween(v, Slope(2, u, v), 0.1345, 0.1989);
    ProductBetween(v, Slope(1, u, v), 0.3676, 0.6324);
  }

  // Between two reduced arguments the polynomial grows at least so fast.
  lemma PolynomialGrows(u: real, v: real)
    requires -0.347 <= v <= u <= 0.347
    ensures 0.585 * (u - v) <= Polynomial(u) - Polynomial(v)
    ensures 0.3 <= v ==> 1.17 * (u - v) <= Polynomial(u) - Polynomial(v)
  {
    assert COEFFICIENTS[0..] == COEFFICIENTS;
    SlopeIsChord(0, u, v);
    SlopeBounded(u, v);
    assert Polynomial(u) == Tail(0, u) && Polynomial(v) == Tail(0, v);
    hide Tail, Slope, Polynomial;
    MulMono(u - v, 0.585, Slope(0, u, v));
    if 0.3 <= v {
      MulMono(u - v, 1.17, Slope(0, u, v));
    }
  }

  /* ---------- one breakpoint apart ---------- */

  lemma Expanded(r: real)
    ensures Polynomial(r) == 1.0 + r * (1.0 + r * (0.5 + r * (C3 + r * (C4 + r * C5))))
  {
    AllTails(r);
    hide Tail, Polynomial;
  }

  // At the very breakpoint the polynomial halved lies a little above itself.
  lemma Mismatch()
    ensures Polynomial(BOUND) - 2.0 * Polynomial(-BOUND) <= 0.00000322
  {
    Expanded(0.346574);
    Expanded(-0.346574);
    hide Polynomial;
  }

  lemma ReducedInBound(x: real)
    requires -87.0 <= x <= 0.0
    ensures -BOUND <= Reduced(x) <= BOUND
  {
    var t := x * LOG2E;
    var n := Multiple(x);
    assert n as real <= t + 0.5 < n as real + 1.0;
    assert -126 <= n <= 0;
    var c := LN2_HI + LN2_LO;
    assert Reduced(x) == x - n as real * c;
    assert LOG2E * Reduced(x) == t - n as real * (c * LOG2E);
  }

  // Reduced arguments on the two sides of a breakpoint, the whole ones at least GAP apart.
  lemma AcrossBreakpoint(r: real, s: real)
    requires -BOUND <= r <= BOUND && -BOUND <= s <= BOUND
    requires s - r >= GAP - (LN2_HI + LN2_LO)
    ensures Polynomial(r) <= 2.0 * Polynomial(s)
  {
    hide Polynomial;
    Mismatch();
    PolynomialGrows(s, -BOUND);
    PolynomialGrows(BOUND, r);
  }

  /* ---------- the order of results ---------- */

  lemma ReducedGap(x: real, y: real)
    ensures Multiple(y) == Multiple(x) + 1 ==> Reduced(y) - Reduced(x) == y - x - (LN2_HI + LN2_LO)
    ensures Multiple(y) == Multiple(x) ==> Reduced(y) - Reduced(x) == y - x
    ensures x <= y ==> Multiple(x) <= Multiple(y)
  {
  }

  lemma TimesCompare(a: real, p: real, q: real)
    requires 0.0 < a
    ensures Times(p, a) <= Times(q, a) <==> p <= q
    ensures Times(p, a) < Times(q, a) <==> p < q
  {
    assert Times(q, a) - Times(p, a) == (q - p) * a;
    if p < q {
      MulPos(q - p, a);
    } else if q < p {
      MulPos(p - q, a);
    }
  }

  lemma TimesDoubled(p: real, a: real)
    ensures Times(p, 2.0 * a) == Times(2.0 * p, a)
  {
  }

  lemma {:induction false} Pow2Quadruples(n: int, m: int)
    requires n + 2 <= m <= 0
    ensures Pow2(n + 1) == 2.0 * Pow2(n) && 4.0 * Pow2(n) <= Pow2(m)
    decreases m - n
  {
    assert Pow2(n) == Pow2(n + 1) / 2.0;
    assert Pow2(n + 1) == Pow2(n + 2) / 2.0;
    if n + 2 < m {
      Pow2Quadruples(n + 1, m);
    }
  }

  // Between two breakpoints the result increases strictly.
  lemma SameMultipleIncreases(x: real, y: real)
    requires -87.0 <= x < y <= 0.0 && Multiple(x) == Multiple(y)
    ensures FastExpNeg(x) < FastExpNeg(y)
  {
    ValueOf(x);
    ValueOf(y);
    ReducedGap(x, y);
    ReducedInBound(x);
    ReducedInBound(y);
    hide FastExpNeg, Polynomial, Multiple, Reduced, Pow2, Times;
    PolynomialGrows(Reduced(y), Reduced(x));
    TimesCompare(Pow2(Multiple(x)), Polynomial(Reduced(x)), Polynomial(Reduced(y)));
  }

  // Across one breakpoint all depends on the two polynomials.
  lemma NextMultipleIff(x: real, y: real)
    requires -87.0 <= x <= y <= 0.0 && Multiple(y) == Multiple(x) + 1
    ensures FastExpNeg(x) <= FastExpNeg(y) <==> Polynomial(Reduced(x)) <= 2.0 * Polynomial(Reduced(y))
  {
    ValueOf(x);
    ValueOf(y);
    var n, p, q := Multiple(x), Polynomial(Reduced(x)), Polynomial(Reduced(y));
    ReductionInRange(y);
    assert Pow2(n) == Pow2(n + 1) / 2.0;
    hide FastExpNeg, Polynomial, Multiple, Reduced, Pow2, Times;
    TimesDoubled(q, Pow2(n));
    TimesCompare(Pow2(n), p, 2.0 * q);
  }

  // Across more than one breakpoint the result always grows.
  lemma FarMultipleIncreases(x: real, y: real)
    requires -87.0 <= x <= y <= 0.0 && Multiple(x) + 2 <= Multiple(y)
    ensures FastExpNeg(x) < FastExpNeg(y)
  {
    ValueOf(x);
    ValueOf(y);
    var n, m, p, q := Multiple(x), Multiple(y), Polynomial(Reduced(x)), Polynomial(Reduced(y));
    ReductionInRange(x);
    ReductionInRange(y);
    PolynomialInRange(Reduced(x));
    PolynomialInRange(Reduced(y));
    Pow2Quadruples(n, m);
    hide FastExpNeg, Polynomial, Multiple, Reduced, Pow2, Times;
    TimesDoubled(q, 2.0 * Pow2(n));
    TimesDoubled(2.0 * q, Pow2(n));
    TimesMono(q, 4.0 * Pow2(n), Pow2(m));
    TimesCompare(Pow2(n), p, 4.0 * q);
  }

  // The exact condition, for all arguments: order is lost only across exactly one breakpoint,
  // and there exactly when twice the later polynomial falls short of the earlier one.
  predicate KeepsOrder(x: real, y: real) {
    x < -87.0 || Multiple(y) != Multiple(x) + 1 || Polynomial(Reduced(x)) <= 2.0 * Polynomial(Reduced(y))
  }

  lemma MonotoneIff(x: real, y: real)
    requires x <= y <= 0.0
    ensures FastExpNeg(x) <= FastExpNeg(y) <==> KeepsOrder(x, y)
  {
    if -87.0 <= x && x < y {
      ReducedGap(x, y);
      hide FastExpNeg, Polynomial, Multiple, Reduced;
      if Multiple(x) == Multiple(y) {
        SameMultipleIncreases(x, y);
      } else if Multiple(y) == Multiple(x) + 1 {
        NextMultipleIff(x, y);
      } else {
        FarMultipleIncreases(x, y);
      }
    } else {
      hide Polynomial, Multiple, Reduced, Times;
    }
  }

  // Arguments at least GAP apart are never out of order.
  lemma FarApartInOrder(x: real, y: real)
    requires x + GAP <= y <= 0.0
    ensures FastExpNeg(x) <= FastExpNeg(y)
  {
    MonotoneIff(x, y);
    if -87.0 <= x && Multiple(y) == Multiple(x) + 1 {
      ReducedGap(x, y);
      ReducedInBound(x);
      ReducedInBound(y);
      hide FastExpNeg, Polynomial, Multiple, Reduced;
      AcrossBreakpoint(Reduced(x), Reduced(y));
    }
  }

  lemma ProductsApart(decay: real, shorter: real, longer: real)
    requires GAP <= decay && 0.0 <= shorter && shorter + 1.0 <= longer
    ensures -(decay * longer) + GAP <= -(decay * shorter)
  {
    MulMono(decay, shorter + 1.0, longer);
    assert decay * (shorter + 1.0) == decay * shorter + decay;
  }

  lemma ExponentsApart(decay: real, shorter: U64, longer: U64)
    requires GAP <= decay && shorter < longer
    ensures MarkovEdge.Exponent(decay, longer) + GAP <= MarkovEdge.Exponent(decay, shorter)
  {
    ProductsApart(decay, shorter as real, longer as real);
  }

  // So with a decay of at least GAP a second, a longer time never weighs more.
  lemma LongerWeighsLess(decay: real, shorter: U64, longer: U64)
    requires GAP <= decay && shorter <= longer
    ensures MarkovEdge.Weight(decay, longer) <= MarkovEdge.Weight(decay, shorter)
  {
    hide FastExpNeg, MarkovEdge.Exponent;
    if shorter < longer {
      ExponentsApart(decay, shorter, longer);
      FarApartInOrder(MarkovEdge.Exponent(decay, longer), MarkovEdge.Exponent(decay, shorter));
    }
  }

  // To second order `value` is the exponential of x: with x = n.ln 2 + r in the code's
  // constants, 2^n (1 + r + theta.r^2) for a theta near a half.
  ghost predicate SecondOrderAt(x: real, value: real)
    requires -87.0 <= x <= 0.0
  {
    var n, r := Multiple(x), Reduced(x);
    && x == n as real * LN2_HI + n as real * LN2_LO + r
    && -0.347 <= r <= 0.347 && 0.43 <= Tail(2, r) <= 0.57
    && value == Times(Polynomial(r), Pow2(n)) && Polynomial(r) == 1.0 + r + Tail(2, r) * (r * r)
  }

  // The weight after `elapsed` seconds is so the exponential of minus the decay times them.
  lemma WeightIsExponential(decay: real, elapsed: U64, x: real)
    requires 0.0 <= decay && x == -(decay * elapsed as real) && -87.0 <= x <= 0.0
    ensures SecondOrderAt(x, MarkovEdge.Weight(decay, elapsed))
  {
    assert MarkovEdge.Weight(decay, elapsed) == FastExpNeg(x) by {
      WeightIs(decay, elapsed, x);
    }
    hide FastExpNeg, MarkovEdge.Weight, Polynomial, Tail, Pow2, Times, Multiple, Reduced;
    SecondOrder(x);
    ReductionInRange(x);
  }

  lemma WeightIs(decay: real, elapsed: U64, x: real)
    requires 0.0 <= decay && x == -(decay * elapsed as real) && x <= 0.0
    ensures MarkovEdge.Weight(decay, elapsed) == FastExpNeg(x)
  {
    hide FastExpNeg;
  }

  const EARLIER: real := -0.34657361
  const LATER: real := -0.34657358

  // Two arguments that a breakpoint separates and that are out of order.
  lemma NotMonotone()
    ensures EARLIER < LATER && FastExpNeg(EARLIER) > FastExpNeg(LATER)
  {
    var x, y := EARLIER, LATER;
    assert Multiple(x) == -1 && Multiple(y) == 0;
    assert Reduced(x) == 0.3465735686068 && Reduced(y) == y;
    MonotoneIff(x, y);
    hide FastExpNeg, Multiple, Reduced, Polynomial;
    assert Polynomial(0.3465735686068) > 1.414211 by {
      Expanded(0.3465735686068);
    }
    assert Polynomial(-0.34657358) < 0.7071045 by {
      Expanded(-0.34657358);
    }
  }
}
