/**
 The phi coefficient of two executables, from their running times and the time both ran.
 The square root is an oracle: a number that is not negative and whose square is the radicand.
 */
module Correlation {
  import opened Domain
  import opened Reals
  import opened Model
  import opened Runs

  // t.n - a.b, the numerator.
  function Numerator(t: real, a: real, b: real, both: real): real {
    t * both - a * b
  }

  function Radicand(t: real, a: real, b: real): real {
    (a * (t - a)) * (b * (t - b))
  }

  ghost predicate IsRoot(d: real, x: real) {
    0.0 <= d && d * d == x
  }

  // `root` is the square root of the radicand.  There is no answer when either executable
  // has run never or always.
  function Phi(t: U64, a: U64, b: U64, both: U64, root: real): Option<real> {
    if t == 0 || a == 0 || b == 0 || a >= t || b >= t || root == 0.0 then None
    else Some(Numerator(t as real, a as real, b as real, both as real) / root)
  }

  ghost predicate AtMostOne(c: real) {
    -1.0 <= c <= 1.0
  }

  lemma DifferenceOfSquares(x: real, y: real)
    ensures x * x - y * y == (x - y) * (x + y)
  {
  }

  lemma SquareMono(x: real, y: real)
    requires 0.0 <= x && 0.0 <= y
    ensures x * x <= y * y <==> x <= y
  {
    DifferenceOfSquares(x, y);
    if x <= y {
      MulNonNeg(y - x, x + y);
      DifferenceOfSquares(y, x);
    } else {
      MulPos(x - y, x + y);
    }
  }

  // |n / d| <= 1 exactly when n^2 <= d^2.
  lemma QuotientBounded(n: real, d: real)
    requires 0.0 < d
    ensures AtMostOne(n / d) <==> n * n <= d * d
  {
    var size := if n < 0.0 then -n else n;
    SquareMono(size, d);
    assert size * size == n * n;
    var q := n / d;
    assert q * d == n;
    if q > 1.0 {
      MulPos(q - 1.0, d);
    } else if q < -1.0 {
      MulPos(-q - 1.0, d);
    } else {
      MulNonNeg(1.0 - q, d);
      MulNonNeg(1.0 + q, d);
    }
  }

  // One margin product dominates the sum of the two diagonal products.
  lemma MarginDominates(n11: real, n10: real, n01: real, n00: real)
    requires 0.0 <= n11 && 0.0 <= n10 && 0.0 <= n01 && 0.0 <= n00
    ensures (n11 + n10) * (n01 + n00) >= n11 * n00 + n10 * n01 >= 0.0
  {
    MulNonNeg(n11, n01);
    MulNonNeg(n10, n00);
    MulNonNeg(n11, n00);
    MulNonNeg(n10, n01);
    assert (n11 + n10) * (n01 + n00) == n11 * n01 + n11 * n00 + n10 * n01 + n10 * n00;
  }

  lemma NumeratorIsDeterminant(t: real, a: real, b: real, both: real)
    ensures Numerator(t, a, b, both) == both * (t - a - b + both) - (a - both) * (b - both)
  {
  }

  lemma ProductMono(x: real, y: real, z: real)
    requires 0.0 <= z && z <= x && z <= y
    ensures z * z <= x * y
  {
    MulMono(z, z, y);
    MulMono(y, z, x);
  }

  // (n11.n00 - n10.n01)^2 never exceeds the product of the four margins.
  lemma DeterminantBounded(p: real, q: real, x: real, y: real)
    requires 0.0 <= p && 0.0 <= q && p + q <= x && p + q <= y
    ensures (p - q) * (p - q) <= x * y
  {
    ProductMono(x, y, p + q);
    MulNonNeg(p, q);
    assert (p - q) * (p - q) == (p + q) * (p + q) - 4.0 * (p * q);
  }

  lemma SquaredNumeratorBounded(t: real, a: real, b: real, both: real)
    requires 0.0 <= both <= a && both <= b && a + b - both <= t
    ensures Numerator(t, a, b, both) * Numerator(t, a, b, both) <= Radicand(t, a, b)
  {
    var n11, n10, n01, n00 := both, a - both, b - both, t - a - b + both;
    MarginDominates(n11, n10, n01, n00);
    MarginDominates(n11, n01, n10, n00);
    DeterminantBounded(n11 * n00, n10 * n01, a * (t - a), b * (t - b));
    NumeratorIsDeterminant(t, a, b, both);
  }

  // Consistent running times give a coefficient between minus one and one.
  lemma PhiBounded(t: U64, a: U64, b: U64, both: U64, root: real)
    requires both <= a && both <= b && a + b - both <= t
    requires IsRoot(root, Radicand(t as real, a as real, b as real))
    ensures var c := Phi(t, a, b, both, root);
            c.Some? ==> AtMostOne(c.value)
  {
    if Phi(t, a, b, both, root).Some? {
      hide Numerator, Radicand;
      SquaredNumeratorBounded(t as real, a as real, b as real, both as real);
      QuotientBounded(Numerator(t as real, a as real, b as real, both as real), root);
    }
  }

  lemma CancelFactor(p: real, x: real, y: real)
    requires 0.0 < p
    ensures p * x <= p * y <==> x <= y
  {
    if x <= y {
      MulMono(p, x, y);
    } else {
      MulPos(p, x - y);
      assert p * (x - y) == p * x - p * y;
    }
  }

  lemma MarginIdentity(t: real, p: real, s: real, c: real)
    ensures p * (t * t - t * s + p) - (t * c - p) * (t * c - p) == t * (p * (t - s + 2.0 * c) - t * (c * c))
  {
  }

  lemma RegroupRadicand(t: real, a: real, b: real)
    ensures Radicand(t, a, b) == (a * b) * (t * t - t * (a + b) + a * b)
  {
    assert Radicand(t, a, b) == (a * b) * ((t - a) * (t - b));
    assert (t - a) * (t - b) == t * t - t * (a + b) + a * b;
  }

  // What must not be negative for the coefficient to be in range: no root, no quotient.
  function Slack(t: real, a: real, b: real, both: real): real {
    (a * b) * (t - (a + b) + 2.0 * both) - t * (both * both)
  }

  lemma RangeIdentity(t: real, a: real, b: real, both: real)
    ensures Radicand(t, a, b) - Numerator(t, a, b, both) * Numerator(t, a, b, both) == t * Slack(t, a, b, both)
  {
    RegroupRadicand(t, a, b);
    MarginIdentity(t, a * b, a + b, both);
    hide Radicand;
  }

  lemma SlackDecides(t: real, a: real, b: real, both: real)
    requires 0.0 < t
    ensures Numerator(t, a, b, both) * Numerator(t, a, b, both) <= Radicand(t, a, b) <==> 0.0 <= Slack(t, a, b, both)
  {
    RangeIdentity(t, a, b, both);
    hide Radicand, Slack, Numerator;
    CancelFactor(t, 0.0, Slack(t, a, b, both));
  }

  // For any times whatever, consistent or not, the coefficient is in range exactly when
  // t.both^2 <= a.b.(t - a - b + 2.both).
  lemma PhiInRangeIff(t: U64, a: U64, b: U64, both: U64, root: real)
    requires IsRoot(root, Radicand(t as real, a as real, b as real))
    ensures var c := Phi(t, a, b, both, root);
            c.Some? ==> (AtMostOne(c.value) <==> 0.0 <= Slack(t as real, a as real, b as real, both as real))
  {
    if Phi(t, a, b, both, root).Some? {
      hide Radicand, Slack, Numerator;
      SlackDecides(t as real, a as real, b as real, both as real);
      QuotientBounded(Numerator(t as real, a as real, b as real, both as real), root);
    }
  }

  // With no simultaneous time on record, as after an edge was pruned and reborn, the
  // coefficient is in range exactly when the two running times fit side by side.
  lemma PhiOfForgottenEdge(t: U64, a: U64, b: U64, root: real)
    requires 0 < a < t && 0 < b < t && root != 0.0
    requires IsRoot(root, Radicand(t as real, a as real, b as real))
    ensures var c := Phi(t, a, b, 0, root);
            c.Some? && (AtMostOne(c.value) <==> a + b <= t)
  {
    PhiInRangeIff(t, a, b, 0, root);
    var tr, ar, br := t as real, a as real, b as real;
    MulPos(ar, br);
    CancelFactor(ar * br, 0.0, tr - (ar + br));
    hide Radicand, Phi;
    assert Slack(tr, ar, br, 0.0) == (ar * br) * (tr - (ar + br));
  }

  // Two executables that each ran nine of ten seconds, with their common time forgotten,
  // get a coefficient of minus nine.
  lemma PhiOutOfRange(root: real)
    requires IsRoot(root, Radicand(10.0, 9.0, 9.0))
    ensures Phi(10, 9, 9, 0, root) == Some(-9.0)
  {
    assert Radicand(10.0, 9.0, 9.0) == 81.0;
    SquareMono(root, 9.0);
    SquareMono(9.0, root);
  }

  lemma QuotientSign(n: real, d: real)
    requires 0.0 < d
    ensures n / d > 0.0 <==> n > 0.0
    ensures n / d < 0.0 <==> n < 0.0
  {
    var q := n / d;
    assert q * d == n;
    if q > 0.0 {
      MulPos(q, d);
    } else if q < 0.0 {
      MulPos(-q, d);
    }
  }

  // The coefficient is positive exactly when the two ran together longer than two
  // independent executables would have, and negative exactly when shorter.
  lemma PhiSign(t: U64, a: U64, b: U64, both: U64, root: real)
    requires IsRoot(root, Radicand(t as real, a as real, b as real))
    ensures var c := Phi(t, a, b, both, root);
            c.Some? ==>
              && (c.value > 0.0 <==> t as real * both as real > a as real * b as real)
              && (c.value < 0.0 <==> t as real * both as real < a as real * b as real)
  {
    if Phi(t, a, b, both, root).Some? {
      hide Radicand;
      QuotientSign(Numerator(t as real, a as real, b as real, both as real), root);
    }
  }

  lemma RootOfSquare(root: real, x: real)
    requires 0.0 <= x && IsRoot(root, x * x)
    ensures root == x
  {
    SquareMono(root, x);
    SquareMono(x, root);
  }

  lemma ExtremeNumerators(t: real, a: real, root: real)
    requires 0.0 < a < t && IsRoot(root, Radicand(t, a, a))
    ensures 0.0 < root && Numerator(t, a, a, a) == root && Numerator(t, a, t - a, 0.0) == -root
  {
    MulPos(a, t - a);
    RootOfSquare(root, a * (t - a));
  }

  // Two executables that always run together correlate fully; two that take turns, inversely.
  lemma PhiExtremes(t: U64, a: U64, root: real)
    requires 0 < a < t
    requires IsRoot(root, Radicand(t as real, a as real, a as real))
    ensures Phi(t, a, a, a, root) == Some(1.0)
    ensures Phi(t, a, t - a, 0, root) == Some(-1.0)
  {
    ExtremeNumerators(t as real, a as real, root);
    hide Numerator, Radicand;
    assert (t - a) as real == t as real - a as real;
    assert root / root == 1.0 && -root / root == -1.0;
  }

  // Along every run from an empty model, for every pair whose edge was never pruned, the
  // coefficient computed at the end is between minus one and one.
  lemma RunPhiBounded(config: Config, steps: seq<Step>, k: EdgeKey, root: real)
    requires LegalRun(Start(config), steps) && k.a < k.b
    requires NeverForgets(Start(config), steps, k)
    requires var m := Exec(Start(config), steps).m;
             && k in m.edges
             && IsRoot(root, Radicand(m.modelTime as real, Total(m, k.a) as real, Total(m, k.b) as real))
    ensures var m := Exec(Start(config), steps).m;
            var c := Phi(m.modelTime, Total(m, k.a), Total(m, k.b), m.edges[k].both, root);
            c.Some? ==> AtMostOne(c.value)
  {
    var m := Exec(Start(config), steps).m;
    StartIsInv(config);
    RunKeepsInv(Start(config), steps);
    RunKeepsBalance(Start(config), steps, k);
    hide Exec, NeverForgets, Phi, AtMostOne, Radicand;
    assert EdgeOk(m.edges[k], k, m.exes, m.modelTime);
    PhiBounded(m.modelTime, Total(m, k.a), Total(m, k.b), m.edges[k].both, root);
  }
}
