/** Products over sets, which do not depend on any order. */
module Products {
  import opened Reals

  // Multiplication by name, so that proofs can treat it as an unknown operation.
  function Times(a: real, b: real): real {
    a * b
  }

  lemma TimesComm(a: real, b: real)
    ensures Times(a, b) == Times(b, a)
  {
  }

  lemma TimesSwap(a: real, b: real, c: real)
    ensures Times(a, Times(b, c)) == Times(b, Times(a, c))
  {
  }

  lemma TimesOne(a: real)
    ensures Times(a, 1.0) == a && Times(1.0, a) == a
  {
  }

  lemma TimesRests(a: real, b: real)
    ensures Times(a, b) + Times(1.0 - a, b) == b
  {
  }

  lemma TimesHalf(a: real)
    ensures Times(a, 0.5) == a / 2.0
  {
  }

  lemma TimesPos(a: real, b: real)
    requires 0.0 < a && 0.0 < b
    ensures 0.0 < Times(a, b)
  {
    MulPos(a, b);
  }

  lemma TimesNonNeg(a: real, b: real)
    requires 0.0 <= a && 0.0 <= b
    ensures 0.0 <= Times(a, b)
  {
    MulNonNeg(a, b);
  }

  lemma TimesMono(a: real, b: real, c: real)
    requires 0.0 <= a && b <= c
    ensures Times(a, b) <= Times(a, c)
  {
    MulMono(a, b, c);
  }

  lemma TimesUnit(a: real, b: real)
    requires 0.0 <= a <= 1.0 && 0.0 <= b <= 1.0
    ensures 0.0 <= Times(a, b) <= a && Times(a, b) <= b
  {
    hide Times;
    TimesNonNeg(a, b);
    TimesMono(a, b, 1.0);
    TimesOne(a);
    TimesComm(a, b);
    TimesMono(b, a, 1.0);
    TimesOne(b);
  }

  ghost function ProdOver<T(!new)>(s: set<T>, f: T -> real): real {
    if s == {} then 1.0 else
      var x :| x in s;
      Times(f(x), ProdOver(s - {x}, f))
  }

  // Any element may be taken out first.
  lemma {:induction false} ProdRemove<T(!new)>(s: set<T>, f: T -> real, x: T)
    requires x in s
    ensures ProdOver(s, f) == Times(f(x), ProdOver(s - {x}, f))
    decreases |s|
  {
    hide Times;
    var y :| y in s && ProdOver(s, f) == Times(f(y), ProdOver(s - {y}, f));
    if y != x {
      ProdRemove(s - {y}, f, x);
      ProdRemove(s - {x}, f, y);
      assert s - {y} - {x} == s - {x} - {y};
      TimesSwap(f(y), f(x), ProdOver(s - {y} - {x}, f));
    }
  }

  lemma ProdAdd<T(!new)>(s: set<T>, f: T -> real, x: T)
    requires x !in s
    ensures ProdOver(s + {x}, f) == Times(ProdOver(s, f), f(x))
  {
    hide Times;
    ProdRemove(s + {x}, f, x);
    assert s + {x} - {x} == s;
    TimesComm(f(x), ProdOver(s, f));
  }

  // A product of numbers in [0, 1] lies in [0, 1] and below each factor.
  lemma {:induction false} ProdInUnit<T(!new)>(s: set<T>, f: T -> real)
    requires forall x :: x in s ==> 0.0 <= f(x) <= 1.0
    ensures 0.0 <= ProdOver(s, f) <= 1.0
    ensures forall x :: x in s ==> ProdOver(s, f) <= f(x)
    decreases |s|
  {
    hide Times;
    if s != {} {
      forall x | x in s
        ensures 0.0 <= ProdOver(s, f) <= f(x)
      {
        ProdRemove(s, f, x);
        ProdInUnit(s - {x}, f);
        TimesUnit(f(x), ProdOver(s - {x}, f));
      }
      var x :| x in s;
      assert ProdOver(s, f) <= f(x);
    }
  }

  // It is one exactly when every factor is one.
  lemma {:induction false} ProdIsOne<T(!new)>(s: set<T>, f: T -> real)
    requires forall x :: x in s ==> 0.0 <= f(x) <= 1.0
    ensures ProdOver(s, f) == 1.0 <==> forall x :: x in s ==> f(x) == 1.0
    decreases |s|
  {
    hide Times;
    ProdInUnit(s, f);
    if forall x :: x in s ==> f(x) == 1.0 {
      if s != {} {
        var x :| x in s;
        ProdRemove(s, f, x);
        ProdIsOne(s - {x}, f);
        TimesOne(1.0);
      }
    }
  }

  lemma {:induction false} ProdSame<T(!new)>(s: set<T>, f: T -> real, g: T -> real)
    requires forall x :: x in s ==> f(x) == g(x)
    ensures ProdOver(s, f) == ProdOver(s, g)
    decreases |s|
  {
    hide Times;
    if s != {} {
      var x :| x in s;
      ProdRemove(s, f, x);
      ProdRemove(s, g, x);
      ProdSame(s - {x}, f, g);
    }
  }
}
