/** Zero-mean normalised correlation of two equally long lists of samples. */
module Correlation {
  import opened Reals

  function Dot(x: seq<real>, y: seq<real>): real
    requires |x| == |y|
  {
    if x == [] then 0.0
    else
      var n := |x| - 1;
      Dot(x[..n], y[..n]) + Times(x[n], y[n])
  }

  function Centred(x: seq<real>): (c: seq<real>)
    requires x != []
    ensures |c| == |x|
  {
    seq(|x|, i requires 0 <= i < |x| => x[i] - Mean(x))
  }

  function Numerator(a: seq<real>, b: seq<real>): real
    requires |a| == |b| > 0
  {
    Dot(Centred(a), Centred(b))
  }

  function Energy(a: seq<real>): real
    requires a != []
  {
    Numerator(a, a)
  }

  /** A square root in exact arithmetic. */
  ghost predicate IsRoot(root: real -> real) {
    forall e: real :: e >= 0.0 ==> root(e) >= 0.0 && Square(root(e)) == e
  }

  const EPSILON: real := 1.0 / 4503599627370496.0

  function Denominator(a: seq<real>, b: seq<real>, root: real -> real): real
    requires |a| == |b| > 0
  {
    root(Times(Energy(a), Energy(b)))
  }

  function Score(a: seq<real>, b: seq<real>, root: real -> real): real
    requires |a| == |b| > 0
  {
    if Denominator(a, b, root) > EPSILON then Numerator(a, b) / Denominator(a, b, root) else -1.0
  }

  function Deviations(x: seq<real>, mean: real): (d: seq<real>)
    ensures |d| == |x|
  {
    seq(|x|, i requires 0 <= i < |x| => x[i] - mean)
  }

  lemma DeviationsFromMean(x: seq<real>)
    requires x != []
    ensures Deviations(x, Mean(x)) == Centred(x)
  {
  }

  // Linear combinations.

  function Mixed(p: real, x: seq<real>, q: real, y: seq<real>): (z: seq<real>)
    requires |x| == |y|
    ensures |z| == |x|
  {
    seq(|x|, i requires 0 <= i < |x| => Times(p, x[i]) + Times(q, y[i]))
  }

  lemma DotUnfolds(x: seq<real>, y: seq<real>)
    requires |x| == |y|
    ensures x == [] ==> Dot(x, y) == 0.0
    ensures x != [] ==> var n := |x| - 1; Dot(x, y) == Dot(x[..n], y[..n]) + Times(x[n], y[n])
  {
  }

  lemma MixedPrefix(p: real, x: seq<real>, q: real, y: seq<real>, n: nat)
    requires |x| == |y| && n <= |x|
    ensures Mixed(p, x, q, y)[..n] == Mixed(p, x[..n], q, y[..n])
    ensures forall i :: 0 <= i < |x| ==> Mixed(p, x, q, y)[i] == Times(p, x[i]) + Times(q, y[i])
  {
    hide Times;
  }

  lemma {:induction false} DotCommutes(x: seq<real>, y: seq<real>)
    requires |x| == |y|
    ensures Dot(x, y) == Dot(y, x)
  {
    hide *;
    DotUnfolds(x, y);
    DotUnfolds(y, x);
    if x != [] {
      var n := |x| - 1;
      DotCommutes(x[..n], y[..n]);
      Spread(x[n], y[n], 0.0);
    }
  }

  lemma {:induction false} DotMixedLeft(p: real, x: seq<real>, q: real, y: seq<real>, z: seq<real>)
    requires |x| == |y| == |z|
    ensures Dot(Mixed(p, x, q, y), z) == Times(p, Dot(x, z)) + Times(q, Dot(y, z))
  {
    hide *;
    var m := Mixed(p, x, q, y);
    DotUnfolds(m, z);
    DotUnfolds(x, z);
    DotUnfolds(y, z);
    if x == [] {
      ZeroTimes(p);
      ZeroTimes(q);
    } else {
      var n := |x| - 1;
      DotMixedLeft(p, x[..n], q, y[..n], z[..n]);
      MixedPrefix(p, x, q, y, n);
      Spread(z[n], Times(p, x[n]), Times(q, y[n]));
      Regroup(p, x[n], z[n]);
      Regroup(q, y[n], z[n]);
      Spread(p, Dot(x[..n], z[..n]), Times(x[n], z[n]));
      Spread(q, Dot(y[..n], z[..n]), Times(y[n], z[n]));
    }
  }

  /** The energy of a combination. */
  lemma DotMixed(p: real, x: seq<real>, q: real, y: seq<real>)
    requires |x| == |y|
    ensures var m := Mixed(p, x, q, y);
            Dot(m, m) == Times(Square(p), Dot(x, x)) + 2.0 * Times(Times(p, q), Dot(x, y)) + Times(Square(q), Dot(y, y))
  {
    hide *;
    var m := Mixed(p, x, q, y);
    DotMixedLeft(p, x, q, y, m);
    DotMixedLeft(p, x, q, y, x);
    DotMixedLeft(p, x, q, y, y);
    DotCommutes(m, x);
    DotCommutes(m, y);
    DotCommutes(x, y);
    Folded(p, p, Dot(x, x), q, Dot(x, y));
    TwoTerms(p, q, Dot(x, x), Dot(x, y), Dot(y, y));
  }

  lemma TwoTerms(p: real, q: real, xx: real, xy: real, yy: real)
    ensures Times(p, Times(p, xx) + Times(q, xy)) + Times(q, Times(p, xy) + Times(q, yy))
            == Times(Square(p), xx) + 2.0 * Times(Times(p, q), xy) + Times(Square(q), yy)
  {
  }

  lemma {:induction false} DotNotNegative(z: seq<real>)
    ensures Dot(z, z) >= 0.0
    ensures Dot(z, z) == 0.0 ==> forall i :: 0 <= i < |z| ==> z[i] == 0.0
  {
    hide *;
    DotUnfolds(z, z);
    if z != [] {
      var n := |z| - 1;
      DotNotNegative(z[..n]);
      SquareIsTimes(z[n]);
      if z[n] != 0.0 {
        SquareOfNonzero(z[n]);
      } else {
        assert forall i :: 0 <= i < n ==> z[i] == z[..n][i];
      }
      SquarePositive(z[n]);
    }
  }

  lemma SquarePositive(a: real)
    ensures Square(a) >= 0.0
  {
  }

  lemma {:induction false} DotWithZero(x: seq<real>, y: seq<real>)
    requires |x| == |y| && forall i :: 0 <= i < |x| ==> x[i] == 0.0
    ensures Dot(x, y) == 0.0
  {
    hide *;
    DotUnfolds(x, y);
    if x != [] {
      var n := |x| - 1;
      DotWithZero(x[..n], y[..n]);
      One(1.0, y[n]);
    }
  }

  // Cauchy-Schwarz, with its equality case.

  lemma {:induction false} CauchySchwarz(x: seq<real>, y: seq<real>)
    requires |x| == |y|
    ensures Square(Dot(x, y)) <= Times(Dot(x, x), Dot(y, y))
  {
    hide *;
    var e, f, n := Dot(x, x), Dot(y, y), Dot(x, y);
    DotNotNegative(x);
    if e == 0.0 {
      DotWithZero(x, y);
      One(1.0, f);
      NegatedSquare(0.0);
    } else {
      var m := Mixed(-n, x, e, y);
      DotMixed(-n, x, e, y);
      DotNotNegative(m);
      Discriminant(e, f, n);
      PositiveFactor(e, Times(e, f) - Square(n));
    }
  }

  lemma Discriminant(e: real, f: real, n: real)
    ensures Times(Square(-n), e) + 2.0 * Times(Times(-n, e), n) + Times(Square(e), f)
            == Times(e, Times(e, f) - Square(n))
  {
  }

  lemma PositiveFactor(a: real, b: real)
    requires a > 0.0 && Times(a, b) >= 0.0
    ensures b >= 0.0
  {
    if b < 0.0 {
      PositiveTimes(a, -b);
      Spread(a, b, 0.0);
      hide Times;
      assert false;
    }
  }

  /** Equality makes y proportional to x. */
  lemma {:induction false} ProportionalIfEqual(x: seq<real>, y: seq<real>)
    requires |x| == |y| && Dot(x, x) > 0.0 && Square(Dot(x, y)) == Times(Dot(x, x), Dot(y, y))
    ensures forall i :: 0 <= i < |x| ==> y[i] == Times(Dot(x, y) / Dot(x, x), x[i])
  {
    hide *;
    var e, f, n := Dot(x, x), Dot(y, y), Dot(x, y);
    var m := Mixed(-n, x, e, y);
    DotMixed(-n, x, e, y);
    Discriminant(e, f, n);
    ZeroTimes(e);
    DotNotNegative(m);
    forall i | 0 <= i < |x|
      ensures y[i] == Times(n / e, x[i])
    {
      MixedPrefix(-n, x, e, y, 0);
      Proportion(e, n, x[i], y[i]);
    }
  }

  lemma Proportion(e: real, n: real, x: real, y: real)
    requires e > 0.0 && Times(-n, x) + Times(e, y) == 0.0
    ensures y == Times(n / e, x)
  {
    assert e * y == n * x;
    assert (n / e) * x == (n * x) / e;
    assert (e * y) / e == y;
  }

  // Brightness changes.

  function Brightened(x: seq<real>, gain: real, offset: real): (y: seq<real>)
    ensures |y| == |x|
  {
    seq(|x|, i requires 0 <= i < |x| => Times(gain, x[i]) + offset)
  }

  function Scaled(gain: real, x: seq<real>): (y: seq<real>)
    ensures |y| == |x|
  {
    seq(|x|, i requires 0 <= i < |x| => Times(gain, x[i]))
  }

  lemma TotalUnfolds(x: seq<real>)
    ensures Total(x) == if x == [] then 0.0 else Total(x[..|x| - 1]) + x[|x| - 1]
  {
  }

  lemma {:induction false} TotalBrightened(x: seq<real>, gain: real, offset: real)
    ensures Total(Brightened(x, gain, offset)) == Times(gain, Total(x)) + Times(|x| as real, offset)
  {
    hide Times;
    hide Total;
    var y := Brightened(x, gain, offset);
    TotalUnfolds(x);
    TotalUnfolds(y);
    if x == [] {
      ZeroTimes(gain);
      One(1.0, offset);
    } else {
      var n := |x| - 1;
      TotalBrightened(x[..n], gain, offset);
      assert y[..n] == Brightened(x[..n], gain, offset);
      Spread(gain, Total(x[..n]), x[n]);
      Spread(offset, 1.0, n as real);
      assert |x| as real == 1.0 + n as real;
      One(offset, 0.0);
    }
  }

  lemma MeanBrightened(x: seq<real>, gain: real, offset: real)
    requires x != []
    ensures Mean(Brightened(x, gain, offset)) == Times(gain, Mean(x)) + offset
  {
    hide Times;
    hide Total;
    hide Brightened;
    TotalBrightened(x, gain, offset);
    Averaged(gain, Total(x), offset, |x| as real);
  }

  lemma Averaged(gain: real, t: real, offset: real, n: real)
    requires n > 0.0
    ensures (Times(gain, t) + Times(n, offset)) / n == Times(gain, t / n) + offset
  {
  }

  lemma CentredBrightened(x: seq<real>, gain: real, offset: real)
    requires x != []
    ensures Centred(Brightened(x, gain, offset)) == Scaled(gain, Centred(x))
  {
    MeanBrightened(x, gain, offset);
    hide Mean;
    hide Times;
    forall i | 0 <= i < |x|
      ensures Centred(Brightened(x, gain, offset))[i] == Scaled(gain, Centred(x))[i]
    {
      Spread(gain, x[i], Mean(x));
    }
  }

  lemma {:induction false} DotScaled(gain: real, x: seq<real>, y: seq<real>)
    requires |x| == |y|
    ensures Dot(Scaled(gain, x), y) == Times(gain, Dot(x, y)) == Dot(y, Scaled(gain, x))
  {
    hide Dot;
    hide Times;
    DotCommutes(Scaled(gain, x), y);
    DotUnfolds(Scaled(gain, x), y);
    DotUnfolds(x, y);
    if x == [] {
      ZeroTimes(gain);
    } else {
      var n := |x| - 1;
      DotScaled(gain, x[..n], y[..n]);
      assert Scaled(gain, x)[..n] == Scaled(gain, x[..n]);
      Regroup(gain, x[n], y[n]);
      Spread(gain, Dot(x[..n], y[..n]), Times(x[n], y[n]));
    }
  }

  lemma EnergyBrightened(x: seq<real>, gain: real, offset: real)
    requires x != []
    ensures Energy(Brightened(x, gain, offset)) == Times(Square(gain), Energy(x))
    ensures Numerator(x, Brightened(x, gain, offset)) == Times(gain, Energy(x))
  {
    CentredBrightened(x, gain, offset);
    hide Centred;
    hide Dot;
    var c := Centred(x);
    DotScaled(gain, c, Scaled(gain, c));
    DotScaled(gain, c, c);
    Regroup(gain, gain, Dot(c, c));
    SquareIsTimes(gain);
    hide Times;
  }

  // The score.

  lemma EnergyNotNegative(a: seq<real>)
    requires a != []
    ensures Energy(a) >= 0.0
  {
    DotNotNegative(Centred(a));
  }

  lemma NotNegativeTimes(a: real, b: real)
    requires a >= 0.0 && b >= 0.0
    ensures Times(a, b) >= 0.0
  {
    if a == 0.0 || b == 0.0 {
      One(1.0, b);
      ZeroTimes(a);
    } else {
      PositiveTimes(a, b);
    }
    hide Times;
  }

  lemma DenominatorSquared(a: seq<real>, b: seq<real>, root: real -> real)
    requires |a| == |b| > 0 && IsRoot(root)
    ensures Denominator(a, b, root) >= 0.0 && Square(Denominator(a, b, root)) == Times(Energy(a), Energy(b))
  {
    hide Times;
    hide Square;
    EnergyNotNegative(a);
    EnergyNotNegative(b);
    hide Energy;
    NotNegativeTimes(Energy(a), Energy(b));
  }

  lemma Ordered(n: real, d: real)
    requires d >= 0.0 && Square(n) <= Square(d)
    ensures -d <= n <= d
  {
    if n > d {
      PositiveTimes(n - d, n + d);
      DifferenceOfSquares(n, d);
      hide *;
      assert false;
    }
    if n < -d {
      PositiveTimes(-n - d, d - n);
      DifferenceOfSquares(-n, d);
      NegatedSquare(n);
      hide *;
      assert false;
    }
  }

  lemma DifferenceOfSquares(n: real, d: real)
    ensures Times(n - d, n + d) == Square(n) - Square(d)
  {
  }

  lemma Quotient(n: real, d: real)
    requires d > 0.0 && -d <= n <= d
    ensures -1.0 <= n / d <= 1.0 && (n / d == 1.0 <==> n == d)
  {
  }

  lemma ScoreUnfolds(a: seq<real>, b: seq<real>, root: real -> real)
    requires |a| == |b| > 0
    ensures var d := Denominator(a, b, root); Score(a, b, root) == if d > EPSILON then Numerator(a, b) / d else -1.0
    ensures EPSILON > 0.0
    ensures Numerator(a, b) == Dot(Centred(a), Centred(b)) && Energy(a) == Dot(Centred(a), Centred(a))
    ensures Energy(b) == Dot(Centred(b), Centred(b))
  {
    hide Dot;
    hide Centred;
    hide Denominator;
  }

  lemma NumeratorBounded(a: seq<real>, b: seq<real>, root: real -> real)
    requires |a| == |b| > 0 && IsRoot(root)
    ensures var d := Denominator(a, b, root); -d <= Numerator(a, b) <= d
  {
    hide *;
    ScoreUnfolds(a, b, root);
    DenominatorSquared(a, b, root);
    CauchySchwarz(Centred(a), Centred(b));
    Ordered(Numerator(a, b), Denominator(a, b, root));
  }

  lemma {:induction false} ScoreBounded(a: seq<real>, b: seq<real>, root: real -> real)
    requires |a| == |b| > 0 && IsRoot(root)
    ensures -1.0 <= Score(a, b, root) <= 1.0
  {
    hide *;
    ScoreUnfolds(a, b, root);
    NumeratorBounded(a, b, root);
    if Denominator(a, b, root) > EPSILON {
      Quotient(Numerator(a, b), Denominator(a, b, root));
    }
  }

  ghost predicate PositiveAffine(a: seq<real>, b: seq<real>) {
    exists gain: real, offset: real :: gain > 0.0 && b == Brightened(a, gain, offset)
  }

  /** The score is 1 exactly for a textured window that is the other one with more or less gain and offset. */
  lemma {:induction false} ScoreIsOne(a: seq<real>, b: seq<real>, root: real -> real)
    requires |a| == |b| > 0 && IsRoot(root)
    ensures Score(a, b, root) == 1.0 <==> Denominator(a, b, root) > EPSILON && PositiveAffine(a, b)
  {
    hide *;
    ScoreUnfolds(a, b, root);
    NumeratorBounded(a, b, root);
    if Denominator(a, b, root) > EPSILON {
      Quotient(Numerator(a, b), Denominator(a, b, root));
      if Numerator(a, b) == Denominator(a, b, root) {
        EqualityIsAffine(a, b, root);
      }
      AffineIsEquality(a, b, root);
    }
  }

  lemma EqualityIsAffine(a: seq<real>, b: seq<real>, root: real -> real)
    requires |a| == |b| > 0 && IsRoot(root)
    requires Numerator(a, b) == Denominator(a, b, root) > 0.0
    ensures PositiveAffine(a, b)
  {
    hide *;
    ScoreUnfolds(a, b, root);
    DenominatorSquared(a, b, root);
    EnergyNotNegative(a);
    SquareOfNonzero(Denominator(a, b, root));
    One(1.0, Energy(b));
    ProportionalIfEqual(Centred(a), Centred(b));
    var gain := Numerator(a, b) / Energy(a);
    PositiveQuotient(Numerator(a, b), Energy(a));
    Uncentred(a, b, gain);
  }

  lemma PositiveQuotient(n: real, d: real)
    requires n > 0.0 && d > 0.0
    ensures n / d > 0.0
  {
  }

  lemma Uncentred(a: seq<real>, b: seq<real>, gain: real)
    requires |a| == |b| > 0 && gain > 0.0
    requires forall i :: 0 <= i < |a| ==> Centred(b)[i] == Times(gain, Centred(a)[i])
    ensures PositiveAffine(a, b)
  {
    hide Times;
    hide Mean;
    var offset := Mean(b) - Times(gain, Mean(a));
    forall i | 0 <= i < |a|
      ensures b[i] == Brightened(a, gain, offset)[i]
    {
      assert Centred(b)[i] == Times(gain, Centred(a)[i]);
      Spread(gain, a[i], Mean(a));
    }
    assert b == Brightened(a, gain, offset);
  }

  lemma AffineIsEquality(a: seq<real>, b: seq<real>, root: real -> real)
    requires |a| == |b| > 0 && IsRoot(root) && Denominator(a, b, root) > 0.0
    ensures PositiveAffine(a, b) ==> Numerator(a, b) == Denominator(a, b, root)
  {
    if gain: real, offset: real :| gain > 0.0 && b == Brightened(a, gain, offset) {
      hide *;
      DenominatorSquared(a, b, root);
      EnergyBrightened(a, gain, offset);
      EnergyNotNegative(a);
      SquareOfGain(gain, Energy(a));
      NotNegativeTimes(gain, Energy(a));
      Ordered(Denominator(a, b, root), Numerator(a, b));
      Ordered(Numerator(a, b), Denominator(a, b, root));
    }
  }

  lemma SquareOfGain(gain: real, e: real)
    ensures Times(e, Times(Square(gain), e)) == Square(Times(gain, e))
  {
  }

  // One-pass moments and two-pass deviations.

  lemma {:induction false} DeviationProducts(x: seq<real>, p: real, y: seq<real>, q: real)
    requires |x| == |y|
    ensures Dot(Deviations(x, p), Deviations(y, q))
            == Dot(x, y) - Times(q, Total(x)) - Times(p, Total(y)) + Times(|x| as real, Times(p, q))
  {
    hide *;
    DotUnfolds(x, y);
    TotalUnfolds(x);
    TotalUnfolds(y);
    var a, b := Deviations(x, p), Deviations(y, q);
    DotUnfolds(a, b);
    if x == [] {
      ZeroTimes(q);
      ZeroTimes(p);
      One(1.0, Times(p, q));
    } else {
      var n := |x| - 1;
      DeviationProducts(x[..n], p, y[..n], q);
      LastDeviation(x, p);
      LastDeviation(y, q);
      ProductOfDeviations(x[n], p, y[n], q);
      Spread(q, Total(x[..n]), x[n]);
      Spread(p, Total(y[..n]), y[n]);
      OneMore(n, Times(p, q));
    }
  }

  lemma LastDeviation(x: seq<real>, p: real)
    requires x != []
    ensures var n := |x| - 1; Deviations(x, p)[..n] == Deviations(x[..n], p) && Deviations(x, p)[n] == x[n] - p
  {
  }

  lemma ProductOfDeviations(v: real, p: real, w: real, q: real)
    ensures Times(v - p, w - q) == Times(v, w) - Times(q, v) - Times(p, w) + Times(p, q)
  {
  }

  lemma OneMore(n: nat, a: real)
    ensures Times((n + 1) as real, a) == Times(n as real, a) + a
  {
    assert (n + 1) as real == n as real + 1.0;
  }

  function Centralised(cross: real, sum: real, otherSum: real, count: real): real
    requires count > 0.0
  {
    cross - sum * otherSum / count
  }

  /** The one-pass moment formula is the sum of products of deviations from the means. */
  lemma {:induction false} MomentFormula(a: seq<real>, b: seq<real>)
    requires |a| == |b| > 0
    ensures Centralised(Dot(a, b), Total(a), Total(b), |a| as real) == Numerator(a, b)
  {
    hide *;
    DeviationProducts(a, Mean(a), b, Mean(b));
    NumeratorIs(a, b);
    AtMeans(Dot(a, b), Total(a), Total(b), |a| as real);
    MeanIs(a);
    MeanIs(b);
  }

  lemma NumeratorIs(a: seq<real>, b: seq<real>)
    requires |a| == |b| > 0
    ensures Numerator(a, b) == Dot(Deviations(a, Mean(a)), Deviations(b, Mean(b)))
  {
    DeviationsFromMean(a);
    DeviationsFromMean(b);
    hide Dot;
  }

  lemma MeanIs(a: seq<real>)
    requires a != []
    ensures Mean(a) == Total(a) / |a| as real
  {
  }

  lemma AtMeans(d: real, s: real, t: real, n: real)
    requires n > 0.0
    ensures Centralised(d, s, t, n) == d - Times(t / n, s) - Times(s / n, t) + Times(n, Times(s / n, t / n))
  {
    var p, q := s / n, t / n;
    assert p * n == s && q * n == t;
    assert n * (p * q) == (n * p) * q;
    assert s * t / n == s * q;
  }
}
