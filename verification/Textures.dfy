/** On images of whole grey values the guard of the correlation score discards flat windows and nothing else. */
module Textures {
  import opened Bytes
  import opened Reals
  import opened Frames
  import opened Correlation
  import Zncc

  /** A window of grey values. */
  predicate Grey(x: seq<real>) { forall i :: 0 <= i < |x| ==> x[i] == x[i].Floor as real }

  predicate Flat(x: seq<real>)
    requires x != []
  {
    forall i :: 0 <= i < |x| ==> x[i] == x[0]
  }

  lemma {:induction false} GreySums(x: seq<real>) returns (total: int, squares: int)
    requires Grey(x)
    ensures Total(x) == total as real && Dot(x, x) == squares as real
  {
    hide Total;
    hide Dot;
    hide Times;
    TotalUnfolds(x);
    DotUnfolds(x, x);
    total, squares := 0, 0;
    if x != [] {
      var n := |x| - 1;
      total, squares := GreySums(x[..n]);
      var k := x[n].Floor;
      WholeSquare(x[n], k);
      total, squares := total + k, squares + k * k;
    }
  }

  lemma WholeSquare(a: real, k: int)
    requires a == k as real
    ensures Times(a, a) == (k * k) as real
  {
  }

  /** The energy of n grey values is a multiple of 1/n. */
  lemma {:induction false} EnergyIsMultiple(x: seq<real>)
    requires x != [] && Grey(x)
    ensures Energy(x) == 0.0 || Times(|x| as real, Energy(x)) >= 1.0
  {
    hide *;
    var total, squares := GreySums(x);
    MomentFormula(x, x);
    EnergyIs(x);
    EnergyNotNegative(x);
    Multiple(squares, total, |x|, Energy(x));
  }

  lemma EnergyIs(x: seq<real>)
    requires x != []
    ensures Energy(x) == Numerator(x, x)
  {
    hide Dot;
  }

  lemma Multiple(squares: int, total: int, n: nat, e: real)
    requires n > 0 && e >= 0.0 && e == Centralised(squares as real, total as real, total as real, n as real)
    ensures e == 0.0 || Times(n as real, e) >= 1.0
  {
    hide *;
    Multiplied(squares as real, total as real, n as real);
    WholeDifference(n, squares, total);
    if e > 0.0 {
      PositiveTimes(n as real, e);
    }
  }

  lemma Multiplied(squares: real, total: real, m: real)
    requires m > 0.0
    ensures Times(m, Centralised(squares, total, total, m)) == Times(m, squares) - Times(total, total)
  {
    assert m * (total * total / m) == total * total;
  }

  lemma WholeDifference(n: nat, squares: int, total: int)
    ensures Times(n as real, squares as real) - Times(total as real, total as real)
            == (n * squares - total * total) as real
  {
  }

  lemma {:induction false} FlatHasNoEnergy(x: seq<real>)
    requires x != []
    ensures Flat(x) <==> Energy(x) == 0.0
  {
    var c := Centred(x);
    EnergyIs(x);
    DotNotNegative(c);
    if Energy(x) == 0.0 {
      assert forall i :: 0 <= i < |x| ==> c[i] == x[i] - Mean(x);
      assert c[0] == 0.0;
    }
    if Flat(x) {
      MeanOfFlat(x, x[0]);
      DotWithZero(c, c);
    }
    hide Mean;
    hide Dot;
  }

  lemma {:induction false} TotalOfFlat(x: seq<real>, v: real)
    requires forall i :: 0 <= i < |x| ==> x[i] == v
    ensures Total(x) == Times(|x| as real, v)
  {
    hide Total;
    TotalUnfolds(x);
    if x != [] {
      var n := |x| - 1;
      TotalOfFlat(x[..n], v);
      assert |x| as real == n as real + 1.0;
    }
  }

  lemma MeanOfFlat(x: seq<real>, v: real)
    requires x != [] && forall i :: 0 <= i < |x| ==> x[i] == v
    ensures Mean(x) == v
  {
    TotalOfFlat(x, v);
    var n := |x| as real;
    assert n * v / n == v;
    hide Total;
  }

  /** For windows of fewer than 2^52 pixels the score is computed exactly if neither of them is flat. */
  lemma {:induction false} GuardExact(a: seq<real>, b: seq<real>, root: real -> real)
    requires |a| == |b| && 0 < |a| < 0x10_0000_0000_0000 && Grey(a) && Grey(b) && IsRoot(root)
    ensures Denominator(a, b, root) > EPSILON <==> !Flat(a) && !Flat(b)
    ensures Score(a, b, root) == if Flat(a) || Flat(b) then -1.0 else Numerator(a, b) / Denominator(a, b, root)
  {
    hide *;
    var n, e, f, d := |a| as real, Energy(a), Energy(b), Denominator(a, b, root);
    DenominatorSquared(a, b, root);
    ScoreUnfolds(a, b, root);
    FlatHasNoEnergy(a);
    FlatHasNoEnergy(b);
    EnergyIsMultiple(a);
    EnergyIsMultiple(b);
    EpsilonIs();
    if e == 0.0 || f == 0.0 {
      NoProduct(e, f, d);
    } else {
      AtLeast(n, e, f, d);
    }
  }

  lemma EpsilonIs()
    ensures Times(4503599627370496.0, EPSILON) == 1.0 && EPSILON > 0.0
  {
  }

  lemma NoProduct(e: real, f: real, d: real)
    requires (e == 0.0 || f == 0.0) && Square(d) == Times(e, f)
    ensures d == 0.0
  {
    One(1.0, f);
    ZeroTimes(e);
    if d != 0.0 {
      SquareOfNonzero(d);
    }
    hide *;
  }

  lemma AtLeast(n: real, e: real, f: real, d: real)
    requires 0.0 < n < 4503599627370496.0 && Times(n, e) >= 1.0 && Times(n, f) >= 1.0
    requires d >= 0.0 && Square(d) == Times(e, f) && Times(4503599627370496.0, EPSILON) == 1.0
    ensures d > EPSILON
  {
    var x, y, z := n * e, n * f, n * d;
    assert z * z == x * y by {
      assert z * z == (n * n) * (d * d);
      assert x * y == (n * n) * (e * f);
    }
    assert x * y >= 1.0;
    assert z >= 1.0;
  }

  // The windows of the search are grey.

  lemma {:induction false} RowIsGrey(f: Frame, x: int, y: int, n: nat)
    requires WellFormed(f) && (n > 0 ==> Inside(f, x, y) && Inside(f, x + n - 1, y))
    ensures Grey(RowPart(f, x, y, n))
  {
    hide At;
    if n > 0 {
      RowIsGrey(f, x, y, n - 1);
    }
  }

  lemma {:induction false} RowsAreGrey(f: Frame, x: int, y: int, side: nat, rows: nat)
    requires WellFormed(f) && BoxInside(f, x, y, side) && rows <= side
    ensures Grey(Rows(f, x, y, side, rows))
  {
    hide RowPart;
    if rows > 0 && side > 0 {
      RowsAreGrey(f, x, y, side, rows - 1);
      RowIsGrey(f, x, y + rows - 1, side);
    }
  }

  /** The score of a shift is computed exactly if the reference and the shifted window both have texture. */
  lemma {:induction false} ScoredExactly(s: Zncc.Search, dx: int, dy: int, root: real -> real)
    requires Zncc.Comparable(s) && Zncc.SameSize(s) && Zncc.Fits(s) && IsRoot(root) && Zncc.InWindow(s, dx, dy)
    requires |Zncc.ReferenceWindow(s)| < 0x10_0000_0000_0000
    ensures var a, b := Zncc.ReferenceWindow(s), Zncc.DeformedWindow(s, dx, dy);
            if Flat(a) || Flat(b) then Zncc.ScoreAt(s, dx, dy, root) == -1.0
            else
              && Denominator(a, b, root) > 0.0
              && Zncc.ScoreAt(s, dx, dy, root) == Numerator(a, b) / Denominator(a, b, root)
  {
    hide *;
    var a, b := Zncc.ReferenceWindow(s), Zncc.DeformedWindow(s, dx, dy);
    WindowsAreGrey(s, dx, dy, root);
    GuardExact(a, b, root);
    EpsilonIs();
  }

  lemma WindowsAreGrey(s: Zncc.Search, dx: int, dy: int, root: real -> real)
    requires Zncc.Comparable(s) && Zncc.SameSize(s) && Zncc.Fits(s) && Zncc.InWindow(s, dx, dy)
    ensures var a, b := Zncc.ReferenceWindow(s), Zncc.DeformedWindow(s, dx, dy);
            Grey(a) && Grey(b) && |a| == |b| > 0 && Zncc.ScoreAt(s, dx, dy, root) == Score(a, b, root)
  {
    RowsAreGrey(s.reference, s.centerX - s.subsetRadius, s.centerY - s.subsetRadius, Zncc.Side(s), Zncc.Side(s));
    RowsAreGrey(s.deformed, s.centerX - s.subsetRadius + dx, s.centerY - s.subsetRadius + dy,
                Zncc.Side(s), Zncc.Side(s));
    hide Rows;
    hide Score;
    hide Grey;
  }

  /** A flat reference has no shift: the search then answers with none, and quality -1. */
  lemma {:induction false} FlatFindsNothing(s: Zncc.Search, root: real -> real, best: Zncc.Translation)
    requires Zncc.Comparable(s) && Zncc.SameSize(s) && Zncc.Fits(s) && IsRoot(root)
    requires |Zncc.ReferenceWindow(s)| < 0x10_0000_0000_0000 && Flat(Zncc.ReferenceWindow(s))
    requires Zncc.FirstBest(s, root, best, -s.searchRadius, s.searchRadius + 1)
    ensures best == Zncc.Translation(0, 0, -1.0)
  {
    if best.score > -1.0 {
      ScoredExactly(s, best.dx, best.dy, root);
    }
    hide Zncc.ReferenceWindow;
    hide Zncc.DeformedWindow;
    hide Zncc.ScoreAt;
    hide Flat;
    hide IsRoot;
  }
}
