/** The exhaustive integer search for the shift with the best zero-mean normalised correlation. */
module Zncc {
  import opened Outcomes
  import opened Bytes
  import opened Reals
  import opened Frames
  import opened Correlation

  datatype Search = Search(
      reference: Frame, deformed: Frame, centerX: int, centerY: int, subsetRadius: int, searchRadius: int)

  datatype Translation = Translation(dx: int, dy: int, score: real)

  const NO_TRANSLATION: Translation := Translation(0, 0, -1.0)

  predicate Fits(s: Search) {
    var margin := s.subsetRadius + s.searchRadius;
    && s.subsetRadius >= 1 && s.searchRadius >= 0
    && margin <= s.centerX && margin <= s.centerY
    && s.centerX + margin < ToSigned(s.reference.width) && s.centerY + margin < ToSigned(s.reference.height)
  }

  predicate Comparable(s: Search) {
    WellFormed(s.reference) && WellFormed(s.deformed)
  }

  predicate SameSize(s: Search) {
    s.reference.width == s.deformed.width && s.reference.height == s.deformed.height
  }

  predicate InWindow(s: Search, dx: int, dy: int) {
    -s.searchRadius <= dx <= s.searchRadius && -s.searchRadius <= dy <= s.searchRadius
  }

  function Side(s: Search): nat
    requires Fits(s)
  {
    2 * s.subsetRadius + 1
  }

  function ReferenceWindow(s: Search): (values: seq<real>)
    requires Comparable(s) && Fits(s)
    ensures |values| == Side(s) * Side(s) > 0
  {
    SideSquared(Side(s));
    Window(s.reference, s.centerX - s.subsetRadius, s.centerY - s.subsetRadius, Side(s))
  }

  function DeformedWindow(s: Search, dx: int, dy: int): (values: seq<real>)
    requires Comparable(s) && Fits(s) && SameSize(s) && InWindow(s, dx, dy)
    ensures |values| == Side(s) * Side(s) > 0
  {
    SideSquared(Side(s));
    Window(s.deformed, s.centerX - s.subsetRadius + dx, s.centerY - s.subsetRadius + dy, Side(s))
  }

  function ScoreAt(s: Search, dx: int, dy: int, root: real -> real): real
    requires Comparable(s) && Fits(s) && SameSize(s) && InWindow(s, dx, dy)
  {
    Score(ReferenceWindow(s), DeformedWindow(s, dx, dy), root)
  }

  predicate Earlier(dx: int, dy: int, ex: int, ey: int) { dy < ey || (dy == ey && dx < ex) }

  /** The first best of the shifts scanned before (ex, ey), if any of them beats -1. */
  ghost predicate FirstBest(s: Search, root: real -> real, best: Translation, ex: int, ey: int)
    requires Comparable(s) && Fits(s) && SameSize(s)
  {
    && best.score >= -1.0
    && (if best.score > -1.0 then
          && InWindow(s, best.dx, best.dy) && Earlier(best.dx, best.dy, ex, ey)
          && best.score == ScoreAt(s, best.dx, best.dy, root)
        else best == NO_TRANSLATION)
    && (forall dx, dy :: InWindow(s, dx, dy) && Earlier(dx, dy, ex, ey) ==> ScoreAt(s, dx, dy, root) <= best.score)
    && (best.score > -1.0 ==>
          forall dx, dy :: InWindow(s, dx, dy) && Earlier(dx, dy, best.dx, best.dy) ==>
              ScoreAt(s, dx, dy, root) < best.score)
  }

  // Sums over windows.

  lemma DotAppends(x: seq<real>, y: seq<real>, p: real, q: real, v: real, w: real)
    requires |x| == |y|
    ensures Dot(Deviations(x + [v], p), Deviations(y + [w], q))
            == Dot(Deviations(x, p), Deviations(y, q)) + (v - p) * (w - q)
  {
    assert Deviations(x + [v], p) == Deviations(x, p) + [v - p] && Deviations(y + [w], q) == Deviations(y, q) + [w - q];
    var a, b := Deviations(x, p), Deviations(y, q);
    assert (a + [v - p])[..|a|] == a && (b + [w - q])[..|b|] == b;
    assert Times(v - p, w - q) == (v - p) * (w - q);
    hide Times;
  }

  method SumWindow(f: Frame, x: int, y: int, side: nat) returns (sum: real)
    requires WellFormed(f) && BoxInside(f, x, y, side) && side > 0
    ensures sum == Total(Window(f, x, y, side))
  {
    hide At;
    hide RowPart;
    hide Rows;
    hide ReadSoFar;
    sum := 0.0;
    ReadNext(f, x, y, side, 0, 0);
    for row := 0 to side
      invariant sum == Total(Rows(f, x, y, side, row))
    {
      ReadNext(f, x, y, side, row, 0);
      for column := 0 to side
        invariant sum == Total(ReadSoFar(f, x, y, side, row, column))
      {
        ReadNext(f, x, y, side, row, column);
        TotalAppends(ReadSoFar(f, x, y, side, row, column), At(f, x + column, y + row) as real);
        sum := sum + At(f, x + column, y + row) as real;
      }
    }
  }

  ghost function Products(x: seq<real>, p: real, y: seq<real>, q: real): real
    requires |x| == |y|
  {
    Dot(Deviations(x, p), Deviations(y, q))
  }

  lemma ProductsAppend(x: seq<real>, p: real, y: seq<real>, q: real, v: real, w: real)
    requires |x| == |y|
    ensures Products(x + [v], p, y + [w], q) == Products(x, p, y, q) + (v - p) * (w - q)
    ensures Products([], p, [], q) == 0.0
  {
    DotAppends(x, y, p, q, v, w);
    hide Times;
  }

  method SumSquares(f: Frame, x: int, y: int, mean: real, side: nat) returns (energy: real)
    requires WellFormed(f) && BoxInside(f, x, y, side) && side > 0
    ensures energy == Products(Window(f, x, y, side), mean, Window(f, x, y, side), mean)
  {
    hide At;
    hide RowPart;
    hide Rows;
    hide ReadSoFar;
    hide Products;
    energy := 0.0;
    ReadNext(f, x, y, side, 0, 0);
    ProductsAppend([], mean, [], mean, 0.0, 0.0);
    for row := 0 to side
      invariant energy == Products(Rows(f, x, y, side, row), mean, Rows(f, x, y, side, row), mean)
    {
      ReadNext(f, x, y, side, row, 0);
      for column := 0 to side
        invariant var read := ReadSoFar(f, x, y, side, row, column); energy == Products(read, mean, read, mean)
      {
        ReadNext(f, x, y, side, row, column);
        ghost var read := ReadSoFar(f, x, y, side, row, column);
        var value := At(f, x + column, y + row) as real;
        ProductsAppend(read, mean, read, mean, value, value);
        energy := energy + (value - mean) * (value - mean);
      }
    }
  }

  /** The products of the deviations of two windows from their means, and the squares of those of the second. */
  method Correlate(f: Frame, x: int, y: int, p: real, g: Frame, u: int, v: int, q: real, side: nat)
    returns (numerator: real, energy: real)
    requires WellFormed(f) && BoxInside(f, x, y, side) && WellFormed(g) && BoxInside(g, u, v, side) && side > 0
    ensures numerator == Products(Window(f, x, y, side), p, Window(g, u, v, side), q)
    ensures energy == Products(Window(g, u, v, side), q, Window(g, u, v, side), q)
  {
    hide At;
    hide RowPart;
    hide Rows;
    hide ReadSoFar;
    hide Products;
    numerator, energy := 0.0, 0.0;
    ReadNext(f, x, y, side, 0, 0);
    ReadNext(g, u, v, side, 0, 0);
    ProductsAppend([], p, [], q, 0.0, 0.0);
    ProductsAppend([], q, [], q, 0.0, 0.0);
    for row := 0 to side
      invariant numerator == Products(Rows(f, x, y, side, row), p, Rows(g, u, v, side, row), q)
      invariant energy == Products(Rows(g, u, v, side, row), q, Rows(g, u, v, side, row), q)
    {
      ReadNext(f, x, y, side, row, 0);
      ReadNext(g, u, v, side, row, 0);
      for column := 0 to side
        invariant numerator
                  == Products(ReadSoFar(f, x, y, side, row, column), p, ReadSoFar(g, u, v, side, row, column), q)
        invariant var read := ReadSoFar(g, u, v, side, row, column); energy == Products(read, q, read, q)
      {
        ReadNext(f, x, y, side, row, column);
        ReadNext(g, u, v, side, row, column);
        ghost var before, read := ReadSoFar(f, x, y, side, row, column), ReadSoFar(g, u, v, side, row, column);
        var a, b := At(f, x + column, y + row) as real, At(g, u + column, v + row) as real;
        ProductsAppend(before, p, read, q, a, b);
        ProductsAppend(read, q, read, q, b, b);
        numerator := numerator + (a - p) * (b - q);
        energy := energy + (b - q) * (b - q);
      }
    }
  }

  lemma ProductsAreCorrelation(a: seq<real>, b: seq<real>)
    requires |a| == |b| > 0
    ensures Products(a, Mean(a), b, Mean(b)) == Numerator(a, b)
    ensures Products(b, Mean(b), b, Mean(b)) == Energy(b)
  {
    DeviationsFromMean(a);
    DeviationsFromMean(b);
    hide Dot;
    hide Mean;
  }

  method FindIntegerTranslation(s: Search, root: real -> real) returns (o: Outcome<Translation>)
    requires Comparable(s)
    ensures !SameSize(s) ==> o == Threw(DimensionsDiffer)
    ensures SameSize(s) && (s.subsetRadius < 1 || s.searchRadius < 0) ==> o == Threw(RadiiInvalid)
    ensures SameSize(s) && s.subsetRadius >= 1 && s.searchRadius >= 0 && !Fits(s) ==> o == Threw(WindowOutsideImage)
    ensures SameSize(s) && Fits(s) ==> o.Done? && FirstBest(s, root, o.value, -s.searchRadius, s.searchRadius + 1)
  {
    if !SameSize(s) {
      return Threw(DimensionsDiffer);
    }
    if s.subsetRadius < 1 || s.searchRadius < 0 {
      return Threw(RadiiInvalid);
    }
    if !Fits(s) {
      return Threw(WindowOutsideImage);
    }
    var best := SearchAll(s, root);
    return Done(best);
  }

  // The search.

  lemma NothingScanned(s: Search, root: real -> real)
    requires Comparable(s) && SameSize(s) && Fits(s)
    ensures FirstBest(s, root, NO_TRANSLATION, -s.searchRadius, -s.searchRadius)
  {
    hide ScoreAt;
  }

  lemma RowScanned(s: Search, root: real -> real, best: Translation, dy: int)
    requires Comparable(s) && SameSize(s) && Fits(s) && FirstBest(s, root, best, s.searchRadius + 1, dy)
    ensures FirstBest(s, root, best, -s.searchRadius, dy + 1)
  {
    hide ScoreAt;
    forall ex, ey | InWindow(s, ex, ey) && Earlier(ex, ey, -s.searchRadius, dy + 1)
      ensures ScoreAt(s, ex, ey, root) <= best.score
    {
      assert Earlier(ex, ey, s.searchRadius + 1, dy);
    }
  }

  lemma ShiftScanned(s: Search, root: real -> real, best: Translation, dx: int, dy: int)
    requires Comparable(s) && SameSize(s) && Fits(s) && InWindow(s, dx, dy) && FirstBest(s, root, best, dx, dy)
    ensures var score := ScoreAt(s, dx, dy, root);
            FirstBest(s, root, if score > best.score then Translation(dx, dy, score) else best, dx + 1, dy)
  {
    hide ScoreAt;
    var score := ScoreAt(s, dx, dy, root);
    var next := if score > best.score then Translation(dx, dy, score) else best;
    forall ex, ey | InWindow(s, ex, ey) && Earlier(ex, ey, dx + 1, dy)
      ensures ScoreAt(s, ex, ey, root) <= next.score
    {
      assert Earlier(ex, ey, dx, dy) || (ex == dx && ey == dy);
    }
  }

  method SearchAll(s: Search, root: real -> real) returns (best: Translation)
    requires Comparable(s) && SameSize(s) && Fits(s)
    ensures FirstBest(s, root, best, -s.searchRadius, s.searchRadius + 1)
  {
    hide *;
    var mean, energy := MeasureReference(s);
    best := NO_TRANSLATION;
    NothingScanned(s, root);
    SearchRadiusNotNegative(s);
    for dy := -s.searchRadius to s.searchRadius + 1
      invariant FirstBest(s, root, best, -s.searchRadius, dy)
    {
      for dx := -s.searchRadius to s.searchRadius + 1
        invariant FirstBest(s, root, best, dx, dy)
      {
        ShiftInWindow(s, dx, dy);
        var score := ScoreShift(s, root, dx, dy, mean, energy);
        ShiftScanned(s, root, best, dx, dy);
        if score > best.score {
          best := Translation(dx, dy, score);
        }
      }
      RowScanned(s, root, best, dy);
    }
  }

  lemma SearchRadiusNotNegative(s: Search)
    requires Fits(s)
    ensures s.searchRadius >= 0 && s.subsetRadius >= 1
  {
  }

  lemma ShiftInWindow(s: Search, dx: int, dy: int)
    requires -s.searchRadius <= dx <= s.searchRadius && -s.searchRadius <= dy <= s.searchRadius
    ensures InWindow(s, dx, dy)
  {
  }

  method MeasureReference(s: Search) returns (mean: real, energy: real)
    requires Comparable(s) && SameSize(s) && Fits(s)
    ensures mean == Mean(ReferenceWindow(s)) && energy == Energy(ReferenceWindow(s))
  {
    hide Products;
    hide Total;
    hide Window;
    var side := 2 * s.subsetRadius + 1;
    var x, y := s.centerX - s.subsetRadius, s.centerY - s.subsetRadius;
    var sum := SumWindow(s.reference, x, y, side);
    mean := sum / (side * side) as real;
    energy := SumSquares(s.reference, x, y, mean, side);
    ProductsAreCorrelation(ReferenceWindow(s), ReferenceWindow(s));
    hide Energy;
  }

  method ScoreShift(s: Search, root: real -> real, dx: int, dy: int, referenceMean: real, referenceEnergy: real)
    returns (score: real)
    requires Comparable(s) && SameSize(s) && Fits(s) && InWindow(s, dx, dy)
    requires referenceMean == Mean(ReferenceWindow(s)) && referenceEnergy == Energy(ReferenceWindow(s))
    ensures score == ScoreAt(s, dx, dy, root)
  {
    hide *;
    ScoreUnfolds(ReferenceWindow(s), DeformedWindow(s, dx, dy), root);
    var numerator, deformedEnergy := MeasureShift(s, dx, dy, referenceMean);
    var denominator := root(referenceEnergy * deformedEnergy);
    score := if denominator > EPSILON then numerator / denominator else -1.0;
    ProductIs(referenceEnergy, deformedEnergy);
    ScoreFrom(s, root, dx, dy);
  }

  lemma ScoreFrom(s: Search, root: real -> real, dx: int, dy: int)
    requires Comparable(s) && SameSize(s) && Fits(s) && InWindow(s, dx, dy)
    ensures var a, b := ReferenceWindow(s), DeformedWindow(s, dx, dy);
            ScoreAt(s, dx, dy, root) == Score(a, b, root)
                && Denominator(a, b, root) == root(Times(Energy(a), Energy(b)))
  {
    hide Energy;
    hide Score;
    hide Times;
    hide ReferenceWindow;
    hide DeformedWindow;
  }

  method MeasureShift(s: Search, dx: int, dy: int, referenceMean: real) returns (numerator: real, energy: real)
    requires Comparable(s) && SameSize(s) && Fits(s) && InWindow(s, dx, dy) && referenceMean == Mean(ReferenceWindow(s))
    ensures numerator == Numerator(ReferenceWindow(s), DeformedWindow(s, dx, dy))
    ensures energy == Energy(DeformedWindow(s, dx, dy))
  {
    hide Products;
    hide Total;
    hide Window;
    var side := 2 * s.subsetRadius + 1;
    var x, y := s.centerX - s.subsetRadius, s.centerY - s.subsetRadius;
    var sum := SumWindow(s.deformed, x + dx, y + dy, side);
    var mean := sum / (side * side) as real;
    numerator, energy := Correlate(s.reference, x, y, referenceMean, s.deformed, x + dx, y + dy, mean, side);
    ProductsAreCorrelation(ReferenceWindow(s), DeformedWindow(s, dx, dy));
    hide Energy;
    hide Numerator;
  }

  // What the search finds.

  /** Every score is between -1 and 1, and 1 exactly where the deformed window is the textured reference, rescaled. */
  lemma {:induction false} ScoresBounded(s: Search, dx: int, dy: int, root: real -> real)
    requires Comparable(s) && SameSize(s) && Fits(s) && InWindow(s, dx, dy) && IsRoot(root)
    ensures -1.0 <= ScoreAt(s, dx, dy, root) <= 1.0
    ensures ScoreAt(s, dx, dy, root) == 1.0 <==>
              && Denominator(ReferenceWindow(s), DeformedWindow(s, dx, dy), root) > EPSILON
              && PositiveAffine(ReferenceWindow(s), DeformedWindow(s, dx, dy))
  {
    var a, b := ReferenceWindow(s), DeformedWindow(s, dx, dy);
    assert ScoreAt(s, dx, dy, root) == Score(a, b, root);
    hide *;
    ScoreBounded(a, b, root);
    ScoreIsOne(a, b, root);
  }

  /** A shift at which the textured reference reappears, brighter or darker, is found if it is the only one. */
  lemma {:induction false} UniqueShiftFound(s: Search, root: real -> real, best: Translation, dx: int, dy: int)
    requires Comparable(s) && SameSize(s) && Fits(s) && IsRoot(root) && InWindow(s, dx, dy)
    requires FirstBest(s, root, best, -s.searchRadius, s.searchRadius + 1)
    requires Denominator(ReferenceWindow(s), DeformedWindow(s, dx, dy), root) > EPSILON
    requires PositiveAffine(ReferenceWindow(s), DeformedWindow(s, dx, dy))
    requires forall ex, ey :: InWindow(s, ex, ey) && (ex != dx || ey != dy) ==>
             !PositiveAffine(ReferenceWindow(s), DeformedWindow(s, ex, ey))
    ensures best == Translation(dx, dy, 1.0)
  {
    hide ScoreAt;
    hide Denominator;
    hide PositiveAffine;
    hide ReferenceWindow;
    hide DeformedWindow;
    hide IsRoot;
    ScoresBounded(s, dx, dy, root);
    assert Earlier(dx, dy, -s.searchRadius, s.searchRadius + 1);
    assert best.score >= 1.0;
    ScoresBounded(s, best.dx, best.dy, root);
  }
}
