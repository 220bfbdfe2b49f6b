/** The displacement gradient fitted to the neighbours of a grid point, in exact arithmetic. */
module StrainFit {
  import opened Reals

  /** A neighbour relative to the centre: its offset and the differences of the two displacement components. */
  datatype Sample = Sample(dx: real, dy: real, du: real, dv: real)

  datatype Sums = Sums(xx: real, xy: real, yy: real, ux: real, uy: real, vx: real, vy: real)

  const NO_SUMS: Sums := Sums(0.0, 0.0, 0.0, 0.0, 0.0, 0.0, 0.0)

  function AddSample(s: Sums, p: Sample): Sums {
    Sums(s.xx + Times(p.dx, p.dx), s.xy + Times(p.dx, p.dy), s.yy + Times(p.dy, p.dy),
         s.ux + Times(p.dx, p.du), s.uy + Times(p.dy, p.du), s.vx + Times(p.dx, p.dv), s.vy + Times(p.dy, p.dv))
  }

  function SumsOf(samples: seq<Sample>): Sums {
    if samples == [] then NO_SUMS else AddSample(SumsOf(samples[..|samples| - 1]), samples[|samples| - 1])
  }

  function Determinant(s: Sums): real { Times(s.xx, s.yy) - Times(s.xy, s.xy) }

  /** The solution of the normal equations for one displacement component with the right-hand sides toX and toY. */
  function SlopeX(s: Sums, toX: real, toY: real): real
    requires Determinant(s) != 0.0
  {
    (Times(s.yy, toX) - Times(s.xy, toY)) / Determinant(s)
  }

  function SlopeY(s: Sums, toX: real, toY: real): real
    requires Determinant(s) != 0.0
  {
    (Times(-s.xy, toX) + Times(s.xx, toY)) / Determinant(s)
  }

  /** The height of the plane with slopes p and q at a sample. */
  function Plane(p: real, q: real, v: Sample): real { Times(p, v.dx) + Times(q, v.dy) }

  /** The sum of squared residuals of the plane with slopes p and q through the centre, for the component u. */
  function SquaredError(samples: seq<Sample>, p: real, q: real): real {
    if samples == [] then 0.0
    else
      var n := |samples| - 1;
      SquaredError(samples[..n], p, q) + Square(samples[n].du - Plane(p, q, samples[n]))
  }

  function SumOfSquares(samples: seq<Sample>): real {
    if samples == [] then 0.0 else SumOfSquares(samples[..|samples| - 1]) + Square(samples[|samples| - 1].du)
  }

  // The fit is the unique least-squares plane.

  /** The squared error as a quadratic function of the slopes. */
  function Quadratic(s: Sums, uu: real, p: real, q: real): real {
    uu - 2.0 * (Times(p, s.ux) + Times(q, s.uy))
    + Times(Square(p), s.xx) + 2.0 * Times(Times(p, q), s.xy) + Times(Square(q), s.yy)
  }

  lemma SquareOfResidual(p: real, q: real, v: Sample)
    ensures Square(v.du - Plane(p, q, v))
            == Square(v.du) - 2.0 * (Times(p, Times(v.dx, v.du)) + Times(q, Times(v.dy, v.du)))
               + Times(Square(p), Times(v.dx, v.dx)) + 2.0 * Times(Times(p, q), Times(v.dx, v.dy))
                   + Times(Square(q), Times(v.dy, v.dy))
  {
    hide Times;
    hide Square;
    var x, y := Times(p, v.dx), Times(q, v.dy);
    CrossTerm(p, v.dx, q, v.dy);
    SquareIsTimes(v.dx);
    SquareIsTimes(v.dy);
    SquareOfSum(v.du, x + y);
    SquareOfSum(x, y);
    SquareOfSum(p, v.dx);
    SquareOfSum(q, v.dy);
    Spread(v.du, x, y);
    Regroup(p, v.dx, v.du);
    Regroup(q, v.dy, v.du);
    Spread(x, v.du, 0.0);
    Spread(y, v.du, 0.0);
  }

  lemma QuadraticStep(s: Sums, uu: real, p: real, q: real, v: Sample)
    ensures Quadratic(AddSample(s, v), uu + Square(v.du), p, q)
            == Quadratic(s, uu, p, q) + Square(v.du - Plane(p, q, v))
  {
    hide Times;
    hide Square;
    hide Plane;
    hide Quadratic;
    SquareOfResidual(p, q, v);
    var t := AddSample(s, v);
    QuadraticAdds(s, t, uu, p, q, Times(v.dx, v.du), Times(v.dy, v.du), Times(v.dx, v.dx), Times(v.dx, v.dy),
        Times(v.dy, v.dy));
    QuadraticShifts(t, uu, Square(v.du), p, q);
  }

  lemma QuadraticShifts(s: Sums, uu: real, a: real, p: real, q: real)
    ensures Quadratic(s, uu + a, p, q) == Quadratic(s, uu, p, q) + a
  {
    hide Times;
  }

  lemma QuadraticAdds(s: Sums, t: Sums, uu: real, p: real, q: real, ux: real, uy: real, xx: real, xy: real, yy: real)
    requires t.ux == s.ux + ux && t.uy == s.uy + uy && t.xx == s.xx + xx && t.xy == s.xy + xy && t.yy == s.yy + yy
    ensures Quadratic(t, uu, p, q)
            == Quadratic(s, uu, p, q) - 2.0 * (Times(p, ux) + Times(q, uy))
               + Times(Square(p), xx) + 2.0 * Times(Times(p, q), xy) + Times(Square(q), yy)
  {
    hide Times;
    hide Square;
    Spread(p, s.ux, ux);
    Spread(q, s.uy, uy);
    Spread(Square(p), s.xx, xx);
    Spread(Times(p, q), s.xy, xy);
    Spread(Square(q), s.yy, yy);
  }

  lemma {:induction false} ErrorIsQuadratic(samples: seq<Sample>, p: real, q: real)
    ensures SquaredError(samples, p, q) == Quadratic(SumsOf(samples), SumOfSquares(samples), p, q)
  {
    if samples == [] {
      assert Times(p, 0.0) == Times(q, 0.0) == Times(Square(p), 0.0) == Times(Times(p, q), 0.0) == Times(Square(q), 0.0)
             == 0.0;
    } else {
      var n := |samples| - 1;
      var s, uu, v := SumsOf(samples[..n]), SumOfSquares(samples[..n]), samples[n];
      assert SumsOf(samples) == AddSample(s, v) && SumOfSquares(samples) == uu + Square(v.du);
      assert SquaredError(samples, p, q) == SquaredError(samples[..n], p, q) + Square(v.du - Plane(p, q, v));
      hide *;
      ErrorIsQuadratic(samples[..n], p, q);
      QuadraticStep(s, uu, p, q, v);
    }
  }

  /** What a step (h, k) away from the solution of the normal equations adds. */
  function Excess(s: Sums, h: real, k: real): real {
    Times(Square(h), s.xx) + 2.0 * Times(Times(h, k), s.xy) + Times(Square(k), s.yy)
  }

  ghost predicate Solves(s: Sums, p: real, q: real) {
    s.ux == Times(s.xx, p) + Times(s.xy, q) && s.uy == Times(s.xy, p) + Times(s.yy, q)
  }

  lemma AwayFromSolution(s: Sums, uu: real, p: real, q: real, h: real, k: real)
    requires Solves(s, p, q)
    ensures Quadratic(s, uu, p + h, q + k) == Quadratic(s, uu, p, q) + Excess(s, h, k)
  {
    hide Times;
    hide Square;
    Spread(s.ux, p, h);
    Spread(s.uy, q, k);
    Folded(h, s.xx, p, s.xy, q);
    Folded(k, s.xy, p, s.yy, q);
    assert Times(h, s.ux) == Times(Times(p, h), s.xx) + Times(Times(q, h), s.xy);
    assert Times(k, s.uy) == Times(Times(p, k), s.xy) + Times(Times(q, k), s.yy);
    SpreadSquare(p, h, s.xx);
    SpreadSquare(q, k, s.yy);
    ProductOfSums(p, h, q, k, s.xy);
  }

  lemma Solution(s: Sums)
    requires Determinant(s) != 0.0
    ensures Solves(s, SlopeX(s, s.ux, s.uy), SlopeY(s, s.ux, s.uy))
  {
    hide Times;
    var d, p, q := Determinant(s), SlopeX(s, s.ux, s.uy), SlopeY(s, s.ux, s.uy);
    Divided(Times(s.yy, s.ux) - Times(s.xy, s.uy), d);
    Divided(Times(-s.xy, s.ux) + Times(s.xx, s.uy), d);
    Cramer(s, p, q);
    hide Determinant;
    CancelTimes(Times(s.xx, p) + Times(s.xy, q), s.ux, d);
    CancelTimes(Times(s.xy, p) + Times(s.yy, q), s.uy, d);
  }

  lemma Cramer(s: Sums, p: real, q: real)
    requires Times(p, Determinant(s)) == Times(s.yy, s.ux) - Times(s.xy, s.uy)
    requires Times(q, Determinant(s)) == Times(-s.xy, s.ux) + Times(s.xx, s.uy)
    ensures Times(Times(s.xx, p) + Times(s.xy, q), Determinant(s)) == Times(s.ux, Determinant(s))
    ensures Times(Times(s.xy, p) + Times(s.yy, q), Determinant(s)) == Times(s.uy, Determinant(s))
  {
    var d := Determinant(s);
    DeterminantTimes(s);
    hide Determinant;
    TwoProducts(s.xx, p, s.xy, q, d);
    TwoProducts(s.xy, p, s.yy, q, d);
    TimesDifference(s.xx, s.yy, s.ux, s.xy, s.uy);
    TimesSum(s.xy, -s.xy, s.ux, s.xx, s.uy);
    TimesDifference(s.xy, s.yy, s.ux, s.xy, s.uy);
    TimesSum(s.yy, -s.xy, s.ux, s.xx, s.uy);
    hide Times;
    Triples(s);
  }

  lemma DeterminantTimes(s: Sums)
    ensures Times(s.ux, Determinant(s)) == Times(s.ux, Times(s.xx, s.yy)) - Times(s.ux, Times(s.xy, s.xy))
    ensures Times(s.uy, Determinant(s)) == Times(s.uy, Times(s.xx, s.yy)) - Times(s.uy, Times(s.xy, s.xy))
  {
    hide Times;
    Spread(s.ux, Times(s.xx, s.yy), Times(s.xy, s.xy));
    Spread(s.uy, Times(s.xx, s.yy), Times(s.xy, s.xy));
  }

  lemma Triples(s: Sums)
    ensures Times(s.xx, Times(s.yy, s.ux)) == Times(s.ux, Times(s.xx, s.yy))
    ensures Times(s.xy, Times(-s.xy, s.ux)) == -Times(s.ux, Times(s.xy, s.xy))
    ensures Times(s.xx, Times(s.xy, s.uy)) == Times(s.xy, Times(s.xx, s.uy))
    ensures Times(s.xy, Times(s.yy, s.ux)) == -Times(s.yy, Times(-s.xy, s.ux))
    ensures Times(s.xy, Times(s.xy, s.uy)) == Times(s.uy, Times(s.xy, s.xy))
    ensures Times(s.yy, Times(s.xx, s.uy)) == Times(s.uy, Times(s.xx, s.yy))
  {
  }

  lemma TwoProducts(a: real, p: real, b: real, q: real, d: real)
    ensures Times(Times(a, p) + Times(b, q), d) == Times(a, Times(p, d)) + Times(b, Times(q, d))
  {
  }

  lemma TimesDifference(a: real, b: real, u: real, c: real, v: real)
    ensures Times(a, Times(b, u) - Times(c, v)) == Times(a, Times(b, u)) - Times(a, Times(c, v))
  {
  }

  lemma TimesSum(a: real, b: real, u: real, c: real, v: real)
    ensures Times(a, Times(b, u) + Times(c, v)) == Times(a, Times(b, u)) + Times(a, Times(c, v))
  {
  }

  lemma Divided(a: real, d: real)
    requires d != 0.0
    ensures Times(a / d, d) == a
  {
  }

  lemma CancelTimes(a: real, b: real, d: real)
    requires d != 0.0 && Times(a, d) == Times(b, d)
    ensures a == b
  {
    Cancel(a, b, d);
  }

  lemma OnlySolution(s: Sums, p: real, q: real)
    requires Determinant(s) != 0.0 && Solves(s, p, q)
    ensures p == SlopeX(s, s.ux, s.uy) && q == SlopeY(s, s.ux, s.uy)
  {
    hide Times;
    var d := Determinant(s);
    Eliminated(s, p, q);
    Divided(Times(s.yy, s.ux) - Times(s.xy, s.uy), d);
    Divided(Times(-s.xy, s.ux) + Times(s.xx, s.uy), d);
    hide Determinant;
    CancelTimes(p, SlopeX(s, s.ux, s.uy), d);
    CancelTimes(q, SlopeY(s, s.ux, s.uy), d);
  }

  lemma Eliminated(s: Sums, p: real, q: real)
    requires Solves(s, p, q)
    ensures Times(p, Determinant(s)) == Times(s.yy, s.ux) - Times(s.xy, s.uy)
    ensures Times(q, Determinant(s)) == Times(-s.xy, s.ux) + Times(s.xx, s.uy)
  {
    hide Times;
    Spread(p, Times(s.xx, s.yy), Times(s.xy, s.xy));
    Spread(q, Times(s.xx, s.yy), Times(s.xy, s.xy));
    TimesSum(s.yy, s.xx, p, s.xy, q);
    TimesSum(s.xy, s.xy, p, s.yy, q);
    TimesSum(-s.xy, s.xx, p, s.xy, q);
    TimesSum(s.xx, s.xy, p, s.yy, q);
    Rearranged(s, p);
    Rearranged(s, q);
  }

  lemma Rearranged(s: Sums, p: real)
    ensures Times(s.yy, Times(s.xx, p)) == Times(p, Times(s.xx, s.yy)) == Times(s.xx, Times(s.yy, p))
    ensures Times(s.xy, Times(s.xy, p)) == Times(p, Times(s.xy, s.xy))
    ensures Times(-s.xy, Times(s.xy, p)) == -Times(p, Times(s.xy, s.xy))
    ensures Times(s.yy, Times(s.xy, p)) == Times(s.xy, Times(s.yy, p))
    ensures Times(-s.xy, Times(s.xx, p)) == -Times(s.xx, Times(s.xy, p))
  {
  }

  lemma {:induction false} ExcessNotNegative(samples: seq<Sample>, h: real, k: real)
    ensures Excess(SumsOf(samples), h, k) >= 0.0
  {
    if samples == [] {
      assert Times(Square(h), 0.0) == Times(Times(h, k), 0.0) == Times(Square(k), 0.0) == 0.0;
    } else {
      var n := |samples| - 1;
      ExcessNotNegative(samples[..n], h, k);
      ExcessGrows(SumsOf(samples[..n]), samples[n], h, k);
    }
  }

  /** The part of one sample in it. */
  function Part(v: Sample, h: real, k: real): (part: real)
    ensures part >= 0.0
  {
    Square(Plane(h, k, v))
  }

  lemma ExcessGrows(s: Sums, v: Sample, h: real, k: real)
    ensures Excess(AddSample(s, v), h, k) == Excess(s, h, k) + Part(v, h, k)
  {
    var s0, v0 := s.(ux := 0.0, uy := 0.0), v.(du := 0.0);
    hide Times;
    hide Square;
    hide Quadratic;
    hide Excess;
    NoDisplacement(s, v);
    NegatedSquare(Plane(h, k, v));
    QuadraticStep(s0, 0.0, h, k, v0);
    ExcessIsQuadratic(s, h, k);
    ExcessIsQuadratic(AddSample(s, v), h, k);
    hide AddSample;
  }

  lemma NoDisplacement(s: Sums, v: Sample)
    ensures AddSample(s.(ux := 0.0, uy := 0.0), v.(du := 0.0)) == AddSample(s, v).(ux := 0.0, uy := 0.0)
  {
    ZeroTimes(v.dx);
    ZeroTimes(v.dy);
    hide Times;
  }

  lemma ExcessIsQuadratic(s: Sums, h: real, k: real)
    ensures Excess(s, h, k) == Quadratic(s.(ux := 0.0, uy := 0.0), 0.0, h, k)
  {
    assert Times(h, 0.0) == Times(k, 0.0) == 0.0;
    hide Times;
    hide Square;
  }

  lemma ExcessDefinite(s: Sums, h: real, k: real)
    requires Determinant(s) > 0.0 && Excess(s, h, k) == 0.0
    ensures h == 0.0 && k == 0.0
  {
    hide *;
    CompletedSquare(s, h, k);
    if k != 0.0 {
      SquareOfNonzero(k);
      PositiveTimes(Square(k), Determinant(s));
      ZeroTimes(s.xx);
      assert false;
    }
    if h != 0.0 {
      SquareOfNonzero(h);
      ExcessOnAxis(s, h);
      DegenerateSums(s);
      PositiveTimes(Square(h), s.xx);
      PositiveTimes(Square(h), -s.xx);
      Spread(Square(h), s.xx, 0.0);
      assert false;
    }
  }

  lemma DegenerateSums(s: Sums)
    ensures s.xx == 0.0 ==> Determinant(s) <= 0.0
  {
    One(1.0, s.yy);
    SquareIsTimes(s.xy);
    hide Times;
    hide Square;
    assert Square(s.xy) >= 0.0;
  }

  lemma ExcessOnAxis(s: Sums, h: real)
    ensures Excess(s, h, 0.0) == Times(Square(h), s.xx) == -Times(Square(h), -s.xx)
  {
  }

  lemma CompletedSquare(s: Sums, h: real, k: real)
    ensures Times(s.xx, Excess(s, h, k)) == Square(Times(h, s.xx) + Times(k, s.xy)) + Times(Square(k), Determinant(s))
  {
    hide Times;
    hide Square;
    SquareOfSum(Times(h, s.xx), Times(k, s.xy));
    ThreeTerms(s.xx, Times(Square(h), s.xx), Times(Times(h, k), s.xy), Times(Square(k), s.yy));
    Spread(Square(k), Times(s.xx, s.yy), Times(s.xy, s.xy));
    FirstTerms(h, k, s.xx, s.xy);
    LastTerms(k, s.xx, s.xy, s.yy);
  }

  lemma ThreeTerms(t: real, a: real, b: real, c: real)
    ensures Times(t, a + 2.0 * b + c) == Times(t, a) + 2.0 * Times(t, b) + Times(t, c)
  {
  }

  lemma FirstTerms(h: real, k: real, xx: real, xy: real)
    ensures Times(xx, Times(Square(h), xx)) == Square(Times(h, xx))
    ensures Times(xx, Times(Times(h, k), xy)) == Times(Times(h, xx), Times(k, xy))
  {
  }

  lemma LastTerms(k: real, xx: real, xy: real, yy: real)
    ensures Times(xx, Times(Square(k), yy)) == Times(Square(k), Times(xx, yy))
    ensures Square(Times(k, xy)) == Times(Square(k), Times(xy, xy))
  {
  }

  /** The fitted slopes give a smaller squared error than any others. */
  lemma {:induction false} LeastSquares(samples: seq<Sample>, p: real, q: real)
    requires var s := SumsOf(samples); Determinant(s) > 0.0
    ensures var s := SumsOf(samples);
            var bestP, bestQ := SlopeX(s, s.ux, s.uy), SlopeY(s, s.ux, s.uy);
            && SquaredError(samples, bestP, bestQ) <= SquaredError(samples, p, q)
            && (SquaredError(samples, p, q) == SquaredError(samples, bestP, bestQ) ==> p == bestP && q == bestQ)
  {
    var s, uu := SumsOf(samples), SumOfSquares(samples);
    var bestP, bestQ := SlopeX(s, s.ux, s.uy), SlopeY(s, s.ux, s.uy);
    var h, k := p - bestP, q - bestQ;
    hide *;
    Solution(s);
    AwayFromSolution(s, uu, bestP, bestQ, h, k);
    ErrorIsQuadratic(samples, p, q);
    ErrorIsQuadratic(samples, bestP, bestQ);
    ExcessNotNegative(samples, h, k);
    assert bestP + h == p && bestQ + k == q;
    if Excess(s, h, k) == 0.0 {
      ExcessDefinite(s, h, k);
    }
  }

  /** The displacements belong to one linear field around the centre. */
  ghost predicate Linear(samples: seq<Sample>, p: real, q: real) {
    forall i :: 0 <= i < |samples| ==> samples[i].du == Plane(p, q, samples[i])
  }

  lemma {:induction false} LinearSolves(samples: seq<Sample>, p: real, q: real)
    requires Linear(samples, p, q)
    ensures Solves(SumsOf(samples), p, q)
  {
    if samples != [] {
      var n := |samples| - 1;
      LinearSolves(samples[..n], p, q);
      LinearStep(SumsOf(samples[..n]), samples[n], p, q);
    }
  }

  lemma LinearStep(s: Sums, v: Sample, p: real, q: real)
    requires Solves(s, p, q) && v.du == Plane(p, q, v)
    ensures Solves(AddSample(s, v), p, q)
  {
    hide Times;
    hide Solves;
    hide Plane;
    LinearProduct(v.dx, v, p, q);
    LinearProduct(v.dy, v, p, q);
    Spread(v.dx, v.dy, 0.0);
    SolutionAdds(s, AddSample(s, v), p, q, Times(v.dx, v.du), Times(v.dy, v.du), Times(v.dx, v.dx), Times(v.dx, v.dy),
        Times(v.dy, v.dy));
  }

  lemma LinearProduct(d: real, v: Sample, p: real, q: real)
    requires v.du == Plane(p, q, v)
    ensures Times(d, v.du) == Times(Times(d, v.dx), p) + Times(Times(d, v.dy), q)
  {
    hide Times;
    Spread(d, Times(p, v.dx), Times(q, v.dy));
    Regroup(d, v.dx, p);
    Regroup(d, v.dy, q);
    Spread(p, v.dx, 0.0);
    Spread(q, v.dy, 0.0);
  }

  lemma SolutionAdds(s: Sums, t: Sums, p: real, q: real, ux: real, uy: real, xx: real, xy: real, yy: real)
    requires t.ux == s.ux + ux && t.uy == s.uy + uy && t.xx == s.xx + xx && t.xy == s.xy + xy && t.yy == s.yy + yy
    requires Solves(s, p, q) && ux == Times(xx, p) + Times(xy, q) && uy == Times(xy, p) + Times(yy, q)
    ensures Solves(t, p, q)
  {
    hide Times;
    Spread(p, s.xx, xx);
    Spread(q, s.xy, xy);
    Spread(p, s.xy, xy);
    Spread(q, s.yy, yy);
  }

  /** On a linear field the fit returns its slopes. */
  lemma ExactOnLinear(samples: seq<Sample>, p: real, q: real)
    requires Linear(samples, p, q) && Determinant(SumsOf(samples)) != 0.0
    ensures var s := SumsOf(samples); SlopeX(s, s.ux, s.uy) == p && SlopeY(s, s.ux, s.uy) == q
  {
    hide *;
    LinearSolves(samples, p, q);
    OnlySolution(SumsOf(samples), p, q);
  }
}
