/** What one refinement step achieves: it minimises the linearised difference of the two normalised windows. */
module SubpixelStep {
  import opened Outcomes
  import opened Reals
  import opened Correlation
  import opened Subpixel

  // The samples: a cell is interpolated bilinearly, and the gradients are its partial derivatives.

  /** Along each axis the value is linear between the pixels, with the gradient as its slope. */
  lemma {:induction false} GradientsArePartial(tx: real, ty: real, h: real, a: real, b: real, c: real, d: real)
    ensures var s := Interpolated(tx, ty, a, b, c, d);
            && Interpolated(tx + h, ty, a, b, c, d).value == s.value + Times(h, s.gx)
            && Interpolated(tx, ty + h, a, b, c, d).value == s.value + Times(h, s.gy)
    ensures Interpolated(0.0, 0.0, a, b, c, d).value == a && Interpolated(1.0, 0.0, a, b, c, d).value == b
    ensures Interpolated(0.0, 1.0, a, b, c, d).value == c && Interpolated(1.0, 1.0, a, b, c, d).value == d
  {
    MixMoves(tx, h, a, b);
    MixMoves(tx, h, c, d);
    MixMoves(ty, h, Mix(tx, a, b), Mix(tx, c, d));
    MixOfSums(ty, Mix(tx, a, b), Times(h, b - a), Mix(tx, c, d), Times(h, d - c));
    MixScales(ty, h, b - a, d - c);
    MixDifference(tx, a, b, c, d);
    MixEnds(a, b);
    MixEnds(c, d);
    MixEnds(Mix(0.0, a, b), Mix(0.0, c, d));
    MixEnds(Mix(1.0, a, b), Mix(1.0, c, d));
    hide Mix;
    hide Times;
  }

  lemma MixEnds(a: real, b: real)
    ensures Mix(0.0, a, b) == a && Mix(1.0, a, b) == b
  {
  }

  lemma MixMoves(t: real, h: real, a: real, b: real)
    ensures Mix(t + h, a, b) == Mix(t, a, b) + Times(h, b - a)
  {
  }

  lemma MixOfSums(t: real, a: real, x: real, b: real, y: real)
    ensures Mix(t, a + x, b + y) == Mix(t, a, b) + Mix(t, x, y)
  {
  }

  lemma MixScales(t: real, h: real, a: real, b: real)
    ensures Mix(t, Times(h, a), Times(h, b)) == Times(h, Mix(t, a, b))
  {
  }

  lemma MixDifference(t: real, a: real, b: real, c: real, d: real)
    ensures Mix(t, c, d) - Mix(t, a, b) == Mix(t, c - a, d - b)
  {
  }

  // The linearised problem.

  /** One normalised gradient, less a multiple of the window. */
  predicate Along(j: seq<real>, d: seq<real>, g: seq<real>, norm: real, c: real)
    requires norm != 0.0 && |j| == |d| == |g|
  {
    forall i :: 0 <= i < |j| ==> j[i] == Times(g[i], 1.0 / norm) - Times(c, d[i])
  }

  /**
   * The direction in which the normalised window d / |d| moves if d moves by g: g / |d|, less what would change the
   * length.
   */
  ghost predicate Tangent(j: seq<real>, d: seq<real>, g: seq<real>, norm: real)
    requires norm != 0.0
  {
    |j| == |d| == |g| && Dot(j, d) == 0.0 && exists c :: Along(j, d, g, norm, c)
  }

  /** The difference of the normalised windows. */
  ghost predicate Difference(r: seq<real>, d: seq<real>, norm: real, ref: seq<real>, refNorm: real)
    requires norm != 0.0 && refNorm != 0.0
  {
    |r| == |d| == |ref| && forall i :: 0 <= i < |r| ==> r[i] == Times(d[i], 1.0 / norm) - ref[i] / refNorm
  }

  /** That difference after a step by (p, q), to first order. */
  function Shifted(r: seq<real>, p: real, jx: seq<real>, q: real, jy: seq<real>): (z: seq<real>)
    requires |r| == |jx| == |jy|
    ensures |z| == |r|
  {
    seq(|r|, i requires 0 <= i < |r| => r[i] + (Times(p, jx[i]) + Times(q, jy[i])))
  }

  function SquaredError(r: seq<real>, p: real, jx: seq<real>, q: real, jy: seq<real>): real
    requires |r| == |jx| == |jy|
  {
    var z := Shifted(r, p, jx, q, jy);
    Dot(z, z)
  }

  lemma ShiftedIsMixed(r: seq<real>, p: real, jx: seq<real>, q: real, jy: seq<real>)
    requires |r| == |jx| == |jy|
    ensures Shifted(r, p, jx, q, jy) == Mixed(1.0, r, 1.0, Mixed(p, jx, q, jy))
  {
    var z, m := Shifted(r, p, jx, q, jy), Mixed(p, jx, q, jy);
    forall i | 0 <= i < |r|
      ensures z[i] == Mixed(1.0, r, 1.0, m)[i]
    {
      OneTimes(r[i]);
      OneTimes(m[i]);
    }
    hide Times;
  }

  lemma OneTimes(a: real)
    ensures Times(1.0, a) == a
  {
  }

  /** A step that solves the normal equations leaves a difference that is orthogonal to both directions. */
  predicate Normal(h00: real, h01: real, h11: real, b0: real, b1: real, du: real, dv: real) {
    Times(h00, du) + Times(h01, dv) == -b0 && Times(h01, du) + Times(h11, dv) == -b1
  }

  lemma Orthogonal(r: seq<real>, jx: seq<real>, jy: seq<real>, du: real, dv: real)
    requires |r| == |jx| == |jy|
    requires Normal(Dot(jx, jx), Dot(jx, jy), Dot(jy, jy), Dot(jx, r), Dot(jy, r), du, dv)
    ensures var z := Shifted(r, du, jx, dv, jy); Dot(z, jx) == 0.0 && Dot(z, jy) == 0.0
  {
    hide *;
    var m := Mixed(du, jx, dv, jy);
    ShiftedIsMixed(r, du, jx, dv, jy);
    DotMixedLeft(1.0, r, 1.0, m, jx);
    DotMixedLeft(1.0, r, 1.0, m, jy);
    DotMixedLeft(du, jx, dv, jy, jx);
    DotMixedLeft(du, jx, dv, jy, jy);
    DotCommutes(r, jx);
    DotCommutes(r, jy);
    DotCommutes(jx, jy);
    OneTimes(Dot(r, jx));
    OneTimes(Dot(r, jy));
    OneTimes(Dot(m, jx));
    OneTimes(Dot(m, jy));
    NormalIs(Dot(jx, jx), Dot(jx, jy), Dot(jy, jy), Dot(jx, r), Dot(jy, r), du, dv);
  }

  lemma NormalIs(h00: real, h01: real, h11: real, b0: real, b1: real, du: real, dv: real)
    requires Normal(h00, h01, h11, b0, b1, du, dv)
    ensures b0 + (Times(du, h00) + Times(dv, h01)) == 0.0 && b1 + (Times(du, h01) + Times(dv, h11)) == 0.0
  {
  }

  /** Any other step moves that difference further, by the length of the detour. */
  lemma Detour(r: seq<real>, jx: seq<real>, jy: seq<real>, du: real, dv: real, p: real, q: real)
    requires |r| == |jx| == |jy|
    requires var z := Shifted(r, du, jx, dv, jy); Dot(z, jx) == 0.0 && Dot(z, jy) == 0.0
    ensures var m := Mixed(p - du, jx, q - dv, jy);
            SquaredError(r, p, jx, q, jy) == SquaredError(r, du, jx, dv, jy) + Dot(m, m)
  {
    hide *;
    var z, m := Shifted(r, du, jx, dv, jy), Mixed(p - du, jx, q - dv, jy);
    ShiftedFurther(r, jx, jy, du, dv, p, q);
    DotMixed(1.0, z, 1.0, m);
    DotMixedLeft(p - du, jx, q - dv, jy, z);
    DotCommutes(z, m);
    DotCommutes(z, jx);
    DotCommutes(z, jy);
    ErrorIs(r, p, jx, q, jy);
    ErrorIs(r, du, jx, dv, jy);
    OnesAndZeros(Dot(z, z), Dot(z, m), Dot(m, m), p - du, q - dv);
  }

  lemma ErrorIs(r: seq<real>, p: real, jx: seq<real>, q: real, jy: seq<real>)
    requires |r| == |jx| == |jy|
    ensures var z := Shifted(r, p, jx, q, jy); SquaredError(r, p, jx, q, jy) == Dot(z, z)
  {
    hide Dot;
  }

  lemma OnesAndZeros(zz: real, zm: real, mm: real, a: real, b: real)
    ensures Times(Square(1.0), zz) == zz && Times(Square(1.0), mm) == mm
    ensures Times(a, 0.0) + Times(b, 0.0) == 0.0
    ensures zm == 0.0 ==> 2.0 * Times(Times(1.0, 1.0), zm) == 0.0
  {
  }

  lemma ShiftedFurther(r: seq<real>, jx: seq<real>, jy: seq<real>, du: real, dv: real, p: real, q: real)
    requires |r| == |jx| == |jy|
    ensures Shifted(r, p, jx, q, jy) == Mixed(1.0, Shifted(r, du, jx, dv, jy), 1.0, Mixed(p - du, jx, q - dv, jy))
  {
    var z, m := Shifted(r, du, jx, dv, jy), Mixed(p - du, jx, q - dv, jy);
    forall i | 0 <= i < |r|
      ensures Shifted(r, p, jx, q, jy)[i] == Mixed(1.0, z, 1.0, m)[i]
    {
      OneTimes(z[i]);
      OneTimes(m[i]);
      Spread(jx[i], p, du);
      Spread(jy[i], q, dv);
      Spread(p, jx[i], 0.0);
      Spread(q, jy[i], 0.0);
      Spread(du, jx[i], 0.0);
      Spread(dv, jy[i], 0.0);
      Spread(p - du, jx[i], 0.0);
      Spread(q - dv, jy[i], 0.0);
    }
    hide Times;
  }

  // The step that the code takes.

  /** The normal equations have at most one solution, and the quadratic form is definite. */
  lemma Definite(h00: real, h01: real, h11: real, a: real, b: real)
    requires h00 >= 0.0 && Times(h00, h11) - Times(h01, h01) > 0.0
    requires Times(Square(a), h00) + 2.0 * Times(Times(a, b), h01) + Times(Square(b), h11) == 0.0
    ensures a == 0.0 && b == 0.0
  {
    var det := Times(h00, h11) - Times(h01, h01);
    Completed(h00, h01, h11, a, b);
    SquarePositive(Times(a, h00) + Times(b, h01));
    SquareIsTimes(h01);
    SquarePositive(h01);
    One(1.0, h11);
    assert h00 > 0.0;
    if b != 0.0 {
      SquareOfNonzero(b);
      PositiveTimes(Square(b), det);
      ZeroTimes(h00);
      hide *;
      assert false;
    }
    assert Times(Square(0.0), h11) == 0.0 && Times(Times(a, 0.0), h01) == 0.0;
    if a != 0.0 {
      SquareOfNonzero(a);
      PositiveTimes(Square(a), h00);
      hide *;
      assert false;
    }
  }

  lemma Completed(h00: real, h01: real, h11: real, a: real, b: real)
    ensures Times(h00, Times(Square(a), h00) + 2.0 * Times(Times(a, b), h01) + Times(Square(b), h11))
            == Square(Times(a, h00) + Times(b, h01)) + Times(Square(b), Times(h00, h11) - Times(h01, h01))
  {
    var x, y := a * h00, b * h01;
    assert (x + y) * (x + y) == x * x + 2.0 * (x * y) + y * y;
    assert h00 * (a * a * h00) == x * x;
    assert h00 * ((a * b) * h01) == x * y;
    assert y * y == (b * b) * (h01 * h01);
    assert h00 * ((b * b) * h11) == (b * b) * (h00 * h11);
  }

  /** With the determinant away from zero, the solution of the normal equations is the only minimiser. */
  lemma {:induction false} NormalMinimises(
      r: seq<real>, jx: seq<real>, jy: seq<real>, du: real, dv: real, p: real, q: real)
    requires |r| == |jx| == |jy| && Times(Dot(jx, jx), Dot(jy, jy)) - Times(Dot(jx, jy), Dot(jx, jy)) != 0.0
    requires Normal(Dot(jx, jx), Dot(jx, jy), Dot(jy, jy), Dot(jx, r), Dot(jy, r), du, dv)
    ensures SquaredError(r, du, jx, dv, jy) <= SquaredError(r, p, jx, q, jy)
    ensures SquaredError(r, du, jx, dv, jy) == SquaredError(r, p, jx, q, jy) ==> p == du && q == dv
  {
    hide *;
    var m := Mixed(p - du, jx, q - dv, jy);
    Orthogonal(r, jx, jy, du, dv);
    Detour(r, jx, jy, du, dv, p, q);
    DotNotNegative(m);
    DotNotNegative(jx);
    DotMixed(p - du, jx, q - dv, jy);
    CauchySchwarz(jx, jy);
    SquareIsTimes(Dot(jx, jy));
    if Dot(m, m) == 0.0 {
      Definite(Dot(jx, jx), Dot(jx, jy), Dot(jy, jy), p - du, q - dv);
    }
  }

  lemma SolvedIsNormal(h00: real, h01: real, h11: real, b0: real, b1: real, zncc: real)
    ensures var s := Solved(h00, h01, h11, b0, b1, zncc);
            var det := Times(h00, h11) - Times(h01, h01);
            if -0.000000000000001 < det < 0.000000000000001 then s == Singular
            else s.Moved? && Normal(h00, h01, h11, b0, b1, s.du, s.dv) && s.zncc == zncc
  {
    var det := h00 * h11 - h01 * h01;
    if !(-SMALLEST_DETERMINANT < det < SMALLEST_DETERMINANT) {
      var x, y := -h11 * b0 + h01 * b1, h01 * b0 - h00 * b1;
      Fraction(h00, x, h01, y, det);
      Fraction(h01, x, h11, y, det);
      FirstEquation(h00, h01, h11, b0, b1);
      SecondEquation(h00, h01, h11, b0, b1);
      Cancelled(-b0, det);
      Cancelled(-b1, det);
    }
  }

  lemma FirstEquation(h00: real, h01: real, h11: real, b0: real, b1: real)
    ensures h00 * (-h11 * b0 + h01 * b1) + h01 * (h01 * b0 - h00 * b1) == -b0 * (h00 * h11 - h01 * h01)
  {
    assert h00 * (-h11 * b0) == -b0 * (h00 * h11);
    assert h01 * (h01 * b0) == b0 * (h01 * h01);
    assert h00 * (h01 * b1) == h01 * (h00 * b1);
  }

  lemma SecondEquation(h00: real, h01: real, h11: real, b0: real, b1: real)
    ensures h01 * (-h11 * b0 + h01 * b1) + h11 * (h01 * b0 - h00 * b1) == -b1 * (h00 * h11 - h01 * h01)
  {
    assert h01 * (-h11 * b0) == -h11 * (h01 * b0);
    assert h01 * (h01 * b1) == b1 * (h01 * h01);
    assert h11 * (h00 * b1) == b1 * (h00 * h11);
  }

  lemma Fraction(a: real, x: real, b: real, y: real, det: real)
    requires det != 0.0
    ensures Times(a, x / det) + Times(b, y / det) == (a * x + b * y) / det
  {
  }

  lemma Cancelled(b: real, det: real)
    requires det != 0.0
    ensures b * det / det == b
  {
  }

  lemma JacobianIsTangent(d: seq<real>, g: seq<real>, norm: real)
    requires |d| == |g| && norm > 0.0 && Square(norm) == Dot(d, d) && Times(Dot(d, d), norm) != 0.0
    ensures Tangent(Jacobian(d, g, Dot(d, d), norm), d, g, norm)
  {
    var e := Dot(d, d);
    var inverse, c := 1.0 / norm, Times(Dot(d, g), 1.0 / Times(e, norm));
    var j := Jacobian(d, g, e, norm);
    forall i | 0 <= i < |j|
      ensures j[i] == Times(g[i], inverse) - Times(c, d[i])
    {
      Regroup(d[i], Dot(d, g), 1.0 / Times(e, norm));
      Spread(d[i], c, 0.0);
    }
    assert Along(j, d, g, norm, c);
    assert j == Mixed(inverse, g, -c, d) by {
      forall i | 0 <= i < |j|
        ensures j[i] == Mixed(inverse, g, -c, d)[i]
      {
        Spread(g[i], inverse, 0.0);
        Spread(d[i], c, 0.0);
        Spread(-c, d[i], 0.0);
      }
      hide Times;
    }
    hide Times;
    hide Dot;
    hide Jacobian;
    hide Mixed;
    DotMixedLeft(inverse, g, -c, d, d);
    DotCommutes(d, g);
    NoLength(norm, e, Dot(d, g));
  }

  lemma NoLength(norm: real, e: real, dot: real)
    requires norm > 0.0 && Square(norm) == e && Times(e, norm) != 0.0
    ensures Times(1.0 / norm, dot) + Times(-Times(dot, 1.0 / Times(e, norm)), e) == 0.0
  {
    var x := 1.0 / norm;
    var y := 1.0 / (e * norm);
    assert y * (e * norm) == 1.0;
    assert (y * e) * norm == 1.0;
    Cancel(y * e, x, norm);
    assert (dot * y) * e == dot * (y * e);
  }

  /** What the step solves: the two directions, the difference, and from them the normal equations. */
  ghost predicate Linearised(
    ref: seq<real>, refNorm: real, samples: seq<Sample>, root: real -> real,
    jx: seq<real>, jy: seq<real>, r: seq<real>)
    requires |ref| == |samples| > 0 && refNorm != 0.0
  {
    var d := Centred(Values(samples));
    var norm := root(Dot(d, d));
    && norm > 0.0 && Square(norm) == Dot(d, d)
    && Tangent(jx, d, Centred(GradientsX(samples)), norm)
    && Tangent(jy, d, Centred(GradientsY(samples)), norm)
    && Difference(r, d, norm, ref, refNorm)
  }

  lemma StepSolves(ref: seq<real>, refNorm: real, samples: seq<Sample>, minimum: real, root: real -> real)
    returns (jx: seq<real>, jy: seq<real>, r: seq<real>)
    requires |ref| == |samples| > 0 && refNorm > 0.0 && minimum > 0.0 && IsRoot(root)
    requires StepOf(ref, refNorm, samples, minimum, root) != Flat
    ensures |jx| == |jy| == |r| == |ref| && Linearised(ref, refNorm, samples, root, jx, jy, r)
    ensures var d := Centred(Values(samples));
            Dot(d, d) >= minimum && Times(refNorm, root(Dot(d, d))) > 0.0
            && StepOf(ref, refNorm, samples, minimum, root)
               == Solved(Dot(jx, jx), Dot(jx, jy), Dot(jy, jy), Dot(jx, r), Dot(jy, r),
                         Clamped(Dot(ref, d) / Times(refNorm, root(Dot(d, d)))))
  {
    var d, gx, gy := Centred(Values(samples)), Centred(GradientsX(samples)), Centred(GradientsY(samples));
    StepIs(ref, refNorm, samples, minimum, root);
    var energy, norm := Dot(d, d), root(Dot(d, d));
    assert Square(norm) == energy;
    hide IsRoot;
    hide StepOf;
    hide Square;
    ProductPositive(energy, norm);
    ProductPositive(refNorm, norm);
    jx, jy, r := Jacobian(d, gx, energy, norm), Jacobian(d, gy, energy, norm), Residuals(d, norm, ref, refNorm);
    JacobianIsTangent(d, gx, norm);
    JacobianIsTangent(d, gy, norm);
    hide Dot;
    hide Centred;
    hide Jacobian;
    hide Tangent;
    hide Times;
    hide Solved;
    hide Clamped;
  }

  /**
   * A step that moves minimises the linearised squared difference of the normalised windows over all steps, and is
   * the only one that does. There is none exactly if the determinant of the normal equations is too small.
   */
  lemma {:induction false} StepMinimises(
      ref: seq<real>, refNorm: real, samples: seq<Sample>, minimum: real, root: real -> real)
    returns (jx: seq<real>, jy: seq<real>, r: seq<real>)
    requires |ref| == |samples| > 0 && refNorm > 0.0 && minimum > 0.0 && IsRoot(root)
    requires StepOf(ref, refNorm, samples, minimum, root) != Flat
    ensures |jx| == |jy| == |r| == |ref| && Linearised(ref, refNorm, samples, root, jx, jy, r)
    ensures var det := Times(Dot(jx, jx), Dot(jy, jy)) - Times(Dot(jx, jy), Dot(jx, jy));
            StepOf(ref, refNorm, samples, minimum, root) == Singular
            <==> -0.000000000000001 < det < 0.000000000000001
    ensures var s := StepOf(ref, refNorm, samples, minimum, root);
            s.Moved? ==>
              && Normal(Dot(jx, jx), Dot(jx, jy), Dot(jy, jy), Dot(jx, r), Dot(jy, r), s.du, s.dv)
              && forall p: real, q: real ::
                   && SquaredError(r, s.du, jx, s.dv, jy) <= SquaredError(r, p, jx, q, jy)
                   && (SquaredError(r, s.du, jx, s.dv, jy) == SquaredError(r, p, jx, q, jy) ==> p == s.du && q == s.dv)
  {
    hide *;
    jx, jy, r := StepSolves(ref, refNorm, samples, minimum, root);
    var s, d := StepOf(ref, refNorm, samples, minimum, root), Centred(Values(samples));
    SolvedIsNormal(Dot(jx, jx), Dot(jx, jy), Dot(jy, jy), Dot(jx, r), Dot(jy, r),
                   Clamped(Dot(ref, d) / Times(refNorm, root(Dot(d, d)))));
    if s.Moved? {
      forall p: real, q: real
        ensures SquaredError(r, s.du, jx, s.dv, jy) <= SquaredError(r, p, jx, q, jy)
        ensures SquaredError(r, s.du, jx, s.dv, jy) == SquaredError(r, p, jx, q, jy) ==> p == s.du && q == s.dv
      {
        NormalMinimises(r, jx, jy, s.du, s.dv, p, q);
      }
    }
  }

  // The quality.

  /** With a reference of the given norm the quality is the correlation itself: the clamp never acts. */
  lemma {:induction false} QualityIsCorrelation(
      ref: seq<real>, refNorm: real, samples: seq<Sample>, minimum: real, root: real -> real)
    requires |ref| == |samples| > 0 && refNorm > 0.0 && minimum > 0.0 && IsRoot(root)
    requires Square(refNorm) == Dot(ref, ref) && StepOf(ref, refNorm, samples, minimum, root).Moved?
    ensures var d := Centred(Values(samples)); var n := Times(refNorm, root(Dot(d, d)));
            && n > 0.0 && -n <= Dot(ref, d) <= n
            && StepOf(ref, refNorm, samples, minimum, root).zncc == Dot(ref, d) / n
  {
    hide *;
    var jx, jy, r := StepSolves(ref, refNorm, samples, minimum, root);
    var d := Centred(Values(samples));
    var n := Times(refNorm, root(Dot(d, d)));
    SolvedIsNormal(Dot(jx, jx), Dot(jx, jy), Dot(jy, jy), Dot(jx, r), Dot(jy, r), Clamped(Dot(ref, d) / n));
    CauchySchwarz(ref, d);
    LinearisedNorm(ref, refNorm, samples, root, jx, jy, r);
    SquareOfSum(refNorm, root(Dot(d, d)));
    Ordered(Dot(ref, d), n);
    Unclamped(Dot(ref, d), n);
  }

  lemma LinearisedNorm(
      ref: seq<real>, refNorm: real, samples: seq<Sample>, root: real -> real,
      jx: seq<real>, jy: seq<real>, r: seq<real>)
    requires |ref| == |samples| > 0 && refNorm != 0.0 && Linearised(ref, refNorm, samples, root, jx, jy, r)
    ensures var d := Centred(Values(samples)); root(Dot(d, d)) > 0.0 && Square(root(Dot(d, d))) == Dot(d, d)
  {
    hide Dot;
    hide Centred;
    hide Tangent;
    hide Difference;
  }

  lemma Unclamped(a: real, n: real)
    requires n > 0.0 && -n <= a <= n
    ensures Clamped(a / n) == a / n
  {
    Quotient(a, n);
  }

  // The fixed points.

  /** The samples show the reference, more or less bright. */
  ghost predicate Shows(samples: seq<Sample>, w: seq<real>, gain: real, offset: real) {
    gain > 0.0 && Values(samples) == Brightened(w, gain, offset)
  }

  lemma SameRoot(a: real, b: real)
    requires a >= 0.0 && b >= 0.0 && Square(a) == Square(b)
    ensures a == b
  {
    Ordered(a, b);
    Ordered(b, a);
  }

  lemma ShownDifference(w: seq<real>, d: seq<real>, gain: real, norm: real, refNorm: real, r: seq<real>)
    requires |w| == |d| == |r| && gain > 0.0 && refNorm > 0.0 && norm == Times(gain, refNorm) && norm > 0.0
    requires d == Scaled(gain, w) && Difference(r, d, norm, w, refNorm)
    ensures forall i :: 0 <= i < |r| ==> r[i] == 0.0
  {
    forall i | 0 <= i < |r|
      ensures r[i] == 0.0
    {
      assert d[i] == Times(gain, w[i]);
      GainCancels(gain, w[i], refNorm);
    }
  }

  lemma GainCancels(gain: real, a: real, n: real)
    requires gain > 0.0 && n > 0.0 && Times(gain, n) > 0.0
    ensures Times(Times(gain, a), 1.0 / Times(gain, n)) == a / n
  {
    var x := 1.0 / (gain * n);
    assert x * (gain * n) == 1.0;
    assert (gain * x) * n == 1.0;
    var y := 1.0 / n;
    Cancel(gain * x, y, n);
    assert (gain * a) * x == a * (gain * x);
  }

  lemma NoRightSide(h00: real, h01: real, h11: real, du: real, dv: real)
    requires Times(h00, h11) - Times(h01, h01) != 0.0 && Normal(h00, h01, h11, 0.0, 0.0, du, dv)
    ensures du == 0.0 && dv == 0.0
  {
    var det := h00 * h11 - h01 * h01;
    assert det * du == h11 * (h00 * du + h01 * dv) - h01 * (h01 * du + h11 * dv);
    assert det * dv == h00 * (h01 * du + h11 * dv) - h01 * (h00 * du + h01 * dv);
    Cancel(du, 0.0, det);
    Cancel(dv, 0.0, det);
  }

  /**
   * Where the deformed window is the reference with another gain and offset, the step does not move and the quality
   * is 1, unless the window is too flat or the system singular.
   */
  lemma {:induction false} ReferenceIsFixed(
      w: seq<real>, refNorm: real, samples: seq<Sample>, minimum: real, root: real -> real, gain: real, offset: real)
    requires |w| == |samples| > 0 && refNorm > 0.0 && minimum > 0.0 && IsRoot(root)
    requires Square(refNorm) == Dot(Centred(w), Centred(w)) && Shows(samples, w, gain, offset)
    ensures var s := StepOf(Centred(w), refNorm, samples, minimum, root);
            && (s.Flat? <==> Times(Square(gain), Dot(Centred(w), Centred(w))) < minimum)
            && (s.Moved? ==> s == Subpixel.Moved(0.0, 0.0, 1.0))
  {
    ShownEnergy(w, samples, gain, offset);
    var ref, d := Centred(w), Centred(Values(samples));
    StepIs(ref, refNorm, samples, minimum, root);
    hide *;
    var s := StepOf(ref, refNorm, samples, minimum, root);
    if s.Moved? {
      QualityIsCorrelation(ref, refNorm, samples, minimum, root);
      var jx, jy, r := StepMinimises(ref, refNorm, samples, minimum, root);
      LinearisedNorm(ref, refNorm, samples, root, jx, jy, r);
      LinearisedDifference(ref, refNorm, samples, root, jx, jy, r);
      var norm := root(Dot(d, d));
      SquareOfSum(gain, refNorm);
      PositiveTimes(gain, refNorm);
      SameRoot(norm, Times(gain, refNorm));
      ShownDifference(ref, d, gain, norm, refNorm, r);
      DotWithZero(r, jx);
      DotWithZero(r, jy);
      DotCommutes(r, jx);
      DotCommutes(r, jy);
      NoRightSide(Dot(jx, jx), Dot(jx, jy), Dot(jy, jy), s.du, s.dv);
      DotScaled(gain, ref, ref);
      SquareIsTimes(refNorm);
      Regroup(gain, refNorm, refNorm);
      Spread(refNorm, norm, 0.0);
      Whole(Times(refNorm, norm));
    }
  }

  lemma Whole(n: real)
    requires n > 0.0
    ensures n / n == 1.0
  {
  }

  lemma ShownEnergy(w: seq<real>, samples: seq<Sample>, gain: real, offset: real)
    requires |w| == |samples| > 0 && Shows(samples, w, gain, offset)
    ensures Centred(Values(samples)) == Scaled(gain, Centred(w)) && gain > 0.0
    ensures var d := Centred(Values(samples)); Dot(d, d) == Times(Square(gain), Dot(Centred(w), Centred(w)))
  {
    CentredBrightened(w, gain, offset);
    hide Centred;
    hide Dot;
    hide Times;
    hide Square;
    var c := Centred(w);
    DotScaled(gain, c, Scaled(gain, c));
    DotScaled(gain, c, c);
    Regroup(gain, gain, Dot(c, c));
    SquareIsTimes(gain);
  }

  lemma LinearisedDifference(
      ref: seq<real>, refNorm: real, samples: seq<Sample>, root: real -> real,
      jx: seq<real>, jy: seq<real>, r: seq<real>)
    requires |ref| == |samples| > 0 && refNorm != 0.0 && Linearised(ref, refNorm, samples, root, jx, jy, r)
    ensures var d := Centred(Values(samples)); root(Dot(d, d)) > 0.0 && Difference(r, d, root(Dot(d, d)), ref, refNorm)
  {
    hide Dot;
    hide Centred;
    hide Tangent;
    hide Difference;
  }
}
