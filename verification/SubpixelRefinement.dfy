/** The refinement loop over its sample arrays. */
module SubpixelRefinement {
  import opened Outcomes
  import opened Reals
  import opened Frames
  import opened Correlation
  import opened Subpixel

  lemma TotalNext(x: seq<real>, k: nat)
    requires k < |x|
    ensures Total(x[..k + 1]) == Total(x[..k]) + x[k]
  {
    assert x[..k + 1][..k] == x[..k];
  }

  lemma DotNext(x: seq<real>, y: seq<real>, k: nat)
    requires k < |x| == |y|
    ensures Dot(x[..k + 1], y[..k + 1]) == Dot(x[..k], y[..k]) + x[k] * y[k]
  {
    assert x[..k + 1][..k] == x[..k] && y[..k + 1][..k] == y[..k];
    assert Times(x[k], y[k]) == x[k] * y[k];
    hide Times;
  }

  lemma Whole(x: seq<real>)
    ensures x[..|x|] == x && x[..0] == [] && Total([]) == 0.0 && Dot([], []) == 0.0
  {
  }

  /** Position of a sample in the arrays. */
  lemma NextPosition(row: nat, column: nat, side: nat)
    requires row < side && column < side
    ensures row * side + column < side * side && (row + 1) * side == row * side + side
  {
    RowBelow(row, side, side);
    NextRow(row, side);
  }

  // The reference.

  method LoadReference(f: Frame, left: int, top: int, side: nat) returns (ref: array<real>, mean: real)
    requires WellFormed(f) && BoxInside(f, left, top, side) && side > 0
    ensures fresh(ref) && ref.Length == side * side > 0 && ref[..] == Window(f, left, top, side)
    ensures mean == Mean(ref[..])
  {
    hide At;
    hide RowPart;
    hide Rows;
    hide ReadSoFar;
    SideSquared(side);
    ref := new real[side * side];
    var sum, k := 0.0, 0;
    ReadNext(f, left, top, side, 0, 0);
    for row := 0 to side
      invariant k == row * side && k <= ref.Length
      invariant ref[..k] == Rows(f, left, top, side, row) && sum == Total(ref[..k])
    {
      ReadNext(f, left, top, side, row, 0);
      for column := 0 to side
        invariant k == row * side + column && k <= ref.Length
        invariant ref[..k] == ReadSoFar(f, left, top, side, row, column) && sum == Total(ref[..k])
      {
        ReadNext(f, left, top, side, row, column);
        NextPosition(row, column, side);
        var value := At(f, left + column, top + row) as real;
        ghost var before := ref[..k];
        ref[k] := value;
        assert ref[..k + 1] == before + [value] && ref[..k] == before;
        TotalNext(ref[..], k);
        assert ref[..][..k + 1] == ref[..k + 1] && ref[..][..k] == ref[..k];
        k := k + 1;
        sum := sum + value;
      }
      NextRow(row, side);
    }
    assert ref[..k] == ref[..];
    mean := sum / (side * side) as real;
  }

  lemma NextRow(row: nat, side: nat)
    ensures row * side + side == (row + 1) * side
  {
  }

  /** The mean is taken off in place. */
  method CentreReference(ref: array<real>, mean: real) returns (energy: real)
    requires ref.Length > 0 && mean == Mean(ref[..])
    modifies ref
    ensures ref[..] == Centred(old(ref[..])) && energy == Dot(ref[..], ref[..])
  {
    hide Mean;
    hide Dot;
    ghost var d := Centred(ref[..]);
    energy := 0.0;
    Whole(d);
    for k := 0 to ref.Length
      invariant ref[..k] == d[..k] && ref[k..] == old(ref[..])[k..]
      invariant energy == Dot(d[..k], d[..k])
    {
      assert old(ref[..])[k] == old(ref[..])[k..][0] == ref[k..][0];
      ref[k] := ref[k] - mean;
      assert ref[k] == d[k];
      DotNext(d, d, k);
      energy := energy + ref[k] * ref[k];
    }
    assert ref[..] == d;
  }

  // Sampling.

  function SampledSoFar(f: Frame, x: real, y: real, side: nat, row: nat, column: nat): Option<seq<Sample>>
    requires WellFormed(f)
  {
    Join(SampleRows(f, x, y, side, row), SampleRow(f, x, y + row as real, column))
  }

  lemma SampledNext(f: Frame, x: real, y: real, side: nat, row: nat, column: nat)
    requires WellFormed(f) && row < side && column < side
    ensures SampledSoFar(f, x, y, side, row, 0) == SampleRows(f, x, y, side, row)
    ensures var last := Bilinear(f, x + column as real, y + row as real);
            SampledSoFar(f, x, y, side, row, column + 1)
            == Join(SampledSoFar(f, x, y, side, row, column), if last.Some? then Some([last.value]) else None)
    ensures SampledSoFar(f, x, y, side, row, side) == SampleRows(f, x, y, side, row + 1)
    ensures SampleRows(f, x, y, side, 0) == Some([])
  {
    hide Bilinear;
    var rows, part := SampleRows(f, x, y, side, row), SampleRow(f, x, y + row as real, column);
    if rows.Some? {
      assert rows.value + [] == rows.value;
      if part.Some? && Bilinear(f, x + column as real, y + row as real).Some? {
        var last := Bilinear(f, x + column as real, y + row as real).value;
        assert rows.value + (part.value + [last]) == rows.value + part.value + [last];
      }
    }
  }

  lemma {:induction false} OutsideRow(f: Frame, x: real, y: real, n: nat, m: nat)
    requires WellFormed(f) && n <= m && SampleRow(f, x, y, n).None?
    ensures SampleRow(f, x, y, m).None?
    decreases m
  {
    if n < m {
      OutsideRow(f, x, y, n, m - 1);
    }
  }

  lemma {:induction false} OutsideRows(f: Frame, x: real, y: real, side: nat, n: nat, m: nat)
    requires WellFormed(f) && n <= m && SampleRows(f, x, y, side, n).None?
    ensures SampleRows(f, x, y, side, m).None?
    decreases m
  {
    hide SampleRow;
    if n < m {
      OutsideRows(f, x, y, side, n, m - 1);
    }
  }

  lemma OutsideSoFar(f: Frame, x: real, y: real, side: nat, row: nat, column: nat)
    requires WellFormed(f) && row < side && column <= side && SampledSoFar(f, x, y, side, row, column).None?
    ensures SampleRows(f, x, y, side, side).None?
  {
    if SampleRow(f, x, y + row as real, column).None? {
      OutsideRow(f, x, y + row as real, column, side);
    }
    OutsideRows(f, x, y, side, row + 1, side);
  }

  /** One pass of sampling: the sums of values and gradients; false as soon as a sample lies outside. */
  method SampleWindow(f: Frame, s: Setup, u: real, v: real, samples: array<Sample>)
    returns (inside: bool, mean: real, meanGx: real, meanGy: real)
    requires WellFormed(f) && Ready(s) && samples.Length == s.side * s.side
    modifies samples
    ensures inside <==> SamplesAt(s, f, u, v).Some?
    ensures inside ==> samples[..] == SamplesAt(s, f, u, v).value
    ensures inside ==> samples.Length > 0 && mean == Mean(Values(samples[..]))
    ensures inside ==> meanGx == Mean(GradientsX(samples[..])) && meanGy == Mean(GradientsY(samples[..]))
  {
    hide Bilinear;
    hide SampleRow;
    hide SampleRows;
    hide SampledSoFar;
    hide Total;
    var x, y := s.left as real + u, s.top as real + v;
    var k := 0;
    mean, meanGx, meanGy := 0.0, 0.0, 0.0;
    SampledNext(f, x, y, s.side, 0, 0);
    NoTotals();
    for row := 0 to s.side
      invariant k == row * s.side && k <= samples.Length
      invariant SampleRows(f, x, y, s.side, row) == Some(samples[..k])
      invariant SumsUpTo(samples[..k], mean, meanGx, meanGy)
    {
      SampledNext(f, x, y, s.side, row, 0);
      for column := 0 to s.side
        invariant k == row * s.side + column && k <= samples.Length
        invariant SampledSoFar(f, x, y, s.side, row, column) == Some(samples[..k])
        invariant SumsUpTo(samples[..k], mean, meanGx, meanGy)
      {
        SampledNext(f, x, y, s.side, row, column);
        NextPosition(row, column, s.side);
        var sample := Bilinear(f, x + column as real, y + row as real);
        if sample.None? {
          OutsideSoFar(f, x, y, s.side, row, column + 1);
          return false, 0.0, 0.0, 0.0;
        }
        ghost var before := samples[..k];
        samples[k] := sample.value;
        assert samples[..k + 1] == before + [sample.value];
        SumsAppend(before, sample.value, mean, meanGx, meanGy);
        k := k + 1;
        mean, meanGx, meanGy := mean + sample.value.value, meanGx + sample.value.gx, meanGy + sample.value.gy;
      }
      NextRow(row, s.side);
    }
    assert samples[..k] == samples[..];
    var inverse := 1.0 / samples.Length as real;
    MeansFromSums(samples[..], mean, meanGx, meanGy, inverse);
    inside, mean, meanGx, meanGy := true, mean * inverse, meanGx * inverse, meanGy * inverse;
  }

  ghost predicate SumsUpTo(s: seq<Sample>, value: real, gx: real, gy: real) {
    value == Total(Values(s)) && gx == Total(GradientsX(s)) && gy == Total(GradientsY(s))
  }

  lemma NoTotals()
    ensures SumsUpTo([], 0.0, 0.0, 0.0)
  {
  }

  lemma SumsAppend(s: seq<Sample>, sample: Sample, value: real, gx: real, gy: real)
    requires SumsUpTo(s, value, gx, gy)
    ensures SumsUpTo(s + [sample], value + sample.value, gx + sample.gx, gy + sample.gy)
  {
    hide Total;
    assert Values(s + [sample]) == Values(s) + [sample.value];
    assert GradientsX(s + [sample]) == GradientsX(s) + [sample.gx];
    assert GradientsY(s + [sample]) == GradientsY(s) + [sample.gy];
    TotalAppends(Values(s), sample.value);
    TotalAppends(GradientsX(s), sample.gx);
    TotalAppends(GradientsY(s), sample.gy);
  }

  lemma MeansFromSums(s: seq<Sample>, value: real, gx: real, gy: real, inverse: real)
    requires s != [] && SumsUpTo(s, value, gx, gy) && inverse == 1.0 / |s| as real
    ensures value * inverse == Mean(Values(s)) && gx * inverse == Mean(GradientsX(s))
    ensures gy * inverse == Mean(GradientsY(s))
  {
    hide Total;
  }

  // The normal equations.

  /** The zero-mean samples, written into their arrays, and their products. */
  method CentreSamples(samples: array<Sample>, ref: array<real>, mean: real, meanGx: real, meanGy: real,
                       d: array<real>, gx: array<real>, gy: array<real>)
    returns (energy: real, numerator: real, dotX: real, dotY: real)
    requires samples.Length == ref.Length == d.Length == gx.Length == gy.Length > 0
    requires d != gx && d != gy && gx != gy && ref != d && ref != gx && ref != gy
    requires mean == Mean(Values(samples[..])) && meanGx == Mean(GradientsX(samples[..]))
    requires meanGy == Mean(GradientsY(samples[..]))
    modifies d, gx, gy
    ensures d[..] == Centred(Values(samples[..])) && gx[..] == Centred(GradientsX(samples[..]))
    ensures gy[..] == Centred(GradientsY(samples[..]))
    ensures energy == Dot(d[..], d[..]) && numerator == Dot(ref[..], d[..]) && dotX == Dot(d[..], gx[..])
    ensures dotY == Dot(d[..], gy[..])
  {
    hide Mean;
    hide Dot;
    ghost var a, b, c :=
        Centred(Values(samples[..])), Centred(GradientsX(samples[..])), Centred(GradientsY(samples[..]));
    ghost var r := ref[..];
    energy, numerator, dotX, dotY := 0.0, 0.0, 0.0, 0.0;
    NoDots(a, b);
    NoDots(r, c);
    for k := 0 to samples.Length
      invariant ref[..] == r
      invariant d[..k] == a[..k] && gx[..k] == b[..k] && gy[..k] == c[..k]
      invariant energy == Dot(a[..k], a[..k]) && numerator == Dot(r[..k], a[..k])
      invariant dotX == Dot(a[..k], b[..k]) && dotY == Dot(a[..k], c[..k])
    {
      d[k], gx[k], gy[k] := samples[k].value - mean, samples[k].gx - meanGx, samples[k].gy - meanGy;
      assert d[k] == a[k] && gx[k] == b[k] && gy[k] == c[k] && ref[k] == r[k];
      DotNext(a, a, k);
      DotNext(r, a, k);
      DotNext(a, b, k);
      DotNext(a, c, k);
      energy, dotX, dotY := energy + d[k] * d[k], dotX + d[k] * gx[k], dotY + d[k] * gy[k];
      numerator := numerator + ref[k] * d[k];
    }
    assert d[..] == a && gx[..] == b && gy[..] == c;
    Whole(a);
    Whole(b);
    Whole(c);
    Whole(r);
  }

  lemma NoDots(x: seq<real>, y: seq<real>)
    requires |x| == |y|
    ensures Dot(x[..0], x[..0]) == Dot(x[..0], y[..0]) == Dot(y[..0], x[..0]) == 0.0
  {
  }

  datatype Equations = Equations(h00: real, h01: real, h11: real, b0: real, b1: real)

  /** The sums over the first k samples. */
  ghost predicate EquationsUpTo(e: Equations, jx: seq<real>, jy: seq<real>, residuals: seq<real>, k: nat)
    requires |jx| == |jy| == |residuals| && k <= |jx|
  {
    && e.h00 == Dot(jx[..k], jx[..k]) && e.h01 == Dot(jx[..k], jy[..k]) && e.h11 == Dot(jy[..k], jy[..k])
    && e.b0 == Dot(jx[..k], residuals[..k]) && e.b1 == Dot(jy[..k], residuals[..k])
  }

  lemma EquationsNext(
      e: Equations, jx: seq<real>, jy: seq<real>, residuals: seq<real>, k: nat, x: real, y: real, r: real)
    requires |jx| == |jy| == |residuals| && k < |jx| && EquationsUpTo(e, jx, jy, residuals, k)
    requires x == jx[k] && y == jy[k] && r == residuals[k]
    ensures EquationsUpTo(Equations(e.h00 + x * x, e.h01 + x * y, e.h11 + y * y, e.b0 + x * r, e.b1 + y * r), jx, jy,
            residuals, k + 1)
  {
    hide Dot;
    DotPair(jx, jx, k, x, x);
    DotPair(jx, jy, k, x, y);
    DotPair(jy, jy, k, y, y);
    DotPair(jx, residuals, k, x, r);
    DotPair(jy, residuals, k, y, r);
  }

  lemma DotPair(x: seq<real>, y: seq<real>, k: nat, a: real, b: real)
    requires k < |x| == |y| && a == x[k] && b == y[k]
    ensures Dot(x[..k + 1], y[..k + 1]) == Dot(x[..k], y[..k]) + a * b
  {
    DotNext(x, y, k);
  }

  lemma NoEquations(jx: seq<real>, jy: seq<real>, residuals: seq<real>)
    requires |jx| == |jy| == |residuals|
    ensures EquationsUpTo(Equations(0.0, 0.0, 0.0, 0.0, 0.0), jx, jy, residuals, 0)
  {
  }

  lemma AllEquations(e: Equations, jx: seq<real>, jy: seq<real>, residuals: seq<real>)
    requires |jx| == |jy| == |residuals| && EquationsUpTo(e, jx, jy, residuals, |jx|)
    ensures e == Equations(Dot(jx, jx), Dot(jx, jy), Dot(jy, jy), Dot(jx, residuals), Dot(jy, residuals))
  {
    hide Dot;
    assert jx[..|jx|] == jx && jy[..|jy|] == jy && residuals[..|jx|] == residuals;
  }

  lemma JacobianAt(
      d: seq<real>, g: seq<real>, energy: real, norm: real, k: nat, a: real, b: real, inverse: real, cubed: real,
      dot: real)
    requires |d| == |g| && norm > 0.0 && Times(energy, norm) > 0.0 && k < |d|
    requires a == g[k] && b == d[k] && inverse == 1.0 / norm && cubed == 1.0 / Times(energy, norm) && dot == Dot(d, g)
    ensures Jacobian(d, g, energy, norm)[k] == a * inverse - b * dot * cubed
  {
    hide Dot;
    hide Slope;
    hide Times;
    SlopeIs(b, a, inverse, cubed, dot);
  }

  lemma SlopeIs(d: real, g: real, inverse: real, cubed: real, dot: real)
    ensures Slope(d, g, inverse, cubed, dot) == g * inverse - d * dot * cubed
  {
  }

  lemma ResidualAt(d: seq<real>, norm: real, ref: seq<real>, refNorm: real, k: nat, b: real, c: real, inverse: real)
    requires |d| == |ref| && norm > 0.0 && refNorm > 0.0 && k < |d| && b == d[k] && c == ref[k] && inverse == 1.0 / norm
    ensures Residuals(d, norm, ref, refNorm)[k] == b * inverse - c / refNorm
  {
    hide Times;
    ProductIs(b, inverse);
  }

  method SolveStep(ref: array<real>, refNorm: real, d: array<real>, gx: array<real>, gy: array<real>,
                   energy: real, numerator: real, dotX: real, dotY: real, norm: real) returns (step: Step)
    requires ref.Length == d.Length == gx.Length == gy.Length && refNorm > 0.0 && norm > 0.0 && energy > 0.0
    requires energy == Dot(d[..], d[..]) && numerator == Dot(ref[..], d[..]) && dotX == Dot(d[..], gx[..])
    requires dotY == Dot(d[..], gy[..])
    ensures step == Normalised(ref[..], refNorm, d[..], gx[..], gy[..], norm)
  {
    hide *;
    ProductPositive(energy, norm);
    ProductPositive(refNorm, norm);
    ProductIs(energy, norm);
    ProductIs(refNorm, norm);
    ghost var jx, jy := Jacobian(d[..], gx[..], energy, norm), Jacobian(d[..], gy[..], energy, norm);
    ghost var residuals := Residuals(d[..], norm, ref[..], refNorm);
    var inverse, cubed := 1.0 / norm, 1.0 / (energy * norm);
    var e := Equations(0.0, 0.0, 0.0, 0.0, 0.0);
    NoEquations(jx, jy, residuals);
    for k := 0 to d.Length
      invariant EquationsUpTo(e, jx, jy, residuals, k)
    {
      var x := gx[k] * inverse - d[k] * dotX * cubed;
      var y := gy[k] * inverse - d[k] * dotY * cubed;
      var residual := d[k] * inverse - ref[k] / refNorm;
      JacobianAt(d[..], gx[..], energy, norm, k, gx[k], d[k], inverse, cubed, dotX);
      JacobianAt(d[..], gy[..], energy, norm, k, gy[k], d[k], inverse, cubed, dotY);
      ResidualAt(d[..], norm, ref[..], refNorm, k, d[k], ref[k], inverse);
      EquationsNext(e, jx, jy, residuals, k, x, y, residual);
      e := Equations(e.h00 + x * x, e.h01 + x * y, e.h11 + y * y, e.b0 + x * residual, e.b1 + y * residual);
    }
    AllEquations(e, jx, jy, residuals);
    NormalisedIs(ref[..], refNorm, d[..], gx[..], gy[..], norm);
    step := Solved(e.h00, e.h01, e.h11, e.b0, e.b1, Clamped(numerator / (refNorm * norm)));
  }

  lemma NormalisedIs(ref: seq<real>, refNorm: real, d: seq<real>, gx: seq<real>, gy: seq<real>, norm: real)
    requires |ref| == |d| == |gx| == |gy| && refNorm > 0.0 && norm > 0.0 && Dot(d, d) > 0.0
    requires Times(Dot(d, d), norm) > 0.0 && Times(refNorm, norm) > 0.0
    ensures var jx, jy := Jacobian(d, gx, Dot(d, d), norm), Jacobian(d, gy, Dot(d, d), norm);
            var r := Residuals(d, norm, ref, refNorm);
            Normalised(ref, refNorm, d, gx, gy, norm)
            == Solved(Dot(jx, jx), Dot(jx, jy), Dot(jy, jy), Dot(jx, r), Dot(jy, r),
                Clamped(Dot(ref, d) / Times(refNorm, norm)))
  {
    hide Dot;
    hide Jacobian;
    hide Residuals;
    hide Solved;
    hide Clamped;
    hide Times;
  }

  // The loop.

  method Iterate(f: Frame, s: Setup, ref: array<real>, u0: real, v0: real, root: real -> real) returns (result: Refined)
    requires WellFormed(f) && Ready(s) && ref[..] == s.ref && IsRoot(root)
    ensures result == Run(s, f, u0, v0, 0, UNREFINED, root)
  {
    hide *;
    ReadyFacts(s);
    var count := s.side * s.side;
    var samples := new Sample[count](_ => Sample(0.0, 0.0, 0.0));
    var d, gx, gy := new real[count], new real[count], new real[count];
    var u, v := u0, v0;
    result := UNREFINED;
    for iteration := 0 to s.config.maxIterations
      invariant Run(s, f, u, v, iteration, result, root) == Run(s, f, u0, v0, 0, UNREFINED, root)
    {
      RunNext(s, f, u, v, iteration, result, root);
      var inside, mean, meanGx, meanGy := SampleWindow(f, s, u, v, samples);
      if !inside {
        return result.(u := u, v := v, iterations := iteration);
      }
      var energy, numerator, dotX, dotY := CentreSamples(samples, ref, mean, meanGx, meanGy, d, gx, gy);
      StepIs(s.ref, s.refNorm, samples[..], s.config.minimumTextureEnergy, root);
      if energy < s.config.minimumTextureEnergy {
        return result.(u := u, v := v, iterations := iteration);
      }
      var norm := root(energy);
      var step := SolveStep(ref, s.refNorm, d, gx, gy, energy, numerator, dotX, dotY, norm);
      if step.Singular? {
        return result.(u := u, v := v, iterations := iteration + 1);
      }
      u, v := u + step.du, v + step.dv;
      result := result.(u := u, v := v, zncc := step.zncc, iterations := iteration + 1, valid := true);
      if Converges(step.du, step.dv, s.config.tolerance) {
        return result.(converged := true);
      }
    }
    RunNext(s, f, u, v, s.config.maxIterations, result, root);
  }

  lemma RunNext(s: Setup, f: Frame, u: real, v: real, iteration: nat, result: Refined, root: real -> real)
    requires WellFormed(f) && Ready(s) && IsRoot(root)
    ensures var samples := SamplesAt(s, f, u, v);
            Run(s, f, u, v, iteration, result, root) ==
              if iteration >= s.config.maxIterations then result
              else if samples.None? then result.(u := u, v := v, iterations := iteration)
              else
                match StepOf(s.ref, s.refNorm, samples.value, s.config.minimumTextureEnergy, root)
                case Flat => result.(u := u, v := v, iterations := iteration)
                case Singular => result.(u := u, v := v, iterations := iteration + 1)
                case Moved(du, dv, zncc) =>
                  var next := Refined(u + du, v + dv, zncc, iteration + 1, result.converged, true);
                  if Converges(du, dv, s.config.tolerance) then next.(converged := true)
                  else Run(s, f, u + du, v + dv, iteration + 1, next, root)
  {
    hide StepOf;
    hide SamplesAt;
    hide Converges;
    hide IsRoot;
  }

  method RefineTranslation(
      reference: Frame, deformed: Frame, centerX: int, centerY: int, u: real, v: real, c: Config, root: real -> real)
    returns (o: Outcome<Refined>)
    requires WellFormed(reference) && WellFormed(deformed) && IsRoot(root)
    ensures o == Refine(reference, deformed, centerX, centerY, u, v, c, root)
  {
    hide Reference;
    hide Dot;
    hide Run;
    hide SetupOf;
    hide IsRoot;
    if reference.width != deformed.width || reference.height != deformed.height {
      return Threw(DimensionsDiffer);
    }
    if !ConfigValid(c) {
      return Threw(RefinementInvalid);
    }
    if !SubsetInside(reference, centerX, centerY, c.subsetRadius) {
      return Threw(WindowOutsideImage);
    }
    var result := RefineInside(reference, deformed, centerX, centerY, u, v, c, root);
    return Done(result);
  }

  method RefineInside(
      reference: Frame, deformed: Frame, centerX: int, centerY: int, u: real, v: real, c: Config, root: real -> real)
    returns (result: Refined)
    requires WellFormed(reference) && WellFormed(deformed) && IsRoot(root)
    requires ConfigValid(c) && SubsetInside(reference, centerX, centerY, c.subsetRadius)
    ensures var d := Reference(reference, centerX, centerY, c.subsetRadius);
            result == if Dot(d, d) < c.minimumTextureEnergy then UNREFINED
                      else Run(SetupOf(reference, centerX, centerY, c, root), deformed, u, v, 0, UNREFINED, root)
  {
    hide *;
    RadiusLarge(c);
    var ref, energy := PrepareReference(reference, centerX, centerY, c.subsetRadius);
    if energy < c.minimumTextureEnergy {
      return UNREFINED;
    }
    SetupIs(reference, centerX, centerY, c, root);
    var s := Setup(ref[..], root(energy), centerX - c.subsetRadius, centerY - c.subsetRadius,
                   2 * c.subsetRadius + 1, c);
    result := Iterate(deformed, s, ref, u, v, root);
  }

  lemma RadiusLarge(c: Config)
    requires ConfigValid(c)
    ensures c.subsetRadius >= 2
  {
  }

  method PrepareReference(f: Frame, centerX: int, centerY: int, radius: int) returns (ref: array<real>, energy: real)
    requires WellFormed(f) && radius >= 2 && SubsetInside(f, centerX, centerY, radius)
    ensures fresh(ref) && ref[..] == Reference(f, centerX, centerY, radius) && energy == Dot(ref[..], ref[..])
  {
    hide Rows;
    hide Dot;
    hide Mean;
    var mean;
    ref, mean := LoadReference(f, centerX - radius, centerY - radius, 2 * radius + 1);
    energy := CentreReference(ref, mean);
    ReferenceIs(f, centerX, centerY, radius);
  }

  lemma ReferenceIs(f: Frame, centerX: int, centerY: int, radius: int)
    requires WellFormed(f) && radius >= 2 && SubsetInside(f, centerX, centerY, radius)
    ensures Window(f, centerX - radius, centerY - radius, 2 * radius + 1) != []
    ensures Reference(f, centerX, centerY, radius)
            == Centred(Window(f, centerX - radius, centerY - radius, 2 * radius + 1))
  {
    SideSquared(2 * radius + 1);
    hide Centred;
    hide Rows;
  }

  lemma SetupIs(f: Frame, centerX: int, centerY: int, c: Config, root: real -> real)
    requires WellFormed(f) && ConfigValid(c) && SubsetInside(f, centerX, centerY, c.subsetRadius) && IsRoot(root)
    requires var d := Reference(f, centerX, centerY, c.subsetRadius); Dot(d, d) >= c.minimumTextureEnergy
    ensures var d, s := Reference(f, centerX, centerY, c.subsetRadius), SetupOf(f, centerX, centerY, c, root);
            && s == Setup(d, root(Dot(d, d)), centerX - c.subsetRadius, centerY - c.subsetRadius,
                          2 * c.subsetRadius + 1, c)
            && Ready(s)
  {
    hide Reference;
    hide Dot;
    hide IsRoot;
    hide Ready;
  }
}
