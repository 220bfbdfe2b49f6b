/** A refinement run does not notice a change of brightness, unless a window crosses the texture threshold. */
module SubpixelBrightness {
  import opened Outcomes
  import opened Bytes
  import opened Reals
  import opened Frames
  import opened Correlation
  import opened Subpixel

  /** Every pixel of `bright` is gain times that of `frame` plus an offset. */
  ghost predicate BrighterBy(frame: Frame, bright: Frame, gain: real, offset: real) {
    && WellFormed(frame) && WellFormed(bright) && gain > 0.0
    && bright.width == frame.width && bright.height == frame.height
    && forall x, y :: Inside(frame, x, y) ==> At(bright, x, y) as real == Times(gain, At(frame, x, y) as real) + offset
  }

  // Samples.

  function Brighter(s: Sample, gain: real, offset: real): Sample {
    Sample(Times(gain, s.value) + offset, Times(gain, s.gx), Times(gain, s.gy))
  }

  function AllBrighter(s: seq<Sample>, gain: real, offset: real): (t: seq<Sample>)
    ensures |t| == |s|
  {
    seq(|s|, i requires 0 <= i < |s| => Brighter(s[i], gain, offset))
  }

  lemma InterpolatedBrighter(tx: real, ty: real, a: real, b: real, c: real, d: real, gain: real, offset: real)
    ensures Interpolated(tx, ty, Times(gain, a) + offset, Times(gain, b) + offset,
                         Times(gain, c) + offset, Times(gain, d) + offset)
            == Brighter(Interpolated(tx, ty, a, b, c, d), gain, offset)
  {
    hide Times;
    hide Mix;
    MixBrighter(tx, a, b, gain, offset);
    MixBrighter(tx, c, d, gain, offset);
    MixBrighter(ty, Mix(tx, a, b), Mix(tx, c, d), gain, offset);
    MixOfDifferences(ty, a, b, c, d, gain, offset);
    MixOfDifferences(tx, a, c, b, d, gain, offset);
  }

  lemma MixBrighter(t: real, a: real, b: real, gain: real, offset: real)
    ensures Mix(t, Times(gain, a) + offset, Times(gain, b) + offset) == Times(gain, Mix(t, a, b)) + offset
  {
  }

  lemma MixOfDifferences(t: real, a: real, b: real, c: real, d: real, gain: real, offset: real)
    ensures Mix(t, (Times(gain, b) + offset) - (Times(gain, a) + offset),
            (Times(gain, d) + offset) - (Times(gain, c) + offset))
            == Times(gain, Mix(t, b - a, d - c))
  {
  }

  lemma {:induction false} BilinearBrighter(frame: Frame, bright: Frame, gain: real, offset: real, x: real, y: real)
    requires WellFormed(frame) && WellFormed(bright) && BrighterBy(frame, bright, gain, offset)
    ensures Bilinear(frame, x, y).None? ==> Bilinear(bright, x, y).None?
    ensures Bilinear(frame, x, y).Some? ==>
            Bilinear(bright, x, y) == Some(Brighter(Bilinear(frame, x, y).value, gain, offset))
  {
    hide At;
    hide Interpolated;
    hide Brighter;
    hide BrighterBy;
    hide Bilinear;
    hide Times;
    hide WellFormed;
    BilinearIs(frame, x, y);
    BilinearIs(bright, x, y);
    SameDimensions(frame, bright, gain, offset);
    if CellInside(frame, x.Floor, y.Floor) {
      PixelsBrighter(frame, bright, gain, offset, x.Floor, y.Floor);
      var x0, y0 := x.Floor, y.Floor;
      InterpolatedBrighter(x - x0 as real, y - y0 as real, At(frame, x0, y0) as real, At(frame, x0 + 1, y0) as real,
                           At(frame, x0, y0 + 1) as real, At(frame, x0 + 1, y0 + 1) as real, gain, offset);
    }
  }

  /** The four pixels around a sample are in the image. */
  /** The four pixels around a sample; their position is compared with the frame size as an int. */
  predicate CellInside(f: Frame, x: int, y: int) {
    0 <= x && 0 <= y && x + 1 < ToSigned(f.width) && y + 1 < ToSigned(f.height)
  }

  lemma CellPixels(f: Frame, x: int, y: int)
    ensures CellInside(f, x, y) ==>
            Inside(f, x, y) && Inside(f, x + 1, y) && Inside(f, x, y + 1) && Inside(f, x + 1, y + 1)
  {
  }

  lemma SameDimensions(frame: Frame, bright: Frame, gain: real, offset: real)
    requires BrighterBy(frame, bright, gain, offset)
    ensures forall x, y :: CellInside(frame, x, y) == CellInside(bright, x, y)
  {
    hide At;
  }

  lemma BilinearIs(f: Frame, x: real, y: real)
    requires WellFormed(f)
    ensures var x0, y0 := x.Floor, y.Floor;
            Bilinear(f, x, y) ==
              if !CellInside(f, x0, y0) then None
              else Some(Interpolated(x - x0 as real, y - y0 as real, At(f, x0, y0) as real, At(f, x0 + 1, y0) as real,
                                     At(f, x0, y0 + 1) as real, At(f, x0 + 1, y0 + 1) as real))
  {
    hide At;
    hide Interpolated;
  }

  lemma PixelsBrighter(frame: Frame, bright: Frame, gain: real, offset: real, x: int, y: int)
    requires BrighterBy(frame, bright, gain, offset) && WellFormed(frame) && WellFormed(bright)
    requires CellInside(frame, x, y) && CellInside(bright, x, y)
    ensures At(bright, x, y) as real == Times(gain, At(frame, x, y) as real) + offset
    ensures At(bright, x + 1, y) as real == Times(gain, At(frame, x + 1, y) as real) + offset
    ensures At(bright, x, y + 1) as real == Times(gain, At(frame, x, y + 1) as real) + offset
    ensures At(bright, x + 1, y + 1) as real == Times(gain, At(frame, x + 1, y + 1) as real) + offset
  {
    hide *;
    CellPixels(frame, x, y);
    PixelBrighter(frame, bright, gain, offset, x, y);
    PixelBrighter(frame, bright, gain, offset, x + 1, y);
    PixelBrighter(frame, bright, gain, offset, x, y + 1);
    PixelBrighter(frame, bright, gain, offset, x + 1, y + 1);
  }

  lemma PixelBrighter(frame: Frame, bright: Frame, gain: real, offset: real, x: int, y: int)
    requires BrighterBy(frame, bright, gain, offset) && Inside(frame, x, y)
    ensures At(bright, x, y) as real == Times(gain, At(frame, x, y) as real) + offset
  {
    hide At;
  }

  lemma BrighterAppends(a: seq<Sample>, b: seq<Sample>, gain: real, offset: real)
    ensures AllBrighter(a + b, gain, offset) == AllBrighter(a, gain, offset) + AllBrighter(b, gain, offset)
    ensures |b| == 1 ==> AllBrighter(b, gain, offset) == [Brighter(b[0], gain, offset)]
  {
    hide Brighter;
  }

  lemma {:induction false} RowBrighter(frame: Frame, bright: Frame, gain: real, offset: real, x: real, y: real, n: nat)
    requires BrighterBy(frame, bright, gain, offset)
    ensures SampleRow(frame, x, y, n).None? ==> SampleRow(bright, x, y, n).None?
    ensures SampleRow(frame, x, y, n).Some? ==>
            SampleRow(bright, x, y, n) == Some(AllBrighter(SampleRow(frame, x, y, n).value, gain, offset))
  {
    assert WellFormed(frame) && WellFormed(bright);
    hide BrighterBy;
    hide Bilinear;
    hide Brighter;
    if n > 0 {
      RowBrighter(frame, bright, gain, offset, x, y, n - 1);
      BilinearBrighter(frame, bright, gain, offset, x + (n - 1) as real, y);
      var before, last := SampleRow(frame, x, y, n - 1), Bilinear(frame, x + (n - 1) as real, y);
      if before.Some? && last.Some? {
        BrighterAppends(before.value, [last.value], gain, offset);
      }
    }
  }

  lemma {:induction false} RowsBrighter(
      frame: Frame, bright: Frame, gain: real, offset: real, x: real, y: real, side: nat, rows: nat)
    requires BrighterBy(frame, bright, gain, offset)
    ensures SampleRows(frame, x, y, side, rows).None? ==> SampleRows(bright, x, y, side, rows).None?
    ensures SampleRows(frame, x, y, side, rows).Some? ==>
              SampleRows(bright, x, y, side, rows)
                  == Some(AllBrighter(SampleRows(frame, x, y, side, rows).value, gain, offset))
  {
    assert WellFormed(frame) && WellFormed(bright);
    hide BrighterBy;
    hide SampleRow;
    hide Brighter;
    if rows > 0 {
      RowsBrighter(frame, bright, gain, offset, x, y, side, rows - 1);
      RowBrighter(frame, bright, gain, offset, x, y + (rows - 1) as real, side);
      var before, last := SampleRows(frame, x, y, side, rows - 1), SampleRow(frame, x, y + (rows - 1) as real, side);
      if before.Some? && last.Some? {
        BrighterAppends(before.value, last.value, gain, offset);
      }
    }
  }

  lemma PartsBrighter(s: seq<Sample>, gain: real, offset: real)
    requires s != []
    ensures var t := AllBrighter(s, gain, offset);
            && Centred(Values(t)) == Scaled(gain, Centred(Values(s)))
            && Centred(GradientsX(t)) == Scaled(gain, Centred(GradientsX(s)))
            && Centred(GradientsY(t)) == Scaled(gain, Centred(GradientsY(s)))
  {
    hide Times;
    hide Centred;
    var t := AllBrighter(s, gain, offset);
    CentredBrightened(Values(s), gain, offset);
    CentredBrightened(GradientsX(s), gain, 0.0);
    CentredBrightened(GradientsY(s), gain, 0.0);
    assert Values(t) == Brightened(Values(s), gain, offset);
    assert GradientsX(t) == Brightened(GradientsX(s), gain, 0.0);
    assert GradientsY(t) == Brightened(GradientsY(s), gain, 0.0);
  }

  // One step: every quantity that enters the equations stays the same.

  lemma DotsScaled(gain: real, d: seq<real>, g: seq<real>)
    requires |d| == |g|
    ensures Dot(Scaled(gain, d), Scaled(gain, g)) == Times(Square(gain), Dot(d, g))
  {
    hide Dot;
    hide Scaled;
    DotScaled(gain, d, Scaled(gain, g));
    DotScaled(gain, g, d);
    DotCommutes(d, g);
    DotCommutes(d, Scaled(gain, g));
    Regroup(gain, gain, Dot(d, g));
    SquareIsTimes(gain);
    hide Times;
  }

  function Cube(gain: real): real { Times(gain, Square(gain)) }

  lemma SlopeScaled(gain: real, d: real, g: real, dot: real, energy: real, norm: real)
    requires gain > 0.0 && energy > 0.0 && norm > 0.0
    ensures Times(gain, norm) > 0.0 && Times(energy, norm) > 0.0
    ensures Times(Times(Square(gain), energy), Times(gain, norm)) > 0.0
    ensures Slope(Times(gain, d), Times(gain, g), 1.0 / Times(gain, norm),
                  1.0 / Times(Times(Square(gain), energy), Times(gain, norm)), Times(Square(gain), dot))
            == Slope(d, g, 1.0 / norm, 1.0 / Times(energy, norm), dot)
  {
    hide Times;
    hide Square;
    hide Cube;
    ProductPositive(gain, norm);
    ProductPositive(energy, norm);
    CancelGain(gain, g, norm);
    CubePositive(gain);
    ThreeGains(gain, d, dot);
    ThreeGains(gain, norm, energy);
    Spread(norm, energy, 0.0);
    Spread(Times(gain, norm), Times(Square(gain), energy), 0.0);
    CancelGain(Cube(gain), Times(d, dot), Times(energy, norm));
  }

  lemma CubePositive(gain: real)
    requires gain > 0.0
    ensures Cube(gain) > 0.0 && Square(gain) > 0.0
  {
    ProductPositive(gain, gain);
    SquareIsTimes(gain);
    hide Square;
    hide Times;
    ProductPositive(gain, Square(gain));
  }

  lemma ThreeGains(gain: real, a: real, b: real)
    ensures Times(Times(gain, a), Times(Square(gain), b)) == Times(Cube(gain), Times(a, b))
  {
    assert (gain * a) * ((gain * gain) * b) == (gain * (gain * gain)) * (a * b);
  }

  lemma CancelGain(gain: real, a: real, n: real)
    requires gain > 0.0 && n > 0.0
    ensures Times(gain, n) > 0.0
    ensures Times(Times(gain, a), 1.0 / Times(gain, n)) == Times(a, 1.0 / n)
  {
    ProductPositive(gain, n);
    var x := 1.0 / (gain * n);
    assert x * (gain * n) == 1.0;
    assert (gain * x) * n == 1.0;
    var y := 1.0 / n;
    assert y * n == 1.0;
    Cancel(gain * x, y, n);
    assert (gain * a) * x == a * (gain * x);
  }

  lemma JacobianScaled(gain: real, d: seq<real>, g: seq<real>, energy: real, norm: real)
    requires |d| == |g| && gain > 0.0 && energy > 0.0 && norm > 0.0
    ensures Times(gain, norm) > 0.0 && Times(energy, norm) > 0.0
    ensures Times(Times(Square(gain), energy), Times(gain, norm)) > 0.0
    ensures Jacobian(Scaled(gain, d), Scaled(gain, g), Times(Square(gain), energy), Times(gain, norm))
            == Jacobian(d, g, energy, norm)
  {
    hide Times;
    hide Square;
    hide Slope;
    hide Dot;
    SlopeScaled(gain, 0.0, 0.0, 0.0, energy, norm);
    DotsScaled(gain, d, g);
    var j := Jacobian(Scaled(gain, d), Scaled(gain, g), Times(Square(gain), energy), Times(gain, norm));
    var k := Jacobian(d, g, energy, norm);
    forall i | 0 <= i < |d|
      ensures j[i] == k[i]
    {
      SlopeScaled(gain, d[i], g[i], Dot(d, g), energy, norm);
    }
  }

  lemma ResidualsScaled(gain: real, d: seq<real>, norm: real, ref: seq<real>, refNorm: real)
    requires |d| == |ref| && gain > 0.0 && norm > 0.0 && refNorm != 0.0
    ensures Times(gain, norm) > 0.0
    ensures Residuals(Scaled(gain, d), Times(gain, norm), ref, refNorm) == Residuals(d, norm, ref, refNorm)
  {
    hide Times;
    ProductPositive(gain, norm);
    var r, t := Residuals(Scaled(gain, d), Times(gain, norm), ref, refNorm), Residuals(d, norm, ref, refNorm);
    forall i | 0 <= i < |d|
      ensures r[i] == t[i]
    {
      CancelGain(gain, d[i], norm);
    }
  }

  lemma QuotientScaled(gain: real, n: real, refNorm: real, norm: real)
    requires gain > 0.0 && refNorm > 0.0 && norm > 0.0
    ensures Times(refNorm, norm) > 0.0 && Times(refNorm, Times(gain, norm)) > 0.0
    ensures Times(gain, n) / Times(refNorm, Times(gain, norm)) == n / Times(refNorm, norm)
  {
    ProductPositive(refNorm, norm);
    ProductPositive(gain, Times(refNorm, norm));
    CancelGain(gain, n, Times(refNorm, norm));
    Regroup(gain, refNorm, norm);
    DivisionIsTimes(Times(gain, n), Times(refNorm, Times(gain, norm)));
    DivisionIsTimes(n, Times(refNorm, norm));
    hide Times;
  }

  lemma DivisionIsTimes(a: real, b: real)
    requires b != 0.0
    ensures a / b == Times(a, 1.0 / b)
  {
  }

  lemma EnergyScaled(gain: real, d: seq<real>)
    requires gain > 0.0
    ensures Dot(Scaled(gain, d), Scaled(gain, d)) == Times(Square(gain), Dot(d, d))
    ensures Dot(d, d) > 0.0 ==> Times(Square(gain), Dot(d, d)) > 0.0
  {
    hide *;
    DotsScaled(gain, d, d);
    CubePositive(gain);
    PositiveTimes(Square(gain), Dot(d, d));
  }

  lemma NormalisedScaled(
      gain: real, ref: seq<real>, refNorm: real, d: seq<real>, gx: seq<real>, gy: seq<real>, norm: real)
    requires |ref| == |d| == |gx| == |gy| && refNorm > 0.0 && norm > 0.0 && Dot(d, d) > 0.0 && gain > 0.0
    ensures Times(gain, norm) > 0.0 && Dot(Scaled(gain, d), Scaled(gain, d)) > 0.0
    ensures Normalised(ref, refNorm, Scaled(gain, d), Scaled(gain, gx), Scaled(gain, gy), Times(gain, norm))
            == Normalised(ref, refNorm, d, gx, gy, norm)
  {
    hide Times;
    hide Square;
    hide Dot;
    hide Jacobian;
    hide Residuals;
    hide Solved;
    hide Clamped;
    hide Scaled;
    EnergyScaled(gain, d);
    JacobianScaled(gain, d, gx, Dot(d, d), norm);
    JacobianScaled(gain, d, gy, Dot(d, d), norm);
    ResidualsScaled(gain, d, norm, ref, refNorm);
    DotScaled(gain, d, ref);
    QuotientScaled(gain, Dot(ref, d), refNorm, norm);
    DotCommutes(d, ref);
  }

  lemma RootScaled(gain: real, e: real, root: real -> real)
    requires IsRoot(root) && gain > 0.0 && e >= 0.0
    ensures root(Times(Square(gain), e)) == Times(gain, root(e))
  {
    hide Times;
    hide Square;
    CubePositive(gain);
    NotNegativeTimes(Square(gain), e);
    var r, t := root(Times(Square(gain), e)), Times(gain, root(e));
    assert root(e) >= 0.0 && Square(root(e)) == e && r >= 0.0 && Square(r) == Times(Square(gain), e);
    NotNegativeTimes(gain, root(e));
    SquareOfSum(gain, root(e));
    hide IsRoot;
    Ordered(r, t);
    Ordered(t, r);
  }

  // Crossing the texture threshold.

  predicate SameSide(energy: real, gain: real, minimum: real) {
    energy < minimum <==> Times(Square(gain), energy) < minimum
  }

  function TextureEnergy(samples: seq<Sample>): real
    requires samples != []
  {
    var d := Centred(Values(samples)); Dot(d, d)
  }

  lemma TextureEnergyIs(samples: seq<Sample>)
    requires samples != []
    ensures var d := Centred(Values(samples)); TextureEnergy(samples) == Dot(d, d)
  {
  }

  lemma {:induction false} StepBrighter(
      ref: seq<real>, refNorm: real, samples: seq<Sample>, minimum: real, root: real -> real, gain: real, offset: real)
    requires |ref| == |samples| > 0 && refNorm > 0.0 && minimum > 0.0 && IsRoot(root) && gain > 0.0
    ensures var bright := AllBrighter(samples, gain, offset);
            if SameSide(TextureEnergy(samples), gain, minimum)
            then StepOf(ref, refNorm, bright, minimum, root) == StepOf(ref, refNorm, samples, minimum, root)
            else (StepOf(ref, refNorm, bright, minimum, root) == Flat)
                 != (StepOf(ref, refNorm, samples, minimum, root) == Flat)
  {
    hide *;
    var bright := AllBrighter(samples, gain, offset);
    StepIs(ref, refNorm, samples, minimum, root);
    StepIs(ref, refNorm, bright, minimum, root);
    TextureEnergyIs(samples);
    PartsBrighter(samples, gain, offset);
    var d := Centred(Values(samples));
    EnergyScaled(gain, d);
    SideIs(TextureEnergy(samples), gain, minimum);
    if TextureEnergy(samples) >= minimum {
      RootScaled(gain, Dot(d, d), root);
      NormalisedScaled(gain, ref, refNorm, d, Centred(GradientsX(samples)), Centred(GradientsY(samples)),
          root(Dot(d, d)));
    }
  }

  lemma SideIs(energy: real, gain: real, minimum: real)
    ensures SameSide(energy, gain, minimum) <==> (energy < minimum <==> Times(Square(gain), energy) < minimum)
  {
  }

  /** Along the run on `deformed`, each window has its energy on the same side of the threshold in both brightnesses. */
  ghost predicate NoCrossing(
      s: Setup, deformed: Frame, u: real, v: real, iteration: nat, gain: real, root: real -> real)
    requires Ready(s) && WellFormed(deformed) && IsRoot(root)
    decreases s.config.maxIterations - iteration
  {
    if iteration >= s.config.maxIterations then true
    else
      var samples := SamplesAt(s, deformed, u, v);
      if samples.None? then true
      else
        && SameSide(TextureEnergy(samples.value), gain, s.config.minimumTextureEnergy)
        && match StepOf(s.ref, s.refNorm, samples.value, s.config.minimumTextureEnergy, root)
           case Moved(du, dv, zncc) =>
             Converges(du, dv, s.config.tolerance) || NoCrossing(s, deformed, u + du, v + dv, iteration + 1, gain, root)
           case _ => true
  }

  /** The outcome of one iteration: the run ends with a result, or goes on. */
  datatype Iteration = Ends(result: Refined) | GoesOn(u: real, v: real, result: Refined)

  function Iterated(
      s: Setup, samples: Option<seq<Sample>>, u: real, v: real, iteration: nat, result: Refined,
      root: real -> real): Iteration
    requires Ready(s) && IsRoot(root) && (samples.Some? ==> |samples.value| == s.side * s.side)
  {
    if samples.None? then Ends(result.(u := u, v := v, iterations := iteration))
    else
      match StepOf(s.ref, s.refNorm, samples.value, s.config.minimumTextureEnergy, root)
      case Flat => Ends(result.(u := u, v := v, iterations := iteration))
      case Singular => Ends(result.(u := u, v := v, iterations := iteration + 1))
      case Moved(du, dv, zncc) =>
        var next := result.(u := u + du, v := v + dv, zncc := zncc, iterations := iteration + 1, valid := true);
        if Converges(du, dv, s.config.tolerance) then Ends(next.(converged := true)) else GoesOn(u + du, v + dv, next)
  }

  lemma RunUnfolds(
      s: Setup, deformed: Frame, u: real, v: real, iteration: nat, result: Refined, gain: real, root: real -> real)
    requires Ready(s) && WellFormed(deformed) && IsRoot(root) && iteration < s.config.maxIterations
    ensures var i := Iterated(s, SamplesAt(s, deformed, u, v), u, v, iteration, result, root);
            Run(s, deformed, u, v, iteration, result, root)
            == if i.Ends? then i.result else Run(s, deformed, i.u, i.v, iteration + 1, i.result, root)
    ensures var samples := SamplesAt(s, deformed, u, v);
            var i := Iterated(s, samples, u, v, iteration, result, root);
            NoCrossing(s, deformed, u, v, iteration, gain, root) <==>
              && (samples.Some? ==> SameSide(TextureEnergy(samples.value), gain, s.config.minimumTextureEnergy))
              && (i.GoesOn? ==> NoCrossing(s, deformed, i.u, i.v, iteration + 1, gain, root))
  {
    hide StepOf;
    hide SamplesAt;
    hide Converges;
    hide IsRoot;
    hide TextureEnergy;
    hide SameSide;
  }

  lemma IteratedUnfolds(
      s: Setup, samples: Option<seq<Sample>>, u: real, v: real, iteration: nat, result: Refined, root: real -> real)
    requires Ready(s) && IsRoot(root) && (samples.Some? ==> |samples.value| == s.side * s.side)
    ensures var i := Iterated(s, samples, u, v, iteration, result, root);
            i.result.iterations == if samples.None?
                || StepOf(s.ref, s.refNorm, samples.value, s.config.minimumTextureEnergy, root) == Flat
                                   then iteration else iteration + 1
    ensures samples.Some? && StepOf(s.ref, s.refNorm, samples.value, s.config.minimumTextureEnergy, root) == Flat ==>
              Iterated(s, samples, u, v, iteration, result, root).Ends?
  {
    hide StepOf;
    hide Converges;
    hide IsRoot;
  }

  lemma {:induction false} IterationsGrow(
      s: Setup, deformed: Frame, u: real, v: real, iteration: nat, result: Refined, root: real -> real)
    requires Ready(s) && WellFormed(deformed) && IsRoot(root) && result.iterations >= iteration
    ensures Run(s, deformed, u, v, iteration, result, root).iterations >= iteration
    decreases s.config.maxIterations - iteration
  {
    hide *;
    RunOver(s, deformed, u, v, iteration, result, 1.0, root);
    if iteration < s.config.maxIterations {
      RunUnfolds(s, deformed, u, v, iteration, result, 1.0, root);
      var samples := SamplesAt(s, deformed, u, v);
      IteratedUnfolds(s, samples, u, v, iteration, result, root);
      var i := Iterated(s, samples, u, v, iteration, result, root);
      if i.GoesOn? {
        GoesOnNext(s, samples, u, v, iteration, result, root);
        IterationsGrow(s, deformed, i.u, i.v, iteration + 1, i.result, root);
      }
    }
  }

  lemma GoesOnNext(
      s: Setup, samples: Option<seq<Sample>>, u: real, v: real, iteration: nat, result: Refined, root: real -> real)
    requires Ready(s) && IsRoot(root) && (samples.Some? ==> |samples.value| == s.side * s.side)
    requires Iterated(s, samples, u, v, iteration, result, root).GoesOn?
    ensures Iterated(s, samples, u, v, iteration, result, root).result.iterations == iteration + 1
    ensures samples.Some? && StepOf(s.ref, s.refNorm, samples.value, s.config.minimumTextureEnergy, root) != Flat
  {
    hide StepOf;
    hide Converges;
    hide IsRoot;
  }

  lemma IterationBrighter(s: Setup, deformed: Frame, bright: Frame, u: real, v: real, iteration: nat, result: Refined,
                          gain: real, offset: real, root: real -> real)
    requires Ready(s) && IsRoot(root) && WellFormed(deformed) && WellFormed(bright)
    requires BrighterBy(deformed, bright, gain, offset)
    ensures var a, b := SamplesAt(s, deformed, u, v), SamplesAt(s, bright, u, v);
            if a.None? || SameSide(TextureEnergy(a.value), gain, s.config.minimumTextureEnergy)
            then Iterated(s, b, u, v, iteration, result, root) == Iterated(s, a, u, v, iteration, result, root)
            else
              && b.Some?
              && (StepOf(s.ref, s.refNorm, a.value, s.config.minimumTextureEnergy, root) == Flat)
                 != (StepOf(s.ref, s.refNorm, b.value, s.config.minimumTextureEnergy, root) == Flat)
  {
    hide *;
    ReadyFacts(s);
    GainPositive(deformed, bright, gain, offset);
    SamplesBrighter(s, deformed, bright, u, v, gain, offset);
    var a, b := SamplesAt(s, deformed, u, v), SamplesAt(s, bright, u, v);
    if a.Some? {
      StepBrighter(s.ref, s.refNorm, a.value, s.config.minimumTextureEnergy, root, gain, offset);
      if SameSide(TextureEnergy(a.value), gain, s.config.minimumTextureEnergy) {
        SameStep(s, a, b, u, v, iteration, result, root);
      }
    } else {
      assert a == b;
    }
  }

  lemma GainPositive(deformed: Frame, bright: Frame, gain: real, offset: real)
    requires BrighterBy(deformed, bright, gain, offset)
    ensures gain > 0.0
  {
  }

  lemma SamplesBrighter(s: Setup, deformed: Frame, bright: Frame, u: real, v: real, gain: real, offset: real)
    requires WellFormed(deformed) && WellFormed(bright) && BrighterBy(deformed, bright, gain, offset)
    ensures SamplesAt(s, deformed, u, v).None? ==> SamplesAt(s, bright, u, v).None?
    ensures SamplesAt(s, deformed, u, v).Some? ==>
              SamplesAt(s, bright, u, v) == Some(AllBrighter(SamplesAt(s, deformed, u, v).value, gain, offset))
  {
    hide BrighterBy;
    hide SampleRows;
    hide AllBrighter;
    RowsBrighter(deformed, bright, gain, offset, s.left as real + u, s.top as real + v, s.side, s.side);
  }

  lemma SameStep(
      s: Setup, a: Option<seq<Sample>>, b: Option<seq<Sample>>, u: real, v: real, iteration: nat, result: Refined,
      root: real -> real)
    requires Ready(s) && IsRoot(root) && a.Some? && b.Some? && |a.value| == |b.value| == s.side * s.side
    requires var minimum := s.config.minimumTextureEnergy;
             StepOf(s.ref, s.refNorm, b.value, minimum, root) == StepOf(s.ref, s.refNorm, a.value, minimum, root)
    ensures Iterated(s, b, u, v, iteration, result, root) == Iterated(s, a, u, v, iteration, result, root)
  {
    hide StepOf;
    hide Converges;
    hide IsRoot;
  }

  lemma RunOver(
      s: Setup, deformed: Frame, u: real, v: real, iteration: nat, result: Refined, gain: real, root: real -> real)
    requires Ready(s) && WellFormed(deformed) && IsRoot(root)
    ensures iteration >= s.config.maxIterations ==>
              Run(s, deformed, u, v, iteration, result, root) == result
                  && NoCrossing(s, deformed, u, v, iteration, gain, root)
  {
    hide IsRoot;
  }

  /** The two runs agree exactly if no window crosses the threshold; otherwise they stop at different iterations. */
  lemma {:induction false} RunBrighter(
      s: Setup, deformed: Frame, bright: Frame, u: real, v: real, iteration: nat, result: Refined,
                                       gain: real, offset: real, root: real -> real)
    requires Ready(s) && IsRoot(root) && BrighterBy(deformed, bright, gain, offset) && WellFormed(deformed)
    requires WellFormed(bright)
    ensures Run(s, bright, u, v, iteration, result, root) == Run(s, deformed, u, v, iteration, result, root)
            <==> NoCrossing(s, deformed, u, v, iteration, gain, root)
    decreases s.config.maxIterations - iteration
  {
    hide *;
    RunOver(s, deformed, u, v, iteration, result, gain, root);
    RunOver(s, bright, u, v, iteration, result, gain, root);
    if iteration < s.config.maxIterations {
      RunUnfolds(s, deformed, u, v, iteration, result, gain, root);
      RunUnfolds(s, bright, u, v, iteration, result, gain, root);
      IterationBrighter(s, deformed, bright, u, v, iteration, result, gain, offset, root);
      ReadyFacts(s);
      var a, b := SamplesAt(s, deformed, u, v), SamplesAt(s, bright, u, v);
      if a.None? || SameSide(TextureEnergy(a.value), gain, s.config.minimumTextureEnergy) {
        var i := Iterated(s, a, u, v, iteration, result, root);
        if i.GoesOn? {
          RunBrighter(s, deformed, bright, i.u, i.v, iteration + 1, i.result, gain, offset, root);
        }
      } else {
        StopsApart(s, deformed, u, v, iteration, result, root);
        StopsApart(s, bright, u, v, iteration, result, root);
      }
    }
  }

  lemma StopsApart(s: Setup, deformed: Frame, u: real, v: real, iteration: nat, result: Refined, root: real -> real)
    requires Ready(s) && WellFormed(deformed) && IsRoot(root) && iteration < s.config.maxIterations
    requires SamplesAt(s, deformed, u, v).Some?
    ensures var samples, n := SamplesAt(s, deformed, u, v), Run(s, deformed, u, v, iteration, result, root).iterations;
            if StepOf(s.ref, s.refNorm, samples.value, s.config.minimumTextureEnergy, root) == Flat then n == iteration
            else n >= iteration + 1
  {
    hide *;
    var samples := SamplesAt(s, deformed, u, v);
    RunUnfolds(s, deformed, u, v, iteration, result, 1.0, root);
    IteratedUnfolds(s, samples, u, v, iteration, result, root);
    var i := Iterated(s, samples, u, v, iteration, result, root);
    if i.GoesOn? {
      IterationsGrow(s, deformed, i.u, i.v, iteration + 1, i.result, root);
    }
  }

  /** The conditions under which a refinement iterates at all. */
  predicate Iterates(reference: Frame, deformed: Frame, centerX: int, centerY: int, c: Config)
    requires WellFormed(reference)
  {
    && reference.width == deformed.width && reference.height == deformed.height
    && ConfigValid(c) && SubsetInside(reference, centerX, centerY, c.subsetRadius)
    && var d := Reference(reference, centerX, centerY, c.subsetRadius); Dot(d, d) >= c.minimumTextureEnergy
  }

  /** Refining against a brighter or darker image gives the same outcome, exactly if no window crosses the threshold. */
  lemma {:induction false} RefineBrighter(
      reference: Frame, deformed: Frame, bright: Frame, centerX: int, centerY: int, u: real, v: real, c: Config,
                       gain: real, offset: real, root: real -> real)
    requires WellFormed(reference) && WellFormed(deformed) && WellFormed(bright) && IsRoot(root)
    requires BrighterBy(deformed, bright, gain, offset)
    ensures Refine(reference, bright, centerX, centerY, u, v, c, root)
            == Refine(reference, deformed, centerX, centerY, u, v, c, root)
            <==> (Iterates(reference, deformed, centerX, centerY, c) ==>
                    NoCrossing(SetupOf(reference, centerX, centerY, c, root), deformed, u, v, 0, gain, root))
  {
    assert bright.width == deformed.width && bright.height == deformed.height;
    hide BrighterBy;
    hide Reference;
    hide Run;
    hide NoCrossing;
    hide IsRoot;
    if Iterates(reference, deformed, centerX, centerY, c) {
      var s := SetupOf(reference, centerX, centerY, c, root);
      RunBrighter(s, deformed, bright, u, v, 0, UNREFINED, gain, offset, root);
    }
  }
}
