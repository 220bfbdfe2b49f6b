/** Gauss-Newton refinement of a translation: what one run computes, and how brightness affects it. */
module Subpixel {
  import opened Outcomes
  import opened Bytes
  import opened Reals
  import opened Frames
  import opened Correlation

  datatype Config = Config(subsetRadius: int, maxIterations: int, tolerance: real, minimumTextureEnergy: real)

  datatype Refined = Refined(u: real, v: real, zncc: real, iterations: nat, converged: bool, valid: bool)

  const UNREFINED: Refined := Refined(0.0, 0.0, -1.0, 0, false, false)

  predicate ConfigValid(c: Config) {
    c.subsetRadius >= 2 && c.maxIterations >= 1 && c.tolerance > 0.0 && c.minimumTextureEnergy > 0.0
  }

  // Sampling between pixels.

  datatype Sample = Sample(value: real, gx: real, gy: real)

  function Bilinear(f: Frame, x: real, y: real): Option<Sample>
    requires WellFormed(f)
  {
    var x0, y0 := x.Floor, y.Floor;
    if x0 < 0 || y0 < 0 || x0 + 1 >= ToSigned(f.width) || y0 + 1 >= ToSigned(f.height) then None
    else
      Some(Interpolated(x - x0 as real, y - y0 as real, At(f, x0, y0) as real, At(f, x0 + 1, y0) as real,
                        At(f, x0, y0 + 1) as real, At(f, x0 + 1, y0 + 1) as real))
  }

  function Interpolated(tx: real, ty: real, a: real, b: real, c: real, d: real): Sample {
    Sample(Mix(ty, Mix(tx, a, b), Mix(tx, c, d)), Mix(ty, b - a, d - c), Mix(tx, c - a, d - b))
  }

  function Mix(t: real, a: real, b: real): real { (1.0 - t) * a + t * b }

  /** The first n samples of a row, or None if one of them lies outside. */
  function SampleRow(f: Frame, x: real, y: real, n: nat): (row: Option<seq<Sample>>)
    requires WellFormed(f)
    ensures row.Some? ==> |row.value| == n
  {
    if n == 0 then Some([])
    else
      var before, last := SampleRow(f, x, y, n - 1), Bilinear(f, x + (n - 1) as real, y);
      if before.Some? && last.Some? then Some(before.value + [last.value]) else None
  }

  function Join(a: Option<seq<Sample>>, b: Option<seq<Sample>>): Option<seq<Sample>> {
    if a.Some? && b.Some? then Some(a.value + b.value) else None
  }

  function SampleRows(f: Frame, x: real, y: real, side: nat, rows: nat): (samples: Option<seq<Sample>>)
    requires WellFormed(f)
    ensures samples.Some? ==> |samples.value| == rows * side
  {
    if rows == 0 then Some([])
    else Join(SampleRows(f, x, y, side, rows - 1), SampleRow(f, x, y + (rows - 1) as real, side))
  }

  function Values(s: seq<Sample>): (x: seq<real>)
    ensures |x| == |s|
  {
    seq(|s|, i requires 0 <= i < |s| => s[i].value)
  }

  function GradientsX(s: seq<Sample>): (x: seq<real>)
    ensures |x| == |s|
  {
    seq(|s|, i requires 0 <= i < |s| => s[i].gx)
  }

  function GradientsY(s: seq<Sample>): (x: seq<real>)
    ensures |x| == |s|
  {
    seq(|s|, i requires 0 <= i < |s| => s[i].gy)
  }

  // One iteration.

  /** The derivative of the normalised window for one gradient. */
  function Jacobian(d: seq<real>, g: seq<real>, energy: real, norm: real): (j: seq<real>)
    requires |d| == |g| && norm != 0.0 && Times(energy, norm) != 0.0
    ensures |j| == |d|
  {
    var inverse, cubed, dot := 1.0 / norm, 1.0 / Times(energy, norm), Dot(d, g);
    seq(|d|, i requires 0 <= i < |d| => Slope(d[i], g[i], inverse, cubed, dot))
  }

  function Slope(d: real, g: real, inverse: real, cubed: real, dot: real): real {
    Times(g, inverse) - Times(Times(d, dot), cubed)
  }

  function Residuals(d: seq<real>, norm: real, ref: seq<real>, refNorm: real): (r: seq<real>)
    requires |d| == |ref| && norm != 0.0 && refNorm != 0.0
    ensures |r| == |d|
  {
    var inverse := 1.0 / norm;
    seq(|d|, i requires 0 <= i < |d| => Times(d[i], inverse) - ref[i] / refNorm)
  }

  datatype Step = Flat | Singular | Moved(du: real, dv: real, zncc: real)

  const SMALLEST_DETERMINANT: real := 0.000000000000001

  function Clamped(x: real): real { if x < -1.0 then -1.0 else if x > 1.0 then 1.0 else x }

  function Solved(h00: real, h01: real, h11: real, b0: real, b1: real, zncc: real): Step {
    var determinant := h00 * h11 - h01 * h01;
    if -SMALLEST_DETERMINANT < determinant < SMALLEST_DETERMINANT then Singular
    else Moved((-h11 * b0 + h01 * b1) / determinant, (h01 * b0 - h00 * b1) / determinant, zncc)
  }

  /** The step from the zero-mean samples d with the zero-mean gradients gx and gy. */
  function Normalised(ref: seq<real>, refNorm: real, d: seq<real>, gx: seq<real>, gy: seq<real>, norm: real): Step
    requires |ref| == |d| == |gx| == |gy| && refNorm > 0.0 && norm > 0.0 && Dot(d, d) > 0.0
  {
    var energy := Dot(d, d);
    ProductPositive(energy, norm);
    ProductPositive(refNorm, norm);
    var jx, jy := Jacobian(d, gx, energy, norm), Jacobian(d, gy, energy, norm);
    var residuals := Residuals(d, norm, ref, refNorm);
    Solved(Dot(jx, jx), Dot(jx, jy), Dot(jy, jy), Dot(jx, residuals), Dot(jy, residuals),
        Clamped(Dot(ref, d) / Times(refNorm, norm)))
  }

  lemma ProductPositive(a: real, b: real)
    requires a > 0.0 && b > 0.0
    ensures Times(a, b) > 0.0
  {
  }

  lemma RootPositive(root: real -> real, e: real)
    requires IsRoot(root) && e > 0.0
    ensures root(e) > 0.0
  {
    assert Square(0.0) == 0.0;
    assert root(e) >= 0.0 && Square(root(e)) == e;
  }

  function StepOf(ref: seq<real>, refNorm: real, samples: seq<Sample>, minimum: real, root: real -> real): Step
    requires |ref| == |samples| > 0 && refNorm > 0.0 && minimum > 0.0 && IsRoot(root)
  {
    var d := Centred(Values(samples));
    var energy := Dot(d, d);
    if energy < minimum then Flat
    else
      RootPositive(root, energy);
      Normalised(ref, refNorm, d, Centred(GradientsX(samples)), Centred(GradientsY(samples)), root(energy))
  }

  lemma StepIs(ref: seq<real>, refNorm: real, samples: seq<Sample>, minimum: real, root: real -> real)
    requires |ref| == |samples| > 0 && refNorm > 0.0 && minimum > 0.0 && IsRoot(root)
    ensures var d := Centred(Values(samples));
            if Dot(d, d) < minimum then StepOf(ref, refNorm, samples, minimum, root) == Flat
            else
              && root(Dot(d, d)) > 0.0 && Dot(d, d) > 0.0
              && StepOf(ref, refNorm, samples, minimum, root)
                 == Normalised(ref, refNorm, d, Centred(GradientsX(samples)), Centred(GradientsY(samples)),
                     root(Dot(d, d)))
              && !StepOf(ref, refNorm, samples, minimum, root).Flat?
  {
    hide Dot;
    hide Centred;
    hide Jacobian;
    hide Residuals;
    var d := Centred(Values(samples));
    if Dot(d, d) >= minimum {
      RootPositive(root, Dot(d, d));
      hide IsRoot;
    }
  }

  // The run.

  /** What stays the same from one iteration to the next: the zero-mean reference and the window's upper left corner. */
  datatype Setup = Setup(ref: seq<real>, refNorm: real, left: int, top: int, side: nat, config: Config)

  predicate Ready(s: Setup) {
    s.side > 0 && |s.ref| == s.side * s.side > 0 && s.refNorm > 0.0 && ConfigValid(s.config)
  }

  lemma ReadyFacts(s: Setup)
    requires Ready(s)
    ensures |s.ref| == s.side * s.side > 0 && s.refNorm > 0.0 && s.config.minimumTextureEnergy > 0.0
    ensures s.config.maxIterations >= 1
  {
  }

  function SamplesAt(s: Setup, deformed: Frame, u: real, v: real): (samples: Option<seq<Sample>>)
    requires WellFormed(deformed)
    ensures samples.Some? ==> |samples.value| == s.side * s.side
  {
    SampleRows(deformed, s.left as real + u, s.top as real + v, s.side, s.side)
  }

  function Converges(du: real, dv: real, tolerance: real): bool { du * du + dv * dv <= tolerance * tolerance }

  function Run(
      s: Setup, deformed: Frame, u: real, v: real, iteration: nat, result: Refined,
      root: real -> real): (final: Refined)
    requires Ready(s) && WellFormed(deformed) && IsRoot(root)
    decreases s.config.maxIterations - iteration
  {
    if iteration >= s.config.maxIterations then result
    else
      var samples := SamplesAt(s, deformed, u, v);
      if samples.None? then result.(u := u, v := v, iterations := iteration)
      else
        match StepOf(s.ref, s.refNorm, samples.value, s.config.minimumTextureEnergy, root)
        case Flat => result.(u := u, v := v, iterations := iteration)
        case Singular => result.(u := u, v := v, iterations := iteration + 1)
        case Moved(du, dv, zncc) =>
          var next := result.(u := u + du, v := v + dv, zncc := zncc, iterations := iteration + 1, valid := true);
          if Converges(du, dv, s.config.tolerance) then next.(converged := true)
          else Run(s, deformed, u + du, v + dv, iteration + 1, next, root)
  }

  predicate SubsetInside(f: Frame, centerX: int, centerY: int, radius: int) {
    && 0 <= centerX - radius && 0 <= centerY - radius
    && centerX + radius < ToSigned(f.width) && centerY + radius < ToSigned(f.height)
  }

  function Reference(f: Frame, centerX: int, centerY: int, radius: int): (d: seq<real>)
    requires WellFormed(f) && radius >= 2 && SubsetInside(f, centerX, centerY, radius)
    ensures |d| == (2 * radius + 1) * (2 * radius + 1) > 0
  {
    SideSquared(2 * radius + 1);
    Centred(Window(f, centerX - radius, centerY - radius, 2 * radius + 1))
  }

  function SetupOf(f: Frame, centerX: int, centerY: int, c: Config, root: real -> real): (s: Setup)
    requires WellFormed(f) && ConfigValid(c) && SubsetInside(f, centerX, centerY, c.subsetRadius) && IsRoot(root)
    requires var d := Reference(f, centerX, centerY, c.subsetRadius); Dot(d, d) >= c.minimumTextureEnergy
    ensures Ready(s) && s.config == c
  {
    var d := Reference(f, centerX, centerY, c.subsetRadius);
    RootPositive(root, Dot(d, d));
    Setup(d, root(Dot(d, d)), centerX - c.subsetRadius, centerY - c.subsetRadius, 2 * c.subsetRadius + 1, c)
  }

  /** The refinement of a translation, starting from (u, v). */
  function Refine(
      reference: Frame, deformed: Frame, centerX: int, centerY: int, u: real, v: real, c: Config, root: real -> real)
    : Outcome<Refined>
    requires WellFormed(reference) && WellFormed(deformed) && IsRoot(root)
  {
    if reference.width != deformed.width || reference.height != deformed.height then Threw(DimensionsDiffer)
    else if !ConfigValid(c) then Threw(RefinementInvalid)
    else if !SubsetInside(reference, centerX, centerY, c.subsetRadius) then Threw(WindowOutsideImage)
    else
      var d := Reference(reference, centerX, centerY, c.subsetRadius);
      if Dot(d, d) < c.minimumTextureEnergy then Done(UNREFINED)
      else Done(Run(SetupOf(reference, centerX, centerY, c, root), deformed, u, v, 0, UNREFINED, root))
  }
}
