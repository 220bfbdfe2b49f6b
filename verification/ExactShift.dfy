/** Where the whole engine is exact: an image that is shifted by whole pixels and made brighter or darker. */
module ExactShift {
  import opened Outcomes
  import opened Bytes
  import opened Reals
  import opened Frames
  import opened Correlation
  import opened StrainGrid
  import opened HybridGrid
  import Zncc
  import Subpixel
  import SubpixelStep
  import SubpixelRun
  import SubpixelBrightness
  import SubpixelThreshold

  /** Around (x, y) the deformed image is the reference shifted by (dx, dy), with this gain and offset. */
  predicate ShiftedBy(s: Zncc.Search, dx: int, dy: int, gain: real, offset: real)
    requires Zncc.Comparable(s) && Zncc.Fits(s) && Zncc.SameSize(s) && Zncc.InWindow(s, dx, dy)
  {
    gain > 0.0 && Zncc.DeformedWindow(s, dx, dy) == Brightened(Zncc.ReferenceWindow(s), gain, offset)
  }

  /** No other shift of the search shows the reference. */
  ghost predicate OnlyShift(s: Zncc.Search, dx: int, dy: int)
    requires Zncc.Comparable(s) && Zncc.Fits(s) && Zncc.SameSize(s)
  {
    forall ex, ey :: Zncc.InWindow(s, ex, ey) && (ex != dx || ey != dy) ==>
      !PositiveAffine(Zncc.ReferenceWindow(s), Zncc.DeformedWindow(s, ex, ey))
  }

  /** The search finds the shift: with this much texture the score is computed, and it is 1 there only. */
  lemma SearchFinds(
      s: Zncc.Search, root: real -> real, best: Zncc.Translation, dx: int, dy: int, gain: real, offset: real)
    requires Zncc.Comparable(s) && Zncc.SameSize(s) && Zncc.Fits(s) && IsRoot(root) && Zncc.InWindow(s, dx, dy)
    requires Zncc.FirstBest(s, root, best, -s.searchRadius, s.searchRadius + 1)
    requires ShiftedBy(s, dx, dy, gain, offset) && OnlyShift(s, dx, dy)
    requires var e := Energy(Zncc.ReferenceWindow(s)); e >= 1.0 && Times(Square(gain), e) >= 1.0
    ensures best == Zncc.Translation(dx, dy, 1.0)
  {
    var a, b := Zncc.ReferenceWindow(s), Zncc.DeformedWindow(s, dx, dy);
    EnergyBrightened(a, gain, offset);
    assert b == Brightened(a, gain, offset) && gain > 0.0;
    assert Energy(b) >= 1.0;
    TexturedScores(a, b, root);
    assert PositiveAffine(a, b) by {
      AffineImage(a, b, gain, offset);
    }
    hide Energy;
    hide IsRoot;
    hide Zncc.ReferenceWindow;
    hide Zncc.DeformedWindow;
    hide Zncc.FirstBest;
    hide PositiveAffine;
    hide Denominator;
    Zncc.UniqueShiftFound(s, root, best, dx, dy);
  }

  lemma AffineImage(a: seq<real>, b: seq<real>, gain: real, offset: real)
    requires |a| == |b| && gain > 0.0 && b == Brightened(a, gain, offset)
    ensures PositiveAffine(a, b)
  {
  }

  lemma TexturedScores(a: seq<real>, b: seq<real>, root: real -> real)
    requires |a| == |b| > 0 && IsRoot(root) && Energy(a) >= 1.0 && Energy(b) >= 1.0
    ensures Denominator(a, b, root) > EPSILON
  {
    DenominatorSquared(a, b, root);
    OneOrMore(Energy(a), Energy(b), Denominator(a, b, root));
  }

  lemma OneOrMore(e: real, f: real, d: real)
    requires e >= 1.0 && f >= 1.0 && d >= 0.0 && Square(d) == Times(e, f)
    ensures d >= 1.0
  {
    NotNegativeTimes(e - 1.0, f);
    Spread(f, e, 1.0);
    Spread(e, f, 0.0);
    One(f, 0.0);
    if d < 1.0 {
      NotNegativeTimes(d, 1.0 - d);
      Spread(d, 1.0, d);
      One(d, 0.0);
      SquareIsTimes(d);
      hide *;
      assert false;
    }
  }

  // The refinement starts at the shift, where its samples are pixels, and stays there.

  lemma SubsetEnergy(reference: Frame, c: Config, x: int, y: int)
    requires WellFormed(reference) && ConfigValid(c) && OnGrid(reference, c, x, y)
    ensures Subpixel.ConfigValid(Refinement(c)) && Subpixel.SubsetInside(reference, x, y, c.subsetRadius)
    ensures Refinement(c).subsetRadius == c.subsetRadius && Refinement(c).minimumTextureEnergy == 1.0
    ensures var w := Window(reference, x - c.subsetRadius, y - c.subsetRadius, 2 * c.subsetRadius + 1);
            var d := Subpixel.Reference(reference, x, y, c.subsetRadius);
            |w| > 0 && d == Centred(w) && Dot(d, d) == Energy(w)
  {
    SideSquared(2 * c.subsetRadius + 1);
    hide Dot;
    hide Centred;
  }

  /** The samples of the first step. */
  function FirstSamples(s: Subpixel.Setup, deformed: Frame, dx: int, dy: int): Option<seq<Subpixel.Sample>>
    requires WellFormed(deformed)
  {
    Subpixel.SamplesAt(s, deformed, dx as real, dy as real)
  }

  lemma FirstSamplesAre(s: Subpixel.Setup, deformed: Frame, dx: int, dy: int)
    requires WellFormed(deformed)
    ensures FirstSamples(s, deformed, dx, dy)
            == Subpixel.SampleRows(deformed, (s.left + dx) as real, (s.top + dy) as real, s.side, s.side)
    ensures BoxInside(deformed, s.left + dx, s.top + dy, s.side) ==>
              Window(deformed, s.left + dx, s.top + dy, s.side)
              == Rows(deformed, s.left + dx, s.top + dy, s.side, s.side)
  {
    assert (s.left + dx) as real == s.left as real + dx as real;
    assert (s.top + dy) as real == s.top as real + dy as real;
    hide Rows;
    hide Subpixel.SampleRows;
  }

  lemma BoxIsInside(f: Frame, left: int, top: int, side: nat)
    requires WellFormed(f) && 0 <= left && 0 <= top
    requires left + side < ToSigned(f.width) && top + side < ToSigned(f.height)
    ensures BoxInside(f, left, top, side)
  {
  }

  lemma SamplesArePixels(s: Subpixel.Setup, deformed: Frame, dx: int, dy: int)
    requires WellFormed(deformed) && 0 <= s.left + dx && 0 <= s.top + dy
    requires s.left + dx + s.side < ToSigned(deformed.width) && s.top + dy + s.side < ToSigned(deformed.height)
    ensures BoxInside(deformed, s.left + dx, s.top + dy, s.side)
    ensures var samples := FirstSamples(s, deformed, dx, dy);
            && samples.Some?
            && Subpixel.Values(samples.value) == Window(deformed, s.left + dx, s.top + dy, s.side)
  {
    hide *;
    BoxIsInside(deformed, s.left + dx, s.top + dy, s.side);
    FirstSamplesAre(s, deformed, dx, dy);
    SubpixelThreshold.WindowOfPixels(deformed, s.left + dx, s.top + dy, s.side, s.side);
  }

  /** The deformed image shows the reference around (x, y) once, shifted by (dx, dy), and with enough texture. */
  ghost predicate ShowsOnce(
    reference: Frame, deformed: Frame, c: Config, x: int, y: int, dx: int, dy: int, gain: real, offset: real)
    requires WellFormed(reference) && WellFormed(deformed)
  {
    && ConfigValid(c) && OnGrid(reference, c, x, y)
    && reference.width == deformed.width && reference.height == deformed.height
    && (MarginSuffices(reference, deformed, c, x, y);
        var s := SearchAt(reference, deformed, c, x, y);
        && Zncc.InWindow(s, dx, dy) && ShiftedBy(s, dx, dy, gain, offset) && OnlyShift(s, dx, dy)
        && var e := Energy(Zncc.ReferenceWindow(s)); e >= 1.0 && Times(Square(gain), e) >= 1.0)
  }

  /** At the shift the equations of the refinement can be solved. */
  ghost predicate Regular(
    reference: Frame, deformed: Frame, c: Config, x: int, y: int, dx: int, dy: int, root: real -> real)
    requires WellFormed(reference) && WellFormed(deformed) && IsRoot(root)
  {
    SubpixelBrightness.Iterates(reference, deformed, x, y, Refinement(c)) ==>
      var s := Subpixel.SetupOf(reference, x, y, Refinement(c), root);
      var samples := FirstSamples(s, deformed, dx, dy);
      samples.Some? && |samples.value| == |s.ref| > 0 && s.refNorm > 0.0 ==>
        Subpixel.StepOf(s.ref, s.refNorm, samples.value, 1.0, root) != Subpixel.Singular
  }

  /** What the windows of the search have to do with those of the refinement. */
  lemma SameWindows(reference: Frame, deformed: Frame, c: Config, x: int, y: int, dx: int, dy: int)
    requires WellFormed(reference) && WellFormed(deformed) && ConfigValid(c) && OnGrid(reference, c, x, y)
    requires reference.width == deformed.width && reference.height == deformed.height
    requires -c.searchRadius <= dx <= c.searchRadius && -c.searchRadius <= dy <= c.searchRadius
    ensures var s := SearchAt(reference, deformed, c, x, y);
            var left, top, side := x - c.subsetRadius + dx, y - c.subsetRadius + dy, 2 * c.subsetRadius + 1;
            && Zncc.Comparable(s) && Zncc.SameSize(s) && Zncc.Fits(s) && Zncc.InWindow(s, dx, dy)
            && 0 <= left && 0 <= top && left + side < ToSigned(deformed.width) && top + side < ToSigned(deformed.height)
            && BoxInside(deformed, left, top, side)
            && Zncc.DeformedWindow(s, dx, dy) == Window(deformed, left, top, side)
            && Subpixel.ConfigValid(Refinement(c)) && Subpixel.SubsetInside(reference, x, y, c.subsetRadius)
            && Zncc.ReferenceWindow(s) == SubpixelRun.Subset(reference, x, y, Refinement(c))
            && s.searchRadius == c.searchRadius
  {
    hide Rows;
  }

  /** What the scene means for the search. */
  lemma ShownIs(
      reference: Frame, deformed: Frame, c: Config, x: int, y: int, dx: int, dy: int, gain: real, offset: real)
    requires WellFormed(reference) && WellFormed(deformed)
    requires ShowsOnce(reference, deformed, c, x, y, dx, dy, gain, offset)
    ensures ConfigValid(c) && OnGrid(reference, c, x, y)
    ensures reference.width == deformed.width && reference.height == deformed.height
    ensures -c.searchRadius <= dx <= c.searchRadius && -c.searchRadius <= dy <= c.searchRadius && gain > 0.0
    ensures var s := SearchAt(reference, deformed, c, x, y);
            && Zncc.Comparable(s) && Zncc.SameSize(s) && Zncc.Fits(s) && Zncc.InWindow(s, dx, dy)
            && ShiftedBy(s, dx, dy, gain, offset) && OnlyShift(s, dx, dy)
            && Zncc.DeformedWindow(s, dx, dy) == Brightened(Zncc.ReferenceWindow(s), gain, offset)
            && var e := Energy(Zncc.ReferenceWindow(s)); e >= 1.0 && Times(Square(gain), e) >= 1.0
  {
    MarginSuffices(reference, deformed, c, x, y);
    hide Energy;
    hide Zncc.ReferenceWindow;
    hide Zncc.DeformedWindow;
    hide OnlyShift;
    hide Brightened;
    hide Times;
    hide Square;
  }

  /** What it means for the refinement. */
  lemma SceneFacts(
      reference: Frame, deformed: Frame, c: Config, x: int, y: int, dx: int, dy: int, gain: real, offset: real)
    requires WellFormed(reference) && WellFormed(deformed)
    requires ShowsOnce(reference, deformed, c, x, y, dx, dy, gain, offset)
    ensures SubpixelBrightness.Iterates(reference, deformed, x, y, Refinement(c))
    ensures Subpixel.ConfigValid(Refinement(c)) && Subpixel.SubsetInside(reference, x, y, c.subsetRadius)
    ensures Refinement(c).subsetRadius == c.subsetRadius && Refinement(c).minimumTextureEnergy == 1.0
    ensures var w := SubpixelRun.Subset(reference, x, y, Refinement(c));
            var left, top, side := x - c.subsetRadius + dx, y - c.subsetRadius + dy, 2 * c.subsetRadius + 1;
            && 0 <= left && 0 <= top && left + side < ToSigned(deformed.width) && top + side < ToSigned(deformed.height)
            && gain > 0.0 && BoxInside(deformed, left, top, side)
            && Window(deformed, left, top, side) == Brightened(w, gain, offset)
            && Dot(Centred(w), Centred(w)) >= 1.0 && Times(Square(gain), Dot(Centred(w), Centred(w))) >= 1.0
  {
    hide *;
    ShownIs(reference, deformed, c, x, y, dx, dy, gain, offset);
    SameWindows(reference, deformed, c, x, y, dx, dy);
    SubsetEnergy(reference, c, x, y);
    EnergyOf(SubpixelRun.Subset(reference, x, y, Refinement(c)));
    SubsetIs(reference, x, y, Refinement(c));
    AreIterated(reference, deformed, x, y, Refinement(c));
  }

  lemma SubsetIs(f: Frame, x: int, y: int, c: Subpixel.Config)
    requires WellFormed(f) && Subpixel.ConfigValid(c) && Subpixel.SubsetInside(f, x, y, c.subsetRadius)
    ensures Subpixel.Reference(f, x, y, c.subsetRadius) == Centred(SubpixelRun.Subset(f, x, y, c))
  {
    hide Centred;
    hide Rows;
  }

  lemma AreIterated(reference: Frame, deformed: Frame, x: int, y: int, c: Subpixel.Config)
    requires WellFormed(reference) && reference.width == deformed.width && reference.height == deformed.height
    requires Subpixel.ConfigValid(c) && Subpixel.SubsetInside(reference, x, y, c.subsetRadius)
    requires var d := Subpixel.Reference(reference, x, y, c.subsetRadius); Dot(d, d) >= c.minimumTextureEnergy
    ensures SubpixelBrightness.Iterates(reference, deformed, x, y, c)
  {
    hide Dot;
  }

  lemma RefinementStays(
      reference: Frame, deformed: Frame, c: Config, x: int, y: int, dx: int, dy: int, gain: real, offset: real,
      root: real -> real)
    requires WellFormed(reference) && WellFormed(deformed) && IsRoot(root)
    requires ShowsOnce(reference, deformed, c, x, y, dx, dy, gain, offset)
    requires Regular(reference, deformed, c, x, y, dx, dy, root)
    ensures Subpixel.Refine(reference, deformed, x, y, dx as real, dy as real, Refinement(c), root)
            == Done(Subpixel.Refined(dx as real, dy as real, 1.0, 1, true, true))
  {
    hide *;
    SceneFacts(reference, deformed, c, x, y, dx, dy, gain, offset);
    var refinement := Refinement(c);
    IteratesFacts(reference, deformed, x, y, refinement);
    SubpixelRun.SetupIs(reference, x, y, refinement, root);
    var s := Subpixel.SetupOf(reference, x, y, refinement, root);
    var w := SubpixelRun.Subset(reference, x, y, refinement);
    SamplesArePixels(s, deformed, dx, dy);
    Subpixel.ReadyFacts(s);
    var samples := FirstSamples(s, deformed, dx, dy).value;
    RegularStep(reference, deformed, c, x, y, dx, dy, root);
    FirstSamplesTaken(s, deformed, dx, dy);
    IsShown(samples, w, gain, offset);
    SubpixelRun.RefineStays(reference, deformed, x, y, dx as real, dy as real, refinement, root, gain, offset);
  }

  lemma FirstSamplesTaken(s: Subpixel.Setup, deformed: Frame, dx: int, dy: int)
    requires WellFormed(deformed)
    ensures FirstSamples(s, deformed, dx, dy) == Subpixel.SamplesAt(s, deformed, dx as real, dy as real)
  {
    hide Subpixel.SamplesAt;
  }

  lemma IsShown(samples: seq<Subpixel.Sample>, w: seq<real>, gain: real, offset: real)
    requires gain > 0.0 && Subpixel.Values(samples) == Brightened(w, gain, offset)
    ensures SubpixelStep.Shows(samples, w, gain, offset) && |samples| == |w|
  {
  }

  lemma RegularStep(
      reference: Frame, deformed: Frame, c: Config, x: int, y: int, dx: int, dy: int, root: real -> real)
    requires WellFormed(reference) && WellFormed(deformed) && IsRoot(root)
    requires Regular(reference, deformed, c, x, y, dx, dy, root)
    requires SubpixelBrightness.Iterates(reference, deformed, x, y, Refinement(c))
    ensures Subpixel.ConfigValid(Refinement(c))
    ensures Subpixel.SubsetInside(reference, x, y, Refinement(c).subsetRadius)
    ensures var d := Subpixel.Reference(reference, x, y, Refinement(c).subsetRadius);
            Dot(d, d) >= Refinement(c).minimumTextureEnergy
    ensures var s := Subpixel.SetupOf(reference, x, y, Refinement(c), root);
            var samples := FirstSamples(s, deformed, dx, dy);
            samples.Some? && |samples.value| == |s.ref| > 0 && s.refNorm > 0.0 ==>
              Subpixel.StepOf(s.ref, s.refNorm, samples.value, 1.0, root) != Subpixel.Singular
  {
    hide Subpixel.SetupOf;
    hide Subpixel.Reference;
    hide Subpixel.StepOf;
    hide FirstSamples;
    hide IsRoot;
    hide Dot;
  }

  lemma IteratesFacts(reference: Frame, deformed: Frame, x: int, y: int, c: Subpixel.Config)
    requires WellFormed(reference) && SubpixelBrightness.Iterates(reference, deformed, x, y, c)
    ensures Subpixel.ConfigValid(c) && Subpixel.SubsetInside(reference, x, y, c.subsetRadius)
    ensures var d := Subpixel.Reference(reference, x, y, c.subsetRadius); Dot(d, d) >= c.minimumTextureEnergy
  {
    hide Dot;
  }

  lemma EnergyOf(w: seq<real>)
    requires w != []
    ensures Energy(w) == Dot(Centred(w), Centred(w))
  {
    hide Dot;
    hide Centred;
  }

  /**
   * A grid point around which the deformed image is the textured reference, shifted by whole pixels and rescaled in
   * brightness, is measured with exactly that shift and is valid, if no other shift shows the reference and the
   * refinement's system is regular there.
   */
  lemma {:induction false} ShiftIsMeasured(
      reference: Frame, deformed: Frame, c: Config, p: GridPoint, dx: int, dy: int, gain: real, offset: real,
      root: real -> real)
    requires WellFormed(reference) && WellFormed(deformed) && IsRoot(root) && Measured(reference, deformed, c, p, root)
    requires ShowsOnce(reference, deformed, c, p.x, p.y, dx, dy, gain, offset)
    requires Regular(reference, deformed, c, p.x, p.y, dx, dy, root)
    ensures p.u == Finite(dx as real) && p.v == Finite(dy as real) && p.valid
  {
    hide *;
    var best, r := MeasuredFrom(reference, deformed, c, p, root);
    ShownIs(reference, deformed, c, p.x, p.y, dx, dy, gain, offset);
    RefinementStays(reference, deformed, c, p.x, p.y, dx, dy, gain, offset, root);
    SearchFinds(SearchAt(reference, deformed, c, p.x, p.y), root, best, dx, dy, gain, offset);
  }

  lemma MeasuredFrom(reference: Frame, deformed: Frame, c: Config, p: GridPoint, root: real -> real)
    returns (best: Zncc.Translation, r: Subpixel.Refined)
    requires WellFormed(reference) && WellFormed(deformed) && IsRoot(root) && Measured(reference, deformed, c, p, root)
    ensures var s := SearchAt(reference, deformed, c, p.x, p.y);
            && Zncc.Comparable(s) && Zncc.SameSize(s) && Zncc.Fits(s) && s.searchRadius == c.searchRadius
            && Zncc.FirstBest(s, root, best, -s.searchRadius, s.searchRadius + 1)
    ensures Subpixel.Refine(reference, deformed, p.x, p.y, best.dx as real, best.dy as real, Refinement(c), root)
            == Done(r)
    ensures p.u == Finite(r.u) && p.v == Finite(r.v) && c.threshold <= 1.0
    ensures p.valid <==> r.valid && r.converged && r.zncc >= c.threshold
  {
    hide Zncc.FirstBest;
    hide Subpixel.Refine;
    hide IsRoot;
    MarginSuffices(reference, deformed, c, p.x, p.y);
    best, r :|
      && Zncc.FirstBest(SearchAt(reference, deformed, c, p.x, p.y), root, best, -c.searchRadius, c.searchRadius + 1)
      && Subpixel.Refine(reference, deformed, p.x, p.y, best.dx as real, best.dy as real, Refinement(c), root)
         == Done(r)
      && p.u == Finite(r.u) && p.v == Finite(r.v) && p.strain == NO_STRAIN
      && (p.valid <==> r.valid && r.converged && r.zncc >= c.threshold);
  }

  /**
   * A point that is measured as valid has converged: its displacement is one step of at most the configured tolerance
   * away from the samples of that step, within the configured number of iterations, with a quality above the threshold.
   */
  lemma {:induction false} ValidIsConverged(
      reference: Frame, deformed: Frame, c: Config, p: GridPoint, root: real -> real)
    returns (r: Subpixel.Refined, samples: seq<Subpixel.Sample>, du: real, dv: real)
    requires WellFormed(reference) && WellFormed(deformed) && IsRoot(root) && Measured(reference, deformed, c, p, root)
    requires p.valid
    ensures p.u == Finite(r.u) && p.v == Finite(r.v) && r.zncc >= c.threshold && r.iterations <= c.maxIterations
    ensures var refinement := Subpixel.Config(c.subsetRadius, c.maxIterations, c.tolerance, 1.0);
            && SubpixelBrightness.Iterates(reference, deformed, p.x, p.y, refinement)
            && SubpixelRun.LastStep(Subpixel.SetupOf(reference, p.x, p.y, refinement, root), deformed, r, samples,
                                    du, dv, root)
  {
    RefinementIs(c);
    hide *;
    var best: Zncc.Translation;
    best, r := MeasuredFrom(reference, deformed, c, p, root);
    samples, du, dv := SubpixelRun.ConvergedMeans(
      reference, deformed, p.x, p.y, best.dx as real, best.dy as real, Refinement(c), root, r);
  }

  lemma RefinementIs(c: Config)
    ensures Refinement(c) == Subpixel.Config(c.subsetRadius, c.maxIterations, c.tolerance, 1.0)
  {
  }
}
