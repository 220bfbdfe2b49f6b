/** What a refinement that converged has found, and where it finds at once what it looks for. */
module SubpixelRun {
  import opened Outcomes
  import opened Bytes
  import opened Reals
  import opened Frames
  import opened Correlation
  import opened Subpixel
  import opened SubpixelBrightness
  import opened SubpixelStep

  /** A refinement ended at (r.u, r.v) because the last step, from where these samples lie, was short enough. */
  ghost predicate LastStep(
    s: Setup, deformed: Frame, r: Refined, samples: seq<Sample>, du: real, dv: real, root: real -> real)
    requires Ready(s) && WellFormed(deformed) && IsRoot(root)
  {
    && SamplesAt(s, deformed, r.u - du, r.v - dv) == Some(samples) && |samples| == |s.ref|
    && StepOf(s.ref, s.refNorm, samples, s.config.minimumTextureEnergy, root) == Step.Moved(du, dv, r.zncc)
    && Times(du, du) + Times(dv, dv) <= Times(s.config.tolerance, s.config.tolerance)
  }

  lemma IterationConverges(
      s: Setup, samples: Option<seq<Sample>>, u: real, v: real, iteration: nat, result: Refined, root: real -> real)
    returns (du: real, dv: real)
    requires Ready(s) && IsRoot(root) && (samples.Some? ==> |samples.value| == s.side * s.side) && !result.converged
    ensures var i := Iterated(s, samples, u, v, iteration, result, root);
            i.Ends? && i.result.converged ==>
              && samples.Some? && i.result.u - du == u && i.result.v - dv == v && i.result.valid
              && StepOf(s.ref, s.refNorm, samples.value, s.config.minimumTextureEnergy, root)
                 == Step.Moved(du, dv, i.result.zncc)
              && Times(du, du) + Times(dv, dv) <= Times(s.config.tolerance, s.config.tolerance)
    ensures var i := Iterated(s, samples, u, v, iteration, result, root);
            i.result.iterations <= iteration + 1 && (i.GoesOn? ==> !i.result.converged)
  {
    hide StepOf;
    hide IsRoot;
    if samples.Some? {
      var step := StepOf(s.ref, s.refNorm, samples.value, s.config.minimumTextureEnergy, root);
      if step.Moved? {
        return step.du, step.dv;
      }
    }
    return 0.0, 0.0;
  }

  lemma ReadyWindow(s: Setup, deformed: Frame, u: real, v: real)
    requires Ready(s) && WellFormed(deformed)
    ensures var samples := SamplesAt(s, deformed, u, v); samples.Some? ==> |samples.value| == s.side * s.side == |s.ref|
  {
    hide SamplesAt;
  }

  lemma {:induction false} RunConverges(
      s: Setup, deformed: Frame, u: real, v: real, iteration: nat, result: Refined, root: real -> real)
    returns (samples: seq<Sample>, du: real, dv: real)
    requires Ready(s) && WellFormed(deformed) && IsRoot(root) && !result.converged
    requires result.iterations <= iteration <= s.config.maxIterations
    ensures var r := Run(s, deformed, u, v, iteration, result, root);
            && r.iterations <= s.config.maxIterations
            && (r.converged ==> r.valid && LastStep(s, deformed, r, samples, du, dv, root))
    decreases s.config.maxIterations - iteration
  {
    hide *;
    samples, du, dv := [], 0.0, 0.0;
    RunOver(s, deformed, u, v, iteration, result, 1.0, root);
    if iteration < s.config.maxIterations {
      RunUnfolds(s, deformed, u, v, iteration, result, 1.0, root);
      ReadyFacts(s);
      ReadyWindow(s, deformed, u, v);
      var taken := SamplesAt(s, deformed, u, v);
      du, dv := IterationConverges(s, taken, u, v, iteration, result, root);
      var i := Iterated(s, taken, u, v, iteration, result, root);
      if i.GoesOn? {
        samples, du, dv := RunConverges(s, deformed, i.u, i.v, iteration + 1, i.result, root);
      } else if i.result.converged {
        samples := taken.value;
        IsLastStep(s, deformed, i.result, samples, du, dv, root);
      }
    }
  }

  lemma IsLastStep(
      s: Setup, deformed: Frame, r: Refined, samples: seq<Sample>, du: real, dv: real, root: real -> real)
    requires Ready(s) && WellFormed(deformed) && IsRoot(root) && |samples| == |s.ref| == s.side * s.side
    requires |s.ref| > 0 && s.refNorm > 0.0 && s.config.minimumTextureEnergy > 0.0
    requires SamplesAt(s, deformed, r.u - du, r.v - dv) == Some(samples)
    requires StepOf(s.ref, s.refNorm, samples, s.config.minimumTextureEnergy, root) == Step.Moved(du, dv, r.zncc)
    requires Times(du, du) + Times(dv, dv) <= Times(s.config.tolerance, s.config.tolerance)
    ensures LastStep(s, deformed, r, samples, du, dv, root)
  {
    hide StepOf;
    hide SamplesAt;
    hide Times;
  }

  /** Why a run that did not converge has ended where it did; `moved` steps were taken. */
  ghost predicate Stopped(s: Setup, deformed: Frame, r: Refined, moved: nat, root: real -> real)
    requires Ready(s) && WellFormed(deformed) && IsRoot(root)
  {
    var samples := SamplesAt(s, deformed, r.u, r.v);
    || (r.iterations == moved == s.config.maxIterations)
    || (samples.None? && r.iterations == moved)
    || (samples.Some? && |samples.value| == |s.ref|
        && var step := StepOf(s.ref, s.refNorm, samples.value, s.config.minimumTextureEnergy, root);
           (step.Flat? && r.iterations == moved) || (step.Singular? && r.iterations == moved + 1))
  }

  lemma IterationStops(
      s: Setup, deformed: Frame, u: real, v: real, iteration: nat, result: Refined, root: real -> real)
    requires Ready(s) && WellFormed(deformed) && IsRoot(root) && !result.converged && (result.valid <==> iteration > 0)
    requires var samples := SamplesAt(s, deformed, u, v);
             samples.Some? ==> |samples.value| == s.side * s.side == |s.ref|
    ensures var i := Iterated(s, SamplesAt(s, deformed, u, v), u, v, iteration, result, root);
            if i.GoesOn? then
              !i.result.converged && i.result.valid && i.result.u == i.u && i.result.v == i.v
              && i.result.iterations == iteration + 1
            else if i.result.converged then i.result.valid && i.result.iterations == iteration + 1
            else (i.result.valid <==> iteration > 0) && Stopped(s, deformed, i.result, iteration, root)
  {
    hide SamplesAt;
    hide StepOf;
    hide IsRoot;
    hide Converges;
  }

  /** A result is valid exactly if a step was taken; how many were follows from why the run ended. */
  lemma {:induction false} RunStops(
      s: Setup, deformed: Frame, u: real, v: real, iteration: nat, result: Refined, root: real -> real)
    returns (moved: nat)
    requires Ready(s) && WellFormed(deformed) && IsRoot(root) && !result.converged && (result.valid <==> iteration > 0)
    requires iteration <= s.config.maxIterations
    requires iteration > 0 ==> result.iterations == iteration && result.u == u && result.v == v
    requires iteration < s.config.maxIterations || iteration > 0
    ensures var r := Run(s, deformed, u, v, iteration, result, root);
            && (r.valid <==> moved > 0)
            && (if r.converged then r.iterations == moved else Stopped(s, deformed, r, moved, root))
    decreases s.config.maxIterations - iteration
  {
    hide *;
    moved := iteration;
    RunOver(s, deformed, u, v, iteration, result, 1.0, root);
    if iteration < s.config.maxIterations {
      RunUnfolds(s, deformed, u, v, iteration, result, 1.0, root);
      ReadyWindow(s, deformed, u, v);
      IterationStops(s, deformed, u, v, iteration, result, root);
      var i := Iterated(s, SamplesAt(s, deformed, u, v), u, v, iteration, result, root);
      if i.GoesOn? {
        moved := RunStops(s, deformed, i.u, i.v, iteration + 1, i.result, root);
      } else if i.result.converged {
        moved := iteration + 1;
      }
    } else {
      LimitStops(s, deformed, result, root);
    }
  }

  lemma LimitStops(s: Setup, deformed: Frame, r: Refined, root: real -> real)
    requires Ready(s) && WellFormed(deformed) && IsRoot(root) && r.iterations == s.config.maxIterations
    ensures Stopped(s, deformed, r, r.iterations, root)
  {
    hide SamplesAt;
    hide StepOf;
    hide IsRoot;
  }

  lemma RefineRuns(
      reference: Frame, deformed: Frame, centerX: int, centerY: int, u: real, v: real, c: Config, root: real -> real)
    requires WellFormed(reference) && WellFormed(deformed) && IsRoot(root)
    ensures Iterates(reference, deformed, centerX, centerY, c) ==>
              Refine(reference, deformed, centerX, centerY, u, v, c, root)
              == Done(Run(SetupOf(reference, centerX, centerY, c, root), deformed, u, v, 0, UNREFINED, root))
    ensures !Iterates(reference, deformed, centerX, centerY, c) ==>
              Refine(reference, deformed, centerX, centerY, u, v, c, root) != Done(UNREFINED) ==>
                Refine(reference, deformed, centerX, centerY, u, v, c, root).Threw?
  {
    hide Reference;
    hide SetupOf;
    hide Run;
    hide Dot;
    hide IsRoot;
  }

  /**
   * A refinement that converged is valid, within the iteration limit, and one step of at most the tolerance away
   * from the samples to which that step belongs.
   */
  lemma {:induction false} ConvergedMeans(
      reference: Frame, deformed: Frame, centerX: int, centerY: int, u: real, v: real, c: Config, root: real -> real,
      r: Refined)
    returns (samples: seq<Sample>, du: real, dv: real)
    requires WellFormed(reference) && WellFormed(deformed) && IsRoot(root)
    requires Refine(reference, deformed, centerX, centerY, u, v, c, root) == Done(r) && r.converged
    ensures Iterates(reference, deformed, centerX, centerY, c) && r.valid && r.iterations <= c.maxIterations
    ensures LastStep(SetupOf(reference, centerX, centerY, c, root), deformed, r, samples, du, dv, root)
  {
    RefineRuns(reference, deformed, centerX, centerY, u, v, c, root);
    assert !UNREFINED.converged && UNREFINED.iterations == 0;
    assert Iterates(reference, deformed, centerX, centerY, c);
    assert ConfigValid(c) && c.maxIterations >= 0;
    var s := SetupOf(reference, centerX, centerY, c, root);
    assert s.config == c;
    hide *;
    samples, du, dv := RunConverges(s, deformed, u, v, 0, UNREFINED, root);
  }

  /**
   * Any other refinement ends at the iteration limit, where a sample lies outside the image, where the window is too
   * flat, or where the system is singular; it is valid exactly if it has taken a step.
   */
  lemma {:induction false} EndsBecause(
      reference: Frame, deformed: Frame, centerX: int, centerY: int, u: real, v: real, c: Config, root: real -> real,
      r: Refined)
    returns (moved: nat)
    requires WellFormed(reference) && WellFormed(deformed) && IsRoot(root)
    requires Iterates(reference, deformed, centerX, centerY, c)
    requires Refine(reference, deformed, centerX, centerY, u, v, c, root) == Done(r)
    ensures r.valid <==> moved > 0
    ensures !r.converged ==> Stopped(SetupOf(reference, centerX, centerY, c, root), deformed, r, moved, root)
    ensures r.converged ==> r.iterations == moved
  {
    RefineRuns(reference, deformed, centerX, centerY, u, v, c, root);
    assert !UNREFINED.converged && !UNREFINED.valid;
    assert ConfigValid(c) && c.maxIterations >= 1;
    var s := SetupOf(reference, centerX, centerY, c, root);
    assert s.config == c;
    hide *;
    moved := RunStops(s, deformed, u, v, 0, UNREFINED, root);
  }

  // The fixed points.

  lemma IterationStays(
      s: Setup, samples: seq<Sample>, u: real, v: real, result: Refined, root: real -> real)
    requires Ready(s) && IsRoot(root) && |samples| == s.side * s.side
    requires StepOf(s.ref, s.refNorm, samples, s.config.minimumTextureEnergy, root) == Step.Moved(0.0, 0.0, 1.0)
    ensures Iterated(s, Some(samples), u, v, 0, result, root) == Ends(Refined(u, v, 1.0, 1, true, true))
  {
    assert s.config.tolerance * s.config.tolerance >= 0.0;
    hide StepOf;
    hide IsRoot;
  }

  /** The subset of the reference, as a list of pixels. */
  function Subset(f: Frame, centerX: int, centerY: int, c: Config): (w: seq<real>)
    requires WellFormed(f) && ConfigValid(c) && SubsetInside(f, centerX, centerY, c.subsetRadius)
    ensures |w| == (2 * c.subsetRadius + 1) * (2 * c.subsetRadius + 1) > 0
  {
    SideSquared(2 * c.subsetRadius + 1);
    Window(f, centerX - c.subsetRadius, centerY - c.subsetRadius, 2 * c.subsetRadius + 1)
  }

  /** Where a refinement starts on an image of its subset, with enough texture and a regular system, it stays. */
  lemma {:induction false} RefineStays(
      reference: Frame, deformed: Frame, centerX: int, centerY: int, u: real, v: real, c: Config, root: real -> real,
      gain: real, offset: real)
    requires WellFormed(reference) && WellFormed(deformed) && IsRoot(root)
    requires Iterates(reference, deformed, centerX, centerY, c)
    requires var s := SetupOf(reference, centerX, centerY, c, root);
             var samples := SamplesAt(s, deformed, u, v);
             && samples.Some? && |samples.value| == |s.ref| > 0 && s.refNorm > 0.0 && c.minimumTextureEnergy > 0.0
             && Shows(samples.value, Subset(reference, centerX, centerY, c), gain, offset)
             && Times(Square(gain), Dot(s.ref, s.ref)) >= c.minimumTextureEnergy
             && StepOf(s.ref, s.refNorm, samples.value, c.minimumTextureEnergy, root) != Singular
    ensures Refine(reference, deformed, centerX, centerY, u, v, c, root) == Done(Refined(u, v, 1.0, 1, true, true))
  {
    RefineRuns(reference, deformed, centerX, centerY, u, v, c, root);
    SetupIs(reference, centerX, centerY, c, root);
    var s := SetupOf(reference, centerX, centerY, c, root);
    var w, samples := Subset(reference, centerX, centerY, c), SamplesAt(s, deformed, u, v).value;
    assert s.config == c && c.maxIterations >= 1;
    hide *;
    ReadyFacts(s);
    ReferenceIsFixed(w, s.refNorm, samples, c.minimumTextureEnergy, root, gain, offset);
    ReadyWindow(s, deformed, u, v);
    IterationStays(s, samples, u, v, UNREFINED, root);
    RunUnfolds(s, deformed, u, v, 0, UNREFINED, 1.0, root);
  }

  lemma SetupIs(f: Frame, centerX: int, centerY: int, c: Config, root: real -> real)
    requires WellFormed(f) && IsRoot(root) && ConfigValid(c) && SubsetInside(f, centerX, centerY, c.subsetRadius)
    requires var d := Reference(f, centerX, centerY, c.subsetRadius); Dot(d, d) >= c.minimumTextureEnergy
    ensures var s := SetupOf(f, centerX, centerY, c, root);
            && s.ref == Centred(Subset(f, centerX, centerY, c)) && Square(s.refNorm) == Dot(s.ref, s.ref)
            && s.left == centerX - c.subsetRadius && s.top == centerY - c.subsetRadius
            && s.side == 2 * c.subsetRadius + 1
  {
    hide Dot;
    hide Centred;
    hide Window;
  }
}
