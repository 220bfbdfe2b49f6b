/** What is done with one frame: the engine measures the grid, then the estimator adds the strains. */
module MeasuredGrids {
  import opened Outcomes
  import opened Bytes
  import opened Frames
  import opened Correlation
  import opened StrainGrid
  import opened HybridGrid
  import opened RuntimeConfigs

  /** One step beyond the frame is still an int, as the engine's own loops demand. */
  predicate StepFits(f: Frame, c: Config) {
    ToSigned(f.width) + c.gridStep <= 0x8000_0000 && ToSigned(f.height) + c.gridStep <= 0x8000_0000
  }

  /** The estimator can look up the neighbours of every point that the engine measures. */
  lemma {:induction false} MeasuredFits(
    reference: Frame, deformed: Frame, c: Config, points: seq<GridPoint>, root: real -> real)
    requires WellFormed(reference) && WellFormed(deformed) && IsRoot(root) && StepFits(reference, c)
    requires AllMeasured(reference, deformed, c, points, root)
    ensures StepsFit(points, c.gridStep)
  {
    forall p | p in points
      ensures Margin(c) >= 3 && OnGrid(reference, c, p.x, p.y) && c.gridStep >= 1
    {
      var i :| 0 <= i < |points| && points[i] == p;
      assert Measured(reference, deformed, c, points[i], root);
    }
    hide AllMeasured;
    hide Measured;
  }

  /** The engine that is made from a runtime configuration, with the refinement settings of the Edge. */
  function EngineOf(c: RuntimeConfig, maxIterations: int, tolerance: real, threshold: real): Config {
    Config(c.subsetRadius, c.gridStep, c.searchRadius, maxIterations, tolerance, threshold)
  }

  /**
   * A runtime configuration passes validation exactly if the engine's constructor would accept its grid, the image
   * is large enough, the frame rate positive and the pool not below the wrapped sum.
   */
  lemma {:induction false} EngineAccepts(c: RuntimeConfig, maxIterations: int, tolerance: real, threshold: real)
    requires maxIterations >= 1 && tolerance > 0.0 && -1.0 <= threshold <= 1.0
    ensures Valid(c) <==>
            && ConfigValid(EngineOf(c, maxIterations, tolerance, threshold))
            && c.width >= 64 && c.height >= 64 && c.cameraFps > 0.0
            && c.framePoolSize >= (c.captureQueueSize + 3) % 0x1_0000_0000_0000_0000
  {
  }

  function Columns(f: Frame, c: Config): nat
    requires ConfigValid(c)
  {
    Ticks(Margin(c), Margin(c), ToSigned(f.width), c.gridStep)
  }

  function RowsOf(f: Frame, c: Config): nat
    requires ConfigValid(c)
  {
    Ticks(Margin(c), Margin(c), ToSigned(f.height), c.gridStep)
  }

  lemma GridSizes(f: Frame, c: Config)
    requires ConfigValid(c)
    ensures Columns(f, c) == Ticks(Margin(c), Margin(c), ToSigned(f.width), c.gridStep)
    ensures RowsOf(f, c) == Ticks(Margin(c), Margin(c), ToSigned(f.height), c.gridStep)
  {
  }

  /**
   * The displacements that the engine measures, with the strains that the estimator fits to them; all of them are
   * valid if all points are and the grid has two rows and two columns.
   */
  method Process(reference: Frame, deformed: Frame, c: Config, estimator: GridStrainEstimator, root: real -> real)
    returns (o: Outcome<seq<GridPoint>>, ghost measured: seq<GridPoint>)
    requires WellFormed(reference) && WellFormed(deformed) && IsRoot(root) && ConfigValid(c)
    requires StepFits(reference, c) && estimator.Valid() && estimator.gridStep == c.gridStep
    modifies estimator
    ensures estimator.Valid()
    ensures o == if reference.width == deformed.width && reference.height == deformed.height
                 then Done(Applied(measured, c.gridStep)) else Threw(DimensionsDiffer)
    ensures o.Done? ==>
              && AllMeasured(reference, deformed, c, measured, root)
              && CoordinatesOf(measured)
                 == Grid(Margin(c), Margin(c), c.gridStep, Columns(reference, c), RowsOf(reference, c))
    ensures o.Done? && Columns(reference, c) >= 2 && RowsOf(reference, c) >= 2
            && (forall p :: p in measured ==> Usable(p)) ==>
              forall i :: 0 <= i < |o.value| ==> o.value[i].strain.valid
  {
    hide *;
    ConfigFacts(c);
    GridSizes(reference, c);
    var displacements := HybridGrid.Process(reference, deformed, c, root);
    if displacements.Threw? {
      return displacements, [];
    }
    measured := displacements.value;
    MeasuredFits(reference, deformed, c, measured, root);
    var n := |displacements.value|;
    var points := new GridPoint[n](i requires 0 <= i < n => displacements.value[i]);
    assert points[..] == measured;
    estimator.Apply(points);
    o := Done(points[..]);
    forall i | Columns(reference, c) >= 2 && RowsOf(reference, c) >= 2 && (forall p :: p in measured ==> Usable(p))
               && 0 <= i < |measured|
      ensures o.value[i].strain.valid
    {
      AllValidAllStrained(measured, Margin(c), Margin(c), c.gridStep, Columns(reference, c), RowsOf(reference, c), i);
    }
  }
}
