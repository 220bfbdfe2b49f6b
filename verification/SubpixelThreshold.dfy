/** An input on which a change of brightness does change the refinement. */
module SubpixelThreshold {
  import opened Outcomes
  import opened Bytes
  import opened Reals
  import opened Frames
  import opened Correlation
  import opened Subpixel
  import opened SubpixelBrightness

  // At whole displacements the samples are the pixels.

  lemma MixAtZero(a: real, b: real)
    ensures Mix(0.0, a, b) == a
  {
  }

  lemma BilinearAtPixel(f: Frame, x: int, y: int)
    requires WellFormed(f) && CellInside(f, x, y)
    ensures var s := Bilinear(f, x as real, y as real); s.Some? && s.value.value == At(f, x, y) as real
  {
    hide At;
    hide Mix;
    BilinearIs(f, x as real, y as real);
    MixAtZero(At(f, x, y) as real, At(f, x + 1, y) as real);
    MixAtZero(Mix(0.0, At(f, x, y) as real, At(f, x + 1, y) as real),
        Mix(0.0, At(f, x, y + 1) as real, At(f, x + 1, y + 1) as real));
  }

  lemma {:induction false} RowOfPixels(f: Frame, x: int, y: int, n: nat)
    requires WellFormed(f) && 0 <= x && 0 <= y && x + n < ToSigned(f.width) && y + 1 < ToSigned(f.height)
    ensures var s := SampleRow(f, x as real, y as real, n); s.Some? && Values(s.value) == RowPart(f, x, y, n)
  {
    hide Bilinear;
    hide At;
    if n > 0 {
      RowOfPixels(f, x, y, n - 1);
      BilinearAtPixel(f, x + n - 1, y);
      assert (x + n - 1) as real == x as real + (n - 1) as real;
    }
  }

  lemma {:induction false} WindowOfPixels(f: Frame, x: int, y: int, side: nat, rows: nat)
    requires WellFormed(f) && 0 <= x && 0 <= y && x + side < ToSigned(f.width) && y + side < ToSigned(f.height)
    requires rows <= side
    ensures var s := SampleRows(f, x as real, y as real, side, rows);
            s.Some? && Values(s.value) == Rows(f, x, y, side, rows)
  {
    hide SampleRow;
    hide RowPart;
    if rows > 0 {
      WindowOfPixels(f, x, y, side, rows - 1);
      RowOfPixels(f, x, y + rows - 1, side);
      assert (y + rows - 1) as real == y as real + (rows - 1) as real;
    }
  }

  // The energy of a window that is dark but for one pixel.

  lemma {:induction false} DarkTotals(x: seq<real>)
    requires forall i :: 0 <= i < |x| ==> x[i] == 0.0
    ensures Total(x) == 0.0 && Dot(x, x) == 0.0
  {
    hide *;
    TotalUnfolds(x);
    DotUnfolds(x, x);
    if x != [] {
      DarkTotals(x[..|x| - 1]);
      ZeroTimes(0.0);
    }
  }

  lemma {:induction false} SpotTotals(x: seq<real>, k: nat)
    requires k < |x| && forall i :: 0 <= i < |x| && i != k ==> x[i] == 0.0
    ensures Total(x) == x[k] && Dot(x, x) == Times(x[k], x[k])
  {
    hide *;
    TotalUnfolds(x);
    DotUnfolds(x, x);
    var n := |x| - 1;
    if k < n {
      SpotTotals(x[..n], k);
      ZeroTimes(0.0);
    } else {
      DarkTotals(x[..n]);
    }
  }

  lemma {:induction false} SpotWindowEnergy(x: seq<real>, k: nat)
    requires k < |x| && forall i :: 0 <= i < |x| && i != k ==> x[i] == 0.0
    ensures Energy(x) == Centralised(Times(x[k], x[k]), x[k], x[k], |x| as real)
  {
    hide *;
    SpotTotals(x, k);
    MomentFormula(x, x);
    EnergyIsNumerator(x);
  }

  lemma EnergyIsNumerator(x: seq<real>)
    requires x != []
    ensures Energy(x) == Numerator(x, x)
  {
    hide Dot;
  }

  /** A dark image with one bright pixel in its centre. */
  function Spot(level: Byte): (f: Frame)
    ensures WellFormed(f) && f.width == f.height == 7
  {
    Frame(7, 7, 7, seq(49, i requires 0 <= i < 49 => if i == 24 then level else 0))
  }

  function SpotEnergy(level: Byte): real { Energy(Window(Spot(level), 1, 1, 5)) }

  lemma SpotBrighter()
    ensures BrighterBy(Spot(1), Spot(2), 2.0, 0.0)
  {
    forall x, y | Inside(Spot(1), x, y)
      ensures At(Spot(2), x, y) as real == Times(2.0, At(Spot(1), x, y) as real) + 0.0
    {
      IndexFits(Spot(1), x, y);
    }
  }

  lemma SpotPixels(level: Byte, i: nat)
    requires i < 25
    ensures Window(Spot(level), 1, 1, 5)[i] == if i == 12 then level as real else 0.0
  {
    var r, c := i / 5, i % 5;
    RowsAt(Spot(level), 1, 1, 5, 5, r, c);
    IndexFits(Spot(level), 1 + c, 1 + r);
    hide Rows;
  }

  /** The window of radius 2 around the spot has 24/25 of the square of its level as texture energy. */
  lemma {:induction false} SpotEnergyIs(level: Byte)
    ensures SpotEnergy(level) == 24.0 * Times(level as real, level as real) / 25.0
  {
    var x := Window(Spot(level), 1, 1, 5);
    hide *;
    SpotWindow(level);
    forall i | 0 <= i < 25
      ensures x[i] == if i == 12 then level as real else 0.0
    {
      SpotPixels(level, i);
    }
    SpotWindowEnergy(x, 12);
    CentralisedSpot(level as real);
  }

  lemma SpotWindow(level: Byte)
    ensures |Window(Spot(level), 1, 1, 5)| == 25 && SpotEnergy(level) == Energy(Window(Spot(level), 1, 1, 5))
  {
    hide Energy;
    hide Rows;
  }

  lemma CentralisedSpot(v: real)
    ensures Centralised(Times(v, v), v, v, 25.0) == 24.0 * Times(v, v) / 25.0
  {
  }

  lemma SpotEnergies()
    ensures SpotEnergy(1) == 0.96 && SpotEnergy(2) == 3.84
  {
    hide *;
    SpotEnergyIs(1);
    SpotEnergyIs(2);
    SmallSquares();
  }

  lemma SmallSquares()
    ensures Times(1 as real, 1 as real) == 1.0 && Times(2 as real, 2 as real) == 4.0
  {
  }

  /**
   * With the threshold 1.0 that the grid engine passes: the samples of the dim spot at the start lie below it,
   * those of the spot twice as bright do not.
   */
  lemma {:induction false} BrightnessMatters(c: Config, root: real -> real)
    requires IsRoot(root) && ConfigValid(c) && c.subsetRadius == 2 && c.minimumTextureEnergy == 1.0
    ensures BrighterBy(Spot(1), Spot(2), 2.0, 0.0)
    ensures Refine(Spot(2), Spot(2), 3, 3, 0.0, 0.0, c, root) != Refine(Spot(2), Spot(1), 3, 3, 0.0, 0.0, c, root)
  {
    hide *;
    SpotEnergies();
    SpotBrighter();
    SpotStarts(c, root);
    RefineBrighter(Spot(2), Spot(1), Spot(2), 3, 3, 0.0, 0.0, c, 2.0, 0.0, root);
  }

  lemma SpotStarts(c: Config, root: real -> real)
    requires IsRoot(root) && ConfigValid(c) && c.subsetRadius == 2 && c.minimumTextureEnergy == 1.0
    requires SpotEnergy(1) == 0.96 && SpotEnergy(2) == 3.84
    ensures ConfigValid(c) && Iterates(Spot(2), Spot(1), 3, 3, c)
    ensures !NoCrossing(SetupOf(Spot(2), 3, 3, c, root), Spot(1), 0.0, 0.0, 0, 2.0, root)
  {
    SpotIterates(c);
    var s := SetupOf(Spot(2), 3, 3, c, root);
    assert s.left == 1 && s.top == 1 && s.side == 5 && s.config == c;
    assert c.maxIterations >= 1;
    hide *;
    SpotSamples(s);
    RunUnfolds(s, Spot(1), 0.0, 0.0, 0, UNREFINED, 2.0, root);
    SpotCrosses();
  }

  lemma SpotIterates(c: Config)
    requires ConfigValid(c) && c.subsetRadius == 2 && c.minimumTextureEnergy == 1.0 && SpotEnergy(2) == 3.84
    ensures SubsetInside(Spot(2), 3, 3, 2) && Iterates(Spot(2), Spot(1), 3, 3, c)
  {
    hide Dot;
    hide Centred;
    hide Window;
  }

  lemma SpotSamples(s: Setup)
    requires s.left == 1 && s.top == 1 && s.side == 5
    ensures var samples := SamplesAt(s, Spot(1), 0.0, 0.0);
            samples.Some? && |samples.value| == 25 && TextureEnergy(samples.value) == SpotEnergy(1)
  {
    WindowOfPixels(Spot(1), 1, 1, 5, 5);
    hide Dot;
    hide Centred;
    hide Rows;
    hide SampleRows;
    hide Times;
  }

  lemma SpotCrosses()
    ensures !SameSide(0.96, 2.0, 1.0)
  {
  }
}
