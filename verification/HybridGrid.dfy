/** The grid engine: integer search and refinement at every grid point, and the strains on its grid. */
module HybridGrid {
  import opened Outcomes
  import opened Bytes
  import opened ResultPacket
  import opened Frames
  import opened Correlation
  import opened StrainGrid
  import opened StrainLaws
  import Zncc
  import Subpixel
  import SubpixelRefinement

  datatype Config = Config(
      subsetRadius: int, gridStep: int, searchRadius: int, maxIterations: int, tolerance: real, threshold: real)

  predicate ConfigValid(c: Config) {
    && c.subsetRadius >= 2 && c.gridStep >= 1 && c.searchRadius >= 0 && c.maxIterations >= 1 && c.tolerance > 0.0
    && -1.0 <= c.threshold <= 1.0
  }

  function Margin(c: Config): int { c.subsetRadius + c.searchRadius + 1 }

  function Refinement(c: Config): Subpixel.Config { Subpixel.Config(c.subsetRadius, c.maxIterations, c.tolerance, 1.0) }

  // The grid.

  /** How many grid lines start at `from` or after it. */
  function Ticks(from: int, margin: int, size: int, step: int): (n: nat)
    requires step >= 1
    decreases size - margin - from
  {
    if from + margin < size then 1 + Ticks(from + step, margin, size, step) else 0
  }

  function GridRow(x: int, y: int, step: int, n: nat): (row: seq<Coordinates>)
    ensures |row| == n
  {
    if n == 0 then [] else GridRow(x, y, step, n - 1) + [Coordinates.At(x + (n - 1) * step, y)]
  }

  function Grid(x: int, y: int, step: int, columns: nat, rows: nat): (grid: seq<Coordinates>)
    ensures |grid| == rows * columns
  {
    if rows == 0 then [] else Grid(x, y, step, columns, rows - 1) + GridRow(x, y + (rows - 1) * step, step, columns)
  }

  lemma {:induction false} GridRowAt(x: int, y: int, step: int, n: nat, c: nat)
    requires c < n
    ensures GridRow(x, y, step, n)[c] == Coordinates.At(x + c * step, y)
  {
    if c < n - 1 {
      GridRowAt(x, y, step, n - 1, c);
    }
  }

  lemma {:induction false} GridAt(x: int, y: int, step: int, columns: nat, rows: nat, r: nat, c: nat)
    requires r < rows && c < columns
    ensures r * columns + c < rows * columns
    ensures Grid(x, y, step, columns, rows)[r * columns + c] == Coordinates.At(x + c * step, y + r * step)
  {
    RowFits(r, c, rows, columns);
    if r < rows - 1 {
      RowFits(r, c, rows - 1, columns);
      GridAt(x, y, step, columns, rows - 1, r, c);
    } else {
      GridRowAt(x, y + r * step, step, columns, c);
    }
  }

  lemma {:induction false} TicksExactly(from: int, margin: int, size: int, step: int, n: nat)
    requires step >= 1
    ensures n < Ticks(from, margin, size, step) <==> from + n * step + margin < size
    decreases n
  {
    if n > 0 {
      TicksExactly(from + step, margin, size, step, n - 1);
      assert from + n * step == from + step + (n - 1) * step;
      if from + margin >= size {
        assert (n - 1) * step >= 0;
      }
    }
  }

  /** A position is on the grid exactly if it is whole steps behind the margin and inside the far margin. */
  lemma {:induction false} GridExactly(margin: int, step: int, width: int, height: int, x: int, y: int)
    requires step >= 1
    ensures Coordinates.At(x, y) in
              Grid(margin, margin, step, Ticks(margin, margin, width, step), Ticks(margin, margin, height, step))
            <==>
              && x + margin < width && (exists c: nat :: Line(margin, c, step) == x)
              && y + margin < height && (exists r: nat :: Line(margin, r, step) == y)
  {
    hide *;
    var columns, rows := Ticks(margin, margin, width, step), Ticks(margin, margin, height, step);
    if Coordinates.At(x, y) in Grid(margin, margin, step, columns, rows) {
      var c, r := LinesOf(margin, step, width, height, x, y);
    }
    if c: nat, r: nat :| Line(margin, c, step) == x && Line(margin, r, step) == y {
      if x + margin < width && y + margin < height {
        LinesMeet(margin, step, width, height, c, r);
      }
    }
  }

  lemma LinesOf(margin: int, step: int, width: int, height: int, x: int, y: int) returns (c: nat, r: nat)
    requires step >= 1
    requires Coordinates.At(x, y) in
               Grid(margin, margin, step, Ticks(margin, margin, width, step), Ticks(margin, margin, height, step))
    ensures Line(margin, c, step) == x && Line(margin, r, step) == y && x + margin < width && y + margin < height
  {
    hide *;
    var columns, rows := Ticks(margin, margin, width, step), Ticks(margin, margin, height, step);
    var grid := Grid(margin, margin, step, columns, rows);
    var i :| 0 <= i < |grid| && grid[i] == Coordinates.At(x, y);
    r, c := RowAndColumn(i, rows, columns);
    GridAt(margin, margin, step, columns, rows, r, c);
    TicksExactly(margin, margin, width, step, c);
    TicksExactly(margin, margin, height, step, r);
    LineIs(margin, c, step);
    LineIs(margin, r, step);
  }

  lemma LinesMeet(margin: int, step: int, width: int, height: int, c: nat, r: nat)
    requires step >= 1 && Line(margin, c, step) + margin < width && Line(margin, r, step) + margin < height
    ensures Coordinates.At(Line(margin, c, step), Line(margin, r, step)) in
              Grid(margin, margin, step, Ticks(margin, margin, width, step), Ticks(margin, margin, height, step))
  {
    hide *;
    LineIs(margin, c, step);
    LineIs(margin, r, step);
    TicksExactly(margin, margin, width, step, c);
    TicksExactly(margin, margin, height, step, r);
    var columns, rows := Ticks(margin, margin, width, step), Ticks(margin, margin, height, step);
    GridAt(margin, margin, step, columns, rows, r, c);
    assert Grid(margin, margin, step, columns, rows)[r * columns + c]
           in Grid(margin, margin, step, columns, rows);
  }

  lemma LineIs(margin: int, n: nat, step: int)
    ensures Line(margin, n, step) == margin + n * step
  {
  }

  lemma RowAndColumn(i: nat, rows: nat, columns: nat) returns (r: nat, c: nat)
    requires i < rows * columns
    ensures r < rows && c < columns && i == r * columns + c
  {
    r, c := i / columns, i % columns;
    assert i == r * columns + c;
    NextMultiple(rows, r, columns);
  }

  lemma SameMultiple(a: int, b: int, step: int)
    requires step >= 1 && a * step == b * step
    ensures a == b
  {
    assert (a - b) * step == 0;
  }

  /** On a grid a neighbour is found by row and column arithmetic, and nowhere else. */
  lemma {:induction false} NeighbourIsNextIndex(
      x: int, y: int, step: int, columns: nat, rows: nat, r: nat, c: nat, k: nat)
    requires step >= 1 && r < rows && c < columns && k < 9
    ensures r * columns + c < rows * columns
    ensures var row, column := r + Row(k), c + Column(k);
            Cell(Grid(x, y, step, columns, rows), step, r * columns + c, k)
            == if k != 4 && 0 <= row < rows && 0 <= column < columns then Some(row * columns + column) else None
  {
    hide *;
    var row, column := r + Row(k), c + Column(k);
    GridAt(x, y, step, columns, rows, r, c);
    CellIs(Grid(x, y, step, columns, rows), step, r * columns + c, k, Column(k), Row(k));
    OneStep(x, c, Column(k), step);
    OneStep(y, r, Row(k), step);
    FoundAt(x, y, step, columns, rows, row, column);
  }

  lemma OneStep(x: int, c: int, d: int, step: int)
    ensures x + c * step + d * step == x + (c + d) * step
  {
  }

  lemma FoundAt(x: int, y: int, step: int, columns: nat, rows: nat, row: int, column: int)
    requires step >= 1
    ensures First(Grid(x, y, step, columns, rows), x + column * step, y + row * step)
            == if 0 <= row < rows && 0 <= column < columns then Some(row * columns + column) else None
  {
    hide *;
    var grid := Grid(x, y, step, columns, rows);
    var found := First(grid, x + column * step, y + row * step);
    if found.Some? {
      var foundRow, foundColumn := RowAndColumn(found.value, rows, columns);
      GridAt(x, y, step, columns, rows, foundRow, foundColumn);
      SameMultiple(foundColumn, column, step);
      SameMultiple(foundRow, row, step);
    } else if 0 <= row < rows && 0 <= column < columns {
      GridAt(x, y, step, columns, rows, row, column);
    }
  }

  // Strains on the grid.

  lemma {:induction false} CellCounts(points: seq<GridPoint>, step: int, i: nat, k: nat, cell: nat)
    requires i < |points| && Usable(points[i]) && cell < k
    requires var f := Cell(CoordinatesOf(points), step, i, cell); f.Some? && Usable(points[f.value])
    ensures cell in SampleCells(points, step, i, k)
  {
    hide Cell;
    if cell < k - 1 {
      CellCounts(points, step, i, k - 1, cell);
    }
  }

  lemma ThreeCells(cells: seq<nat>, a: nat, b: nat, c: nat)
    requires a in cells && b in cells && c in cells && a != b && a != c && b != c
    ensures |cells| >= 3
  {
    var i :| 0 <= i < |cells| && cells[i] == a;
    var j :| 0 <= j < |cells| && cells[j] == b;
    var l :| 0 <= l < |cells| && cells[l] == c;
  }

  function Towards(i: nat, n: nat): int { if i + 1 < n then 1 else -1 }

  lemma TowardsInside(i: nat, n: nat)
    requires i < n && n >= 2
    ensures 0 <= i + Towards(i, n) < n && (Towards(i, n) == 1 || Towards(i, n) == -1)
  {
  }

  lemma StrainIs(points: seq<GridPoint>, step: int, i: nat)
    requires i < |points|
    ensures Applied(points, step)[i].strain == Fitted(points, step, i)
  {
    hide Fitted;
  }

  lemma CellsOfSamples(points: seq<GridPoint>, step: int, i: nat)
    requires i < |points| && Usable(points[i])
    ensures |SampleCells(points, step, i, 9)| == |Samples(points, step, i, 9)|
  {
    SamplesFromCells(points, step, i, 9);
    hide SampleCells;
    hide Samples;
  }

  /** A grid of at least two rows and two columns on which every point is valid gets a strain everywhere. */
  lemma {:induction false} AllValidAllStrained(
      points: seq<GridPoint>, x: int, y: int, step: int, columns: nat, rows: nat, i: nat)
    requires step >= 1 && columns >= 2 && rows >= 2 && i < |points|
    requires CoordinatesOf(points) == Grid(x, y, step, columns, rows)
    requires forall j :: 0 <= j < |points| ==> Usable(points[j])
    ensures Applied(points, step)[i].strain.valid
  {
    hide *;
    var r, c := RowAndColumn(i, rows, columns);
    var dr, dc := Towards(r, rows), Towards(c, columns);
    TowardsInside(r, rows);
    TowardsInside(c, columns);
    NeighbourCounts(points, x, y, step, columns, rows, r, c, 0, dc);
    NeighbourCounts(points, x, y, step, columns, rows, r, c, dr, 0);
    NeighbourCounts(points, x, y, step, columns, rows, r, c, dr, dc);
    ThreeCells(SampleCells(points, step, i, 9), 3 + dc + 1, 3 * (dr + 1) + 1, 3 * (dr + 1) + dc + 1);
    StrainIs(points, step, i);
    CellsOfSamples(points, step, i);
    ValidExactly(points, step, i);
  }

  /** A neighbour in the grid enters the fit. */
  lemma NeighbourCounts(
      points: seq<GridPoint>, x: int, y: int, step: int, columns: nat, rows: nat, r: nat, c: nat, dr: int, dc: int)
    requires step >= 1 && CoordinatesOf(points) == Grid(x, y, step, columns, rows)
    requires forall j :: 0 <= j < |points| ==> Usable(points[j])
    requires r < rows && c < columns && 0 <= r + dr < rows && 0 <= c + dc < columns
    requires -1 <= dr <= 1 && -1 <= dc <= 1 && (dr != 0 || dc != 0)
    ensures r * columns + c < |points| && Usable(points[r * columns + c])
    ensures 3 * (dr + 1) + dc + 1 in SampleCells(points, step, r * columns + c, 9)
  {
    hide *;
    var k := 3 * (dr + 1) + dc + 1;
    CellNumber(dc, dr);
    NeighbourIsNextIndex(x, y, step, columns, rows, r, c, k);
    SameLength(points);
    CellCounts(points, step, r * columns + c, 9, k);
  }

  lemma SameLength(points: seq<GridPoint>)
    ensures |CoordinatesOf(points)| == |points|
  {
  }

  // The engine.

  function SearchAt(reference: Frame, deformed: Frame, c: Config, x: int, y: int): Zncc.Search {
    Zncc.Search(reference, deformed, x, y, c.subsetRadius, c.searchRadius)
  }

  predicate OnGrid(f: Frame, c: Config, x: int, y: int) {
    Margin(c) <= x && Margin(c) <= y && x + Margin(c) < ToSigned(f.width) && y + Margin(c) < ToSigned(f.height)
  }

  /** Away from the margin neither the search nor the refinement throws. */
  lemma {:induction false} MarginSuffices(reference: Frame, deformed: Frame, c: Config, x: int, y: int)
    requires ConfigValid(c) && OnGrid(reference, c, x, y)
    requires WellFormed(reference) && WellFormed(deformed)
    requires reference.width == deformed.width && reference.height == deformed.height
    ensures var s := SearchAt(reference, deformed, c, x, y); Zncc.Comparable(s) && Zncc.SameSize(s) && Zncc.Fits(s)
    ensures Subpixel.ConfigValid(Refinement(c)) && Subpixel.SubsetInside(reference, x, y, c.subsetRadius)
  {
  }

  /** The point comes from the best integer shift and the refinement that starts there. */
  ghost predicate Measured(reference: Frame, deformed: Frame, c: Config, p: GridPoint, root: real -> real)
    requires WellFormed(reference) && WellFormed(deformed) && IsRoot(root)
  {
    && ConfigValid(c) && OnGrid(reference, c, p.x, p.y)
    && reference.width == deformed.width && reference.height == deformed.height
    && exists best: Zncc.Translation, r: Subpixel.Refined ::
         && (MarginSuffices(reference, deformed, c, p.x, p.y);
             Zncc.FirstBest(SearchAt(reference, deformed, c, p.x, p.y), root, best,
                            -c.searchRadius, c.searchRadius + 1))
         && Subpixel.Refine(reference, deformed, p.x, p.y, best.dx as real, best.dy as real, Refinement(c), root)
               == Done(r)
         && p.u == Finite(r.u) && p.v == Finite(r.v) && p.strain == NO_STRAIN
         && (p.valid <==> r.valid && r.converged && r.zncc >= c.threshold)
  }

  ghost predicate AllMeasured(reference: Frame, deformed: Frame, c: Config, points: seq<GridPoint>, root: real -> real)
    requires WellFormed(reference) && WellFormed(deformed) && IsRoot(root)
  {
    forall i :: 0 <= i < |points| ==> Measured(reference, deformed, c, points[i], root)
  }

  lemma NothingMeasured(reference: Frame, deformed: Frame, c: Config, root: real -> real)
    requires WellFormed(reference) && WellFormed(deformed) && IsRoot(root)
    ensures AllMeasured(reference, deformed, c, [], root)
  {
  }

  lemma RefineReturns(
      reference: Frame, deformed: Frame, x: int, y: int, u: real, v: real, c: Subpixel.Config, root: real -> real)
    requires WellFormed(reference) && WellFormed(deformed) && IsRoot(root) && Subpixel.ConfigValid(c)
    requires reference.width == deformed.width && reference.height == deformed.height
    requires Subpixel.SubsetInside(reference, x, y, c.subsetRadius)
    ensures Subpixel.Refine(reference, deformed, x, y, u, v, c, root).Done?
  {
    hide Subpixel.Reference;
    hide Subpixel.Run;
    hide Subpixel.SetupOf;
    hide Dot;
    hide IsRoot;
  }

  lemma IsMeasured(
      reference: Frame, deformed: Frame, c: Config, p: GridPoint, best: Zncc.Translation, r: Subpixel.Refined,
      root: real -> real)
    requires WellFormed(reference) && WellFormed(deformed) && IsRoot(root) && ConfigValid(c)
    requires OnGrid(reference, c, p.x, p.y)
    requires reference.width == deformed.width && reference.height == deformed.height
    requires (MarginSuffices(reference, deformed, c, p.x, p.y);
              Zncc.FirstBest(SearchAt(reference, deformed, c, p.x, p.y), root, best,
                             -c.searchRadius, c.searchRadius + 1))
    requires Subpixel.Refine(reference, deformed, p.x, p.y, best.dx as real, best.dy as real, Refinement(c), root)
             == Done(r)
    requires p.u == Finite(r.u) && p.v == Finite(r.v) && p.strain == NO_STRAIN
    requires p.valid <==> r.valid && r.converged && r.zncc >= c.threshold
    ensures Measured(reference, deformed, c, p, root)
  {
    hide IsRoot;
    hide Zncc.FirstBest;
    hide Subpixel.Refine;
    hide Refinement;
  }

  method Measure(reference: Frame, deformed: Frame, c: Config, x: Int32, y: Int32, root: real -> real)
    returns (p: GridPoint)
    requires WellFormed(reference) && WellFormed(deformed) && IsRoot(root) && ConfigValid(c)
    requires OnGrid(reference, c, x, y)
    requires reference.width == deformed.width && reference.height == deformed.height
    ensures p.x == x && p.y == y && Measured(reference, deformed, c, p, root)
  {
    MarginSuffices(reference, deformed, c, x, y);
    hide Zncc.FirstBest;
    hide Subpixel.Refine;
    hide IsRoot;
    hide Measured;
    var best := Zncc.FindIntegerTranslation(SearchAt(reference, deformed, c, x, y), root);
    var refined := SubpixelRefinement.RefineTranslation(
      reference, deformed, x, y, best.value.dx as real, best.value.dy as real, Refinement(c), root);
    RefineReturns(reference, deformed, x, y, best.value.dx as real, best.value.dy as real, Refinement(c), root);
    var r := refined.value;
    p := GridPoint(x, y, Finite(r.u), Finite(r.v), r.valid && r.converged && r.zncc >= c.threshold, NO_STRAIN);
    IsMeasured(reference, deformed, c, p, best.value, r, root);
  }

  /** The grid in raster order; every point is measured. The loops compare with the frame size as an int. */
  method Process(reference: Frame, deformed: Frame, c: Config, root: real -> real) returns (o: Outcome<seq<GridPoint>>)
    requires WellFormed(reference) && WellFormed(deformed) && IsRoot(root) && ConfigValid(c)
    ensures reference.width != deformed.width || reference.height != deformed.height <==> o.Threw?
    ensures o.Threw? ==> o == Threw(DimensionsDiffer)
    ensures o.Done? ==>
              var m := c.subsetRadius + c.searchRadius + 1;
              CoordinatesOf(o.value)
              == Grid(m, m, c.gridStep, Ticks(m, m, ToSigned(reference.width), c.gridStep),
                      Ticks(m, m, ToSigned(reference.height), c.gridStep))
    ensures o.Done? ==> AllMeasured(reference, deformed, c, o.value, root)
  {
    hide *;
    if reference.width != deformed.width || reference.height != deformed.height {
      return Threw(DimensionsDiffer);
    }
    ConfigFacts(c);
    var margin := c.subsetRadius + c.searchRadius + 1;
    ghost var columns := Ticks(margin, margin, ToSigned(reference.width), c.gridStep);
    ghost var rows := 0;
    var points: seq<GridPoint> := [];
    NoGrid(margin, margin, c.gridStep, columns);
    NothingMeasured(reference, deformed, c, root);
    NextLine(margin, 0, c.gridStep);
    var y := margin;
    while y + margin < ToSigned(reference.height)
      invariant margin <= y && y == Line(margin, rows, c.gridStep)
      invariant c.gridStep >= 1
      invariant rows + Ticks(y, margin, ToSigned(reference.height), c.gridStep)
                == Ticks(margin, margin, ToSigned(reference.height), c.gridStep)
      invariant CoordinatesOf(points) == Grid(margin, margin, c.gridStep, columns, rows)
      invariant AllMeasured(reference, deformed, c, points, root)
      decreases ToSigned(reference.height) - y
    {
      TicksUnfold(y, margin, ToSigned(reference.height), c.gridStep);
      GridGrows(margin, margin, c.gridStep, columns, rows);
      points := ProcessRow(reference, deformed, c, y, points, columns, root);
      NextLine(margin, rows, c.gridStep);
      rows := rows + 1;
      y := y + c.gridStep;
    }
    TicksUnfold(y, margin, ToSigned(reference.height), c.gridStep);
    return Done(points);
  }

  lemma ConfigFacts(c: Config)
    requires ConfigValid(c)
    ensures c.gridStep >= 1 && Margin(c) == c.subsetRadius + c.searchRadius + 1 >= 3
  {
  }

  lemma TicksUnfold(from: int, margin: int, size: int, step: int)
    requires step >= 1
    ensures Ticks(from, margin, size, step)
            == if from + margin < size then 1 + Ticks(from + step, margin, size, step) else 0
  {
  }

  lemma GridGrows(x: int, y: int, step: int, columns: nat, rows: nat)
    ensures Grid(x, y, step, columns, rows + 1)
            == Grid(x, y, step, columns, rows) + GridRow(x, Line(y, rows, step), step, columns)
  {
    hide GridRow;
  }

  lemma NoGrid(x: int, y: int, step: int, columns: nat)
    ensures Grid(x, y, step, columns, 0) == CoordinatesOf([]) == []
  {
  }

  /** Where grid line n lies. */
  function Line(margin: int, n: nat, step: int): int { margin + n * step }

  lemma NextLine(margin: int, n: nat, step: int)
    ensures Line(margin, n + 1, step) == Line(margin, n, step) + step && Line(margin, 0, step) == margin
  {
  }

  method ProcessRow(
      reference: Frame, deformed: Frame, c: Config, y: int, before: seq<GridPoint>, ghost columns: nat,
      root: real -> real)
    returns (points: seq<GridPoint>)
    requires WellFormed(reference) && WellFormed(deformed) && IsRoot(root) && ConfigValid(c)
    requires reference.width == deformed.width && reference.height == deformed.height
    requires Margin(c) <= y && y + Margin(c) < ToSigned(reference.height)
    requires columns == Ticks(Margin(c), Margin(c), ToSigned(reference.width), c.gridStep)
    requires AllMeasured(reference, deformed, c, before, root)
    ensures CoordinatesOf(points) == CoordinatesOf(before) + GridRow(Margin(c), y, c.gridStep, columns)
    ensures AllMeasured(reference, deformed, c, points, root)
  {
    hide *;
    ConfigFacts(c);
    var margin := c.subsetRadius + c.searchRadius + 1;
    ghost var n := 0;
    NextLine(margin, 0, c.gridStep);
    NoRow(margin, y, c.gridStep);
    points := before;
    var x := margin;
    while x + margin < ToSigned(reference.width)
      invariant margin <= x && x == Line(margin, n, c.gridStep)
      invariant c.gridStep >= 1
      invariant n + Ticks(x, margin, ToSigned(reference.width), c.gridStep) == columns
      invariant CoordinatesOf(points) == CoordinatesOf(before) + GridRow(margin, y, c.gridStep, n)
      invariant AllMeasured(reference, deformed, c, points, root)
      decreases ToSigned(reference.width) - x
    {
      TicksUnfold(x, margin, ToSigned(reference.width), c.gridStep);
      PointOnGrid(reference, c, x, y);
      var p := Measure(reference, deformed, c, x, y, root);
      PointAppends(points, p);
      RowGrows(margin, y, c.gridStep, n);
      MeasuredAppends(reference, deformed, c, points, p, root);
      NextLine(margin, n, c.gridStep);
      points := points + [p];
      n := n + 1;
      x := x + c.gridStep;
    }
    TicksUnfold(x, margin, ToSigned(reference.width), c.gridStep);
  }

  lemma PointOnGrid(f: Frame, c: Config, x: int, y: int)
    requires Margin(c) <= x && x + Margin(c) < ToSigned(f.width) && Margin(c) <= y && y + Margin(c) < ToSigned(f.height)
    ensures OnGrid(f, c, x, y)
  {
  }

  lemma NoRow(x: int, y: int, step: int)
    ensures GridRow(x, y, step, 0) == []
  {
  }

  lemma RowGrows(x: int, y: int, step: int, n: nat)
    ensures GridRow(x, y, step, n + 1) == GridRow(x, y, step, n) + [Coordinates.At(Line(x, n, step), y)]
  {
  }

  lemma MeasuredAppends(
      reference: Frame, deformed: Frame, c: Config, points: seq<GridPoint>, p: GridPoint, root: real -> real)
    requires WellFormed(reference) && WellFormed(deformed) && IsRoot(root)
    requires AllMeasured(reference, deformed, c, points, root) && Measured(reference, deformed, c, p, root)
    ensures AllMeasured(reference, deformed, c, points + [p], root)
  {
    hide Measured;
  }

  lemma PointAppends(points: seq<GridPoint>, p: GridPoint)
    ensures CoordinatesOf(points + [p]) == CoordinatesOf(points) + [Coordinates.At(p.x, p.y)]
  {
  }
}
