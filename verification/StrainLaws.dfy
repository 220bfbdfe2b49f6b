/** What the strains on a grid mean. */
module StrainLaws {
  import opened ResultPacket
  import opened Outcomes
  import opened Reals
  import opened StrainFit
  import opened StrainGrid

  // Three neighbours determine the gradient: the determinant is at least the fourth power of the grid step.

  lemma DeterminantGrows(s: Sums, v: Sample)
    ensures Determinant(AddSample(s, v)) == Determinant(s) + Excess(s, v.dy, -v.dx)
  {
    var x, y := v.dx, v.dy;
    GrownProduct(s.xx, s.yy, Times(x, x), Times(y, y));
    GrownProduct(s.xy, s.xy, Times(x, y), Times(x, y));
    SquareIsTimes(y);
    SquareIsTimes(-x);
    FourFactors(x, y);
    Signs(x, y, s.xx, s.yy, s.xy);
    hide Times;
    hide Square;
  }

  lemma GrownProduct(a: real, b: real, c: real, d: real)
    ensures Times(a + c, b + d) == Times(a, b) + Times(a, d) + Times(c, b) + Times(c, d)
  {
  }

  lemma FourFactors(x: real, y: real)
    ensures Times(Times(x, x), Times(y, y)) == Times(Times(x, y), Times(x, y))
  {
  }

  lemma Signs(x: real, y: real, xx: real, yy: real, xy: real)
    ensures Times(Times(-x, -x), yy) == Times(Times(x, x), yy) && Times(Times(y, -x), xy) == -Times(Times(x, y), xy)
    ensures Times(xx, Times(y, y)) == Times(Times(y, y), xx) && Times(xy, Times(x, y)) == Times(Times(x, y), xy)
  {
  }

  lemma LastSample(samples: seq<Sample>)
    requires samples != []
    ensures SumsOf(samples) == AddSample(SumsOf(samples[..|samples| - 1]), samples[|samples| - 1])
  {
    hide AddSample;
  }

  lemma NoSamples()
    ensures Determinant(SumsOf([])) == 0.0
  {
  }

  lemma {:induction false} ExcessBound(samples: seq<Sample>, i: nat, h: real, k: real)
    requires i < |samples|
    ensures Excess(SumsOf(samples), h, k) >= Part(samples[i], h, k)
  {
    hide *;
    var n := |samples| - 1;
    LastSample(samples);
    ExcessGrows(SumsOf(samples[..n]), samples[n], h, k);
    if i < n {
      ExcessBound(samples[..n], i, h, k);
    } else {
      ExcessNotNegative(samples[..n], h, k);
    }
  }

  lemma {:induction false} DeterminantNotNegative(samples: seq<Sample>)
    ensures Determinant(SumsOf(samples)) >= 0.0
  {
    hide *;
    if samples == [] {
      NoSamples();
    } else {
      var n := |samples| - 1;
      LastSample(samples);
      DeterminantNotNegative(samples[..n]);
      DeterminantGrows(SumsOf(samples[..n]), samples[n]);
      ExcessNotNegative(samples[..n], samples[n].dy, -samples[n].dx);
    }
  }

  function Cross(a: Sample, b: Sample): real { Plane(b.dy, -b.dx, a) }

  lemma {:induction false} CrossBound(samples: seq<Sample>, i: nat, j: nat)
    requires i < j < |samples|
    ensures Determinant(SumsOf(samples)) >= Square(Cross(samples[i], samples[j]))
  {
    var n := |samples| - 1;
    var before, v := samples[..n], samples[n];
    CrossIs(samples[i], samples[j]);
    hide *;
    LastSample(samples);
    DeterminantGrows(SumsOf(before), v);
    if j < n {
      CrossBound(before, i, j);
      ExcessNotNegative(before, v.dy, -v.dx);
    } else {
      ExcessBound(before, i, v.dy, -v.dx);
      DeterminantNotNegative(before);
    }
  }

  lemma CrossIs(a: Sample, b: Sample)
    ensures Square(Cross(a, b)) == Part(a, b.dy, -b.dx)
  {
  }

  /** The cells whose points enter the fit, in order. */
  function SampleCells(points: seq<GridPoint>, step: int, i: nat, k: nat): seq<nat>
    requires i < |points| && Usable(points[i])
  {
    if k == 0 then []
    else
      var cell := Cell(CoordinatesOf(points), step, i, k - 1);
      SampleCells(points, step, i, k - 1) + if cell.Some? && Usable(points[cell.value]) then [k - 1] else []
  }

  ghost predicate FromCells(samples: seq<Sample>, cells: seq<nat>, step: int, k: nat) {
    && |cells| == |samples|
    && (forall j :: 0 <= j < |cells| ==>
          && cells[j] < k && cells[j] != 4
          && samples[j].dx == (Column(cells[j]) * step) as real && samples[j].dy == (Row(cells[j]) * step) as real)
    && forall j, l :: 0 <= j < l < |cells| ==> cells[j] < cells[l]
  }

  lemma {:induction false} SamplesFromCells(points: seq<GridPoint>, step: int, i: nat, k: nat)
    requires i < |points| && Usable(points[i])
    ensures FromCells(Samples(points, step, i, k), SampleCells(points, step, i, k), step, k)
  {
    if k > 0 {
      SamplesFromCells(points, step, i, k - 1);
      var cell := Cell(CoordinatesOf(points), step, i, k - 1);
      if cell.Some? {
        assert CoordinatesOf(points)[cell.value]
               == At(points[i].x + Column(k - 1) * step, points[i].y + Row(k - 1) * step);
      }
      hide Column;
      hide Row;
      hide Cell;
    }
  }

  /** Of the eight cells only opposite ones lie on a line with the centre. */
  lemma NotParallel(a: nat, b: nat)
    requires a < b < 9 && a != 4 && b != 4 && a + b != 8
    ensures var c := Row(b) * Column(a) - Column(b) * Row(a); c >= 1 || c <= -1
  {
    if a == 0 {
    } else if a == 1 {
    } else if a == 2 {
    } else if a == 3 {
    } else {
    }
  }

  function Fourth(step: int): real { (step * step * (step * step)) as real }

  lemma CrossOfCells(a: nat, b: nat, p: Sample, q: Sample, step: int)
    requires a < b < 9 && a != 4 && b != 4 && a + b != 8 && step >= 1
    requires p.dx == (Column(a) * step) as real && p.dy == (Row(a) * step) as real
    requires q.dx == (Column(b) * step) as real && q.dy == (Row(b) * step) as real
    ensures Square(Cross(p, q)) >= Fourth(step)
  {
    NotParallel(a, b);
    var c := Row(b) * Column(a) - Column(b) * Row(a);
    CrossIsInteger(Row(b), Column(a), Column(b), Row(a), step);
    assert Cross(p, q) == (c * (step * step)) as real;
    hide Times;
    hide Cross;
    SquareOfInteger(c, step * step);
  }

  lemma CrossIsInteger(rb: int, ca: int, cb: int, ra: int, step: int)
    ensures Times((rb * step) as real, (ca * step) as real) + Times(-((cb * step) as real), (ra * step) as real)
            == ((rb * ca - cb * ra) * (step * step)) as real
  {
    assert (rb * step) * (ca * step) - (cb * step) * (ra * step) == (rb * ca - cb * ra) * (step * step);
  }

  lemma SquareOfInteger(c: int, n: int)
    requires (c >= 1 || c <= -1) && n >= 0
    ensures Square((c * n) as real) >= (n * n) as real
  {
    assert (c * n) * (c * n) == (c * c) * (n * n);
    assert c * c >= 1;
    assert (c * c) * (n * n) >= n * n;
    assert (c * n) as real * (c * n) as real == ((c * n) * (c * n)) as real;
  }

  lemma {:induction false} DeterminantBound(points: seq<GridPoint>, step: int, i: nat)
    requires i < |points| && Usable(points[i]) && step >= 1
    ensures var samples := Samples(points, step, i, 9);
            |samples| >= 3 ==> Determinant(SumsOf(samples)) >= Fourth(step) >= 1.0
  {
    hide *;
    var samples, cells := Samples(points, step, i, 9), SampleCells(points, step, i, 9);
    SamplesFromCells(points, step, i, 9);
    FourthIsLarge(step);
    if |samples| >= 3 {
      PairNotParallel(samples, cells, step);
    }
  }

  lemma FourthIsLarge(step: int)
    requires step >= 1
    ensures Fourth(step) >= 1.0
  {
    assert step * step >= 1;
    assert step * step * (step * step) >= 1;
  }

  lemma PairNotParallel(samples: seq<Sample>, cells: seq<nat>, step: int)
    requires FromCells(samples, cells, step, 9) && |samples| >= 3 && step >= 1
    ensures Determinant(SumsOf(samples)) >= Fourth(step)
  {
    hide Determinant;
    hide SumsOf;
    hide Fourth;
    hide Square;
    hide Cross;
    hide Column;
    hide Row;
    if cells[0] + cells[1] != 8 {
      CrossOfCells(cells[0], cells[1], samples[0], samples[1], step);
      CrossBound(samples, 0, 1);
    } else {
      CrossOfCells(cells[0], cells[2], samples[0], samples[2], step);
      CrossBound(samples, 0, 2);
    }
  }

  /** The singularity guard never discards a point: a strain is valid exactly with three usable neighbours. */
  lemma {:induction false} ValidExactly(points: seq<GridPoint>, step: int, i: nat)
    requires i < |points| && step >= 1
    ensures Fitted(points, step, i).valid <==> Usable(points[i]) && |Samples(points, step, i, 9)| >= 3
  {
    if Usable(points[i]) {
      DeterminantBound(points, step, i);
      var samples := Samples(points, step, i, 9);
      assert Fitted(points, step, i) == StrainOf(SumsOf(samples), |samples|);
      hide Samples;
      hide SumsOf;
      hide Fourth;
      hide Determinant;
    }
  }

  // The same, said of the points themselves.

  /** The first point at (x, y) is number j. */
  predicate FirstAt(points: seq<GridPoint>, j: nat, x: int, y: int) {
    && j < |points| && points[j].x == x && points[j].y == y
    && forall m: nat :: m < j ==> points[m].x != x || points[m].y != y
  }

  predicate Measured(p: GridPoint) { p.valid && p.u.Finite? && p.v.Finite? }

  /** In cell k around point i, counted row by row from the upper left, lies a valid point with finite values. */
  ghost predicate Serves(points: seq<GridPoint>, step: int, i: nat, k: nat)
    requires i < |points|
  {
    k < 9 && k != 4
    && exists j: nat ::
         FirstAt(points, j, points[i].x + (k % 3 - 1) * step, points[i].y + (k / 3 - 1) * step) && Measured(points[j])
  }

  lemma {:induction false} FirstIsFirst(c: seq<Coordinates>, x: int, y: int)
    ensures First(c, x, y).Some? ==> forall m :: 0 <= m < First(c, x, y).value ==> c[m] != At(x, y)
  {
    if c != [] {
      FirstIsFirst(c[..|c| - 1], x, y);
    }
  }

  lemma FoundIsFirst(points: seq<GridPoint>, x: int, y: int)
    ensures var found := First(CoordinatesOf(points), x, y);
            if found.Some? then FirstAt(points, found.value, x, y) else forall j: nat :: !FirstAt(points, j, x, y)
  {
    var c := CoordinatesOf(points);
    FirstIsFirst(c, x, y);
    assert forall m: nat :: m < |points| ==> c[m] == At(points[m].x, points[m].y);
    var found := First(c, x, y);
    hide First;
    if found.None? {
      assert At(x, y) !in c;
      forall j: nat | j < |points|
        ensures points[j].x != x || points[j].y != y
      {
        assert c[j] in c;
      }
    } else {
      forall m: nat | m < found.value
        ensures points[m].x != x || points[m].y != y
      {
        assert c[m] != At(x, y);
      }
    }
  }

  lemma OneIsFirst(points: seq<GridPoint>, i: nat, j: nat, x: int, y: int)
    requires FirstAt(points, i, x, y) && FirstAt(points, j, x, y)
    ensures i == j
  {
  }

  lemma CellIsFirst(points: seq<GridPoint>, step: int, i: nat, k: nat)
    requires i < |points|
    ensures Cell(CoordinatesOf(points), step, i, k)
            == if k == 4 then None
               else First(CoordinatesOf(points), points[i].x + (k % 3 - 1) * step, points[i].y + (k / 3 - 1) * step)
  {
    hide First;
  }

  lemma {:induction false} CellServes(points: seq<GridPoint>, step: int, i: nat, k: nat)
    requires i < |points| && k < 9
    ensures var cell := Cell(CoordinatesOf(points), step, i, k);
            cell.Some? && Usable(points[cell.value]) <==> Serves(points, step, i, k)
  {
    var x, y := points[i].x + (k % 3 - 1) * step, points[i].y + (k / 3 - 1) * step;
    CellIsFirst(points, step, i, k);
    FoundIsFirst(points, x, y);
    hide Cell;
    hide First;
    hide FirstAt;
    var found := First(CoordinatesOf(points), x, y);
    if j: nat :| FirstAt(points, j, x, y) {
      OneIsFirst(points, found.value, j, x, y);
    }
    forall j: nat | FirstAt(points, j, x, y)
      ensures found == Some(j)
    {
      OneIsFirst(points, found.value, j, x, y);
    }
  }

  /** The cells below n that serve. */
  ghost function Serving(points: seq<GridPoint>, step: int, i: nat, n: nat): set<nat>
    requires i < |points|
  {
    set k: nat | k < n && Serves(points, step, i, k)
  }

  lemma {:induction false} ServingCount(points: seq<GridPoint>, step: int, i: nat, n: nat)
    requires i < |points| && Usable(points[i]) && n <= 9
    ensures |Serving(points, step, i, n)| == |Samples(points, step, i, n)|
  {
    hide Serves;
    NextSample(points, step, i, n);
    if n == 0 {
      assert Serving(points, step, i, 0) == {};
    } else {
      ServingCount(points, step, i, n - 1);
      CellServes(points, step, i, n - 1);
      var before, all := Serving(points, step, i, n - 1), Serving(points, step, i, n);
      if Serves(points, step, i, n - 1) {
        assert all == before + {n - 1};
      } else {
        assert all == before;
      }
    }
    hide Samples;
    hide Cell;
  }

  /** A strain is valid exactly at a valid point with finite values that has three such neighbours. */
  lemma {:induction false} ValidByCells(points: seq<GridPoint>, step: int, i: nat)
    requires i < |points| && step >= 1
    ensures Fitted(points, step, i).valid <==>
            && points[i].valid && points[i].u.Finite? && points[i].v.Finite?
            && |set k: nat | k < 9 && Serves(points, step, i, k)| >= 3
  {
    ValidExactly(points, step, i);
    if Usable(points[i]) {
      ServingCount(points, step, i, 9);
      assert Serving(points, step, i, 9) == set k: nat | k < 9 && Serves(points, step, i, k);
    }
    hide Samples;
    hide Fitted;
    hide Serves;
  }

  // The two displacement components are fitted alike.

  function Swapped(samples: seq<Sample>): (swapped: seq<Sample>)
    ensures |swapped| == |samples|
  {
    seq(|samples|, i requires 0 <= i < |samples| => Sample(samples[i].dx, samples[i].dy, samples[i].dv, samples[i].du))
  }

  lemma {:induction false} SwappedSums(samples: seq<Sample>)
    ensures var s := SumsOf(samples); SumsOf(Swapped(samples)) == Sums(s.xx, s.xy, s.yy, s.vx, s.vy, s.ux, s.uy)
  {
    if samples != [] {
      var n := |samples| - 1;
      SwappedSums(samples[..n]);
      assert Swapped(samples)[..n] == Swapped(samples[..n]);
      SwappedSample(SumsOf(samples[..n]), samples[n]);
      hide AddSample;
    }
  }

  lemma SwappedSample(s: Sums, v: Sample)
    ensures var a, b :=
            AddSample(s, v), AddSample(Sums(s.xx, s.xy, s.yy, s.vx, s.vy, s.ux, s.uy), Sample(v.dx, v.dy, v.dv, v.du));
            b == Sums(a.xx, a.xy, a.yy, a.vx, a.vy, a.ux, a.uy)
  {
    hide Times;
  }

  /** A valid strain comes from the slopes that fit both displacement components best in the least-squares sense. */
  lemma {:induction false} FitIsLeastSquares(points: seq<GridPoint>, step: int, i: nat, p: real, q: real)
    requires i < |points| && step >= 1 && Fitted(points, step, i).valid
    ensures Usable(points[i]) && Determinant(SumsOf(Samples(points, step, i, 9))) > 0.0
    ensures var samples := Samples(points, step, i, 9);
            var s := SumsOf(samples);
            var ux, uy, vx, vy :=
                SlopeX(s, s.ux, s.uy), SlopeY(s, s.ux, s.uy), SlopeX(s, s.vx, s.vy), SlopeY(s, s.vx, s.vy);
            && Fitted(points, step, i) == Strain(ux, vy, 0.5 * (uy + vx), true)
            && SquaredError(samples, ux, uy) <= SquaredError(samples, p, q)
            && SquaredError(Swapped(samples), vx, vy) <= SquaredError(Swapped(samples), p, q)
  {
    hide *;
    FittedFrom(points, step, i);
    ValidExactly(points, step, i);
    DeterminantBound(points, step, i);
    StrainIsLeastSquares(Samples(points, step, i, 9), p, q);
  }

  lemma FittedFrom(points: seq<GridPoint>, step: int, i: nat)
    requires i < |points|
    ensures Usable(points[i]) ==>
              var samples := Samples(points, step, i, 9);
              Fitted(points, step, i) == StrainOf(SumsOf(samples), |samples|)
  {
    hide Samples;
  }

  lemma StrainIsLeastSquares(samples: seq<Sample>, p: real, q: real)
    requires |samples| >= 3 && Determinant(SumsOf(samples)) >= 1.0
    ensures var s := SumsOf(samples);
            var ux, uy, vx, vy :=
                SlopeX(s, s.ux, s.uy), SlopeY(s, s.ux, s.uy), SlopeX(s, s.vx, s.vy), SlopeY(s, s.vx, s.vy);
            && StrainOf(s, |samples|) == Strain(ux, vy, 0.5 * (uy + vx), true)
            && SquaredError(samples, ux, uy) <= SquaredError(samples, p, q)
            && SquaredError(Swapped(samples), vx, vy) <= SquaredError(Swapped(samples), p, q)
  {
    var s := SumsOf(samples);
    StrainOfSums(s, |samples|);
    hide *;
    SwappedSums(samples);
    LeastSquares(samples, p, q);
    SwappedDeterminant(s);
    SlopesOfSwapped(s);
    LeastSquares(Swapped(samples), p, q);
  }

  lemma StrainOfSums(s: Sums, n: nat)
    requires n >= 3 && Determinant(s) >= 1.0
    ensures StrainOf(s, n)
            == Strain(SlopeX(s, s.ux, s.uy), SlopeY(s, s.vx, s.vy),
                0.5 * (SlopeY(s, s.ux, s.uy) + SlopeX(s, s.vx, s.vy)), true)
  {
    hide Determinant;
    hide SlopeX;
    hide SlopeY;
  }

  // Affine displacement fields.

  /** u = a + p x + q y and v = b + r x + t y at every usable point. */
  ghost predicate Affine(points: seq<GridPoint>, a: real, p: real, q: real, b: real, r: real, t: real) {
    forall j :: 0 <= j < |points| && Usable(points[j]) ==>
      && points[j].u.value == a + Times(p, points[j].x as real) + Times(q, points[j].y as real)
      && points[j].v.value == b + Times(r, points[j].x as real) + Times(t, points[j].y as real)
  }

  lemma DifferenceOfAffine(c: GridPoint, d: GridPoint, a: real, p: real, q: real, b: real, r: real, t: real)
    requires Usable(c) && Usable(d) && Affine([c, d], a, p, q, b, r, t)
    ensures var s := Difference(c, d); s.du == Plane(p, q, s) && s.dv == Plane(r, t, s)
  {
    hide Times;
    var points := [c, d];
    assert points[0] == c && points[1] == d;
    Spread(p, d.x as real, c.x as real);
    Spread(q, d.y as real, c.y as real);
    Spread(r, d.x as real, c.x as real);
    Spread(t, d.y as real, c.y as real);
  }

  lemma {:induction false} SamplesOfAffine(points: seq<GridPoint>, step: int, i: nat, k: nat,
                                           a: real, p: real, q: real, b: real, r: real, t: real)
    requires i < |points| && Usable(points[i]) && Affine(points, a, p, q, b, r, t)
    ensures Linear(Samples(points, step, i, k), p, q) && Linear(Swapped(Samples(points, step, i, k)), r, t)
  {
    hide *;
    NextSample(points, step, i, k);
    if k > 0 {
      SamplesOfAffine(points, step, i, k - 1, a, p, q, b, r, t);
      var cell := Cell(CoordinatesOf(points), step, i, k - 1);
      if cell.Some? && Usable(points[cell.value]) {
        AffinePair(points, i, cell.value, a, p, q, b, r, t);
        DifferenceOfAffine(points[i], points[cell.value], a, p, q, b, r, t);
        LinearAppends(Samples(points, step, i, k - 1), Difference(points[i], points[cell.value]), p, q, r, t);
      }
    } else {
      NothingLinear(p, q, r, t);
    }
  }

  lemma NextSample(points: seq<GridPoint>, step: int, i: nat, k: nat)
    requires i < |points| && Usable(points[i])
    ensures k == 0 ==> Samples(points, step, i, k) == []
    ensures k > 0 ==>
              var cell := Cell(CoordinatesOf(points), step, i, k - 1);
              Samples(points, step, i, k) ==
                if cell.Some? && Usable(points[cell.value])
                then Samples(points, step, i, k - 1) + [Difference(points[i], points[cell.value])]
                else Samples(points, step, i, k - 1)
  {
    hide Cell;
    hide Usable;
    hide Difference;
  }

  lemma NothingLinear(p: real, q: real, r: real, t: real)
    ensures Linear([], p, q) && Linear(Swapped([]), r, t)
  {
  }

  lemma AffinePair(points: seq<GridPoint>, i: nat, j: nat, a: real, p: real, q: real, b: real, r: real, t: real)
    requires i < |points| && j < |points| && Affine(points, a, p, q, b, r, t)
    ensures Affine([points[i], points[j]], a, p, q, b, r, t)
  {
  }

  lemma LinearAppends(samples: seq<Sample>, d: Sample, p: real, q: real, r: real, t: real)
    requires Linear(samples, p, q) && Linear(Swapped(samples), r, t)
    requires d.du == Plane(p, q, d) && d.dv == Plane(r, t, d)
    ensures Linear(samples + [d], p, q) && Linear(Swapped(samples + [d]), r, t)
  {
    assert Swapped(samples + [d]) == Swapped(samples) + [Sample(d.dx, d.dy, d.dv, d.du)];
  }

  /** On an affine displacement field every valid strain is exact. */
  lemma {:induction false} ExactOnAffine(
      points: seq<GridPoint>, step: int, i: nat, a: real, p: real, q: real, b: real, r: real, t: real)
    requires i < |points| && step >= 1 && Fitted(points, step, i).valid && Affine(points, a, p, q, b, r, t)
    ensures Fitted(points, step, i) == Strain(p, t, 0.5 * (q + r), true)
  {
    FitIsLeastSquares(points, step, i, 0.0, 0.0);
    var samples := Samples(points, step, i, 9);
    hide *;
    SamplesOfAffine(points, step, i, 9, a, p, q, b, r, t);
    ExactOnLinear(samples, p, q);
    SwappedSums(samples);
    SwappedDeterminant(SumsOf(samples));
    ExactOnLinear(Swapped(samples), r, t);
    SlopesOfSwapped(SumsOf(samples));
  }

  lemma SwappedDeterminant(s: Sums)
    ensures Determinant(Sums(s.xx, s.xy, s.yy, s.vx, s.vy, s.ux, s.uy)) == Determinant(s)
  {
  }

  lemma SlopesOfSwapped(s: Sums)
    requires Determinant(s) != 0.0 && Determinant(Sums(s.xx, s.xy, s.yy, s.vx, s.vy, s.ux, s.uy)) != 0.0
    ensures var w := Sums(s.xx, s.xy, s.yy, s.vx, s.vy, s.ux, s.uy);
            SlopeX(w, s.vx, s.vy) == SlopeX(s, s.vx, s.vy) && SlopeY(w, s.vx, s.vy) == SlopeY(s, s.vx, s.vy)
  {
  }

  // The order of the points does not matter.

  ghost predicate Distinct(points: seq<GridPoint>) {
    forall i, j :: 0 <= i < j < |points| ==> At(points[i].x, points[i].y) != At(points[j].x, points[j].y)
  }

  ghost predicate SamePoints(a: seq<GridPoint>, b: seq<GridPoint>) { forall p :: p in a <==> p in b }

  lemma SameCell(a: seq<GridPoint>, b: seq<GridPoint>, step: int, i: nat, j: nat, k: nat)
    requires Distinct(a) && Distinct(b) && SamePoints(a, b) && i < |a| && j < |b| && a[i] == b[j]
    ensures var f, g := Cell(CoordinatesOf(a), step, i, k), Cell(CoordinatesOf(b), step, j, k);
            f.Some? == g.Some? && (f.Some? ==> a[f.value] == b[g.value])
  {
    var c, d := CoordinatesOf(a), CoordinatesOf(b);
    var f, g := Cell(c, step, i, k), Cell(d, step, j, k);
    if f.Some? {
      assert a[f.value] in b;
      var l :| 0 <= l < |b| && b[l] == a[f.value];
      assert d[l] == c[f.value];
    }
    if g.Some? {
      assert b[g.value] in a;
      var l :| 0 <= l < |a| && a[l] == b[g.value];
      assert c[l] == d[g.value];
    }
    if f.Some? && g.Some? {
      assert a[f.value] in b;
      var l :| 0 <= l < |b| && b[l] == a[f.value];
      assert d[l] == c[f.value] == d[g.value];
    }
  }

  lemma {:induction false} SameSamples(a: seq<GridPoint>, b: seq<GridPoint>, step: int, i: nat, j: nat, k: nat)
    requires Distinct(a) && Distinct(b) && SamePoints(a, b) && i < |a| && j < |b| && a[i] == b[j] && Usable(a[i])
    ensures Samples(a, step, i, k) == Samples(b, step, j, k)
  {
    if k > 0 {
      SameSamples(a, b, step, i, j, k - 1);
      SameCell(a, b, step, i, j, k - 1);
      hide Cell;
      hide Distinct;
      hide SamePoints;
    }
  }

  /** The strain at a point depends on the set of points only. */
  lemma {:induction false} OrderIrrelevant(a: seq<GridPoint>, b: seq<GridPoint>, step: int, i: nat, j: nat)
    requires Distinct(a) && Distinct(b) && SamePoints(a, b) && i < |a| && j < |b| && a[i] == b[j]
    ensures Fitted(a, step, i) == Fitted(b, step, j)
  {
    if Usable(a[i]) {
      SameSamples(a, b, step, i, j, 9);
    }
  }
}
