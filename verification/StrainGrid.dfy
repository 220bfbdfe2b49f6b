/** Strains on a grid of points: the 3x3 neighbourhoods, their cache, and what the fit yields there. */
module StrainGrid {
  import opened ResultPacket
  import opened Outcomes
  import opened Bytes
  import opened StrainFit

  /** A displacement as computed: a number, or an infinity or NaN. */
  datatype Number = Finite(value: real) | NotFinite

  datatype Strain = Strain(exx: real, eyy: real, exy: real, valid: bool)

  const NO_STRAIN: Strain := Strain(0.0, 0.0, 0.0, false)

  datatype GridPoint = GridPoint(x: Int32, y: Int32, u: Number, v: Number, valid: bool, strain: Strain)

  datatype Coordinates = At(x: int, y: int)

  function CoordinatesOf(points: seq<GridPoint>): (c: seq<Coordinates>)
    ensures |c| == |points|
  {
    seq(|points|, i requires 0 <= i < |points| => At(points[i].x, points[i].y))
  }

  /** The source demands that coordinates one step away are still int values. */
  predicate StepsFit(points: seq<GridPoint>, step: int) {
    forall p :: p in points ==>
      -0x8000_0000 <= p.x - step && p.x + step < 0x8000_0000 && -0x8000_0000 <= p.y - step && p.y + step < 0x8000_0000
  }

  // Neighbours. The nine cells are numbered in raster order; number 4 is the centre.

  function Column(k: nat): int { k % 3 - 1 }

  function Row(k: nat): int { k / 3 - 1 }

  /** The first point at these coordinates. */
  function First(c: seq<Coordinates>, x: int, y: int): (found: Option<nat>)
    ensures found.Some? ==> found.value < |c| && c[found.value] == At(x, y)
    ensures found.None? ==> At(x, y) !in c
  {
    if c == [] then None
    else
      var n := |c| - 1;
      var earlier := First(c[..n], x, y);
      if earlier.Some? then earlier else if c[n] == At(x, y) then Some(n) else None
  }

  function Cell(c: seq<Coordinates>, step: int, i: nat, k: nat): (found: Option<nat>)
    requires i < |c|
    ensures found.Some? ==> found.value < |c|
  {
    if k == 4 then None else First(c, c[i].x + Column(k) * step, c[i].y + Row(k) * step)
  }

  predicate Within(indices: seq<nat>, n: nat) {
    forall j :: 0 <= j < |indices| ==> indices[j] < n
  }

  /** The neighbours found in the first k cells around point i. */
  function Neighbours(c: seq<Coordinates>, step: int, i: nat, k: nat): (found: seq<nat>)
    requires i < |c|
    ensures |found| <= k
    ensures Within(found, |c|)
  {
    if k == 0 then []
    else
      var cell := Cell(c, step, i, k - 1);
      Neighbours(c, step, i, k - 1) + if cell.Some? then [cell.value] else []
  }

  // The samples that enter the fit at point i, and the strain that comes out.

  predicate Usable(p: GridPoint) { p.valid && p.u.Finite? && p.v.Finite? }

  function Difference(center: GridPoint, p: GridPoint): Sample
    requires Usable(center) && Usable(p)
  {
    Sample((p.x - center.x) as real, (p.y - center.y) as real, p.u.value - center.u.value, p.v.value - center.v.value)
  }

  function Samples(points: seq<GridPoint>, step: int, i: nat, k: nat): (samples: seq<Sample>)
    requires i < |points| && Usable(points[i])
    ensures |samples| <= k
  {
    if k == 0 then []
    else
      var cell := Cell(CoordinatesOf(points), step, i, k - 1);
      Samples(points, step, i, k - 1)
      + if cell.Some? && Usable(points[cell.value]) then [Difference(points[i], points[cell.value])] else []
  }

  const SMALLEST_DETERMINANT: real := 0.000000000001

  /** The strain from the sums over `usable` samples. */
  function StrainOf(s: Sums, usable: nat): Strain {
    var d := Determinant(s);
    if usable < 3 || -SMALLEST_DETERMINANT < d < SMALLEST_DETERMINANT then NO_STRAIN
    else Strain(SlopeX(s, s.ux, s.uy), SlopeY(s, s.vx, s.vy),
                0.5 * (SlopeY(s, s.ux, s.uy) + SlopeX(s, s.vx, s.vy)), true)
  }

  function Fitted(points: seq<GridPoint>, step: int, i: nat): Strain
    requires i < |points|
  {
    if !Usable(points[i]) then NO_STRAIN
    else
      var samples := Samples(points, step, i, 9);
      StrainOf(SumsOf(samples), |samples|)
  }

  /** What apply makes of the points, without any cache. */
  function Applied(points: seq<GridPoint>, step: int): (result: seq<GridPoint>)
    ensures |result| == |points|
  {
    seq(|points|, i requires 0 <= i < |points| => points[i].(strain := Fitted(points, step, i)))
  }

  // Keys of the lookup table.

  function CoordinateKey(x: Int32, y: Int32): (key: nat) {
    ToUnsigned(x) * 0x1_0000_0000 + ToUnsigned(y)
  }

  lemma {:induction false} KeyInjective(x: Int32, y: Int32, p: Int32, q: Int32)
    ensures CoordinateKey(x, y) == CoordinateKey(p, q) <==> x == p && y == q
    ensures CoordinateKey(x, y) < 0x1_0000_0000_0000_0000
  {
  }

  predicate Places(c: seq<Coordinates>, i: nat, p: GridPoint) { i < |c| && c[i] == At(p.x, p.y) }

  ghost predicate LooksUp(lookup: map<nat, nat>, c: seq<Coordinates>) {
    forall x: Int32, y: Int32 ::
      var key := CoordinateKey(x, y);
      if key in lookup then First(c, x, y) == Some(lookup[key]) else First(c, x, y) == None
  }

  /** The neighbour lists of the first n points. */
  function Lists(c: seq<Coordinates>, step: int, n: nat): (lists: seq<seq<nat>>)
    requires n <= |c|
    ensures |lists| == n
  {
    if n == 0 then [] else Lists(c, step, n - 1) + [Neighbours(c, step, n - 1, 9)]
  }

  lemma NoLists(c: seq<Coordinates>, step: int)
    ensures Lists(c, step, 0) == []
  {
  }

  lemma NextList(c: seq<Coordinates>, step: int, n: nat)
    requires n < |c|
    ensures Lists(c, step, n + 1) == Lists(c, step, n) + [Neighbours(c, step, n, 9)]
  {
    hide Neighbours;
  }

  lemma {:induction false} ListsAt(c: seq<Coordinates>, step: int, n: nat)
    requires n <= |c|
    ensures forall i :: 0 <= i < n ==> Lists(c, step, n)[i] == Neighbours(c, step, i, 9)
  {
    hide Neighbours;
    if n > 0 {
      ListsAt(c, step, n - 1);
    }
  }

  lemma NextCoordinates(points: seq<GridPoint>, index: nat)
    requires index < |points|
    ensures var c := CoordinatesOf(points);
            && c[..index + 1] == c[..index] + [At(points[index].x, points[index].y)]
            && Places(c, index, points[index])
  {
  }

  lemma OneStepFits(points: seq<GridPoint>, index: nat, step: int)
    requires index < |points| && StepsFit(points, step)
    ensures StepsFit([points[index]], step)
  {
    assert points[index] in points;
  }

  lemma NothingToLookUp()
    ensures LooksUp(map[], [])
  {
  }

  lemma LookupGrows(lookup: map<nat, nat>, c: seq<Coordinates>, x: Int32, y: Int32)
    requires LooksUp(lookup, c)
    ensures var key := CoordinateKey(x, y);
            LooksUp(if key in lookup then lookup else lookup[key := |c|], c + [At(x, y)])
  {
    var key := CoordinateKey(x, y);
    var after := if key in lookup then lookup else lookup[key := |c|];
    var d := c + [At(x, y)];
    assert d[..|c|] == c;
    hide CoordinateKey;
    forall p: Int32, q: Int32
      ensures var k := CoordinateKey(p, q);
              if k in after then First(d, p, q) == Some(after[k]) else First(d, p, q) == None
    {
      KeyInjective(x, y, p, q);
    }
  }

  class GridStrainEstimator {
    const gridStep: int
    var coordinates: seq<Coordinates>
    var neighbors: seq<seq<nat>>

    ghost predicate Valid()
      reads this
    {
      && gridStep >= 1 && |neighbors| == |coordinates|
      && forall i :: 0 <= i < |neighbors| ==> neighbors[i] == Neighbours(coordinates, gridStep, i, 9)
    }

    constructor (step: int)
      requires step >= 1
      ensures Valid() && gridStep == step
    {
      gridStep := step;
      coordinates, neighbors := [], [];
    }

    static method Create(step: int) returns (o: Outcome<GridStrainEstimator>)
      ensures step < 1 ==> o == Threw(StepNotPositive)
      ensures step >= 1 ==> o.Done? && fresh(o.value) && o.value.Valid() && o.value.gridStep == step
    {
      if step < 1 {
        return Threw(StepNotPositive);
      }
      var estimator := new GridStrainEstimator(step);
      return Done(estimator);
    }

    method TopologyMatches(points: array<GridPoint>) returns (matches: bool)
      ensures matches <==> coordinates == CoordinatesOf(points[..])
    {
      if |coordinates| != points.Length {
        return false;
      }
      for index := 0 to points.Length
        invariant forall i :: 0 <= i < index ==> coordinates[i] == At(points[i].x, points[i].y)
      {
        if coordinates[index] != At(points[index].x, points[index].y) {
          assert CoordinatesOf(points[..])[index] != coordinates[index];
          return false;
        }
      }
      assert coordinates == CoordinatesOf(points[..]);
      return true;
    }

    method RebuildTopology(points: array<GridPoint>)
      requires gridStep >= 1 && StepsFit(points[..], gridStep)
      modifies this
      ensures Valid() && coordinates == CoordinatesOf(points[..])
    {
      ghost var input := points[..];
      ghost var c := CoordinatesOf(input);
      hide *;
      coordinates, neighbors := [], [];
      var lookup: map<nat, nat> := map[];
      NothingToLookUp();
      for index := 0 to points.Length
        invariant coordinates == c[..index] && neighbors == []
        invariant LooksUp(lookup, c[..index])
      {
        var p := points[index];
        assert p == input[index];
        var key := CoordinateKey(p.x, p.y);
        LookupGrows(lookup, c[..index], p.x, p.y);
        NextCoordinates(input, index);
        coordinates := coordinates + [At(p.x, p.y)];
        if key !in lookup {
          lookup := lookup[key := index];
        }
      }
      assert c[..points.Length] == c;
      NoLists(c, gridStep);
      for index := 0 to points.Length
        invariant coordinates == c && neighbors == Lists(c, gridStep, index)
      {
        var p := points[index];
        assert p == input[index];
        NextCoordinates(input, index);
        OneStepFits(input, index, gridStep);
        NextList(c, gridStep, index);
        var found := FindNeighbours(p, lookup, c, index);
        neighbors := neighbors + [found];
      }
      ListsAt(c, gridStep, points.Length);
      TopologyIsValid();
    }

    lemma TopologyIsValid()
      requires gridStep >= 1 && |neighbors| == |coordinates|
      requires forall i :: 0 <= i < |neighbors| ==> neighbors[i] == Neighbours(coordinates, gridStep, i, 9)
      ensures Valid()
    {
      hide Neighbours;
    }

    method FindNeighbours(center: GridPoint, lookup: map<nat, nat>, ghost c: seq<Coordinates>, ghost i: nat)
      returns (found: seq<nat>)
      requires gridStep >= 1 && Places(c, i, center) && LooksUp(lookup, c) && StepsFit([center], gridStep)
      ensures found == Neighbours(c, gridStep, i, 9)
    {
      hide *;
      PlaceOf(c, i, center);
      found := [];
      NoNeighbours(c, gridStep, i);
      for row := -1 to 2
        invariant found == Neighbours(c, gridStep, i, 3 * (row + 1))
      {
        for column := -1 to 2
          invariant found == Neighbours(c, gridStep, i, 3 * (row + 1) + column + 1)
        {
          StepAway(center, column, row, gridStep);
          var x, y := center.x + column * gridStep, center.y + row * gridStep;
          NextNeighbour(lookup, c, gridStep, i, column, row, x, y);
          if row == 0 && column == 0 {
            continue;
          }
          var key := CoordinateKey(x, y);
          if key in lookup {
            found := found + [lookup[key]];
          }
        }
      }
    }

    /** Points that have their strain already do not change the fit of the others. */
    method FitAt(points: array<GridPoint>, index: nat, ghost input: seq<GridPoint>) returns (strain: Strain)
      requires Valid() && coordinates == CoordinatesOf(input)
      requires points.Length == |input| && index < |input| && SameInput(points[..], input)
      ensures strain == Fitted(input, gridStep, index)
    {
      assert points[..][index] == points[index];
      var center := points[index];
      if !Usable(center) {
        return NO_STRAIN;
      }
      hide SumsOf;
      hide AddSample;
      hide Gathered;
      hide Usable;
      hide Difference;
      var sums, usable := NO_SUMS, 0;
      NothingGathered(input, input[index]);
      var around := neighbors[index];
      for offset := 0 to |around|
        invariant sums == SumsOf(Gathered(input, input[index], around[..offset]))
        invariant usable == |Gathered(input, input[index], around[..offset])|
      {
        assert points[..][around[offset]] == points[around[offset]];
        GatheredNext(input, input[index], around, offset);
        var neighbor := points[around[offset]];
        SameDifference(center, input[index], neighbor, input[around[offset]]);
        if !Usable(neighbor) {
          continue;
        }
        sums := AddSample(sums, Difference(center, neighbor));
        usable := usable + 1;
      }
      assert around[..|around|] == around;
      GatheredIsSamples(input, gridStep, index, 9);
      strain := StrainOf(sums, usable);
    }

    /** Cached or rebuilt, the neighbours are those of these points: the result is that of a stateless estimator. */
    method Apply(points: array<GridPoint>)
      requires Valid() && StepsFit(points[..], gridStep)
      modifies this, points
      ensures Valid()
      ensures points[..] == Applied(old(points[..]), gridStep)
    {
      ghost var input := points[..];
      var matches := TopologyMatches(points);
      if !matches {
        RebuildTopology(points);
      }
      for index := 0 to points.Length
        invariant Valid() && coordinates == CoordinatesOf(input) && points.Length == |input|
        invariant forall i :: 0 <= i < index ==> points[i] == input[i].(strain := Fitted(input, gridStep, i))
        invariant forall i :: index <= i < points.Length ==> points[i] == input[i]
      {
        points[index] := points[index].(strain := NO_STRAIN);
        assert SameInput(points[..], input);
        var strain := FitAt(points, index, input);
        points[index] := points[index].(strain := strain);
      }
      assert points[..] == Applied(input, gridStep);
    }
  }

  predicate SameInput(a: seq<GridPoint>, b: seq<GridPoint>) {
    |a| == |b| && forall i :: 0 <= i < |a| ==> a[i].(strain := NO_STRAIN) == b[i].(strain := NO_STRAIN)
  }

  /** The samples for a list of neighbours. */
  function Gathered(points: seq<GridPoint>, center: GridPoint, indices: seq<nat>): seq<Sample>
    requires Usable(center) && Within(indices, |points|)
  {
    if indices == [] then []
    else
      var n := |indices| - 1;
      Gathered(points, center, indices[..n])
      + if Usable(points[indices[n]]) then [Difference(center, points[indices[n]])] else []
  }

  lemma NothingGathered(points: seq<GridPoint>, center: GridPoint)
    requires Usable(center)
    ensures Gathered(points, center, []) == [] && SumsOf([]) == NO_SUMS
  {
  }

  lemma GatheredNext(points: seq<GridPoint>, center: GridPoint, indices: seq<nat>, n: nat)
    requires Usable(center) && n < |indices| && Within(indices, |points|)
    ensures var before, next, sample :=
            Gathered(points, center, indices[..n]), Gathered(points, center, indices[..n + 1]), points[indices[n]];
            if Usable(sample) then
              && |next| == |before| + 1
              && SumsOf(next) == AddSample(SumsOf(before), Difference(center, sample))
            else next == before
  {
    assert indices[..n + 1][..n] == indices[..n];
    var before, sample := Gathered(points, center, indices[..n]), points[indices[n]];
    if Usable(sample) {
      var d := Difference(center, sample);
      assert (before + [d])[..|before|] == before;
    }
  }

  lemma SameDifference(a: GridPoint, b: GridPoint, p: GridPoint, q: GridPoint)
    requires a.(strain := NO_STRAIN) == b.(strain := NO_STRAIN) && p.(strain := NO_STRAIN) == q.(strain := NO_STRAIN)
    ensures Usable(a) == Usable(b) && Usable(p) == Usable(q)
    ensures Usable(a) && Usable(p) ==> Difference(a, p) == Difference(b, q)
  {
  }

  lemma {:induction false} GatheredIsSamples(points: seq<GridPoint>, step: int, i: nat, k: nat)
    requires i < |points| && Usable(points[i])
    ensures Gathered(points, points[i], Neighbours(CoordinatesOf(points), step, i, k)) == Samples(points, step, i, k)
  {
    if k > 0 {
      GatheredIsSamples(points, step, i, k - 1);
      var c := CoordinatesOf(points);
      var before, cell := Neighbours(c, step, i, k - 1), Cell(c, step, i, k - 1);
      assert Neighbours(c, step, i, k) == before + if cell.Some? then [cell.value] else [];
      hide Cell;
      hide Neighbours;
      if cell.Some? {
        assert (before + [cell.value])[..|before|] == before;
      } else {
        assert before + [] == before;
      }
    }
  }

  lemma PlaceOf(c: seq<Coordinates>, i: nat, p: GridPoint)
    requires Places(c, i, p)
    ensures i < |c| && c[i].x == p.x && c[i].y == p.y
  {
  }

  lemma NoNeighbours(c: seq<Coordinates>, step: int, i: nat)
    requires i < |c|
    ensures Neighbours(c, step, i, 0) == []
  {
  }

  lemma NextNeighbour(
      lookup: map<nat, nat>, c: seq<Coordinates>, step: int, i: nat, column: int, row: int, x: Int32, y: Int32)
    requires i < |c| && LooksUp(lookup, c) && -1 <= column <= 1 && -1 <= row <= 1
    requires x == c[i].x + column * step && y == c[i].y + row * step
    ensures var k, key := 3 * (row + 1) + column + 1, CoordinateKey(x, y);
            Neighbours(c, step, i, k + 1)
            == Neighbours(c, step, i, k) + if !(row == 0 && column == 0) && key in lookup then [lookup[key]] else []
  {
    hide *;
    var k := 3 * (row + 1) + column + 1;
    CellNumber(column, row);
    CellIs(c, step, i, k, column, row);
    LookedUp(lookup, c, x, y);
    NeighboursUnfold(c, step, i, k);
  }

  lemma CellNumber(column: int, row: int)
    requires -1 <= column <= 1 && -1 <= row <= 1
    ensures var k := 3 * (row + 1) + column + 1;
            Column(k) == column && Row(k) == row && (k == 4 <==> row == 0 && column == 0)
  {
  }

  lemma CellIs(c: seq<Coordinates>, step: int, i: nat, k: nat, column: int, row: int)
    requires i < |c| && column == Column(k) && row == Row(k)
    ensures Cell(c, step, i, k) == if k == 4 then None else First(c, c[i].x + column * step, c[i].y + row * step)
  {
    hide First;
  }

  lemma LookedUp(lookup: map<nat, nat>, c: seq<Coordinates>, x: Int32, y: Int32)
    requires LooksUp(lookup, c)
    ensures var key := CoordinateKey(x, y); First(c, x, y) == if key in lookup then Some(lookup[key]) else None
  {
    hide First;
    hide CoordinateKey;
  }

  lemma NeighboursUnfold(c: seq<Coordinates>, step: int, i: nat, k: nat)
    requires i < |c|
    ensures var cell := Cell(c, step, i, k);
            Neighbours(c, step, i, k + 1) == Neighbours(c, step, i, k) + if cell.Some? then [cell.value] else []
  {
    hide Cell;
  }

  lemma StepAway(center: GridPoint, column: int, row: int, step: int)
    requires StepsFit([center], step) && -1 <= column <= 1 && -1 <= row <= 1 && step >= 1
    ensures -0x8000_0000 <= center.x + column * step < 0x8000_0000
    ensures -0x8000_0000 <= center.y + row * step < 0x8000_0000
  {
    assert center in [center];
    assert column * step == if column == 0 then 0 else if column == 1 then step else -step;
    assert row * step == if row == 0 then 0 else if row == 1 then step else -step;
  }
}
