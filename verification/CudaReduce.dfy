/** The reductions of the CUDA kernels: strided accumulation, warp shuffles and the two-stage block sum. */
module CudaReduce {
  import opened Reals

  const WARP_SIZE: nat := 32
  const BLOCK_SIZE: nat := 128
  const WARP_COUNT: nat := 4

  /** The six accumulators that are reduced together. */
  datatype Six = Six(s0: real, s1: real, s2: real, s3: real, s4: real, s5: real)

  const NOTHING: Six := Six(0.0, 0.0, 0.0, 0.0, 0.0, 0.0)

  function Plus(a: Six, b: Six): Six {
    Six(a.s0 + b.s0, a.s1 + b.s1, a.s2 + b.s2, a.s3 + b.s3, a.s4 + b.s4, a.s5 + b.s5)
  }

  function Component(a: Six, k: nat): real
    requires k < 6
  {
    match k
    case 0 => a.s0
    case 1 => a.s1
    case 2 => a.s2
    case 3 => a.s3
    case 4 => a.s4
    case _ => a.s5
  }

  /** The sequential sum. */
  function SumAll(v: seq<Six>): Six {
    if v == [] then NOTHING else Plus(SumAll(v[..|v| - 1]), v[|v| - 1])
  }

  lemma PlusLaws(a: Six, b: Six, c: Six)
    ensures Plus(Plus(a, b), c) == Plus(a, Plus(b, c)) && Plus(a, b) == Plus(b, a)
    ensures Plus(a, NOTHING) == a == Plus(NOTHING, a)
  {
  }

  lemma SumOfLast(v: seq<Six>)
    ensures v == [] ==> SumAll(v) == NOTHING
    ensures v != [] ==> SumAll(v) == Plus(SumAll(v[..|v| - 1]), v[|v| - 1])
  {
  }

  lemma {:induction false} SumSplits(v: seq<Six>, w: seq<Six>)
    ensures SumAll(v + w) == Plus(SumAll(v), SumAll(w))
    decreases |w|
  {
    hide *;
    SumOfLast(w);
    if w == [] {
      assert v + w == v;
      PlusLaws(SumAll(v), NOTHING, NOTHING);
    } else {
      var n := |w| - 1;
      SumSplits(v, w[..n]);
      assert (v + w)[..|v| + n] == v + w[..n];
      SumOfLast(v + w);
      PlusLaws(SumAll(v), SumAll(w[..n]), w[n]);
    }
  }

  /** The sum of two equally long lists added position by position. */
  lemma {:induction false} SumPairs(v: seq<Six>, w: seq<Six>, sum: seq<Six>)
    requires |v| == |w| == |sum| && forall i :: 0 <= i < |v| ==> sum[i] == Plus(v[i], w[i])
    ensures SumAll(sum) == Plus(SumAll(v), SumAll(w))
  {
    hide *;
    SumOfLast(v);
    SumOfLast(w);
    SumOfLast(sum);
    if v == [] {
      PlusLaws(NOTHING, NOTHING, NOTHING);
    } else {
      var n := |v| - 1;
      SumPairs(v[..n], w[..n], sum[..n]);
      Interchange(SumAll(v[..n]), SumAll(w[..n]), v[n], w[n]);
    }
  }

  lemma Interchange(a: Six, b: Six, c: Six, d: Six)
    ensures Plus(Plus(a, b), Plus(c, d)) == Plus(Plus(a, c), Plus(b, d))
  {
  }

  // A warp: all lanes add the value of the lane `offset` further up; beyond the last lane a shuffle returns the
  // lane's own value.

  function Shuffled(v: seq<Six>, offset: nat): (w: seq<Six>)
    ensures |w| == |v|
  {
    seq(|v|, lane requires 0 <= lane < |v| => if lane + offset < |v| then v[lane + offset] else v[lane])
  }

  method ShuffleDown(values: array<Six>, offset: nat)
    modifies values
    ensures forall lane :: 0 <= lane < values.Length ==>
            values[lane] == Plus(old(values[lane]), Shuffled(old(values[..]), offset)[lane])
  {
    for lane := 0 to values.Length
      invariant forall l :: 0 <= l < lane ==> values[l] == Plus(old(values[l]), Shuffled(old(values[..]), offset)[l])
      invariant forall l :: lane <= l < values.Length ==> values[l] == old(values[l])
    {
      // Lane by lane from below: the source of a lane's shuffle has not been changed yet.
      values[lane] := Plus(values[lane], if lane + offset < values.Length then values[lane + offset] else values[lane]);
    }
  }

  /** Lane 0 ends up with the sum over the warp. */
  method WarpSum(values: array<Six>)
    requires values.Length == WARP_SIZE
    modifies values
    ensures values[0] == SumAll(old(values[..]))
  {
    hide SumAll;
    hide Plus;
    ghost var all := SumAll(values[..]);
    var offset := WARP_SIZE / 2;
    ghost var width := WARP_SIZE;
    assert values[..width] == values[..];
    while offset > 0
      invariant width in {32, 16, 8, 4, 2, 1} && offset == width / 2
      invariant SumAll(values[..width]) == all
    {
      ghost var before := values[..];
      ShuffleDown(values, offset);
      assert before[..width] == before[..offset] + before[offset..width];
      SumSplits(before[..offset], before[offset..width]);
      SumPairs(before[..offset], before[offset..width], values[..offset]);
      width := offset;
      offset := offset / 2;
    }
    SumOfOne(values[0]);
    assert values[..1] == [values[0]];
  }

  lemma SumOfOne(a: Six)
    ensures SumAll([a]) == a
  {
    assert [a][..0] == [];
  }

  // A block: each warp writes its sums, component by component, and the first warp adds them up.

  function FromArray(totals: seq<real>, lane: nat): Six
    requires |totals| == 6 * WARP_COUNT && lane < WARP_COUNT
  {
    Six(totals[0 * WARP_COUNT + lane], totals[1 * WARP_COUNT + lane], totals[2 * WARP_COUNT + lane],
        totals[3 * WARP_COUNT + lane], totals[4 * WARP_COUNT + lane], totals[5 * WARP_COUNT + lane])
  }

  method StoreWarp(total: Six, warpTotals: array<real>, warp: nat)
    requires warpTotals.Length == 6 * WARP_COUNT && warp < WARP_COUNT
    modifies warpTotals
    ensures FromArray(warpTotals[..], warp) == total
    ensures forall w: nat :: w < WARP_COUNT && w != warp ==>
            FromArray(warpTotals[..], w) == FromArray(old(warpTotals[..]), w)
  {
    warpTotals[0 * WARP_COUNT + warp] := total.s0;
    warpTotals[1 * WARP_COUNT + warp] := total.s1;
    warpTotals[2 * WARP_COUNT + warp] := total.s2;
    warpTotals[3 * WARP_COUNT + warp] := total.s3;
    warpTotals[4 * WARP_COUNT + warp] := total.s4;
    warpTotals[5 * WARP_COUNT + warp] := total.s5;
  }

  function WarpPart(v: seq<Six>, warp: nat): (part: seq<Six>)
    requires |v| == BLOCK_SIZE && warp < WARP_COUNT
    ensures |part| == WARP_SIZE
  {
    v[warp * WARP_SIZE..(warp + 1) * WARP_SIZE]
  }

  lemma BlockParts(v: seq<Six>)
    requires |v| == BLOCK_SIZE
    ensures SumAll(v)
            == Plus(Plus(SumAll(WarpPart(v, 0)), SumAll(WarpPart(v, 1))),
                Plus(SumAll(WarpPart(v, 2)), SumAll(WarpPart(v, 3))))
  {
    hide SumAll;
    hide Plus;
    assert v == (WarpPart(v, 0) + WarpPart(v, 1)) + (WarpPart(v, 2) + WarpPart(v, 3));
    SumSplits(WarpPart(v, 0) + WarpPart(v, 1), WarpPart(v, 2) + WarpPart(v, 3));
    SumSplits(WarpPart(v, 0), WarpPart(v, 1));
    SumSplits(WarpPart(v, 2), WarpPart(v, 3));
  }

  lemma {:induction false} SumOfNothing(v: seq<Six>)
    requires forall i :: 0 <= i < |v| ==> v[i] == NOTHING
    ensures SumAll(v) == NOTHING
  {
    SumOfLast(v);
    if v != [] {
      SumOfNothing(v[..|v| - 1]);
    }
  }

  lemma FirstFour(v: seq<Six>)
    requires |v| == WARP_SIZE && forall lane :: WARP_COUNT <= lane < WARP_SIZE ==> v[lane] == NOTHING
    ensures SumAll(v) == Plus(Plus(v[0], v[1]), Plus(v[2], v[3]))
  {
    hide SumAll;
    hide Plus;
    assert v == ([v[0]] + [v[1]]) + ([v[2]] + [v[3]]) + v[4..];
    SumOfNothing(v[4..]);
    SumSplits(([v[0]] + [v[1]]) + ([v[2]] + [v[3]]), v[4..]);
    SumSplits([v[0]] + [v[1]], [v[2]] + [v[3]]);
    SumSplits([v[0]], [v[1]]);
    SumSplits([v[2]], [v[3]]);
    SumOfOne(v[0]);
    SumOfOne(v[1]);
    SumOfOne(v[2]);
    SumOfOne(v[3]);
    PlusLaws(Plus(Plus(v[0], v[1]), Plus(v[2], v[3])), NOTHING, NOTHING);
  }

  method LoadLanes(values: array<Six>, warp: nat, lanes: array<Six>)
    requires values.Length == BLOCK_SIZE && lanes.Length == WARP_SIZE && warp < WARP_COUNT && values != lanes
    modifies lanes
    ensures lanes[..] == WarpPart(values[..], warp)
  {
    for lane := 0 to WARP_SIZE
      invariant forall l :: 0 <= l < lane ==> lanes[l] == values[warp * WARP_SIZE + l]
    {
      lanes[lane] := values[warp * WARP_SIZE + lane];
    }
  }

  /** Up to the first barrier. */
  method SumWarps(values: array<Six>, warpTotals: array<real>)
    requires values.Length == BLOCK_SIZE && warpTotals.Length == 6 * WARP_COUNT
    modifies warpTotals
    ensures forall w: nat :: w < WARP_COUNT ==> FromArray(warpTotals[..], w) == SumAll(WarpPart(values[..], w))
  {
    hide SumAll;
    hide Plus;
    hide WarpPart;
    hide FromArray;
    var lanes := new Six[WARP_SIZE](_ => NOTHING);
    for warp := 0 to WARP_COUNT
      invariant forall w: nat :: w < warp ==> FromArray(warpTotals[..], w) == SumAll(WarpPart(values[..], w))
    {
      LoadLanes(values, warp, lanes);
      WarpSum(lanes);
      StoreWarp(lanes[0], warpTotals, warp);
    }
  }

  /** What the first warp reads back. */
  function SecondStage(totals: seq<real>): (v: seq<Six>)
    requires |totals| == 6 * WARP_COUNT
    ensures |v| == WARP_SIZE
  {
    seq(WARP_SIZE, lane requires 0 <= lane => if lane < WARP_COUNT then FromArray(totals, lane) else NOTHING)
  }

  method BlockSumSix(values: array<Six>, warpTotals: array<real>, totals: array<real>)
    requires values.Length == BLOCK_SIZE && warpTotals.Length == 6 * WARP_COUNT && totals.Length >= 6
    requires warpTotals != totals
    modifies warpTotals, totals
    ensures forall k: nat :: k < 6 ==> totals[k] == Component(SumAll(values[..]), k)
  {
    hide SumAll;
    hide Plus;
    SumWarps(values, warpTotals);
    var lanes :=
        new Six[WARP_SIZE](lane requires 0 <= lane reads warpTotals requires warpTotals.Length == 6 * WARP_COUNT =>
      if lane < WARP_COUNT then FromArray(warpTotals[..], lane) else NOTHING);
    assert lanes[..] == SecondStage(warpTotals[..]);
    SecondSum(values[..], warpTotals[..]);
    WarpSum(lanes);
    var total := lanes[0];
    totals[0], totals[1], totals[2], totals[3], totals[4], totals[5] :=
        total.s0, total.s1, total.s2, total.s3, total.s4, total.s5;
  }

  lemma SecondSum(v: seq<Six>, totals: seq<real>)
    requires |v| == BLOCK_SIZE && |totals| == 6 * WARP_COUNT
    requires forall w: nat :: w < WARP_COUNT ==> FromArray(totals, w) == SumAll(WarpPart(v, w))
    ensures SumAll(SecondStage(totals)) == SumAll(v)
  {
    hide SumAll;
    hide Plus;
    hide FromArray;
    FirstFour(SecondStage(totals));
    BlockParts(v);
  }

  // Strided accumulation: every sample is added by exactly one thread.

  /** What thread t adds of the first n samples. */
  function Strided(f: nat -> Six, t: nat, n: nat): Six {
    if n == 0 then NOTHING
    else if (n - 1) % BLOCK_SIZE == t then Plus(Strided(f, t, n - 1), f(n - 1))
    else Strided(f, t, n - 1)
  }

  /** The first n samples one after the other. */
  function InOrder(f: nat -> Six, n: nat): (v: seq<Six>)
    ensures |v| == n
  {
    seq(n, i requires 0 <= i => f(i))
  }

  lemma {:induction false} NoneBetween(f: nat -> Six, t: nat, a: nat, b: nat)
    requires a <= b && forall i :: a <= i < b ==> i % BLOCK_SIZE != t
    ensures Strided(f, t, b) == Strided(f, t, a)
    decreases b
  {
    if a < b {
      NoneBetween(f, t, a, b - 1);
    }
  }

  lemma AllStrided(f: nat -> Six, n: nat, v: seq<Six>)
    requires |v| == BLOCK_SIZE && forall t: nat :: t < BLOCK_SIZE ==> v[t] == Strided(f, t, n)
    ensures SumAll(v) == SumAll(InOrder(f, n))
  {
    hide *;
    Partition(f, n, v);
  }

  /** Adding `a` at one position adds it to the sum. */
  lemma {:induction false} SumChanges(v: seq<Six>, w: seq<Six>, t: nat, a: Six)
    requires |v| == |w| && t < |v| && w == v[t := Plus(v[t], a)]
    ensures SumAll(w) == Plus(SumAll(v), a)
  {
    hide *;
    SumOfLast(v);
    SumOfLast(w);
    var n := |v| - 1;
    if t < n {
      SumChanges(v[..n], w[..n], t, a);
      Interchange(SumAll(v[..n]), a, v[n], NOTHING);
      PlusLaws(v[n], a, NOTHING);
      PlusLaws(a, v[n], NOTHING);
    } else {
      assert v[..n] == w[..n];
      PlusLaws(SumAll(v[..n]), v[n], a);
    }
  }

  lemma {:induction false} Partition(f: nat -> Six, n: nat, v: seq<Six>)
    requires |v| == BLOCK_SIZE && forall t: nat :: t < BLOCK_SIZE ==> v[t] == Strided(f, t, n)
    ensures SumAll(v) == SumAll(InOrder(f, n))
    decreases n
  {
    hide SumAll;
    hide Plus;
    if n == 0 {
      SumOfNothing(v);
      assert InOrder(f, 0) == [];
      SumOfLast([]);
    } else {
      var before := seq(BLOCK_SIZE, t requires 0 <= t => Strided(f, t, n - 1));
      Partition(f, n - 1, before);
      var t := (n - 1) % BLOCK_SIZE;
      assert v == before[t := Plus(before[t], f(n - 1))];
      SumChanges(before, v, t, f(n - 1));
      assert InOrder(f, n)[..n - 1] == InOrder(f, n - 1);
      SumOfLast(InOrder(f, n));
    }
  }

  lemma NextStrided(f: nat -> Six, index: nat, count: nat)
    requires index < count
    ensures var t, next := index % BLOCK_SIZE, index + BLOCK_SIZE;
            Strided(f, t, if next < count then next else count) == Plus(Strided(f, t, index), f(index))
  {
    hide Plus;
    var next := index + BLOCK_SIZE;
    NoneBetween(f, index % BLOCK_SIZE, index + 1, if next < count then next else count);
  }

  lemma FirstStrided(f: nat -> Six, t: nat, count: nat)
    requires t < BLOCK_SIZE
    ensures Strided(f, t, if t < count then t else count) == NOTHING
  {
    NoneBetween(f, t, 0, if t < count then t else count);
  }

  method Accumulate(f: nat -> Six, sampleCount: nat, thread: nat) returns (sum: Six)
    requires thread < BLOCK_SIZE
    ensures sum == Strided(f, thread, sampleCount)
  {
    hide Plus;
    hide Strided;
    sum := NOTHING;
    var index := thread;
    FirstStrided(f, thread, sampleCount);
    while index < sampleCount
      invariant index % BLOCK_SIZE == thread
      invariant sum == Strided(f, thread, if index < sampleCount then index else sampleCount)
      decreases sampleCount - index
    {
      NextStrided(f, index, sampleCount);
      sum := Plus(sum, f(index));
      index := index + BLOCK_SIZE;
    }
  }

  /** The whole reduction is the sequential sum. */
  method Reduce(f: nat -> Six, sampleCount: nat) returns (totals: array<real>)
    ensures fresh(totals) && totals.Length == 6
    ensures forall k: nat :: k < 6 ==> totals[k] == Component(SumAll(InOrder(f, sampleCount)), k)
  {
    hide SumAll;
    hide Strided;
    hide InOrder;
    var values := new Six[BLOCK_SIZE];
    for thread := 0 to BLOCK_SIZE
      invariant forall t: nat :: t < thread ==> values[t] == Strided(f, t, sampleCount)
    {
      values[thread] := Accumulate(f, sampleCount, thread);
    }
    var warpTotals := new real[6 * WARP_COUNT];
    totals := new real[6];
    AllStrided(f, sampleCount, values[..]);
    BlockSumSix(values, warpTotals, totals);
  }
}
