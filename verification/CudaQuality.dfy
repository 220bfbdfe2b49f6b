/** The quality that the CUDA kernel computes from one-pass moments, and the two-pass score of the CPU. */
module CudaQuality {
  import opened Reals
  import opened Outcomes
  import opened Frames
  import opened Correlation
  import opened CudaReduce
  import opened Subpixel

  // The kernel's samples, in raster order.

  function SampleMoments(r: real, s: Option<Sample>): Six {
    match s
    case None => Six(0.0, 0.0, 0.0, 0.0, 0.0, 1.0)
    case Some(d) => Six(r, d.value, r * r, d.value * d.value, r * d.value, 0.0)
  }

  datatype Subset = Subset(reference: Frame, deformed: Frame, left: int, top: int, side: nat, u: real, v: real)

  predicate SubsetFits(s: Subset) {
    WellFormed(s.reference) && WellFormed(s.deformed) && BoxInside(s.reference, s.left, s.top, s.side) && s.side > 0
  }

  lemma InsideSubset(s: Subset, i: nat)
    requires SubsetFits(s) && i < s.side * s.side
    ensures i == i / s.side * s.side + i % s.side && i / s.side < s.side
    ensures Inside(s.reference, s.left + i % s.side, s.top + i / s.side)
  {
    Divided(i, s.side);
    NextMultiple(s.side, i / s.side, s.side);
  }

  function DeformedSample(s: Subset, i: nat): Option<Sample>
    requires SubsetFits(s)
  {
    Bilinear(s.deformed, s.left as real + s.u + (i % s.side) as real, s.top as real + s.v + (i / s.side) as real)
  }

  function KernelSample(s: Subset, i: nat): Six
    requires SubsetFits(s)
  {
    if i < s.side * s.side then
      InsideSubset(s, i);
      SampleMoments(At(s.reference, s.left + i % s.side, s.top + i / s.side) as real, DeformedSample(s, i))
    else NOTHING
  }

  function ReferenceValues(s: Subset): (a: seq<real>)
    requires SubsetFits(s)
    ensures |a| == s.side * s.side > 0
  {
    SideSquared(s.side);
    Window(s.reference, s.left, s.top, s.side)
  }

  function DeformedSamples(s: Subset): (samples: Option<seq<Sample>>)
    requires SubsetFits(s)
    ensures samples.Some? ==> |samples.value| == s.side * s.side
  {
    SampleRows(s.deformed, s.left as real + s.u, s.top as real + s.v, s.side, s.side)
  }

  lemma {:induction false} SampleRowAt(f: Frame, x: real, y: real, n: nat, c: nat)
    requires WellFormed(f) && c < n && SampleRow(f, x, y, n).Some?
    ensures Bilinear(f, x + c as real, y) == Some(SampleRow(f, x, y, n).value[c])
  {
    hide Bilinear;
    if c < n - 1 {
      SampleRowAt(f, x, y, n - 1, c);
    }
  }

  lemma {:induction false} SampleRowsAt(f: Frame, x: real, y: real, side: nat, rows: nat, r: nat, c: nat)
    requires WellFormed(f) && r < rows && c < side && SampleRows(f, x, y, side, rows).Some?
    ensures r * side + c < rows * side
    ensures Bilinear(f, x + c as real, y + r as real) == Some(SampleRows(f, x, y, side, rows).value[r * side + c])
  {
    hide Bilinear;
    hide SampleRow;
    RowFits(r, c, rows, side);
    if r < rows - 1 {
      RowFits(r, c, rows - 1, side);
      SampleRowsAt(f, x, y, side, rows - 1, r, c);
    } else {
      SampleRowAt(f, x, y + r as real, side, c);
    }
  }

  lemma {:induction false} SampleRowOutside(f: Frame, x: real, y: real, n: nat) returns (c: nat)
    requires WellFormed(f) && SampleRow(f, x, y, n).None?
    ensures c < n && Bilinear(f, x + c as real, y).None?
  {
    hide Bilinear;
    if SampleRow(f, x, y, n - 1).None? {
      c := SampleRowOutside(f, x, y, n - 1);
    } else {
      c := n - 1;
    }
  }

  lemma {:induction false} SampleRowsOutside(f: Frame, x: real, y: real, side: nat, rows: nat) returns (r: nat, c: nat)
    requires WellFormed(f) && SampleRows(f, x, y, side, rows).None?
    ensures r < rows && c < side && Bilinear(f, x + c as real, y + r as real).None?
  {
    hide Bilinear;
    hide SampleRow;
    if SampleRows(f, x, y, side, rows - 1).None? {
      r, c := SampleRowsOutside(f, x, y, side, rows - 1);
    } else {
      r := rows - 1;
      c := SampleRowOutside(f, x, y + r as real, side);
    }
  }

  lemma ReferenceValueAt(s: Subset, i: nat)
    requires SubsetFits(s) && i < s.side * s.side
    ensures Inside(s.reference, s.left + i % s.side, s.top + i / s.side)
    ensures ReferenceValues(s)[i] == At(s.reference, s.left + i % s.side, s.top + i / s.side) as real
  {
    InsideSubset(s, i);
    hide Rows;
    hide At;
    RowsAt(s.reference, s.left, s.top, s.side, s.side, i / s.side, i % s.side);
  }

  lemma DeformedIs(s: Subset, i: nat)
    requires SubsetFits(s)
    ensures WellFormed(s.deformed) && s.side > 0
    ensures DeformedSamples(s) == SampleRows(s.deformed, s.left as real + s.u, s.top as real + s.v, s.side, s.side)
    ensures DeformedSample(s, i)
            == Bilinear(s.deformed, s.left as real + s.u + (i % s.side) as real,
                        s.top as real + s.v + (i / s.side) as real)
  {
    hide SampleRows;
    hide Bilinear;
  }

  lemma DeformedSampleAt(s: Subset, i: nat)
    requires SubsetFits(s) && i < s.side * s.side && DeformedSamples(s).Some?
    ensures DeformedSample(s, i) == Some(DeformedSamples(s).value[i])
  {
    hide *;
    InsideSubset(s, i);
    DeformedIs(s, i);
    SampleRowsAt(s.deformed, s.left as real + s.u, s.top as real + s.v, s.side, s.side, i / s.side, i % s.side);
  }

  lemma KernelSampleUnfolds(s: Subset, i: nat)
    requires SubsetFits(s) && i < s.side * s.side && Inside(s.reference, s.left + i % s.side, s.top + i / s.side)
    ensures KernelSample(s, i)
            == SampleMoments(At(s.reference, s.left + i % s.side, s.top + i / s.side) as real, DeformedSample(s, i))
  {
    hide At;
    hide DeformedSample;
    hide SampleMoments;
  }

  function Moments(r: real, d: real): Six { Six(r, d, r * r, d * d, r * d, 0.0) }

  lemma {:induction false} KernelSampleIs(s: Subset, i: nat)
    requires SubsetFits(s) && i < s.side * s.side && DeformedSamples(s).Some?
    ensures KernelSample(s, i) == Moments(ReferenceValues(s)[i], DeformedSamples(s).value[i].value)
  {
    hide *;
    ReferenceValueAt(s, i);
    DeformedSampleAt(s, i);
    KernelSampleUnfolds(s, i);
    MomentsOfSample(ReferenceValues(s)[i], DeformedSamples(s).value[i]);
  }

  lemma MomentsOfSample(r: real, d: Sample)
    ensures SampleMoments(r, Some(d)) == Moments(r, d.value)
  {
  }

  // The sums over all samples.

  lemma {:induction false} MomentSums(f: nat -> Six, a: seq<real>, b: seq<real>, n: nat)
    requires n <= |a| == |b| && forall i: nat :: i < n ==> f(i) == Moments(a[i], b[i])
    ensures SumAll(InOrder(f, n))
            == Six(Total(a[..n]), Total(b[..n]), Dot(a[..n], a[..n]), Dot(b[..n], b[..n]), Dot(a[..n], b[..n]), 0.0)
  {
    hide *;
    SumOfLast(InOrder(f, n));
    if n == 0 {
      NoMoments(f, a[..0], b[..0]);
    } else {
      MomentSums(f, a, b, n - 1);
      LastInOrder(f, n);
      var r, d := a[n - 1], b[n - 1];
      NextMoments(a, b, n - 1, r, d);
      PlusIs(SumAll(InOrder(f, n - 1)), r, d);
      assert f(n - 1) == Moments(r, d);
    }
  }

  lemma NoMoments(f: nat -> Six, a: seq<real>, b: seq<real>)
    requires a == b == []
    ensures InOrder(f, 0) == [] && Total(a) == 0.0 && Dot(a, b) == 0.0 && NOTHING == Six(0.0, 0.0, 0.0, 0.0, 0.0, 0.0)
  {
  }

  lemma LastInOrder(f: nat -> Six, n: nat)
    requires n > 0
    ensures InOrder(f, n)[..n - 1] == InOrder(f, n - 1) && InOrder(f, n)[n - 1] == f(n - 1)
  {
  }

  lemma NextMoments(a: seq<real>, b: seq<real>, k: nat, r: real, d: real)
    requires k < |a| == |b| && r == a[k] && d == b[k]
    ensures Total(a[..k + 1]) == Total(a[..k]) + r && Total(b[..k + 1]) == Total(b[..k]) + d
    ensures Dot(a[..k + 1], a[..k + 1]) == Dot(a[..k], a[..k]) + r * r
    ensures Dot(b[..k + 1], b[..k + 1]) == Dot(b[..k], b[..k]) + d * d
    ensures Dot(a[..k + 1], b[..k + 1]) == Dot(a[..k], b[..k]) + r * d
  {
    hide *;
    TotalUnfolds(a[..k + 1]);
    TotalUnfolds(b[..k + 1]);
    DotUnfolds(a[..k + 1], a[..k + 1]);
    DotUnfolds(b[..k + 1], b[..k + 1]);
    DotUnfolds(a[..k + 1], b[..k + 1]);
    assert a[..k + 1][..k] == a[..k] && b[..k + 1][..k] == b[..k];
    ProductIs(r, r);
    ProductIs(d, d);
    ProductIs(r, d);
  }

  lemma PlusIs(s: Six, r: real, d: real)
    ensures Plus(s, Moments(r, d)) == Six(s.s0 + r, s.s1 + d, s.s2 + r * r, s.s3 + d * d, s.s4 + r * d, s.s5 + 0.0)
  {
  }

  /** The sixth accumulator counts the samples outside the image. */
  lemma {:induction false} InvalidCount(v: seq<Six>)
    requires forall i :: 0 <= i < |v| ==> v[i].s5 >= 0.0
    ensures SumAll(v).s5 >= 0.0
    ensures SumAll(v).s5 == 0.0 <==> forall i :: 0 <= i < |v| ==> v[i].s5 == 0.0
  {
    SumOfLast(v);
    if v != [] {
      var n := |v| - 1;
      InvalidCount(v[..n]);
      assert forall i :: 0 <= i < n ==> v[..n][i] == v[i];
    }
  }

  // The quality.

  const SMALLEST_DENOMINATOR: real := 0.000001

  function KernelScore(a: seq<real>, b: seq<real>, root: real -> real): real
    requires |a| == |b| > 0
  {
    if Denominator(a, b, root) > SMALLEST_DENOMINATOR then Clamped(Numerator(a, b) / Denominator(a, b, root)) else -1.0
  }

  /** Beyond the kernel's larger threshold its quality is the score of the CPU. */
  lemma {:induction false} KernelScoreIsScore(a: seq<real>, b: seq<real>, root: real -> real)
    requires |a| == |b| > 0 && IsRoot(root)
    ensures Denominator(a, b, root) > SMALLEST_DENOMINATOR ==> KernelScore(a, b, root) == Score(a, b, root)
  {
    ScoreBounded(a, b, root);
    hide Denominator;
    hide Numerator;
    hide IsRoot;
  }

  /** The clamp never acts: the quality is the correlation, or -1 where the denominator is at most a millionth. */
  lemma {:induction false} KernelScoreExactly(a: seq<real>, b: seq<real>, root: real -> real)
    requires |a| == |b| > 0 && IsRoot(root)
    ensures var d := Denominator(a, b, root);
            KernelScore(a, b, root) == if d > 0.000001 then Numerator(a, b) / d else -1.0
  {
    NumeratorBounded(a, b, root);
    hide Denominator;
    hide Numerator;
    hide IsRoot;
    if Denominator(a, b, root) > 0.000001 {
      Quotient(Numerator(a, b), Denominator(a, b, root));
    }
  }

  function QualityOf(numerator: real, energyReference: real, energyDeformed: real, root: real -> real): real {
    var product := Times(energyReference, energyDeformed);
    var denominator := root(if product > 0.0 then product else 0.0);
    Clamped(if denominator > SMALLEST_DENOMINATOR then numerator / denominator else -1.0)
  }

  /** What thread 0 makes of the totals. */
  function KernelQuality(t: Six, count: real, root: real -> real): real
    requires count > 0.0
  {
    QualityOf(Centralised(t.s4, t.s0, t.s1, count), Centralised(t.s2, t.s0, t.s0, count),
        Centralised(t.s3, t.s1, t.s1, count), root)
  }

  lemma QualityIsKernelScore(a: seq<real>, b: seq<real>, root: real -> real)
    requires |a| == |b| > 0
    ensures KernelQuality(Six(Total(a), Total(b), Dot(a, a), Dot(b, b), Dot(a, b), 0.0), |a| as real, root)
            == KernelScore(a, b, root)
  {
    hide *;
    KernelQualityIs(Six(Total(a), Total(b), Dot(a, a), Dot(b, b), Dot(a, b), 0.0), |a| as real, root);
    MomentFormula(a, b);
    MomentFormula(a, a);
    MomentFormula(b, b);
    EnergyIs(a);
    EnergyIs(b);
    QualityOfWindows(a, b, root);
  }

  lemma KernelQualityIs(t: Six, n: real, root: real -> real)
    requires n > 0.0
    ensures KernelQuality(t, n, root)
            == QualityOf(Centralised(t.s4, t.s0, t.s1, n), Centralised(t.s2, t.s0, t.s0, n),
                Centralised(t.s3, t.s1, t.s1, n), root)
  {
    hide QualityOf;
    hide Centralised;
  }

  lemma EnergyIs(a: seq<real>)
    requires a != []
    ensures Energy(a) == Numerator(a, a)
  {
  }

  lemma QualityOfWindows(a: seq<real>, b: seq<real>, root: real -> real)
    requires |a| == |b| > 0
    ensures QualityOf(Numerator(a, b), Energy(a), Energy(b), root) == KernelScore(a, b, root)
  {
    hide Times;
    hide Numerator;
    hide Energy;
    EnergyNotNegative(a);
    EnergyNotNegative(b);
    NotNegativeTimes(Energy(a), Energy(b));
  }

  /** One evaluation by 128 threads: whether all samples are inside and, if so, the kernel's score. */
  method Evaluate(s: Subset, root: real -> real) returns (inside: bool, quality: real)
    requires SubsetFits(s)
    ensures inside <==> DeformedSamples(s).Some?
    ensures inside ==> quality == KernelScore(ReferenceValues(s), Values(DeformedSamples(s).value), root)
  {
    hide *;
    SubsetNotEmpty(s);
    var count := s.side * s.side;
    var f := (i: nat) => KernelSample(s, i);
    var totals := Reduce(f, count);
    var t := Six(totals[0], totals[1], totals[2], totals[3], totals[4], totals[5]);
    quality := KernelQuality(t, count as real, root);
    inside := t.s5 == 0.0;
    ComponentsOf(SumAll(InOrder(f, count)));
    InsideExactly(s, f);
    if inside {
      TotalsOfWindows(s, f);
      QualityIsKernelScore(ReferenceValues(s), Values(DeformedSamples(s).value), root);
    }
  }

  lemma SubsetNotEmpty(s: Subset)
    requires SubsetFits(s)
    ensures s.side * s.side > 0
  {
    SideSquared(s.side);
  }

  lemma ComponentsOf(a: Six)
    ensures a == Six(Component(a, 0), Component(a, 1), Component(a, 2), Component(a, 3), Component(a, 4),
            Component(a, 5))
  {
  }

  lemma TotalsOfWindows(s: Subset, f: nat -> Six)
    requires SubsetFits(s) && DeformedSamples(s).Some? && forall i: nat :: f(i) == KernelSample(s, i)
    ensures var a, b := ReferenceValues(s), Values(DeformedSamples(s).value);
            SumAll(InOrder(f, s.side * s.side)) == Six(Total(a), Total(b), Dot(a, a), Dot(b, b), Dot(a, b), 0.0)
  {
    hide *;
    var a, b, n := ReferenceValues(s), Values(DeformedSamples(s).value), s.side * s.side;
    forall i: nat | i < n
      ensures f(i) == Moments(a[i], b[i])
    {
      KernelSampleIs(s, i);
      ValueAt(DeformedSamples(s).value, i);
    }
    MomentSums(f, a, b, n);
    assert a[..n] == a && b[..n] == b;
  }

  lemma ValueAt(samples: seq<Sample>, i: nat)
    requires i < |samples|
    ensures Values(samples)[i] == samples[i].value
  {
  }

  lemma {:induction false} InsideExactly(s: Subset, f: nat -> Six)
    requires SubsetFits(s) && forall i: nat :: f(i) == KernelSample(s, i)
    ensures SumAll(InOrder(f, s.side * s.side)).s5 == 0.0 <==> DeformedSamples(s).Some?
  {
    hide *;
    var n := s.side * s.side;
    var v := InOrder(f, n);
    forall i | 0 <= i < n
      ensures v[i].s5 >= 0.0 && (v[i].s5 == 0.0 <==> DeformedSample(s, i).Some?)
    {
      InOrderAt(f, n, i);
      InvalidAt(s, i);
    }
    InvalidCount(v);
    if DeformedSamples(s).Some? {
      forall i | 0 <= i < n
        ensures DeformedSample(s, i).Some?
      {
        DeformedSampleAt(s, i);
      }
    } else {
      var i := OutsideSample(s);
    }
  }

  lemma InOrderAt(f: nat -> Six, n: nat, i: nat)
    requires i < n
    ensures InOrder(f, n)[i] == f(i)
  {
  }

  lemma InvalidAt(s: Subset, i: nat)
    requires SubsetFits(s) && i < s.side * s.side
    ensures KernelSample(s, i).s5 == if DeformedSample(s, i).Some? then 0.0 else 1.0
  {
    hide DeformedSample;
    hide At;
  }

  lemma OutsideSample(s: Subset) returns (i: nat)
    requires SubsetFits(s) && DeformedSamples(s).None?
    ensures i < s.side * s.side && DeformedSample(s, i).None?
  {
    hide *;
    DeformedAreRows(s);
    var r, c := SampleRowsOutside(s.deformed, s.left as real + s.u, s.top as real + s.v, s.side, s.side);
    RowFits(r, c, s.side, s.side);
    i := r * s.side + c;
    IndexParts(r, c, s.side);
    DeformedSampleIs(s, i, r, c);
  }

  lemma DeformedAreRows(s: Subset)
    requires SubsetFits(s)
    ensures WellFormed(s.deformed)
    ensures DeformedSamples(s) == SampleRows(s.deformed, s.left as real + s.u, s.top as real + s.v, s.side, s.side)
  {
    hide SampleRows;
  }

  lemma DeformedSampleIs(s: Subset, i: nat, r: nat, c: nat)
    requires SubsetFits(s) && i / s.side == r && i % s.side == c
    ensures WellFormed(s.deformed)
    ensures DeformedSample(s, i)
            == Bilinear(s.deformed, s.left as real + s.u + c as real, s.top as real + s.v + r as real)
  {
    hide Bilinear;
  }

  lemma IndexParts(r: nat, c: nat, side: nat)
    requires c < side
    ensures (r * side + c) / side == r && (r * side + c) % side == c
  {
    var i := r * side + c;
    Divided(i, side);
    SameQuotient(r, i / side, c, i % side, side);
  }

  lemma Divided(i: nat, side: nat)
    requires side > 0
    ensures i == i / side * side + i % side && i % side < side
  {
  }

  lemma SameQuotient(r: nat, q: nat, c: nat, d: nat, side: nat)
    requires c < side && d < side && r * side + c == q * side + d
    ensures r == q && c == d
  {
    NextMultiple(r, q, side);
    NextMultiple(q, r, side);
  }

}
