/** The array code of the transform: the reverse-carry counter, the swaps and the butterflies. */
module FftInPlace {
  import opened Outcomes
  import opened Fft
  import opened Reals
  import C = Correlation

  // Bit reversal on log2(n) bits.

  function Reverse(n: nat, i: nat): (r: nat)
    requires PowerOfTwo(n) && i < n
    ensures r < n
  {
    if n == 1 then 0 else (if i % 2 == 1 then n / 2 else 0) + Reverse(n / 2, i / 2)
  }

  /** The same function seen from the other end: the top bit of i becomes the lowest. */
  lemma {:induction false} ReverseFromTop(n: nat, i: nat)
    requires PowerOfTwo(n) && n >= 2 && i < n
    ensures var h := n / 2;
            Reverse(n, i) == if i < h then 2 * Reverse(h, i) else 2 * Reverse(h, i - h) + 1
  {
    var h := n / 2;
    if h > 1 {
      ReverseFromTop(h, i / 2);
      var j := if i < h then i else i - h;
      assert j % 2 == i % 2 && j / 2 == if i < h then i / 2 else i / 2 - h / 2;
    }
  }

  lemma {:induction false} ReverseInvolutes(n: nat, i: nat)
    requires PowerOfTwo(n) && i < n
    ensures Reverse(n, Reverse(n, i)) == i
  {
    if n > 1 {
      var h := n / 2;
      var r := Reverse(h, i / 2);
      ReverseInvolutes(h, i / 2);
      ReverseFromTop(n, if i % 2 == 1 then h + r else r);
    }
  }

  /** How the reversed index goes on: its top bit is set, or cleared with a carry into the bit below. */
  lemma ReverseNext(n: nat, i: nat)
    requires PowerOfTwo(n) && n >= 2 && i + 1 < n
    ensures var h := n / 2;
            if Reverse(n, i) < h then Reverse(n, i + 1) == Reverse(n, i) + h
            else i / 2 + 1 < h && Reverse(n, i) == h + Reverse(h, i / 2) && Reverse(n, i + 1) == Reverse(h, i / 2 + 1)
  {
    var h := n / 2;
    if i % 2 == 0 {
      assert (i + 1) % 2 == 1 && (i + 1) / 2 == i / 2;
    } else {
      assert (i + 1) % 2 == 0 && (i + 1) / 2 == i / 2 + 1;
    }
  }

  predicate HasBit(value: nat, bit: nat) { bit > 0 && value / bit % 2 == 1 }

  /** Exclusive or with a single bit. */
  function Flip(value: nat, bit: nat): nat {
    if HasBit(value, bit) then value - bit else value + bit
  }

  lemma BitOf(value: nat, bit: nat)
    requires bit > 0 && value < 2 * bit
    ensures HasBit(value, bit) <==> value >= bit
  {
    if value >= bit {
      assert value / bit == 1;
    } else {
      assert value / bit == 0;
    }
  }

  method NextReversed(count: nat, reversed: nat, ghost index: nat) returns (next: nat)
    requires PowerOfTwo(count) && index + 1 < count && reversed == Reverse(count, index)
    ensures next == Reverse(count, index + 1)
  {
    var bit := count / 2;
    next := reversed;
    ghost var n, i := count, index;
    ReverseNext(n, i);
    BitOf(next, bit);
    while HasBit(next, bit)
      invariant PowerOfTwo(n) && n >= 2 && bit == n / 2 && i + 1 < n
      invariant next == Reverse(n, i)
      invariant Reverse(count, index + 1) == Reverse(n, i + 1)
      invariant HasBit(next, bit) <==> next >= bit
      decreases n
    {
      ReverseNext(n, i);
      next := Flip(next, bit);
      bit := bit / 2;
      n, i := n / 2, i / 2;
      ReverseNext(n, i);
      BitOf(next, bit);
    }
    ReverseNext(n, i);
    next := Flip(next, bit);
  }

  /** The input in bit-reversed order: first the even half, reversed, then the odd half. */
  function Reversed(x: seq<Complex>): (y: seq<Complex>)
    requires PowerOfTwo(|x|)
    ensures |y| == |x|
    decreases |x|
  {
    if |x| == 1 then x else Reversed(Evens(x)) + Reversed(Odds(x))
  }

  lemma {:induction false} ReversedAt(x: seq<Complex>, i: nat)
    requires PowerOfTwo(|x|) && i < |x|
    ensures Reversed(x)[i] == x[Reverse(|x|, i)]
    decreases |x|
  {
    if |x| > 1 {
      var h := |x| / 2;
      ReverseFromTop(|x|, i);
      if i < h {
        ReversedAt(Evens(x), i);
      } else {
        ReversedAt(Odds(x), i - h);
      }
    }
  }

  /** After the swaps at indices below `index`. */
  ghost predicate SwappedBelow(a: seq<Complex>, x: seq<Complex>, index: nat)
    requires PowerOfTwo(|x|)
  {
    && |a| == |x|
    && forall j :: 0 <= j < |x| ==> a[j] == if j < index || Reverse(|x|, j) < index then x[Reverse(|x|, j)] else x[j]
  }

  lemma SwapsFinish(a: seq<Complex>, x: seq<Complex>)
    requires PowerOfTwo(|x|) && SwappedBelow(a, x, |x|)
    ensures a == Reversed(x)
  {
    forall j | 0 <= j < |x|
      ensures a[j] == Reversed(x)[j]
    {
      ReversedAt(x, j);
    }
  }

  lemma SwapsStart(x: seq<Complex>)
    requires PowerOfTwo(|x|)
    ensures SwappedBelow(x, x, 1) && Reverse(|x|, 0) == 0
  {
    ReverseZero(|x|);
    forall j | 0 <= j < |x| && Reverse(|x|, j) < 1
      ensures j == 0
    {
      ReverseInvolutes(|x|, j);
    }
  }

  lemma {:induction false} ReverseZero(n: nat)
    requires PowerOfTwo(n)
    ensures Reverse(n, 0) == 0
  {
    if n > 1 {
      ReverseZero(n / 2);
    }
  }

  lemma {:induction false} SwapKeeps(a: seq<Complex>, b: seq<Complex>, x: seq<Complex>, index: nat)
    requires PowerOfTwo(|x|) && index < |x| && SwappedBelow(a, x, index)
    requires var r := Reverse(|x|, index); b == if index < r then a[index := a[r]][r := a[index]] else a
    ensures SwappedBelow(b, x, index + 1)
  {
    var n := |x|;
    var r := Reverse(n, index);
    ReverseInvolutes(n, index);
    hide Reverse;
    hide PowerOfTwo;
    forall j | 0 <= j < n
      ensures b[j] == if j < index + 1 || Reverse(n, j) < index + 1 then x[Reverse(n, j)] else x[j]
    {
      ReverseInvolutes(n, j);
    }
  }

  method PermuteInPlace(a: array<Complex>)
    requires PowerOfTwo(a.Length)
    modifies a
    ensures a[..] == Reversed(old(a[..]))
  {
    ghost var x := a[..];
    var count := a.Length;
    var index, reversed := 1, 0;
    SwapsStart(x);
    while index < count
      invariant 1 <= index <= count && |x| == count
      invariant reversed == Reverse(count, index - 1)
      invariant SwappedBelow(a[..], x, index)
    {
      reversed := NextReversed(count, reversed, index - 1);
      ghost var before := a[..];
      if index < reversed {
        a[index], a[reversed] := a[reversed], a[index];
      }
      SwapKeeps(before, a[..], x, index);
      index := index + 1;
    }
    SwapsFinish(a[..], x);
  }

  // The butterflies.

  /** The block a[offset..offset + length] becomes the combination of its halves. */
  method CombineBlock(a: array<Complex>, offset: nat, length: nat, step: Complex)
    requires length % 2 == 0 && offset + length <= a.Length
    modifies a
    ensures a[..] == BlockCombined(old(a[..]), offset, length, step)
  {
    hide *;
    ghost var b := a[..];
    var h := length / 2;
    ghost var c := Combine(b[offset..offset + h], b[offset + h..offset + length], step);
    var factor := ONE;
    var index := 0;
    PowZero(step);
    while index < h
      invariant 0 <= index <= h
      invariant factor == Pow(step, index)
      invariant forall j :: offset <= j < offset + index ==> a[j] == c[j - offset]
      invariant forall j :: offset + h <= j < offset + h + index ==> a[j] == c[j - offset]
      invariant forall j ::
                  0 <= j < a.Length && !(offset <= j < offset + index || offset + h <= j < offset + h + index) ==>
                  a[j] == b[j]
    {
      CombineAt(b[offset..offset + h], b[offset + h..offset + length], step, index);
      var even := a[offset + index];
      var odd := Mul(a[offset + index + h], factor);
      a[offset + index] := Add(even, odd);
      a[offset + index + h] := Sub(even, odd);
      factor := Mul(factor, step);
      PowNext(step, index);
      index := index + 1;
    }
    BlockReplaced(a[..], b, offset, length, step);
  }

  function BlockCombined(b: seq<Complex>, offset: nat, length: nat, step: Complex): (a: seq<Complex>)
    requires length % 2 == 0 && offset + length <= |b|
    ensures |a| == |b|
  {
    var h := length / 2;
    b[..offset] + Combine(b[offset..offset + h], b[offset + h..offset + length], step) + b[offset + length..]
  }

  lemma CombineAt(e: seq<Complex>, o: seq<Complex>, z: Complex, k: nat)
    requires |e| == |o| && k < |e|
    ensures Combine(e, o, z)[k] == Add(e[k], Mul(o[k], Pow(z, k)))
    ensures Combine(e, o, z)[|e| + k] == Sub(e[k], Mul(o[k], Pow(z, k)))
  {
    hide Mul;
    hide Pow;
  }

  lemma PowZero(z: Complex)
    ensures Pow(z, 0) == ONE
  {
  }

  lemma PowNext(z: Complex, n: nat)
    ensures Pow(z, n + 1) == Mul(Pow(z, n), z)
  {
    MulCommutes(z, Pow(z, n));
  }

  lemma BlockReplaced(a: seq<Complex>, b: seq<Complex>, offset: nat, length: nat, step: Complex)
    requires |a| == |b| && offset + length <= |b| && length % 2 == 0
    requires var h := length / 2;
             var c := Combine(b[offset..offset + h], b[offset + h..offset + length], step);
             forall j :: offset <= j < offset + length ==> a[j] == c[j - offset]
    requires forall j :: 0 <= j < |a| && !(offset <= j < offset + length) ==> a[j] == b[j]
    ensures a == BlockCombined(b, offset, length, step)
  {
    hide Combine;
  }

  /** Every block of the given length combined. */
  function Combined(a: seq<Complex>, length: nat, step: Complex): (b: seq<Complex>)
    requires length >= 2 && length % 2 == 0
    ensures |b| == |a|
  {
    if |a| < length then a
    else Combine(a[..length / 2], a[length / 2..length], step) + Combined(a[length..], length, step)
  }

  function Span(blocks: nat, length: nat): nat { blocks * length }

  lemma {:induction false} CombinedAppends(a: seq<Complex>, b: seq<Complex>, length: nat, step: Complex, blocks: nat)
    requires length >= 2 && length % 2 == 0 && |a| == Span(blocks, length)
    ensures Combined(a + b, length, step) == Combined(a, length, step) + Combined(b, length, step)
    decreases blocks
  {
    hide Combine;
    if blocks == 0 {
      assert a + b == b;
    } else {
      OneBlockLess(blocks, length);
      var c, rest := a + b, a[length..];
      assert c[..length / 2] == a[..length / 2] && c[length / 2..length] == a[length / 2..length];
      assert c[length..] == rest + b;
      CombinedAppends(rest, b, length, step, blocks - 1);
    }
  }

  lemma OneBlockLess(blocks: nat, length: nat)
    requires blocks > 0
    ensures Span(blocks, length) == Span(blocks - 1, length) + length
  {
  }

  method CombineAll(a: array<Complex>, length: nat, step: Complex, ghost blocks: nat)
    requires length >= 2 && length % 2 == 0 && a.Length == Span(blocks, length)
    modifies a
    ensures a[..] == Combined(old(a[..]), length, step)
  {
    hide *;
    ghost var b := a[..];
    ghost var k := 0;
    var offset := 0;
    NothingCombined(b, length, step);
    NoSpan(length);
    while offset < a.Length
      invariant 0 <= offset <= a.Length && offset == Span(k, length) && k <= blocks
      invariant a[..] == Combined(b[..offset], length, step) + b[offset..]
    {
      BlockFits(k, blocks, length);
      ghost var before := a[..];
      BlockJoins(before, b, offset, length, step, k);
      CombineBlock(a, offset, length, step);
      assert a[..] == BlockCombined(before, offset, length, step);
      offset := offset + length;
      k := k + 1;
    }
    assert b[..offset] == b;
  }

  lemma NothingCombined(b: seq<Complex>, length: nat, step: Complex)
    requires length >= 2 && length % 2 == 0
    ensures b == Combined(b[..0], length, step) + b[0..]
  {
  }

  lemma NoSpan(length: nat)
    ensures Span(0, length) == 0
  {
  }

  lemma BlockFits(k: nat, blocks: nat, length: nat)
    requires k <= blocks && Span(k, length) < Span(blocks, length)
    ensures k < blocks && Span(k, length) + length <= Span(blocks, length)
    ensures Span(k + 1, length) == Span(k, length) + length
  {
    hide Span;
    SpanAdds(k, 1, length);
    SpanAdds(k + 1, blocks - k - 1, length);
    OneSpan(length);
  }

  lemma SpanAdds(a: nat, b: nat, length: nat)
    ensures Span(a + b, length) == Span(a, length) + Span(b, length)
  {
  }

  lemma OneSpan(length: nat)
    ensures Span(1, length) == length
  {
  }

  lemma OneBlock(block: seq<Complex>, length: nat, step: Complex)
    requires length >= 2 && length % 2 == 0 && |block| == length
    ensures Combined(block, length, step) == Combine(block[..length / 2], block[length / 2..], step)
  {
    hide Combine;
    assert block[length / 2..length] == block[length / 2..];
    assert block[length..] == [];
  }

  lemma BlockJoins(a: seq<Complex>, b: seq<Complex>, offset: nat, length: nat, step: Complex, k: nat)
    requires length >= 2 && length % 2 == 0 && offset == Span(k, length) && offset + length <= |b|
    requires a == Combined(b[..offset], length, step) + b[offset..]
    ensures BlockCombined(a, offset, length, step)
            == Combined(b[..offset + length], length, step) + b[offset + length..]
  {
    hide *;
    var done, block, rest := b[..offset], b[offset..offset + length], b[offset + length..];
    assert b[offset..] == block + rest;
    MiddleBlock(Combined(done, length, step), block, rest, length, step);
    CombinedAppends(done, block, length, step, k);
    assert b[..offset + length] == done + block;
    assert a == Combined(done, length, step) + block + rest;
  }

  lemma MiddleBlock(done: seq<Complex>, block: seq<Complex>, rest: seq<Complex>, length: nat, step: Complex)
    requires length >= 2 && length % 2 == 0 && |block| == length
    ensures BlockCombined(done + block + rest, |done|, length, step) == done + Combined(block, length, step) + rest
  {
    hide Combine;
    hide Combined;
    OneBlock(block, length, step);
    var a := done + block + rest;
    var h := length / 2;
    assert a[|done|..|done| + h] == block[..h] && a[|done| + h..|done| + length] == block[h..];
    assert a[..|done|] == done && a[|done| + length..] == rest;
  }

  // What the stages achieve: after length m, every block of m is the transform of its decimated part of the input.

  ghost predicate BlocksDone(a: seq<Complex>, x: seq<Complex>, w: nat -> Complex, m: nat)
    requires PowerOfTwo(|x|) && PowerOfTwo(m) && m <= |x|
    decreases |x|
  {
    && |a| == |x|
    && if m == |x| then a == Dft(x, w)
       else
         var h := |x| / 2;
         HalfAtLeast(m, |x|);
         BlocksDone(a[..h], Evens(x), w, m) && BlocksDone(a[h..], Odds(x), w, m)
  }

  lemma HalfAtLeast(m: nat, n: nat)
    requires PowerOfTwo(m) && PowerOfTwo(n) && m < n
    ensures m <= n / 2
  {
    if m > 1 {
      HalfAtLeast(m / 2, n / 2);
    }
  }

  lemma {:induction false} ReversedIsDone(x: seq<Complex>, w: nat -> Complex)
    requires PowerOfTwo(|x|)
    ensures BlocksDone(Reversed(x), x, w, 1)
    decreases |x|
  {
    if |x| == 1 {
      SingleDft(x, w);
    } else {
      ReversedIsDone(Evens(x), w);
      ReversedIsDone(Odds(x), w);
      var h := |x| / 2;
      assert Reversed(x)[..h] == Reversed(Evens(x)) && Reversed(x)[h..] == Reversed(Odds(x));
    }
  }

  lemma SingleDft(x: seq<Complex>, w: nat -> Complex)
    requires |x| == 1
    ensures Dft(x, w) == x
  {
    hide *;
    DftBin(x, w, 0);
    ConstantPoly(x, Pow(w(1), 0));
  }

  lemma ConstantPoly(x: seq<Complex>, z: Complex)
    requires |x| == 1
    ensures Poly(x, z) == x[0]
  {
    hide Mul;
    assert Poly(x[1..], z) == ZERO;
    Units(z);
    Units(x[0]);
  }

  lemma {:induction false} StageDone(a: seq<Complex>, x: seq<Complex>, w: nat -> Complex, m: nat)
    requires PowerOfTwo(|x|) && PowerOfTwo(m) && 2 * m <= |x| && Roots(w, |x|) && PowerOfTwo(2 * m)
    requires BlocksDone(a, x, w, m)
    ensures BlocksDone(Combined(a, 2 * m, w(2 * m)), x, w, 2 * m)
    decreases |x|
  {
    hide Mul;
    hide Dft;
    hide Combine;
    var h := |x| / 2;
    HalfAtLeast(m, |x|);
    if 2 * m == |x| {
      assert a[..m] == Dft(Evens(x), w) && a[m..] == Dft(Odds(x), w);
      CombineIsDft(x, w);
      assert a[m..2 * m] == a[m..] && a[2 * m..] == [];
      var c := Combine(a[..m], a[m..2 * m], w(2 * m));
      assert Combined(a, 2 * m, w(2 * m)) == c + Combined(a[2 * m..], 2 * m, w(2 * m));
    } else {
      HalfAtLeast(2 * m, |x|);
      StageDone(a[..h], Evens(x), w, m);
      StageDone(a[h..], Odds(x), w, m);
      var k := PowersDivide(2 * m, h);
      CombinedAppends(a[..h], a[h..], 2 * m, w(2 * m), k);
      assert a == a[..h] + a[h..];
      var b := Combined(a, 2 * m, w(2 * m));
      assert b[..h] == Combined(a[..h], 2 * m, w(2 * m)) && b[h..] == Combined(a[h..], 2 * m, w(2 * m));
    }
  }

  /** For every power-of-two length the array ends up holding the discrete Fourier transform of its old contents. */
  method FftInPlace(a: array<Complex>, w: nat -> Complex)
    requires PowerOfTwo(a.Length) && Roots(w, a.Length)
    modifies a
    ensures a[..] == Dft(old(a[..]), w)
  {
    hide Roots;
    ghost var x := a[..];
    PermuteInPlace(a);
    ReversedIsDone(x, w);
    var length := 2;
    while length <= a.Length
      invariant length >= 2 && length % 2 == 0 && PowerOfTwo(length) && PowerOfTwo(length / 2)
      invariant length / 2 <= a.Length == |x| && Roots(w, |x|)
      invariant BlocksDone(a[..], x, w, length / 2)
      decreases 2 * a.Length - length
    {
      ghost var blocks := PowersDivide(length, a.Length);
      StageDone(a[..], x, w, length / 2);
      CombineAll(a, length, w(length), blocks);
      assert 2 * length / 2 == length;
      length := 2 * length;
    }
    if length / 2 < |x| {
      HalfAtLeast(length / 2, |x|);
      assert false;
    }
  }

  // What the transform is fed: the latest samples, a power of two of them, without their mean and windowed.

  method LatestPowerOfTwo(size: nat) returns (count: nat)
    requires size >= 8
    ensures PowerOfTwo(count) && count <= size < 2 * count
  {
    count := 1;
    while 2 * count <= size
      invariant PowerOfTwo(count) && count <= size
      decreases size - count
    {
      count := 2 * count;
    }
  }

  /** The window is a parameter: its value at an index, for a number of samples. */
  function Windowed(x: seq<real>, window: (nat, nat) -> real): seq<Complex>
    requires x != []
  {
    seq(|x|, i requires 0 <= i < |x| => Complex((x[i] - Mean(x)) * window(i, |x|), 0.0))
  }

  lemma {:induction false} TotalOfDeviations(x: seq<real>, m: real)
    ensures Total(C.Deviations(x, m)) == Total(x) - |x| as real * m
  {
    if x != [] {
      var n := |x| - 1;
      TotalOfDeviations(x[..n], m);
      assert C.Deviations(x, m)[..n] == C.Deviations(x[..n], m);
      assert |x| as real * m == n as real * m + m;
    }
  }

  /**
   * What is transformed: the window times deviations that differ as the samples do and add up to nothing. These are
   * the deviations from the mean, so a constant signal has no spectrum.
   */
  lemma {:induction false} WindowedIs(x: seq<real>, window: (nat, nat) -> real) returns (d: seq<real>)
    requires x != []
    ensures |d| == |x| == |Windowed(x, window)|
    ensures Total(d) == 0.0 && forall i, j :: 0 <= i < j < |x| ==> d[j] - d[i] == x[j] - x[i]
    ensures forall i :: 0 <= i < |x| ==> Windowed(x, window)[i] == Complex(Times(d[i], window(i, |x|)), 0.0)
  {
    hide *;
    d := C.Deviations(x, Mean(x));
    TotalOfDeviations(x, Mean(x));
    MeanTimes(x);
    WindowedAt(x, window);
    DeviationsAt(x, Mean(x));
  }

  lemma DeviationsAt(x: seq<real>, m: real)
    ensures |C.Deviations(x, m)| == |x| && forall i :: 0 <= i < |x| ==> C.Deviations(x, m)[i] == x[i] - m
  {
  }

  lemma MeanTimes(x: seq<real>)
    requires x != []
    ensures |x| as real * Mean(x) == Total(x)
  {
    hide Total;
  }

  lemma WindowedAt(x: seq<real>, window: (nat, nat) -> real)
    requires x != []
    ensures |Windowed(x, window)| == |x|
    ensures forall i :: 0 <= i < |x| ==> Windowed(x, window)[i] == Complex(Times(x[i] - Mean(x), window(i, |x|)), 0.0)
  {
    hide Mean;
  }

  /** Fewer than eight samples give no spectrum. */
  method Spectrum(samples: seq<real>, window: (nat, nat) -> real, w: nat -> Complex)
    returns (spectrum: Option<array<Complex>>)
    requires forall n: nat :: PowerOfTwo(n) && n <= |samples| ==> Roots(w, n)
    ensures spectrum.None? <==> |samples| < 8
    ensures spectrum.Some? ==>
              var values := spectrum.value;
              && fresh(values) && PowerOfTwo(values.Length) && values.Length <= |samples| < 2 * values.Length
              && values[..] == Dft(Windowed(samples[|samples| - values.Length..], window), w)
  {
    hide Roots;
    if |samples| < 8 {
      return None;
    }
    var count := LatestPowerOfTwo(|samples|);
    var values := WindowLatest(samples, count, window);
    FftInPlace(values, w);
    return Some(values);
  }

  method WindowLatest(samples: seq<real>, count: nat, window: (nat, nat) -> real) returns (values: array<Complex>)
    requires 0 < count <= |samples|
    ensures fresh(values) && values.Length == count
    ensures values[..] == Windowed(samples[|samples| - count..], window)
  {
    var first := |samples| - count;
    ghost var latest := samples[first..];
    var mean := 0.0;
    for index := first to |samples|
      invariant mean == Total(latest[..index - first])
    {
      assert latest[..index + 1 - first][..index - first] == latest[..index - first];
      mean := mean + samples[index];
    }
    assert latest[..count] == latest;
    mean := mean / count as real;
    values := new Complex[count];
    for index := 0 to count
      invariant forall i :: 0 <= i < index ==> values[i] == Windowed(latest, window)[i]
    {
      values[index] := Complex((samples[first + index] - mean) * window(index, count), 0.0);
    }
    assert values[..] == Windowed(latest, window);
  }
}
