/** The in-place radix-2 Fourier transform, over exact complex numbers and any family of roots of unity. */
module Fft {
  datatype Complex = Complex(re: real, im: real)

  const ZERO: Complex := Complex(0.0, 0.0)
  const ONE: Complex := Complex(1.0, 0.0)

  function Add(a: Complex, b: Complex): Complex { Complex(a.re + b.re, a.im + b.im) }

  function Sub(a: Complex, b: Complex): Complex { Complex(a.re - b.re, a.im - b.im) }

  function Mul(a: Complex, b: Complex): Complex { Complex(a.re * b.re - a.im * b.im, a.re * b.im + a.im * b.re) }

  function Neg(a: Complex): Complex { Complex(-a.re, -a.im) }

  function Pow(z: Complex, n: nat): Complex {
    if n == 0 then ONE else Mul(z, Pow(z, n - 1))
  }

  lemma MulCommutes(a: Complex, b: Complex)
    ensures Mul(a, b) == Mul(b, a)
  {
  }

  lemma MulAssociates(a: Complex, b: Complex, c: Complex)
    ensures Mul(Mul(a, b), c) == Mul(a, Mul(b, c))
  {
    var m, n := Mul(a, b), Mul(b, c);
    assert m.re * c.re == a.re * b.re * c.re - a.im * b.im * c.re;
    assert m.im * c.im == a.re * b.im * c.im + a.im * b.re * c.im;
    assert m.re * c.im == a.re * b.re * c.im - a.im * b.im * c.im;
    assert m.im * c.re == a.re * b.im * c.re + a.im * b.re * c.re;
    assert a.re * n.re == a.re * b.re * c.re - a.re * b.im * c.im;
    assert a.im * n.im == a.im * b.re * c.im + a.im * b.im * c.re;
    assert a.re * n.im == a.re * b.re * c.im + a.re * b.im * c.re;
    assert a.im * n.re == a.im * b.re * c.re - a.im * b.im * c.im;
  }

  lemma MulDistributes(a: Complex, b: Complex, c: Complex)
    ensures Mul(a, Add(b, c)) == Add(Mul(a, b), Mul(a, c))
  {
  }

  lemma MulNegates(a: Complex, b: Complex)
    ensures Mul(Neg(a), b) == Neg(Mul(a, b)) == Mul(a, Neg(b))
    ensures Mul(Neg(a), Neg(b)) == Mul(a, b)
  {
  }

  lemma Units(a: Complex)
    ensures Mul(ONE, a) == a == Mul(a, ONE) && Add(a, ZERO) == a == Add(ZERO, a) && Mul(a, ZERO) == ZERO
    ensures Mul(Complex(-1.0, 0.0), a) == Neg(a) == Mul(a, Complex(-1.0, 0.0))
  {
  }

  lemma {:induction false} PowAdds(z: Complex, m: nat, n: nat)
    ensures Pow(z, m + n) == Mul(Pow(z, m), Pow(z, n))
  {
    if m == 0 {
      Units(Pow(z, n));
    } else {
      PowAdds(z, m - 1, n);
      MulAssociates(z, Pow(z, m - 1), Pow(z, n));
    }
  }

  lemma {:induction false} PowOfSquare(z: Complex, n: nat)
    ensures Pow(Mul(z, z), n) == Mul(Pow(z, n), Pow(z, n)) == Pow(z, 2 * n)
  {
    PowAdds(z, n, n);
    if n > 0 {
      PowOfSquare(z, n - 1);
      var p := Pow(z, n - 1);
      hide Mul;
      MulAssociates(z, z, Mul(p, p));
      MulAssociates(z, p, p);
      MulAssociates(p, z, p);
      MulCommutes(z, p);
      MulAssociates(z, p, Mul(z, p));
      MulAssociates(p, z, p);
    } else {
      Units(ONE);
    }
  }

  lemma {:induction false} PowOfPow(z: Complex, m: nat, n: nat)
    ensures Pow(Pow(z, m), n) == Pow(z, m * n)
  {
    hide Mul;
    if n > 0 {
      PowOfPow(z, m, n - 1);
      PowAdds(z, m, m * (n - 1));
      OneMore(m, n);
    } else {
      assert m * n == 0;
    }
  }

  lemma OneMore(m: nat, n: nat)
    requires n > 0
    ensures m + m * (n - 1) == m * n
  {
  }

  // Powers of two and the roots of unity.

  predicate PowerOfTwo(n: nat) {
    n == 1 || (n > 1 && n % 2 == 0 && PowerOfTwo(n / 2))
  }

  lemma EvenPower(n: nat)
    requires PowerOfTwo(n) && n >= 2
    ensures n % 2 == 0
  {
  }

  lemma {:induction false} PowersDivide(m: nat, n: nat) returns (k: nat)
    requires PowerOfTwo(m) && PowerOfTwo(n) && m <= n
    ensures k >= 1 && n == k * m
  {
    if m == 1 {
      k := n;
    } else {
      k := PowersDivide(m / 2, n / 2);
      Doubled(k, m / 2);
    }
  }

  lemma Doubled(k: nat, m: nat)
    ensures 2 * (k * m) == k * (2 * m)
  {
  }

  /** What the step factors w(length) = polar(1, -2 pi / length) satisfy, up to length n. */
  ghost predicate Roots(w: nat -> Complex, n: nat) {
    && w(2) == Complex(-1.0, 0.0)
    && (n >= 2 ==> Mul(w(n), w(n)) == w(n / 2) && Roots(w, n / 2))
  }

  lemma {:induction false} HalfTurn(w: nat -> Complex, n: nat)
    requires PowerOfTwo(n) && n >= 2 && Roots(w, n)
    ensures Pow(w(n), n / 2) == Complex(-1.0, 0.0)
  {
    var m := n / 2;
    if m == 1 {
      assert Pow(w(n), 1) == Mul(w(n), Pow(w(n), 0));
      Units(w(n));
    } else {
      HalfTurn(w, m);
      PowOfSquare(w(n), m / 2);
      assert 2 * (m / 2) == m;
    }
  }

  function QuarterTurn(n: nat): Complex {
    if n == 4 then Complex(0.0, -1.0) else if n == 2 then Complex(-1.0, 0.0) else ONE
  }

  /** The assumptions can be met: the fourth roots of unity. */
  lemma {:induction false} QuarterRoots()
    ensures Roots(QuarterTurn, 4)
  {
    QuarterSquares();
    hide Mul;
    hide QuarterTurn;
    assert Roots(QuarterTurn, 1);
    assert Roots(QuarterTurn, 2);
  }

  lemma QuarterSquares()
    ensures Mul(QuarterTurn(4), QuarterTurn(4)) == QuarterTurn(2) == Complex(-1.0, 0.0)
    ensures Mul(QuarterTurn(2), QuarterTurn(2)) == QuarterTurn(1)
  {
    hide *;
    QuarterValues();
    SquareOfTurn();
    Units(Complex(-1.0, 0.0));
    NegatedOne();
  }

  lemma QuarterValues()
    ensures QuarterTurn(4) == Complex(0.0, -1.0) && QuarterTurn(2) == Complex(-1.0, 0.0) && QuarterTurn(1) == ONE
  {
  }

  lemma NegatedOne()
    ensures Neg(Complex(-1.0, 0.0)) == ONE
  {
  }

  lemma SquareOfTurn()
    ensures Mul(Complex(0.0, -1.0), Complex(0.0, -1.0)) == Complex(-1.0, 0.0)
  {
  }

  // The transform.

  /** x[0] + x[1] z + x[2] z^2 + ... */
  function Poly(x: seq<Complex>, z: Complex): Complex {
    if x == [] then ZERO else Add(x[0], Mul(z, Poly(x[1..], z)))
  }

  /** The discrete Fourier transform. */
  function Dft(x: seq<Complex>, w: nat -> Complex): (y: seq<Complex>)
    ensures |y| == |x|
  {
    seq(|x|, k requires 0 <= k => Poly(x, Pow(w(|x|), k)))
  }

  /** Its textbook form: the sum of x[j] w^(jk) over j < n. */
  function Sum(x: seq<Complex>, z: Complex, k: nat, n: nat): Complex
    requires n <= |x|
  {
    if n == 0 then ZERO else Add(Sum(x, z, k, n - 1), Mul(x[n - 1], Pow(z, (n - 1) * k)))
  }

  lemma {:induction false} PolySnoc(x: seq<Complex>, z: Complex)
    requires x != []
    ensures var n := |x| - 1; Poly(x, z) == Add(Poly(x[..n], z), Mul(x[n], Pow(z, n)))
  {
    var n := |x| - 1;
    if n == 0 {
      assert Poly(x[1..], z) == ZERO && Poly(x[..0], z) == ZERO;
      Units(z);
      Units(x[0]);
    } else {
      PolySnoc(x[1..], z);
      assert x[1..][..n - 1] == x[..n][1..];
      var p, t := Poly(x[1..n], z), Pow(z, n - 1);
      assert Poly(x[1..], z) == Add(p, Mul(x[n], t));
      MulDistributes(z, p, Mul(x[n], t));
      MulAssociates(z, x[n], t);
      MulCommutes(z, x[n]);
      MulAssociates(x[n], z, t);
      assert Poly(x[..n], z) == Add(x[0], Mul(z, p));
    }
  }

  lemma {:induction false} SumIsPoly(x: seq<Complex>, z: Complex, k: nat, n: nat)
    requires n <= |x|
    ensures Sum(x, z, k, n) == Poly(x[..n], Pow(z, k))
  {
    if n > 0 {
      SumIsPoly(x, z, k, n - 1);
      var t := Pow(z, k);
      PolySnoc(x[..n], t);
      assert x[..n][..n - 1] == x[..n - 1] && x[..n][n - 1] == x[n - 1];
      PowOfPow(z, k, n - 1);
      Commutes(k, n - 1);
      assert Sum(x, z, k, n) == Add(Sum(x, z, k, n - 1), Mul(x[n - 1], Pow(z, (n - 1) * k)));
      hide *;
    } else {
      assert x[..0] == [];
    }
  }

  lemma Commutes(m: nat, n: nat)
    ensures m * n == n * m
  {
  }

  lemma {:induction false} DftIsSum(x: seq<Complex>, w: nat -> Complex, k: nat)
    requires k < |x|
    ensures Dft(x, w)[k] == Sum(x, w(|x|), k, |x|)
  {
    SumIsPoly(x, w(|x|), k, |x|);
    assert x[..|x|] == x;
  }

  function Evens(x: seq<Complex>): (y: seq<Complex>)
    requires |x| % 2 == 0
    ensures |y| == |x| / 2
    ensures forall i :: 0 <= i < |y| ==> y[i] == x[2 * i]
  {
    seq(|x| / 2, i requires 0 <= i < |x| / 2 => x[2 * i])
  }

  function Odds(x: seq<Complex>): (y: seq<Complex>)
    requires |x| % 2 == 0
    ensures |y| == |x| / 2
    ensures forall i :: 0 <= i < |y| ==> y[i] == x[2 * i + 1]
  {
    seq(|x| / 2, i requires 0 <= i < |x| / 2 => x[2 * i + 1])
  }

  lemma {:induction false} PolySplits(x: seq<Complex>, z: Complex)
    requires |x| % 2 == 0
    ensures Poly(x, z) == Add(Poly(Evens(x), Mul(z, z)), Mul(z, Poly(Odds(x), Mul(z, z))))
    decreases |x|
  {
    hide *;
    PolyUnfolds(x, z);
    PolyUnfolds(Evens(x), Mul(z, z));
    PolyUnfolds(Odds(x), Mul(z, z));
    if x == [] {
      Units(z);
      Units(ZERO);
    } else {
      var rest := x[2..];
      PolySplits(rest, z);
      assert Evens(x)[1..] == Evens(rest) && Odds(x)[1..] == Odds(rest);
      PolyUnfolds(x[1..], z);
      assert x[1..][1..] == rest;
      var s := Mul(z, z);
      Regroup(x[0], x[1], z, Poly(Evens(rest), s), Poly(Odds(rest), s));
    }
  }

  lemma PolyUnfolds(x: seq<Complex>, z: Complex)
    ensures Poly(x, z) == if x == [] then ZERO else Add(x[0], Mul(z, Poly(x[1..], z)))
  {
    hide Mul;
    hide Add;
  }

  lemma Regroup(a: Complex, b: Complex, z: Complex, e: Complex, o: Complex)
    ensures var s := Mul(z, z);
            Add(a, Mul(z, Add(b, Mul(z, Add(e, Mul(z, o)))))) == Add(Add(a, Mul(s, e)), Mul(z, Add(b, Mul(s, o))))
  {
    var s := Mul(z, z);
    MulDistributes(z, e, Mul(z, o));
    MulDistributes(z, b, Add(Mul(z, e), Mul(z, Mul(z, o))));
    MulDistributes(z, Mul(z, e), Mul(z, Mul(z, o)));
    MulDistributes(z, b, Mul(s, o));
    MulAssociates(z, z, e);
    MulAssociates(z, z, o);
    hide Mul;
  }

  // One stage: blocks of `length` from their halves.

  function Combine(e: seq<Complex>, o: seq<Complex>, z: Complex): (y: seq<Complex>)
    requires |e| == |o|
    ensures |y| == |e| + |o|
  {
    seq(|e|, k requires 0 <= k < |e| => Add(e[k], Mul(o[k], Pow(z, k))))
    + seq(|e|, k requires 0 <= k < |e| => Sub(e[k], Mul(o[k], Pow(z, k))))
  }

  lemma {:induction false} CombineIsDft(x: seq<Complex>, w: nat -> Complex)
    requires |x| >= 2 && PowerOfTwo(|x|) && Roots(w, |x|)
    ensures Dft(x, w) == Combine(Dft(Evens(x), w), Dft(Odds(x), w), w(|x|))
  {
    hide *;
    EvenPower(|x|);
    var e, o := Dft(Evens(x), w), Dft(Odds(x), w);
    forall k: nat | k < |e|
      ensures Dft(x, w)[k] == Add(e[k], Mul(o[k], Pow(w(|x|), k)))
      ensures Dft(x, w)[k + |e|] == Sub(e[k], Mul(o[k], Pow(w(|x|), k)))
    {
      BinsCombine(x, w, k);
    }
    IsCombined(Dft(x, w), e, o, w(|x|));
  }

  lemma IsCombined(y: seq<Complex>, e: seq<Complex>, o: seq<Complex>, z: Complex)
    requires |e| == |o| && |y| == |e| + |e|
    requires forall k: nat :: k < |e| ==> y[k] == Add(e[k], Mul(o[k], Pow(z, k)))
    requires forall k: nat :: k < |e| ==> y[k + |e|] == Sub(e[k], Mul(o[k], Pow(z, k)))
    ensures y == Combine(e, o, z)
  {
    hide Mul;
    hide Pow;
    var c := Combine(e, o, z);
    forall i | 0 <= i < |y|
      ensures y[i] == c[i]
    {
      if i >= |e| {
        assert y[i - |e| + |e|] == y[i];
      }
    }
  }

  lemma BinsCombine(x: seq<Complex>, w: nat -> Complex, k: nat)
    requires |x| >= 2 && |x| % 2 == 0 && PowerOfTwo(|x|) && Roots(w, |x|) && k < |x| / 2
    ensures Dft(x, w)[k] == Add(Dft(Evens(x), w)[k], Mul(Dft(Odds(x), w)[k], Pow(w(|x|), k)))
    ensures Dft(x, w)[k + |x| / 2] == Sub(Dft(Evens(x), w)[k], Mul(Dft(Odds(x), w)[k], Pow(w(|x|), k)))
  {
    hide *;
    var z := Pow(w(|x|), k);
    PowerSquared(w, |x|, k);
    PowerTurned(w, |x|, k);
    DftBin(x, w, k);
    DftBin(x, w, k + |x| / 2);
    DftBin(Evens(x), w, k);
    DftBin(Odds(x), w, k);
    PolyTurns(x, z, Pow(w(|x| / 2), k));
  }

  lemma DftBin(x: seq<Complex>, w: nat -> Complex, k: nat)
    requires k < |x|
    ensures Dft(x, w)[k] == Poly(x, Pow(w(|x|), k))
  {
  }

  lemma PolyTurns(x: seq<Complex>, z: Complex, s: Complex)
    requires |x| % 2 == 0 && Mul(z, z) == s
    ensures Poly(x, z) == Add(Poly(Evens(x), s), Mul(Poly(Odds(x), s), z))
    ensures Poly(x, Neg(z)) == Sub(Poly(Evens(x), s), Mul(Poly(Odds(x), s), z))
  {
    hide Mul;
    hide Poly;
    PolySplits(x, z);
    PolySplits(x, Neg(z));
    MulNegates(z, z);
    MulNegates(z, Poly(Odds(x), s));
    MulCommutes(z, Poly(Odds(x), s));
  }

  lemma PowerSquared(w: nat -> Complex, n: nat, k: nat)
    requires n >= 2 && Roots(w, n)
    ensures Mul(Pow(w(n), k), Pow(w(n), k)) == Pow(w(n / 2), k)
  {
    hide Mul;
    hide Pow;
    PowOfSquare(w(n), k);
  }

  lemma PowerTurned(w: nat -> Complex, n: nat, k: nat)
    requires PowerOfTwo(n) && n >= 2 && Roots(w, n)
    ensures Pow(w(n), k + n / 2) == Neg(Pow(w(n), k))
  {
    hide Mul;
    hide Pow;
    HalfTurn(w, n);
    hide Roots;
    hide PowerOfTwo;
    PowAdds(w(n), k, n / 2);
    Units(Pow(w(n), k));
  }
}
