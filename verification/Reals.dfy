/** Sums of real numbers, and products that are kept whole while sums of them are compared. */
module Reals {
  function Square(a: real): (b: real)
    ensures b >= 0.0
  {
    a * a
  }

  function Times(a: real, b: real): real { a * b }

  lemma Spread(a: real, b: real, c: real)
    ensures Times(a, b + c) == Times(a, b) + Times(a, c) && Times(b + c, a) == Times(b, a) + Times(c, a)
    ensures Times(a, b - c) == Times(a, b) - Times(a, c) && Times(b - c, a) == Times(b, a) - Times(c, a)
    ensures Times(a, b) == Times(b, a) && Times(a, -b) == -Times(a, b) && Times(2.0 * a, b) == 2.0 * Times(a, b)
  {
  }

  lemma Regroup(a: real, b: real, c: real)
    ensures Times(Times(a, b), c) == Times(a, Times(b, c)) == Times(b, Times(a, c)) == Times(Times(a, c), b)
  {
  }

  lemma SquareOfSum(a: real, b: real)
    ensures Square(a + b) == Square(a) + 2.0 * Times(a, b) + Square(b)
    ensures Square(a - b) == Square(a) - 2.0 * Times(a, b) + Square(b)
    ensures Square(Times(a, b)) == Times(Square(a), Square(b))
  {
    assert (a * b) * (a * b) == (a * a) * (b * b);
  }

  lemma CrossTerm(p: real, dx: real, q: real, dy: real)
    ensures Times(Times(p, dx), Times(q, dy)) == Times(Times(p, q), Times(dx, dy))
  {
  }

  lemma Folded(h: real, a: real, p: real, b: real, q: real)
    ensures Times(h, Times(a, p) + Times(b, q)) == Times(Times(p, h), a) + Times(Times(q, h), b)
  {
  }

  lemma SpreadSquare(p: real, h: real, t: real)
    ensures Times(Square(p + h), t) == Times(Square(p), t) + 2.0 * Times(Times(p, h), t) + Times(Square(h), t)
  {
    assert (p + h) * (p + h) == p * p + 2.0 * (p * h) + h * h;
  }

  lemma ProductOfSums(p: real, h: real, q: real, k: real, t: real)
    ensures Times(Times(p + h, q + k), t)
            == Times(Times(p, q), t) + Times(Times(p, k), t) + Times(Times(q, h), t) + Times(Times(h, k), t)
  {
    assert (p + h) * (q + k) == p * q + p * k + q * h + h * k;
  }

  lemma Cancel(a: real, b: real, d: real)
    requires d != 0.0 && a * d == b * d
    ensures a == b
  {
    assert (a - b) * d == 0.0;
  }

  lemma SquareOfNonzero(k: real)
    requires k != 0.0
    ensures Square(k) > 0.0
  {
    var r := 1.0 / k;
    SquareIsTimes(k);
    Inverse(k);
    Regroup(k, k, r);
    hide Square;
    hide Times;
    One(k, r);
  }

  lemma SquareIsTimes(k: real)
    ensures Square(k) == Times(k, k)
  {
  }

  lemma Inverse(k: real)
    requires k != 0.0
    ensures Times(k, 1.0 / k) == 1.0
  {
  }

  lemma One(k: real, r: real)
    ensures Times(k, 1.0) == k && Times(0.0, r) == 0.0
  {
  }

  lemma PositiveTimes(a: real, b: real)
    ensures a > 0.0 && b > 0.0 ==> Times(a, b) > 0.0
  {
  }

  lemma ZeroTimes(a: real)
    ensures Times(a, 0.0) == 0.0
  {
  }

  lemma NegatedSquare(a: real)
    ensures Square(0.0 - a) == Square(a) && 0.0 + Square(0.0) == 0.0
  {
  }

  function Total(x: seq<real>): real {
    if x == [] then 0.0 else Total(x[..|x| - 1]) + x[|x| - 1]
  }

  function Mean(x: seq<real>): real
    requires x != []
  {
    Total(x) / |x| as real
  }

  lemma TotalAppends(x: seq<real>, v: real)
    ensures Total(x + [v]) == Total(x) + v
  {
    assert (x + [v])[..|x|] == x;
  }

  lemma ProductIs(a: real, b: real)
    ensures Times(a, b) == a * b
  {
  }
}
