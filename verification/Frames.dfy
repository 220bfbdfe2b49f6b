/** Camera frames and the square windows that the correlation compares. */
module Frames {
  import opened Bytes
  import opened Reals

  datatype Frame = Frame(width: UInt32, height: UInt32, stride: nat, pixels: seq<Byte>)

  predicate WellFormed(f: Frame) {
    f.width <= f.stride && |f.pixels| == f.stride * f.height
  }

  predicate Inside(f: Frame, x: int, y: int) { 0 <= x < f.width && 0 <= y < f.height }

  lemma IndexFits(f: Frame, x: int, y: int)
    requires WellFormed(f) && Inside(f, x, y)
    ensures 0 <= y * f.stride + x < |f.pixels|
  {
    RowBelow(y, f.height, f.stride);
  }

  lemma RowBelow(y: nat, height: nat, stride: nat)
    requires y < height
    ensures 0 <= y * stride && y * stride + stride <= stride * height
  {
    var d := height - 1 - y;
    assert stride * height == y * stride + stride + d * stride;
    assert d * stride >= 0;
  }

  function At(f: Frame, x: int, y: int): Byte
    requires WellFormed(f) && Inside(f, x, y)
  {
    IndexFits(f, x, y);
    f.pixels[y * f.stride + x]
  }

  /** Row y of the image is the beginning of line y of the pixels, whatever the stride. */
  lemma {:induction false} RowIsSlice(f: Frame, y: int)
    requires WellFormed(f) && 0 <= y < f.height
    ensures 0 <= y * f.stride && y * f.stride + f.stride <= |f.pixels|
    ensures forall x :: 0 <= x < f.width ==> At(f, x, y) == f.pixels[y * f.stride..y * f.stride + f.stride][x]
  {
    RowBelow(y, f.height, f.stride);
  }

  /** Columns x to x + n - 1 of row y. */
  function RowPart(f: Frame, x: int, y: int, n: nat): (values: seq<real>)
    requires WellFormed(f) && (n > 0 ==> Inside(f, x, y) && Inside(f, x + n - 1, y))
    ensures |values| == n
  {
    if n == 0 then [] else RowPart(f, x, y, n - 1) + [At(f, x + n - 1, y) as real]
  }

  predicate BoxInside(f: Frame, x: int, y: int, side: nat) {
    0 <= x && 0 <= y && x + side <= f.width && y + side <= f.height
  }

  /** The first rows of the box with the upper left corner (x, y), row by row. */
  function Rows(f: Frame, x: int, y: int, side: nat, rows: nat): (values: seq<real>)
    requires WellFormed(f) && BoxInside(f, x, y, side) && rows <= side
    ensures |values| == rows * side
  {
    if rows == 0 then [] else Rows(f, x, y, side, rows - 1) + RowPart(f, x, y + rows - 1, side)
  }

  function Window(f: Frame, x: int, y: int, side: nat): seq<real>
    requires WellFormed(f) && BoxInside(f, x, y, side)
  {
    Rows(f, x, y, side, side)
  }

  /** The part of the window read when `column` values of row `row` have been read. */
  function ReadSoFar(f: Frame, x: int, y: int, side: nat, row: nat, column: nat): (values: seq<real>)
    requires WellFormed(f) && BoxInside(f, x, y, side) && row < side && column <= side
    ensures |values| == row * side + column
  {
    Rows(f, x, y, side, row) + RowPart(f, x, y + row, column)
  }

  lemma ReadNext(f: Frame, x: int, y: int, side: nat, row: nat, column: nat)
    requires WellFormed(f) && BoxInside(f, x, y, side) && row < side && column < side
    ensures ReadSoFar(f, x, y, side, row, 0) == Rows(f, x, y, side, row)
    ensures ReadSoFar(f, x, y, side, row, column + 1)
            == ReadSoFar(f, x, y, side, row, column) + [At(f, x + column, y + row) as real]
    ensures ReadSoFar(f, x, y, side, row, side) == Rows(f, x, y, side, row + 1)
    ensures Rows(f, x, y, side, 0) == []
  {
    hide At;
  }

  lemma {:induction false} RowPartAt(f: Frame, x: int, y: int, n: nat, c: nat)
    requires WellFormed(f) && c < n && Inside(f, x, y) && Inside(f, x + n - 1, y)
    ensures RowPart(f, x, y, n)[c] == At(f, x + c, y) as real
  {
    hide At;
    if c < n - 1 {
      RowPartAt(f, x, y, n - 1, c);
    }
  }

  lemma {:induction false} RowsAt(f: Frame, x: int, y: int, side: nat, rows: nat, r: nat, c: nat)
    requires WellFormed(f) && BoxInside(f, x, y, side) && r < rows <= side && c < side
    ensures r * side + c < rows * side && Rows(f, x, y, side, rows)[r * side + c] == At(f, x + c, y + r) as real
  {
    hide At;
    RowFits(r, c, rows, side);
    if r < rows - 1 {
      RowsAt(f, x, y, side, rows - 1, r, c);
    } else {
      RowPartAt(f, x, y + r, side, c);
    }
  }

  lemma RowFits(r: nat, c: nat, rows: nat, side: nat)
    requires r < rows && c < side
    ensures r * side + c < rows * side
  {
    assert rows * side == r * side + side + (rows - r - 1) * side;
    assert (rows - r - 1) * side >= 0;
  }

  lemma SideSquared(side: nat)
    requires side > 0
    ensures side * side > 0
  {
  }

  lemma NextMultiple(a: nat, b: nat, n: nat)
    ensures a < b ==> a * n + n <= b * n
  {
    if a < b {
      RowBelow(a, b, n);
    }
  }
}
