/** Row-major two-dimensional buffers stored in one flat array, as every
    spectrum, fold map and pulse stack of the analysis code is: cell
    (row, col) of a buffer `width` cells wide lives at `row * width + col`. */
module Grid {

  /** Square of a real. */
  function Sq(x: real): (r: real)
    ensures r >= 0.0
  {
    x * x
  }

  /** The flat index of cell (row, col): `row` whole rows of `width`
      cells, then `col` more. It is built by repeated addition so that
      reasoning about buffer cells stays linear; CellIsProduct gives the
      closed form `row * width + col` that the code computes. */
  function Cell(row: nat, col: nat, width: nat): (k: nat)
    ensures k >= col
  {
    if row == 0 then col else Cell(row - 1, col, width) + width
  }

  /** The number of cells in `rows` rows of `width` cells. */
  function Area(rows: nat, width: nat): nat
  {
    Cell(rows, 0, width)
  }

  lemma AreaIsProduct(rows: nat, width: nat)
    ensures Area(rows, width) == rows * width
  {
    CellIsProduct(rows, 0, width);
  }

  lemma {:induction false} AreaMonotone(a: nat, b: nat, width: nat)
    requires a <= b
    ensures Area(a, width) <= Area(b, width)
  {
    if a < b {
      AreaMonotone(a, b - 1, width);
    }
  }

  lemma {:induction false} CellIsProduct(row: nat, col: nat, width: nat)
    ensures Cell(row, col, width) == row * width + col
  {
    if row > 0 {
      CellIsProduct(row - 1, col, width);
    }
  }

  /** nry / fftSize is the number of whole blocks of fftSize pulses. */
  lemma BlocksFit(nry: nat, fftSize: nat)
    requires fftSize >= 1
    ensures Area(nry / fftSize, fftSize) <= nry < Area(nry / fftSize + 1, fftSize)
  {
    AreaIsProduct(nry / fftSize, fftSize);
    AreaIsProduct(nry / fftSize + 1, fftSize);
  }

  /** Moving along a row adds the column. */
  lemma {:induction false} CellCol(row: nat, col: nat, width: nat)
    ensures Cell(row, col, width) == Cell(row, 0, width) + col
  {
    if row > 0 {
      CellCol(row - 1, col, width);
    }
  }

  /** Every cell of a buffer `height` rows high lies inside it. */
  lemma {:induction false} CellBound(row: nat, col: nat, height: nat, width: nat)
    requires row < height && col < width
    ensures Cell(row, col, width) < Area(height, width)
  {
    if row == height - 1 {
      CellCol(row, col, width);
    } else {
      CellBound(row, col, height - 1, width);
    }
  }

  /** Distinct cells have distinct flat indices. */
  lemma {:induction false} CellInjective(r: nat, c: nat, r2: nat, c2: nat, width: nat)
    requires c < width && c2 < width && Cell(r, c, width) == Cell(r2, c2, width)
    ensures r == r2 && c == c2
  {
    if r > 0 && r2 > 0 {
      CellInjective(r - 1, c, r2 - 1, c2, width);
    }
  }

  /** Every cell of a buffer `height` rows high lies inside it, for all
      cells at once. */
  lemma CellsInside(height: nat, width: nat)
    ensures forall r: nat, c: nat :: r < height && c < width ==> Cell(r, c, width) < Area(height, width)
  {
    forall r: nat, c: nat | r < height && c < width
      ensures Cell(r, c, width) < Area(height, width)
    {
      CellBound(r, c, height, width);
    }
  }

  /** Every row of a buffer `height` rows high ends inside it. */
  lemma RowsInside(height: nat, width: nat)
    ensures forall rows: nat :: rows <= height ==> Area(rows, width) <= Area(height, width)
  {
    forall rows: nat | rows <= height
      ensures Area(rows, width) <= Area(height, width)
    {
      AreaMonotone(rows, height, width);
    }
  }

  /** Row `row` of a row-major buffer `width` cells wide. */
  function RowSlice(s: seq<real>, row: nat, width: nat): (t: seq<real>)
    requires Area(row + 1, width) <= |s|
    ensures |t| == width
  {
    seq(width, x requires 0 <= x < width => CellBound(row, x, row + 1, width); s[Cell(row, x, width)])
  }

  /** Distinct cells have distinct flat indices, stated the other way round. */
  lemma CellsDiffer(r: nat, c: nat, r2: nat, c2: nat, width: nat)
    requires c < width && c2 < width && (r != r2 || c != c2)
    ensures Cell(r, c, width) != Cell(r2, c2, width)
  {
    if Cell(r, c, width) == Cell(r2, c2, width) {
      CellInjective(r, c, r2, c2, width);
    }
  }

  /** The row of flat index k in rows of `width` cells (k / width),
      by repeated subtraction of whole rows. */
  function RowOf(k: nat, width: nat): nat
    requires width >= 1
  {
    if k < width then 0 else 1 + RowOf(k - width, width)
  }

  /** The column of flat index k in rows of `width` cells (k % width). */
  function ColOf(k: nat, width: nat): nat
    requires width >= 1
  {
    if k < width then k else ColOf(k - width, width)
  }

  /** Every flat index is the cell of its row and column. */
  lemma {:induction false} CellOf(k: nat, width: nat)
    requires width >= 1
    ensures ColOf(k, width) < width && k == Cell(RowOf(k, width), ColOf(k, width), width)
  {
    if k >= width {
      CellOf(k - width, width);
    }
  }

  /** A flat index inside `height` rows lies in one of them. */
  lemma {:induction false} RowOfBound(k: nat, height: nat, width: nat)
    requires width >= 1 && k < Area(height, width)
    ensures RowOf(k, width) < height
  {
    if k >= width {
      RowOfBound(k - width, height - 1, width);
    }
  }

  /** The samples of block `block` in pulse-stack bin `bin`: one per pulse
      of the block, the stack holding pulse y's bin x at Cell(y, x, nrx). */
  function StackColumn(data: seq<real>, nry: nat, nrx: nat, fftSize: nat, block: nat, bin: nat): (col: seq<real>)
    requires Area(block + 1, fftSize) <= nry && Area(nry, nrx) <= |data| && bin < nrx
    ensures |col| == fftSize
  {
    seq(fftSize, p requires 0 <= p < fftSize =>
      CellBound(block, p, block + 1, fftSize); CellBound(Cell(block, p, fftSize), bin, nry, nrx);
      data[Cell(Cell(block, p, fftSize), bin, nrx)])
  }

  /** Sample p of a stack column is the stack cell of pulse p of the
      block in that bin. */
  lemma StackColumnAt(data: seq<real>, nry: nat, nrx: nat, fftSize: nat, block: nat, bin: nat, p: nat)
    requires Area(block + 1, fftSize) <= nry && Area(nry, nrx) <= |data| && bin < nrx && p < fftSize
    ensures Cell(Cell(block, p, fftSize), bin, nrx) < |data|
    ensures StackColumn(data, nry, nrx, fftSize, block, bin)[p] == data[Cell(Cell(block, p, fftSize), bin, nrx)]
  {
    CellBound(block, p, block + 1, fftSize);
    CellBound(Cell(block, p, fftSize), bin, nry, nrx);
  }

  /** n cells of zero. */
  function Zeros(n: nat): (z: seq<real>)
    ensures |z| == n && forall i :: 0 <= i < n ==> z[i] == 0.0
  {
    seq(n, _ => 0.0)
  }

  /** Writes zero to the first n cells of `a`, as the source's clearing
      loops over its output buffers do. */
  method ZeroPrefix(a: array<real>, n: nat)
    requires n <= a.Length
    modifies a
    ensures forall k :: 0 <= k < n ==> a[k] == 0.0
    ensures forall k :: n <= k < a.Length ==> a[k] == old(a[k])
  {
    var i := 0;
    while i < n
      invariant 0 <= i <= n
      invariant forall k :: 0 <= k < i ==> a[k] == 0.0
      invariant forall k :: i <= k < a.Length ==> a[k] == old(a[k])
    {
      a[i] := 0.0;
      i := i + 1;
    }
  }
}
