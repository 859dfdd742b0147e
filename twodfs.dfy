/** The two-dimensional fluctuation spectrum (`calc2DFS` in
    src/lib/spectra.c): the pulse stack is cut into blocks of `fftSize`
    pulses; the on-pulse longitude window of every block is transformed in
    two dimensions and its power accumulated with the columns rotated so
    that zero horizontal frequency sits in the middle column; the same is
    done for the first all-off-pulse window of the same width, and
    subtracted. The transform itself is not modelled: `Magnitude2D` gives
    the magnitude of the complex coefficient (column nb, row np) of the
    transform of a window. */
module TwoDFS {
  import opened Grid
  import opened Regions
  import opened Wrappers

  /** |F[nb][np]|: the magnitude of coefficient (nb, np) of the
      two-dimensional real-to-complex transform of a row-major window
      (nb runs over longitude, np over pulse-number frequency). */
  type Magnitude2D = (seq<real>, int, int) -> real

  // ---------------------------------------------------------------------
  // The power-of-two test on the transform length
  // ---------------------------------------------------------------------

  function Pow2(e: nat): (r: nat)
    ensures r >= 1
  {
    if e == 0 then 1 else 2 * Pow2(e - 1)
  }

  /** n is a power of two: the integer reading of the log/pow test. */
  predicate IsPowerOfTwo(n: nat)
  {
    n == 1 || (n >= 2 && n % 2 == 0 && IsPowerOfTwo(n / 2))
  }

  function Log2(n: nat): nat
    requires n >= 1
  {
    if n == 1 then 0 else 1 + Log2(n / 2)
  }

  /** Every number the test accepts is 2 to the power of its logarithm. */
  lemma {:induction false} PowerOfTwoSound(n: nat)
    requires IsPowerOfTwo(n)
    ensures n >= 1 && Pow2(Log2(n)) == n
  {
    if n != 1 {
      PowerOfTwoSound(n / 2);
    }
  }

  /** Every power of two passes the test. */
  lemma {:induction false} PowerOfTwoComplete(e: nat)
    ensures IsPowerOfTwo(Pow2(e))
  {
    if e > 0 {
      PowerOfTwoComplete(e - 1);
      assert Pow2(e) / 2 == Pow2(e - 1);
    }
  }

  // ---------------------------------------------------------------------
  // The validation ladder
  // ---------------------------------------------------------------------

  datatype Rejection2DFS =
    | LengthNotPowerOfTwo   // the transform length fails the power-of-two test
    | NoRegionTable         // no region table is given (NULL)
    | RegionNotSelected     // the selected region is not defined
    | RegionNotInBins       // the region is not given in bins
    | OddRegionWidth        // the on-pulse width is odd
    | TooFewPulses          // fewer pulses than one transform length
    | NoRegions             // the table holds no regions

  /** The outcome of the checks: the on-pulse window and number of blocks
      to transform, a rejection, or a read outside the region table. */
  datatype Plan2DFS =
    | Plan(left: int, width: int, blocks: nat)
    | Rejected(why: Rejection2DFS)
    | OutsideTable

  /** The checks of src/lib/spectra.c:44-98, AS WRITTEN: the region
      table is dereferenced before its NULL test (which can then never
      fire), and `nrRegions < region` lets `region == nrRegions` through,
      reading the slot just past the regions in use. */
  function Validate2DFSAsWritten(nry: nat, fftSize: nat, onpulse: Option<RegionSet>, region: nat): (p: Plan2DFS)
    requires fftSize >= 1
    requires onpulse.Some? ==> onpulse.value.WellFormed()
    ensures p.Plan? ==> onpulse.Some? && region <= onpulse.value.nrRegions
    ensures onpulse.None? && IsPowerOfTwo(fftSize) ==> p == OutsideTable
  {
    if !IsPowerOfTwo(fftSize) then Rejected(LengthNotPowerOfTwo)
    else if onpulse.None? then OutsideTable
    else
      var r := onpulse.value;
      if r.nrRegions < region then Rejected(RegionNotSelected)
      else if region >= |r.binsDefined| then OutsideTable
      else if !r.binsDefined[region] then Rejected(RegionNotInBins)
      else
        var w := r.rightBin[region] - r.leftBin[region] + 1;
        if w % 2 != 0 then Rejected(OddRegionWidth)
        else if nry / fftSize == 0 then Rejected(TooFewPulses)
        else if r.nrRegions == 0 then Rejected(NoRegions)
        else Plan(r.leftBin[region], w, nry / fftSize)
  }

  /** The checks as evidently intended, and as the rest of the model uses
      them: the NULL test comes before the first dereference and the
      region index must be below the number of regions. */
  function Validate2DFS(nry: nat, fftSize: nat, onpulse: Option<RegionSet>, region: nat): (p: Plan2DFS)
    requires fftSize >= 1
    requires onpulse.Some? ==> onpulse.value.WellFormed()
    ensures !p.OutsideTable?
    ensures p.Plan? <==>
      IsPowerOfTwo(fftSize) && onpulse.Some? && region < onpulse.value.nrRegions
      && onpulse.value.binsDefined[region]
      && (onpulse.value.rightBin[region] - onpulse.value.leftBin[region] + 1) % 2 == 0
      && nry >= fftSize
    ensures p.Plan? ==>
      p.left == onpulse.value.leftBin[region]
      && p.width == onpulse.value.rightBin[region] - p.left + 1
      && p.blocks >= 1 && Area(p.blocks, fftSize) <= nry < Area(p.blocks + 1, fftSize)
  {
    if !IsPowerOfTwo(fftSize) then Rejected(LengthNotPowerOfTwo)
    else if onpulse.None? then Rejected(NoRegionTable)
    else
      var r := onpulse.value;
      if region >= r.nrRegions then Rejected(RegionNotSelected)
      else if !r.binsDefined[region] then Rejected(RegionNotInBins)
      else
        var w := r.rightBin[region] - r.leftBin[region] + 1;
        if w % 2 != 0 then Rejected(OddRegionWidth)
        else if nry / fftSize == 0 then Rejected(TooFewPulses)
        else if r.nrRegions == 0 then Rejected(NoRegions)
        else BlocksFit(nry, fftSize); Plan(r.leftBin[region], w, nry / fftSize)
  }

  /** With one region in use and a second, stale, slot in the table,
      region 1 passes the checks as written and its stale bins are used. */
  lemma StaleSlotAccepted()
    ensures Validate2DFSAsWritten(8, 4, Some(RegionSet(1, [true, true], [0, 4], [1, 5], b => b < 2)), 1)
            == Plan(4, 2, 2)
    ensures Validate2DFS(8, 4, Some(RegionSet(1, [true, true], [0, 4], [1, 5], b => b < 2)), 1)
            == Rejected(RegionNotSelected)
  {
    assert IsPowerOfTwo(4) by { assert IsPowerOfTwo(2); }
  }

  /** With a full table, region == nrRegions is read from outside it; a
      NULL table is dereferenced before its test. */
  lemma ReadOutsideTable()
    ensures Validate2DFSAsWritten(8, 4, Some(RegionSet(1, [true], [0], [1], b => b < 2)), 1) == OutsideTable
    ensures Validate2DFSAsWritten(8, 4, None, 0) == OutsideTable
    ensures Validate2DFS(8, 4, None, 0) == Rejected(NoRegionTable)
  {
    assert IsPowerOfTwo(4) by { assert IsPowerOfTwo(2); }
  }

  // ---------------------------------------------------------------------
  // The off-pulse window search
  // ---------------------------------------------------------------------

  /** Bins left .. left+width-1 all lie in [0, nrx) and none is on-pulse. */
  predicate WindowFree(nrx: nat, width: nat, onPulse: int -> bool, left: int)
  {
    0 <= left && left + width <= nrx && forall b :: left <= b < left + width ==> !onPulse(b)
  }

  /** The first off-pulse window at or after `from`, or -1 if none. */
  function FirstFreeWindow(nrx: nat, width: nat, onPulse: int -> bool, from: nat): (l: int)
    ensures l == -1 || (from <= l < nrx && WindowFree(nrx, width, onPulse, l))
    decreases nrx - from
  {
    if from >= nrx then -1
    else if WindowFree(nrx, width, onPulse, from) then from
    else FirstFreeWindow(nrx, width, onPulse, from + 1)
  }

  /** FirstFreeWindow finds the leftmost free window starting below nrx,
      and -1 exactly when there is none. */
  lemma {:induction false} FirstFreeWindowIsLeftmost(nrx: nat, width: nat, onPulse: int -> bool, from: nat)
    ensures var l := FirstFreeWindow(nrx, width, onPulse, from);
      (l == -1 <==> forall m :: from <= m < nrx ==> !WindowFree(nrx, width, onPulse, m))
      && (l != -1 ==> from <= l < nrx && WindowFree(nrx, width, onPulse, l)
                      && forall m :: from <= m < l ==> !WindowFree(nrx, width, onPulse, m))
    decreases nrx - from
  {
    if from < nrx && !WindowFree(nrx, width, onPulse, from) {
      FirstFreeWindowIsLeftmost(nrx, width, onPulse, from + 1);
    }
  }

  /** The search loop of src/lib/spectra.c:117-137. */
  method FindOffpulseWindow(nrx: nat, width: nat, onPulse: int -> bool) returns (left: int)
    ensures left == FirstFreeWindow(nrx, width, onPulse, 0)
    ensures left == -1 <==> forall m :: 0 <= m < nrx ==> !WindowFree(nrx, width, onPulse, m)
    ensures left != -1 ==>
      0 <= left < nrx && WindowFree(nrx, width, onPulse, left)
      && forall m :: 0 <= m < left ==> !WindowFree(nrx, width, onPulse, m)
  {
    var ok := false;
    left := 0;
    while left < nrx
      invariant 0 <= left <= nrx
      invariant FirstFreeWindow(nrx, width, onPulse, 0) == FirstFreeWindow(nrx, width, onPulse, left)
      invariant !ok
    {
      ok := true;
      var i := 0;
      while i < width
        invariant 0 <= i <= width
        invariant ok ==> left + i <= nrx && forall b :: left <= b < left + i ==> !onPulse(b)
        invariant !ok ==> !WindowFree(nrx, width, onPulse, left)
      {
        if i + left >= nrx {
          ok := false;
          break;
        }
        if onPulse(i + left) {
          ok := false;
          break;
        }
        i := i + 1;
      }
      if ok {
        break;
      }
      left := left + 1;
    }
    if !ok {
      left := -1;
    }
    FirstFreeWindowIsLeftmost(nrx, width, onPulse, 0);
  }

  // ---------------------------------------------------------------------
  // The column rotation
  // ---------------------------------------------------------------------

  /** Column `nb` of the transform goes to column `nb + width/2`, wrapped. */
  function Shift(nb: int, width: int): int
  {
    if nb + width / 2 >= width then nb + width / 2 - width else nb + width / 2
  }

  /** The transform column that lands in output column c. */
  function Unshift(c: int, width: int): int
  {
    if c >= width / 2 then c - width / 2 else c + width - width / 2
  }

  /** The rotation is a bijection on [0, width) with inverse Unshift. */
  lemma ShiftIsBijection(width: int)
    requires width >= 1
    ensures forall nb :: 0 <= nb < width ==> 0 <= Shift(nb, width) < width && Unshift(Shift(nb, width), width) == nb
    ensures forall c :: 0 <= c < width ==> 0 <= Unshift(c, width) < width && Shift(Unshift(c, width), width) == c
  {
  }

  // ---------------------------------------------------------------------
  // One block
  // ---------------------------------------------------------------------

  /** The window of block `block`: `width` longitude bins from `left`, by
      `fftSize` pulses, stored with the pulse index running fastest. */
  function Window(data: seq<real>, nry: nat, nrx: nat, fftSize: nat, block: nat, left: nat, width: nat): (w: seq<real>)
    requires Area(block + 1, fftSize) <= nry && Area(nry, nrx) <= |data| && left + width <= nrx
    ensures |w| == Area(width, fftSize)
  {
    if width == 0 then []
    else Window(data, nry, nrx, fftSize, block, left, width - 1) + StackColumn(data, nry, nrx, fftSize, block, left + width - 1)
  }

  /** Coefficient p of window column b sits at Cell(b, p). */
  lemma {:induction false} WindowAt(data: seq<real>, nry: nat, nrx: nat, fftSize: nat, block: nat, left: nat, width: nat,
                                    b: nat, p: nat)
    requires Area(block + 1, fftSize) <= nry && Area(nry, nrx) <= |data| && left + width <= nrx
    requires b < width && p < fftSize
    ensures Cell(b, p, fftSize) < Area(width, fftSize)
    ensures Window(data, nry, nrx, fftSize, block, left, width)[Cell(b, p, fftSize)]
         == StackColumn(data, nry, nrx, fftSize, block, left + b)[p]
  {
    CellBound(b, p, width, fftSize);
    CellCol(b, p, fftSize);
    if b < width - 1 {
      WindowAt(data, nry, nrx, fftSize, block, left, width - 1, b, p);
    }
  }

  /** What one block adds to output cell (row, col): nothing in row 0, and
      the squared magnitude of the coefficient whose column rotates to col
      elsewhere. */
  function BlockPower(mag: Magnitude2D, input: seq<real>, width: int, row: int, col: int): real
  {
    if row == 0 then 0.0 else Sq(mag(input, Unshift(col, width), row))
  }

  /** Copies the window of one block into the transform's input buffer
      (src/lib/spectra.c:146-154 and 182-190). */
  method ExtractWindow(data: seq<real>, nry: nat, nrx: nat, fftSize: nat, block: nat, left: nat, width: nat, input: array<real>)
    requires Area(block + 1, fftSize) <= nry && Area(nry, nrx) <= |data| && left + width <= nrx
    requires input.Length == Area(width, fftSize)
    modifies input
    ensures input[..] == Window(data, nry, nrx, fftSize, block, left, width)
  {
    var nb := 0;
    while nb < width
      invariant 0 <= nb <= width
      invariant Area(nb, fftSize) <= Area(width, fftSize)
      invariant input[..Area(nb, fftSize)] == Window(data, nry, nrx, fftSize, block, left, nb)
    {
      AreaMonotone(nb + 1, width, fftSize);
      ExtractWindowColumn(data, nry, nrx, fftSize, block, left, width, nb, input, Window(data, nry, nrx, fftSize, block, left, nb));
      nb := nb + 1;
    }
    assert input[..] == input[..Area(width, fftSize)];
  }

  /** Writing cell `done` of a buffer extends its prefix up to `done` by
      the value written. */
  lemma PrefixStep(s: seq<real>, done: nat, v: real)
    requires done < |s|
    ensures s[done := v][..done + 1] == s[..done] + [v]
  {
  }

  /** One pass of the column loop of ExtractWindow: the fftSize samples of
      bin left+nb go to cells Cell(nb, 0) .. Cell(nb, fftSize-1). */
  method ExtractWindowColumn(data: seq<real>, nry: nat, nrx: nat, fftSize: nat, block: nat, left: nat, width: nat, nb: nat,
                             input: array<real>, ghost before: seq<real>)
    requires Area(block + 1, fftSize) <= nry && Area(nry, nrx) <= |data| && left + width <= nrx
    requires nb < width && Area(nb + 1, fftSize) <= input.Length
    requires input[..Area(nb, fftSize)] == before
    modifies input
    ensures input[..Area(nb + 1, fftSize)] == before + StackColumn(data, nry, nrx, fftSize, block, left + nb)
  {
    ghost var col := StackColumn(data, nry, nrx, fftSize, block, left + nb);
    var np := 0;
    while np < fftSize
      invariant 0 <= np <= fftSize
      invariant Cell(nb, np, fftSize) == Area(nb, fftSize) + np
      invariant input[..Cell(nb, np, fftSize)] == before + col[..np]
    {
      var next := np + 1;
      CellCol(nb, next, fftSize);
      StackColumnAt(data, nry, nrx, fftSize, block, nb + left, np);
      ghost var done, pre := Cell(nb, np, fftSize), input[..];
      input[Cell(nb, np, fftSize)] := data[Cell(Cell(block, np, fftSize), nb + left, nrx)];
      assert input[..] == pre[done := col[np]];
      PrefixStep(pre, done, col[np]);
      assert col[..next] == col[..np] + [col[np]];
      np := next;
    }
    assert col[..fftSize] == col;
    CellCol(nb, fftSize, fftSize);
  }

  // ---------------------------------------------------------------------
  // The column sweep shared by the on- and off-pulse passes
  // ---------------------------------------------------------------------

  /** Whether output cell (r, c) has been updated when the loop is at row
      np of transform column nb: the column that lands in c is done, or it
      is column nb and r lies above np. */
  predicate Visited(width: int, nb: int, np: int, r: int, c: int)
  {
    Unshift(c, width) < nb || (Unshift(c, width) == nb && r < np)
  }

  /** `s0` part way through a sweep that adds gain(r, c) to every cell
      (r, c) of the first half+1 rows: the cells visited so far have
      gained it, all others are as they were. */
  ghost function Sweep(s0: seq<real>, width: nat, half: nat, gain: (int, int) -> real, nb: int, np: int): (t: seq<real>)
    requires width >= 1
    ensures |t| == |s0|
  {
    seq(|s0|, k requires 0 <= k < |s0| =>
      s0[k] + (if k < Area(half + 1, width) && Visited(width, nb, np, RowOf(k, width), ColOf(k, width))
               then gain(RowOf(k, width), ColOf(k, width)) else 0.0))
  }

  /** Flat index k of the first half+1 rows is the cell of its row and
      column, and those lie inside the rows swept. */
  lemma SweepCell(width: nat, half: nat, k: nat)
    requires width >= 1 && k < Area(half + 1, width)
    ensures RowOf(k, width) <= half && ColOf(k, width) < width
    ensures k == Cell(RowOf(k, width), ColOf(k, width), width)
  {
    CellOf(k, width);
    RowOfBound(k, half + 1, width);
  }

  /** Cell (r, c) of a sweep. */
  lemma SweepAt(s0: seq<real>, width: nat, half: nat, gain: (int, int) -> real, nb: int, np: int, r: nat, c: nat)
    requires width >= 1 && Area(half + 1, width) <= |s0| && r <= half && c < width
    ensures Cell(r, c, width) < Area(half + 1, width)
    ensures Sweep(s0, width, half, gain, nb, np)[Cell(r, c, width)]
         == s0[Cell(r, c, width)] + (if Visited(width, nb, np, r, c) then gain(r, c) else 0.0)
  {
    var k := Cell(r, c, width);
    CellBound(r, c, half + 1, width);
    SweepCell(width, half, k);
    CellInjective(RowOf(k, width), ColOf(k, width), r, c, width);
  }

  /** Before the sweep, nothing has gained anything. */
  lemma SweepStart(s0: seq<real>, width: nat, half: nat, gain: (int, int) -> real)
    requires width >= 1
    ensures Sweep(s0, width, half, gain, 0, 0) == s0
  {
    forall k | 0 <= k < |s0| && k < Area(half + 1, width)
      ensures !Visited(width, 0, 0, RowOf(k, width), ColOf(k, width))
    {
    }
  }

  /** Adding gain to the cell the sweep is at advances it by one row. */
  lemma SweepWrite(s0: seq<real>, width: nat, half: nat, gain: (int, int) -> real, nb: nat, np: nat)
    requires width >= 1 && Area(half + 1, width) <= |s0| && nb < width && np <= half
    ensures 0 <= Shift(nb, width) < width && Cell(np, Shift(nb, width), width) < |s0|
    ensures var s, idx := Sweep(s0, width, half, gain, nb, np), Cell(np, Shift(nb, width), width);
      Sweep(s0, width, half, gain, nb, np + 1) == s[idx := s[idx] + gain(np, Shift(nb, width))]
  {
    var nb2 := Shift(nb, width);
    var idx := Cell(np, nb2, width);
    SweepAt(s0, width, half, gain, nb, np, np, nb2);
    SweepAt(s0, width, half, gain, nb, np + 1, np, nb2);
    var s := Sweep(s0, width, half, gain, nb, np);
    var t := Sweep(s0, width, half, gain, nb, np + 1);
    forall k | 0 <= k < |s0| && k != idx
      ensures t[k] == s[k]
    {
      if k < Area(half + 1, width) {
        SweepCell(width, half, k);
        var r, c := RowOf(k, width), ColOf(k, width);
        if r == np && c == nb2 {
          assert false;
        }
        assert Visited(width, nb, np, r, c) == Visited(width, nb, np + 1, r, c);
      }
    }
    assert t == s[idx := s[idx] + gain(np, nb2)];
  }

  /** A cell whose gain is zero can be passed over without a write. */
  lemma SweepSkip(s0: seq<real>, width: nat, half: nat, gain: (int, int) -> real, nb: nat, np: nat)
    requires width >= 1 && Area(half + 1, width) <= |s0| && nb < width && np <= half
    requires gain(np, Shift(nb, width)) == 0.0
    ensures Sweep(s0, width, half, gain, nb, np + 1) == Sweep(s0, width, half, gain, nb, np)
  {
    SweepWrite(s0, width, half, gain, nb, np);
    var s := Sweep(s0, width, half, gain, nb, np);
    var idx := Cell(np, Shift(nb, width), width);
    assert s[idx := s[idx] + 0.0] == s;
  }

  /** After all half+1 rows of column nb the sweep moves to column nb+1. */
  lemma SweepColumn(s0: seq<real>, width: nat, half: nat, gain: (int, int) -> real, nb: int)
    requires width >= 1
    ensures Sweep(s0, width, half, gain, nb, half + 1) == Sweep(s0, width, half, gain, nb + 1, 0)
  {
    forall k | 0 <= k < |s0| && k < Area(half + 1, width)
      ensures Visited(width, nb, half + 1, RowOf(k, width), ColOf(k, width))
           == Visited(width, nb + 1, 0, RowOf(k, width), ColOf(k, width))
    {
      SweepCell(width, half, k);
    }
  }

  /** After every column, every cell of the first half+1 rows has gained
      its gain, and the rest is untouched. */
  lemma SweepDone(s0: seq<real>, width: nat, half: nat, gain: (int, int) -> real)
    requires width >= 1 && Area(half + 1, width) <= |s0|
    ensures forall r: nat, c: nat :: r <= half && c < width ==>
      Cell(r, c, width) < |s0|
      && Sweep(s0, width, half, gain, width, 0)[Cell(r, c, width)] == s0[Cell(r, c, width)] + gain(r, c)
    ensures forall k :: Area(half + 1, width) <= k < |s0| ==> Sweep(s0, width, half, gain, width, 0)[k] == s0[k]
  {
    ShiftIsBijection(width);
    forall r: nat, c: nat | r <= half && c < width
      ensures Cell(r, c, width) < |s0|
      ensures Sweep(s0, width, half, gain, width, 0)[Cell(r, c, width)] == s0[Cell(r, c, width)] + gain(r, c)
    {
      SweepAt(s0, width, half, gain, width, 0, r, c);
    }
  }

  /** The on-pulse accumulation of one block (src/lib/spectra.c:157-167):
      every output cell (r, c) gains BlockPower. */
  method AddOnPulse(twodfs: array<real>, width: nat, half: nat, input: seq<real>, mag: Magnitude2D)
    requires width >= 1 && Area(half + 1, width) <= twodfs.Length
    modifies twodfs
    ensures forall r: nat, c: nat :: r <= half && c < width ==>
      Cell(r, c, width) < twodfs.Length
      && twodfs[Cell(r, c, width)] == old(twodfs[Cell(r, c, width)]) + BlockPower(mag, input, width, r, c)
    ensures forall k :: Area(half + 1, width) <= k < twodfs.Length ==> twodfs[k] == old(twodfs[k])
  {
    ShiftIsBijection(width);
    ghost var gain := (r: int, c: int) => BlockPower(mag, input, width, r, c);
    ghost var s0 := twodfs[..];
    SweepStart(s0, width, half, gain);
    var nb := 0;
    while nb < width
      invariant 0 <= nb <= width
      invariant twodfs[..] == Sweep(s0, width, half, gain, nb, 0)
    {
      AddOnPulseColumn(twodfs, width, half, input, mag, nb, s0, gain);
      nb := nb + 1;
    }
    SweepDone(s0, width, half, gain);
  }

  /** One pass of the column loop of AddOnPulse: rows 1 .. half of
      transform column nb go into output column Shift(nb). */
  method AddOnPulseColumn(twodfs: array<real>, width: nat, half: nat, input: seq<real>, mag: Magnitude2D, nb: nat,
                          ghost s0: seq<real>, ghost gain: (int, int) -> real)
    requires nb < width && Area(half + 1, width) <= |s0|
    requires gain(0, Shift(nb, width)) == 0.0
    requires forall np :: 0 < np <= half ==> gain(np, Shift(nb, width)) == Sq(mag(input, nb, np))
    requires twodfs[..] == Sweep(s0, width, half, gain, nb, 0)
    modifies twodfs
    ensures twodfs[..] == Sweep(s0, width, half, gain, nb + 1, 0)
  {
    var nb2 := Shift(nb, width);
    var np := 0;
    while np < half + 1
      invariant 0 <= np <= half + 1
      invariant twodfs[..] == Sweep(s0, width, half, gain, nb, np)
    {
      if np != 0 {
        var pwr := mag(input, nb, np);
        SweepWrite(s0, width, half, gain, nb, np);
        twodfs[Cell(np, nb2, width)] := twodfs[Cell(np, nb2, width)] + Sq(pwr);
        assert twodfs[..] == Sweep(s0, width, half, gain, nb, np + 1);
      } else {
        SweepSkip(s0, width, half, gain, nb, np);
      }
      np := np + 1;
    }
    SweepColumn(s0, width, half, gain, nb);
  }

  /** The off-pulse subtraction of one block, with the braces the
      indentation of src/lib/spectra.c:197-200 evidently intends: row 0 is
      skipped as in the on-pulse pass. */
  method SubtractOffPulse(twodfs: array<real>, width: nat, half: nat, input: seq<real>, mag: Magnitude2D)
    requires width >= 1 && Area(half + 1, width) <= twodfs.Length
    modifies twodfs
    ensures forall r: nat, c: nat :: r <= half && c < width ==>
      Cell(r, c, width) < twodfs.Length
      && twodfs[Cell(r, c, width)] == old(twodfs[Cell(r, c, width)]) - BlockPower(mag, input, width, r, c)
    ensures forall k :: Area(half + 1, width) <= k < twodfs.Length ==> twodfs[k] == old(twodfs[k])
  {
    ShiftIsBijection(width);
    ghost var gain := (r: int, c: int) => -BlockPower(mag, input, width, r, c);
    ghost var s0 := twodfs[..];
    SweepStart(s0, width, half, gain);
    var nb := 0;
    while nb < width
      invariant 0 <= nb <= width
      invariant twodfs[..] == Sweep(s0, width, half, gain, nb, 0)
    {
      SubtractOffPulseColumn(twodfs, width, half, input, mag, nb, s0, gain);
      nb := nb + 1;
    }
    SweepDone(s0, width, half, gain);
  }

  /** One pass of the column loop of SubtractOffPulse. */
  method SubtractOffPulseColumn(twodfs: array<real>, width: nat, half: nat, input: seq<real>, mag: Magnitude2D, nb: nat,
                                ghost s0: seq<real>, ghost gain: (int, int) -> real)
    requires nb < width && Area(half + 1, width) <= |s0|
    requires gain(0, Shift(nb, width)) == 0.0
    requires forall np :: 0 < np <= half ==> gain(np, Shift(nb, width)) == -Sq(mag(input, nb, np))
    requires twodfs[..] == Sweep(s0, width, half, gain, nb, 0)
    modifies twodfs
    ensures twodfs[..] == Sweep(s0, width, half, gain, nb + 1, 0)
  {
    var nb2 := Shift(nb, width);
    var np := 0;
    while np < half + 1
      invariant 0 <= np <= half + 1
      invariant twodfs[..] == Sweep(s0, width, half, gain, nb, np)
    {
      var next := np + 1;
      if np != 0 {
        var pwr := mag(input, nb, np);
        SweepWrite(s0, width, half, gain, nb, np);
        twodfs[Cell(np, nb2, width)] := twodfs[Cell(np, nb2, width)] - Sq(pwr);
        assert twodfs[..] == Sweep(s0, width, half, gain, nb, next);
      } else {
        SweepSkip(s0, width, half, gain, nb, np);
      }
      np := next;
    }
    SweepColumn(s0, width, half, gain, nb);
  }

  /** The value `pwr` holds when transform column nb reaches row 0 in the
      off-pulse pass as written: the magnitude last computed, which is
      that of column nb-1's top row, or the value carried in (`pwrIn`,
      the last magnitude of the on-pulse pass) for column 0. With a
      transform length of 1 no magnitude is ever computed. */
  function StalePower(mag: Magnitude2D, input: seq<real>, half: nat, pwrIn: real, nb: int): real
  {
    if nb <= 0 || half == 0 then pwrIn else mag(input, nb - 1, half)
  }

  /** What the as-written off-pulse pass subtracts from output cell
      (r, c): the square of the stale magnitude in row 0, BlockPower
      elsewhere. */
  function OffPowerAsWritten(mag: Magnitude2D, input: seq<real>, width: nat, half: nat, pwrIn: real, r: int, c: int): real
  {
    if r == 0 then Sq(StalePower(mag, input, half, pwrIn, Unshift(c, width)))
    else BlockPower(mag, input, width, r, c)
  }

  /** The off-pulse subtraction of src/lib/spectra.c:193-202 AS WRITTEN:
      without braces only the assignment to `pwr` is guarded, so row 0 is
      decremented by the square of a stale magnitude. */
  method SubtractOffPulseAsWritten(twodfs: array<real>, width: nat, half: nat, input: seq<real>, mag: Magnitude2D, pwrIn: real)
    returns (pwrOut: real)
    requires width >= 1 && Area(half + 1, width) <= twodfs.Length
    modifies twodfs
    ensures forall r: nat, c: nat :: r <= half && c < width ==>
      Cell(r, c, width) < twodfs.Length
      && twodfs[Cell(r, c, width)] == old(twodfs[Cell(r, c, width)]) - OffPowerAsWritten(mag, input, width, half, pwrIn, r, c)
    ensures forall k :: Area(half + 1, width) <= k < twodfs.Length ==> twodfs[k] == old(twodfs[k])
    ensures pwrOut == StalePower(mag, input, half, pwrIn, width)
  {
    ShiftIsBijection(width);
    ghost var gain := (r: int, c: int) => -OffPowerAsWritten(mag, input, width, half, pwrIn, r, c);
    ghost var s0 := twodfs[..];
    SweepStart(s0, width, half, gain);
    var pwr := pwrIn;
    var nb := 0;
    while nb < width
      invariant 0 <= nb <= width
      invariant pwr == StalePower(mag, input, half, pwrIn, nb)
      invariant twodfs[..] == Sweep(s0, width, half, gain, nb, 0)
    {
      pwr := SubtractOffPulseColumnAsWritten(twodfs, width, half, input, mag, nb, pwr, s0, gain);
      nb := nb + 1;
    }
    SweepDone(s0, width, half, gain);
    pwrOut := pwr;
  }

  /** One pass of the column loop of SubtractOffPulseAsWritten: row 0
      loses the square of `pwrIn`, the magnitude left over from before. */
  method SubtractOffPulseColumnAsWritten(twodfs: array<real>, width: nat, half: nat, input: seq<real>, mag: Magnitude2D,
                                         nb: nat, pwrIn: real, ghost s0: seq<real>, ghost gain: (int, int) -> real)
    returns (pwrOut: real)
    requires nb < width && Area(half + 1, width) <= |s0|
    requires gain(0, Shift(nb, width)) == -Sq(pwrIn)
    requires forall np :: 0 < np <= half ==> gain(np, Shift(nb, width)) == -Sq(mag(input, nb, np))
    requires twodfs[..] == Sweep(s0, width, half, gain, nb, 0)
    modifies twodfs
    ensures twodfs[..] == Sweep(s0, width, half, gain, nb + 1, 0)
    ensures pwrOut == if half == 0 then pwrIn else mag(input, nb, half)
  {
    var pwr := pwrIn;
    var nb2 := Shift(nb, width);
    var np := 0;
    while np < half + 1
      invariant 0 <= np <= half + 1
      invariant np <= 1 ==> pwr == pwrIn
      invariant np > 1 ==> pwr == mag(input, nb, np - 1)
      invariant twodfs[..] == Sweep(s0, width, half, gain, nb, np)
    {
      var next := np + 1;
      if np != 0 {
        pwr := mag(input, nb, np);
      }
      assert gain(np, nb2) == -Sq(pwr);
      SweepWrite(s0, width, half, gain, nb, np);
      twodfs[Cell(np, nb2, width)] := twodfs[Cell(np, nb2, width)] - Sq(pwr);
      assert twodfs[..] == Sweep(s0, width, half, gain, nb, next);
      np := next;
    }
    SweepColumn(s0, width, half, gain, nb);
    pwrOut := pwr;
  }

  /** A window whose every coefficient has magnitude 1, with a last
      on-pulse magnitude of 1: on a cleared two-column output, the
      as-written pass leaves -1 in cell (0, 0) where the intended pass
      leaves 0. */
  method StaleRowZeroIsNotZero() returns (asWritten: real, intended: real)
    ensures asWritten == -1.0 && intended == 0.0
  {
    var mag: Magnitude2D := (s: seq<real>, nb: int, np: int) => 1.0;
    var input := [0.0, 0.0, 0.0, 0.0];
    assert Cell(0, 0, 2) == 0;
    var stale := new real[4](_ => 0.0);
    var pwr := SubtractOffPulseAsWritten(stale, 2, 1, input, mag, 1.0);
    asWritten := stale[0];
    var braced := new real[4](_ => 0.0);
    SubtractOffPulse(braced, 2, 1, input, mag);
    intended := braced[0];
  }

  // ---------------------------------------------------------------------
  // The whole spectrum
  // ---------------------------------------------------------------------

  /** Output cell (r, c) after `n` blocks: the on-pulse power summed over
      the blocks, less the off-pulse window's power when a window was
      found (`offLeft >= 0`). */
  function Spectrum2DFS(data: seq<real>, nry: nat, nrx: nat, fftSize: nat, onLeft: nat, offLeft: int, width: nat,
                        mag: Magnitude2D, n: nat, r: int, c: int): real
    requires Area(n, fftSize) <= nry && Area(nry, nrx) <= |data|
    requires onLeft + width <= nrx && offLeft + width <= nrx
  {
    if n == 0 then 0.0
    else
      Spectrum2DFS(data, nry, nrx, fftSize, onLeft, offLeft, width, mag, n - 1, r, c)
      + BlockPower(mag, Window(data, nry, nrx, fftSize, n - 1, onLeft, width), width, r, c)
      - (if offLeft >= 0 then BlockPower(mag, Window(data, nry, nrx, fftSize, n - 1, offLeft, width), width, r, c)
         else 0.0)
  }

  /** Row 0 (zero pulse-number frequency) of the spectrum stays zero. */
  lemma {:induction false} RowZeroStaysZero(data: seq<real>, nry: nat, nrx: nat, fftSize: nat, onLeft: nat, offLeft: int,
                                            width: nat, mag: Magnitude2D, n: nat, c: int)
    requires Area(n, fftSize) <= nry && Area(nry, nrx) <= |data|
    requires onLeft + width <= nrx && offLeft + width <= nrx
    ensures Spectrum2DFS(data, nry, nrx, fftSize, onLeft, offLeft, width, mag, n, 0, c) == 0.0
  {
    if n > 0 {
      RowZeroStaysZero(data, nry, nrx, fftSize, onLeft, offLeft, width, mag, n - 1, c);
    }
  }

  /** A stack of zeros gives an exactly zero spectrum, given a transform
      that maps a zero window to zero. */
  lemma {:induction false} ZeroStackZeroSpectrum(data: seq<real>, nry: nat, nrx: nat, fftSize: nat, onLeft: nat, offLeft: int,
                                                 width: nat, mag: Magnitude2D, n: nat, r: int, c: int)
    requires Area(n, fftSize) <= nry && Area(nry, nrx) <= |data|
    requires onLeft + width <= nrx && offLeft + width <= nrx
    requires forall i :: 0 <= i < |data| ==> data[i] == 0.0
    requires forall nb, np :: mag(Zeros(Area(width, fftSize)), nb, np) == 0.0
    ensures Spectrum2DFS(data, nry, nrx, fftSize, onLeft, offLeft, width, mag, n, r, c) == 0.0
  {
    if n > 0 {
      ZeroStackZeroSpectrum(data, nry, nrx, fftSize, onLeft, offLeft, width, mag, n - 1, r, c);
      ZeroWindow(data, nry, nrx, fftSize, n - 1, onLeft, width);
      if offLeft >= 0 {
        ZeroWindow(data, nry, nrx, fftSize, n - 1, offLeft, width);
      }
    }
  }

  /** Every window of a stack of zeros is zero. */
  lemma {:induction false} ZeroWindow(data: seq<real>, nry: nat, nrx: nat, fftSize: nat, block: nat, left: nat, width: nat)
    requires Area(block + 1, fftSize) <= nry && Area(nry, nrx) <= |data| && left + width <= nrx
    requires forall i :: 0 <= i < |data| ==> data[i] == 0.0
    ensures Window(data, nry, nrx, fftSize, block, left, width) == Zeros(Area(width, fftSize))
  {
    if width > 0 {
      ZeroWindow(data, nry, nrx, fftSize, block, left, width - 1);
      var col := StackColumn(data, nry, nrx, fftSize, block, left + width - 1);
      forall p | 0 <= p < fftSize
        ensures col[p] == 0.0
      {
        CellBound(block, p, block + 1, fftSize);
        CellBound(Cell(block, p, fftSize), left + width - 1, nry, nrx);
      }
      assert col == Zeros(fftSize);
      assert Zeros(Area(width - 1, fftSize)) + Zeros(fftSize) == Zeros(Area(width, fftSize));
    }
  }

  /** The selected region fits inside a pulse and the output buffer holds
      its spectrum. */
  predicate PlanFits(p: Plan2DFS, nrx: nat, fftSize: nat, outLength: nat)
    requires p.Plan?
  {
    p.left >= 0 && p.width >= 1 && p.left + p.width <= nrx && Area(fftSize / 2 + 1, p.width) <= outLength
  }

  /** calc2DFS (src/lib/spectra.c:29-233), with the checks and the
      off-pulse pass as intended. On success output cell (r, c) of the
      first fftSize/2+1 rows holds Spectrum2DFS over all blocks, with the
      off-pulse window the search finds; on failure nothing is written. */
  method Calc2DFS(data: seq<real>, nry: nat, nrx: nat, fftSize: nat, twodfs: array<real>,
                  onpulse: Option<RegionSet>, region: nat, mag: Magnitude2D) returns (ok: bool)
    requires fftSize >= 1 && Area(nry, nrx) <= |data|
    requires onpulse.Some? ==> onpulse.value.WellFormed()
    requires Validate2DFS(nry, fftSize, onpulse, region).Plan? ==>
      PlanFits(Validate2DFS(nry, fftSize, onpulse, region), nrx, fftSize, twodfs.Length)
    modifies twodfs
    ensures ok == Validate2DFS(nry, fftSize, onpulse, region).Plan?
    ensures !ok ==> twodfs[..] == old(twodfs[..])
    ensures ok ==>
      var p := Validate2DFS(nry, fftSize, onpulse, region);
      var off := FirstFreeWindow(nrx, p.width, onpulse.value.onPulse, 0);
      (forall r: nat, c: nat :: r <= fftSize / 2 && c < p.width ==>
         Cell(r, c, p.width) < twodfs.Length
         && twodfs[Cell(r, c, p.width)] == Spectrum2DFS(data, nry, nrx, fftSize, p.left, off, p.width, mag, p.blocks, r, c))
      && (forall k :: Area(fftSize / 2 + 1, p.width) <= k < twodfs.Length ==> twodfs[k] == old(twodfs[k]))
  {
    var p := Validate2DFS(nry, fftSize, onpulse, region);
    if !p.Plan? {
      return false;
    }
    ok := true;
    var width, half := p.width, fftSize / 2;
    var offLeft := FindOffpulseWindow(nrx, width, onpulse.value.onPulse);
    var input := new real[Area(width, fftSize)];
    ZeroPrefix(twodfs, Area(half + 1, width));
    forall r: nat, c: nat | r <= half && c < width
      ensures Cell(r, c, width) < Area(half + 1, width)
    {
      CellBound(r, c, half + 1, width);
    }
    assert offLeft + width <= nrx;
    var nf := 0;
    while nf < p.blocks
      invariant 0 <= nf <= p.blocks
      invariant Area(nf, fftSize) <= nry
      invariant forall r: nat, c: nat :: r <= half && c < width ==>
        Cell(r, c, width) < twodfs.Length
        && twodfs[Cell(r, c, width)] == Spectrum2DFS(data, nry, nrx, fftSize, p.left, offLeft, width, mag, nf, r, c)
      invariant forall k :: Area(half + 1, width) <= k < twodfs.Length ==> twodfs[k] == old(twodfs[k])
    {
      AreaMonotone(nf + 1, p.blocks, fftSize);
      ExtractWindow(data, nry, nrx, fftSize, nf, p.left, width, input);
      AddOnPulse(twodfs, width, half, input[..], mag);
      if offLeft >= 0 {
        ExtractWindow(data, nry, nrx, fftSize, nf, offLeft, width, input);
        SubtractOffPulse(twodfs, width, half, input[..], mag);
      }
      nf := nf + 1;
    }
  }
}
