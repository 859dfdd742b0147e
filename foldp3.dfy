/** Folding a pulse stack on the subpulse repetition period P3
    (foldP3_simple and foldP3, src/lib/spectra.c:595-789). Every sample of
    pulse i at longitude bin b has a P3 phase; foldP3_simple adds the sample
    into the phase bins of a map nr_p3_bins rows high and nrx columns wide,
    either split between the two nearest phase bins or spread over all of
    them with a Gaussian in circular distance, and optionally divides each
    cell by the weight it received. foldP3 folds blocks of pulses
    separately, shifting each block by the phase offset that correlates
    best with the map built so far, over one or more passes.

    The angle reduction derotate_deg and the exponential are parameters;
    derotate_deg is taken to return an angle in [0, 360]. */
module P3Fold {
  import opened Grid
  import opened Regions
  import opened Wrappers

  /** The foreign numeric helpers the fold calls. */
  datatype Kernels = Kernels(derotate: real -> real, exp: real -> real)
  {
    /** derotate_deg reduces an angle into [0, 360]. */
    ghost predicate Derotates()
    {
      forall x :: 0.0 <= derotate(x) <= 360.0
    }
  }

  /** The fold settings shared by every call in one foldP3 run:
      the number of phase bins, P3 in pulse periods, whether to give each
      sample to one phase bin only, the Gaussian smoothing width (no
      smoothing when <= 0), the drift of phase with longitude bin, and the
      phase offset of the subpulses in degrees. */
  datatype Fold = Fold(nrP3Bins: nat, foldp3: real, noSmooth: bool, smoothWidth: real, slope: real, offset2: real)
  {
    predicate Valid()
    {
      nrP3Bins >= 1 && foldp3 != 0.0
    }
  }

  // ---------------------------------------------------------------------
  // The P3 phase of a sample and its weights
  // ---------------------------------------------------------------------

  /** The P3 phase in degrees of pulse i (shifted by `offset` pulses) at
      longitude bin b, before reduction (src/lib/spectra.c:608, 635). */
  function Angle(f: Fold, offset: real, i: int, b: int): real
    requires f.Valid()
  {
    360.0 * (i as real + offset) / f.foldp3 - f.slope * b as real + f.offset2
  }

  /** The reduced phase, with 360 mapped to 0 (src/lib/spectra.c:609-611). */
  function Phase(k: Kernels, f: Fold, offset: real, i: int, b: int): (p3: real)
    requires k.Derotates() && f.Valid()
    ensures 0.0 <= p3 < 360.0
  {
    var p := k.derotate(Angle(f, offset, i, b));
    if p == 360.0 then 0.0 else p
  }

  /** The position of phase p3 in units of phase bins. */
  function Position(p3: real, n: nat): (x: real)
    requires 0.0 <= p3 < 360.0 && n >= 1
    ensures 0.0 <= x < n as real
  {
    var q := p3 / 360.0;
    assert q * n as real < 1.0 * n as real;
    q * n as real
  }

  /** The phase bin of p3: its position truncated, as the conversion to
      int truncates (src/lib/spectra.c:612). */
  function BinOf(p3: real, n: nat): (j: nat)
    requires 0.0 <= p3 < 360.0 && n >= 1
    ensures j < n
  {
    Position(p3, n).Floor
  }

  /** The share of the sample that goes to the next phase bin
      (src/lib/spectra.c:613-617). */
  function Frac(p3: real, n: nat, noSmooth: bool): (r: real)
    requires 0.0 <= p3 < 360.0 && n >= 1
    ensures 0.0 <= r < 1.0
  {
    if noSmooth then 0.0 else Position(p3, n) - BinOf(p3, n) as real
  }

  /** The phase bin after j, wrapping to 0 (src/lib/spectra.c:624-626). */
  function NextBin(j: nat, n: nat): (r: nat)
    requires j < n
    ensures r < n
  {
    if j + 1 == n then 0 else j + 1
  }

  /** The weight phase bin j receives from a sample at phase p3 without
      smoothing: 1 - frac to its own bin, frac to the next. */
  function SplitWeight(p3: real, n: nat, noSmooth: bool, j: nat): (w: real)
    requires 0.0 <= p3 < 360.0 && n >= 1
    ensures 0.0 <= w <= 1.0
    ensures noSmooth ==> w == if j == BinOf(p3, n) then 1.0 else 0.0
    ensures j != BinOf(p3, n) && j != NextBin(BinOf(p3, n), n) ==> w == 0.0
  {
    var bin := BinOf(p3, n);
    (if j == bin then 1.0 - Frac(p3, n, noSmooth) else 0.0)
    + (if !noSmooth && j == NextBin(bin, n) then Frac(p3, n, noSmooth) else 0.0)
  }

  /** The part w of sample d. */
  function Share(w: real, d: real): real
  {
    w * d
  }

  /** What phase bin j of the map receives from a sample d at phase p3
      without smoothing (src/lib/spectra.c:618, 621, 627-628). */
  function SplitTerm(p3: real, n: nat, noSmooth: bool, j: nat, d: real): real
    requires 0.0 <= p3 < 360.0 && n >= 1
  {
    var bin := BinOf(p3, n);
    (if j == bin then Share(1.0 - Frac(p3, n, noSmooth), d) else 0.0)
    + (if !noSmooth && j == NextBin(bin, n) then Share(Frac(p3, n, noSmooth), d) else 0.0)
  }

  /** The map receives the sample times its weight. */
  lemma SplitTermIsWeighted(p3: real, n: nat, noSmooth: bool, j: nat, d: real)
    requires 0.0 <= p3 < 360.0 && n >= 1
    ensures SplitTerm(p3, n, noSmooth, j, d) == SplitWeight(p3, n, noSmooth, j) * d
  {
    var bin := BinOf(p3, n);
    var fr := Frac(p3, n, noSmooth);
    if j == bin && !noSmooth && j == NextBin(bin, n) {
      assert (1.0 - fr) * d + fr * d == ((1.0 - fr) + fr) * d;
    }
  }

  /** The weights a sample gives to phase bins 0 .. m-1. */
  function SplitTotal(p3: real, n: nat, noSmooth: bool, m: nat): real
    requires 0.0 <= p3 < 360.0 && n >= 1
  {
    if m == 0 then 0.0 else SplitTotal(p3, n, noSmooth, m - 1) + SplitWeight(p3, n, noSmooth, m - 1)
  }

  lemma {:induction false} SplitTotalUpTo(p3: real, n: nat, noSmooth: bool, m: nat)
    requires 0.0 <= p3 < 360.0 && n >= 1 && m <= n
    ensures SplitTotal(p3, n, noSmooth, m) ==
      (if BinOf(p3, n) < m then 1.0 - Frac(p3, n, noSmooth) else 0.0)
      + (if !noSmooth && NextBin(BinOf(p3, n), n) < m then Frac(p3, n, noSmooth) else 0.0)
  {
    if m > 0 {
      SplitTotalUpTo(p3, n, noSmooth, m - 1);
    }
  }

  /** Without smoothing every sample hands out a total weight of exactly 1
      over the phase bins. */
  lemma SplitWeightsSumToOne(p3: real, n: nat, noSmooth: bool)
    requires 0.0 <= p3 < 360.0 && n >= 1
    ensures SplitTotal(p3, n, noSmooth, n) == 1.0
  {
    SplitTotalUpTo(p3, n, noSmooth, n);
  }

  /** The circular distance in phase bins between position x and bin j,
      taken as the smallest of |x - j|, |x - j + n| and |x - j - n| in that
      order (src/lib/spectra.c:640-646). */
  function CircDist(x: real, j: int, n: nat): (d: real)
    ensures d >= 0.0
  {
    var d0 := Abs(x - j as real);
    var d1 := if Abs(x - j as real + n as real) < d0 then Abs(x - j as real + n as real) else d0;
    if Abs(x - j as real - n as real) < d1 then Abs(x - j as real - n as real) else d1
  }

  function Abs(x: real): (a: real)
    ensures a >= 0.0 && (a == x || a == -x)
  {
    if x < 0.0 then -x else x
  }

  /** The distance round a circle of n bins between position x and bin j:
      the shorter of the two ways round. */
  function RoundDist(x: real, j: nat, n: nat): real
  {
    var a := Abs(x - j as real);
    if a <= n as real - a then a else n as real - a
  }

  /** The three-way comparison of the source is the distance round the
      circle of phase bins. */
  lemma CircDistIsRoundDist(x: real, j: nat, n: nat)
    requires 0.0 <= x < n as real && j < n
    ensures CircDist(x, j, n) == RoundDist(x, j, n)
  {
  }

  /** No phase bin is more than half the circle away. */
  lemma CircDistAtMostHalf(x: real, j: nat, n: nat)
    requires 0.0 <= x < n as real && j < n
    ensures CircDist(x, j, n) <= n as real / 2.0
  {
  }

  /** The weight phase bin j receives from a sample at phase p3 with
      Gaussian smoothing (src/lib/spectra.c:633-647). */
  function SmoothWeight(k: Kernels, p3: real, n: nat, smoothWidth: real, j: nat): real
    requires 0.0 <= p3 < 360.0 && n >= 1 && smoothWidth != 0.0
  {
    k.exp(Exponent(CircDist(Position(p3, n), j, n), smoothWidth))
  }

  /** The smoothing weight is the Gaussian exp(-d^2/w^2) of the distance
      d round the circle between the sample and the phase bin. */
  lemma SmoothWeightIsGaussian(k: Kernels, p3: real, n: nat, smoothWidth: real, j: nat)
    requires 0.0 <= p3 < 360.0 && n >= 1 && smoothWidth != 0.0 && j < n
    ensures SmoothWeight(k, p3, n, smoothWidth, j) == k.exp(Exponent(RoundDist(Position(p3, n), j, n), smoothWidth))
  {
    CircDistIsRoundDist(Position(p3, n), j, n);
  }

  /** The exponent of the Gaussian at distance d (src/lib/spectra.c:647). */
  function Exponent(d: real, smoothWidth: real): real
    requires smoothWidth != 0.0
  {
    -(d * d / (smoothWidth * smoothWidth))
  }

  /** The weight phase bin j receives from pulse i at bin b. */
  function Weight(k: Kernels, f: Fold, offset: real, i: int, b: int, j: nat): real
    requires k.Derotates() && f.Valid()
  {
    var p3 := Phase(k, f, offset, i, b);
    if f.smoothWidth <= 0.0 then SplitWeight(p3, f.nrP3Bins, f.noSmooth, j)
    else SmoothWeight(k, p3, f.nrP3Bins, f.smoothWidth, j)
  }

  /** What cell (j, b) of the map receives from pulse i. */
  function Term(k: Kernels, f: Fold, offset: real, data: seq<real>, nrx: nat, i: nat, b: nat, j: nat): real
    requires k.Derotates() && f.Valid() && b < nrx && Area(i + 1, nrx) <= |data|
  {
    CellBound(i, b, i + 1, nrx);
    var d := data[Cell(i, b, nrx)];
    var p3 := Phase(k, f, offset, i, b);
    if f.smoothWidth <= 0.0 then SplitTerm(p3, f.nrP3Bins, f.noSmooth, j, d)
    else Share(SmoothWeight(k, p3, f.nrP3Bins, f.smoothWidth, j), d)
  }

  // ---------------------------------------------------------------------
  // The fold of a range of pulses
  // ---------------------------------------------------------------------

  /** The sum over pulses lo .. hi-1 of what pulse i gives cell (j, b),
      for a per-pulse contribution g(i, b, j). */
  function Total(g: (nat, nat, nat) -> real, lo: nat, hi: nat, b: nat, j: nat): real
    decreases hi
  {
    if hi <= lo then 0.0 else Total(g, lo, hi - 1, b, j) + g(hi - 1, b, j)
  }

  /** The weight every pulse gives every cell. */
  function Weights(k: Kernels, f: Fold, offset: real): (nat, nat, nat) -> real
    requires k.Derotates() && f.Valid()
  {
    (i: nat, b: nat, j: nat) => Weight(k, f, offset, i, b, j)
  }

  /** What every pulse of the stack gives every cell; nothing outside the
      stack. */
  function Terms(k: Kernels, f: Fold, offset: real, data: seq<real>, nrx: nat): (nat, nat, nat) -> real
    requires k.Derotates() && f.Valid()
  {
    (i: nat, b: nat, j: nat) => if b < nrx && Area(i + 1, nrx) <= |data| then Term(k, f, offset, data, nrx, i, b, j) else 0.0
  }

  /** Cell (j, b) of the map after pulses lo .. hi-1, before the division
      by the weights. */
  function Folded(k: Kernels, f: Fold, offset: real, data: seq<real>, nrx: nat, lo: nat, hi: nat, b: nat, j: nat): real
    requires k.Derotates() && f.Valid() && b < nrx && Area(hi, nrx) <= |data|
  {
    Total(Terms(k, f, offset, data, nrx), lo, hi, b, j)
  }

  /** Cell (j, b) of the weight map after pulses lo .. hi-1. */
  function Counted(k: Kernels, f: Fold, offset: real, lo: nat, hi: nat, b: nat, j: nat): real
    requires k.Derotates() && f.Valid()
  {
    Total(Weights(k, f, offset), lo, hi, b, j)
  }

  /** gw and gt are the weights and the contributions of the pulses of the
      stack. The link is stated with Weight and Term as triggers so that
      reasoning about sums of gw and gt leaves them folded. */
  ghost predicate Contributions(k: Kernels, f: Fold, offset: real, data: seq<real>, nrx: nat,
                                gw: (nat, nat, nat) -> real, gt: (nat, nat, nat) -> real)
    requires k.Derotates() && f.Valid()
  {
    (forall i: nat, b: nat, j: nat {:trigger Weight(k, f, offset, i, b, j)} :: gw(i, b, j) == Weight(k, f, offset, i, b, j))
    && (forall i: nat, b: nat, j: nat {:trigger Term(k, f, offset, data, nrx, i, b, j)} ::
          b < nrx && Area(i + 1, nrx) <= |data| ==> gt(i, b, j) == Term(k, f, offset, data, nrx, i, b, j))
  }

  /** The weights and contributions of the stack are its contributions. */
  lemma StackContributions(k: Kernels, f: Fold, offset: real, data: seq<real>, nrx: nat)
    requires k.Derotates() && f.Valid()
    ensures Contributions(k, f, offset, data, nrx, Weights(k, f, offset), Terms(k, f, offset, data, nrx))
  {
  }

  /** Cell (j, b) of the finished map: divided by its weight when asked
      to and the weight is positive (src/lib/spectra.c:654-662). */
  function FoldCell(k: Kernels, f: Fold, offset: real, data: seq<real>, nrx: nat, lo: nat, hi: nat, normalise: bool,
                    b: nat, j: nat): real
    requires k.Derotates() && f.Valid() && b < nrx && Area(hi, nrx) <= |data|
  {
    var v := Folded(k, f, offset, data, nrx, lo, hi, b, j);
    if normalise then Normalised(v, Counted(k, f, offset, lo, hi, b, j)) else v
  }

  /** A cell v with weight w after the division by the weight, which is
      skipped where the weight is not positive (src/lib/spectra.c:657-658). */
  function Normalised(v: real, w: real): real
  {
    if w > 0.0 then v / w else v
  }

  /** The weights of a longitude column over phase bins 0 .. m-1. */
  function ColumnWeight(k: Kernels, f: Fold, offset: real, lo: nat, hi: nat, b: nat, m: nat): real
    requires k.Derotates() && f.Valid()
  {
    if m == 0 then 0.0 else ColumnWeight(k, f, offset, lo, hi, b, m - 1) + Counted(k, f, offset, lo, hi, b, m - 1)
  }

  /** The weights one pulse gives a longitude column over phase bins
      0 .. m-1. */
  function PulseWeight(k: Kernels, f: Fold, offset: real, i: nat, b: nat, m: nat): real
    requires k.Derotates() && f.Valid()
  {
    if m == 0 then 0.0 else PulseWeight(k, f, offset, i, b, m - 1) + Weight(k, f, offset, i, b, m - 1)
  }

  lemma {:induction false} ColumnWeightStep(k: Kernels, f: Fold, offset: real, lo: nat, hi: nat, b: nat, m: nat)
    requires k.Derotates() && f.Valid() && lo < hi
    ensures ColumnWeight(k, f, offset, lo, hi, b, m)
      == ColumnWeight(k, f, offset, lo, hi - 1, b, m) + PulseWeight(k, f, offset, hi - 1, b, m)
  {
    if m > 0 {
      ColumnWeightStep(k, f, offset, lo, hi, b, m - 1);
      CountedStep(k, f, offset, lo, hi, b, m - 1);
    }
  }

  /** The weight of a cell after one more pulse. */
  lemma CountedStep(k: Kernels, f: Fold, offset: real, lo: nat, hi: nat, b: nat, j: nat)
    requires k.Derotates() && f.Valid() && lo < hi
    ensures Counted(k, f, offset, lo, hi, b, j) == Counted(k, f, offset, lo, hi - 1, b, j) + Weight(k, f, offset, hi - 1, b, j)
  {
  }

  lemma {:induction false} PulseWeightIsSplitTotal(k: Kernels, f: Fold, offset: real, i: nat, b: nat, m: nat)
    requires k.Derotates() && f.Valid() && f.smoothWidth <= 0.0
    ensures PulseWeight(k, f, offset, i, b, m) == SplitTotal(Phase(k, f, offset, i, b), f.nrP3Bins, f.noSmooth, m)
  {
    if m > 0 {
      PulseWeightIsSplitTotal(k, f, offset, i, b, m - 1);
    }
  }

  /** Without smoothing every longitude column of the weight map holds a
      total weight of exactly the number of pulses folded. */
  lemma {:induction false} ColumnWeightIsPulseCount(k: Kernels, f: Fold, offset: real, lo: nat, hi: nat, b: nat)
    requires k.Derotates() && f.Valid() && f.smoothWidth <= 0.0 && lo <= hi
    ensures ColumnWeight(k, f, offset, lo, hi, b, f.nrP3Bins) == (hi - lo) as real
    decreases hi
  {
    if hi == lo {
      ColumnWeightEmpty(k, f, offset, lo, hi, b, f.nrP3Bins);
    } else {
      ColumnWeightStep(k, f, offset, lo, hi, b, f.nrP3Bins);
      ColumnWeightIsPulseCount(k, f, offset, lo, hi - 1, b);
      PulseWeightIsSplitTotal(k, f, offset, hi - 1, b, f.nrP3Bins);
      SplitWeightsSumToOne(Phase(k, f, offset, hi - 1, b), f.nrP3Bins, f.noSmooth);
    }
  }

  lemma {:induction false} ColumnWeightEmpty(k: Kernels, f: Fold, offset: real, lo: nat, hi: nat, b: nat, m: nat)
    requires k.Derotates() && f.Valid() && hi <= lo
    ensures ColumnWeight(k, f, offset, lo, hi, b, m) == 0.0
  {
    if m > 0 {
      ColumnWeightEmpty(k, f, offset, lo, hi, b, m - 1);
    }
  }

  // ---------------------------------------------------------------------
  // foldP3_simple
  // ---------------------------------------------------------------------

  /** Adds v to cell (j, b) of the map and w to the same cell of the
      weight map. */
  method Deposit(foldmap: array<real>, nrcounts: array<real>, n: nat, nrx: nat, j: nat, b: nat, v: real, w: real)
    requires j < n && b < nrx
    requires Area(n, nrx) <= foldmap.Length && Area(n, nrx) <= nrcounts.Length && foldmap != nrcounts
    modifies foldmap, nrcounts
    ensures forall r: nat, c: nat :: r < n && c < nrx ==>
      Cell(r, c, nrx) < foldmap.Length && Cell(r, c, nrx) < nrcounts.Length
      && foldmap[Cell(r, c, nrx)] == old(foldmap[Cell(r, c, nrx)]) + (if r == j && c == b then v else 0.0)
      && nrcounts[Cell(r, c, nrx)] == old(nrcounts[Cell(r, c, nrx)]) + (if r == j && c == b then w else 0.0)
    ensures forall q :: Area(n, nrx) <= q < foldmap.Length ==> foldmap[q] == old(foldmap[q])
    ensures forall q :: Area(n, nrx) <= q < nrcounts.Length ==> nrcounts[q] == old(nrcounts[q])
  {
    CellsInside(n, nrx);
    CellBound(j, b, n, nrx);
    forall r: nat, c: nat | r < n && c < nrx && (r != j || c != b)
      ensures Cell(r, c, nrx) != Cell(j, b, nrx)
    {
      CellsDiffer(r, c, j, b, nrx);
    }
    foldmap[Cell(j, b, nrx)] := foldmap[Cell(j, b, nrx)] + v;
    nrcounts[Cell(j, b, nrx)] := nrcounts[Cell(j, b, nrx)] + w;
  }

  /** What each phase bin receives from a sample at bin b of pulse i
      without smoothing: `weight` times the sample to bin j and
      `weightnext` times it to bin jnext. */
  lemma SplitShares(k: Kernels, f: Fold, offset: real, data: seq<real>, nrx: nat, i: nat, b: nat,
                    p3: real, j: nat, jfrac: real, weight: real, jnext: nat, weightnext: real, d: real)
    requires k.Derotates() && f.Valid() && f.smoothWidth <= 0.0 && b < nrx && Area(i + 1, nrx) <= |data|
    requires p3 == Phase(k, f, offset, i, b) && j == BinOf(p3, f.nrP3Bins) && jfrac == Frac(p3, f.nrP3Bins, f.noSmooth)
    requires weight == 1.0 - jfrac && jnext == NextBin(j, f.nrP3Bins) && weightnext == jfrac
    requires Cell(i, b, nrx) < |data| && d == data[Cell(i, b, nrx)]
    ensures forall r: nat :: r < f.nrP3Bins ==>
      Term(k, f, offset, data, nrx, i, b, r)
        == (if r == j then Share(weight, d) else 0.0) + (if !f.noSmooth && r == jnext then Share(weightnext, d) else 0.0)
      && Weight(k, f, offset, i, b, r)
        == (if r == j then weight else 0.0) + (if !f.noSmooth && r == jnext then weightnext else 0.0)
  {
  }

  /** Splits the sample of pulse i at bin b between its phase bin and the
      next (src/lib/spectra.c:608-630). */
  method SplitBin(data: seq<real>, nrx: nat, i: nat, b: nat, foldmap: array<real>, nrcounts: array<real>,
                  k: Kernels, f: Fold, offset: real)
    requires k.Derotates() && f.Valid() && f.smoothWidth <= 0.0 && b < nrx && Area(i + 1, nrx) <= |data|
    requires Area(f.nrP3Bins, nrx) <= foldmap.Length && Area(f.nrP3Bins, nrx) <= nrcounts.Length && foldmap != nrcounts
    modifies foldmap, nrcounts
    ensures forall j: nat, c: nat :: j < f.nrP3Bins && c < nrx ==>
      Cell(j, c, nrx) < foldmap.Length && Cell(j, c, nrx) < nrcounts.Length
      && foldmap[Cell(j, c, nrx)] == old(foldmap[Cell(j, c, nrx)]) + (if c == b then Term(k, f, offset, data, nrx, i, b, j) else 0.0)
      && nrcounts[Cell(j, c, nrx)] == old(nrcounts[Cell(j, c, nrx)]) + (if c == b then Weight(k, f, offset, i, b, j) else 0.0)
    ensures forall q :: Area(f.nrP3Bins, nrx) <= q < foldmap.Length ==> foldmap[q] == old(foldmap[q])
    ensures forall q :: Area(f.nrP3Bins, nrx) <= q < nrcounts.Length ==> nrcounts[q] == old(nrcounts[q])
  {
    var n := f.nrP3Bins;
    CellsInside(n, nrx);
    CellBound(i, b, i + 1, nrx);
    var p3 := k.derotate(Angle(f, offset, i, b));
    if p3 == 360.0 {
      p3 := 0.0;
    }
    assert p3 == Phase(k, f, offset, i, b);
    var j := BinOf(p3, n);
    var jfrac := Frac(p3, n, f.noSmooth);
    var weight := 1.0 - jfrac;
    var d := data[Cell(i, b, nrx)];
    Deposit(foldmap, nrcounts, n, nrx, j, b, Share(weight, d), weight);
    var jnext := j + 1;
    if jnext == n {
      jnext := 0;
    }
    var weightnext := jfrac;
    if !f.noSmooth {
      Deposit(foldmap, nrcounts, n, nrx, jnext, b, Share(weightnext, d), weightnext);
    }
    SplitShares(k, f, offset, data, nrx, i, b, p3, j, jfrac, weight, jnext, weightnext, d);
  }

  /** Adds pulse i, unsmoothed, into every longitude column
      (src/lib/spectra.c:607-631). */
  method SplitPulse(data: seq<real>, nrx: nat, i: nat, foldmap: array<real>, nrcounts: array<real>,
                    k: Kernels, f: Fold, offset: real)
    requires k.Derotates() && f.Valid() && f.smoothWidth <= 0.0 && Area(i + 1, nrx) <= |data|
    requires Area(f.nrP3Bins, nrx) <= foldmap.Length && Area(f.nrP3Bins, nrx) <= nrcounts.Length && foldmap != nrcounts
    modifies foldmap, nrcounts
    ensures forall j: nat, c: nat :: j < f.nrP3Bins && c < nrx ==>
      Cell(j, c, nrx) < foldmap.Length && Cell(j, c, nrx) < nrcounts.Length
      && foldmap[Cell(j, c, nrx)] == old(foldmap[Cell(j, c, nrx)]) + Term(k, f, offset, data, nrx, i, c, j)
      && nrcounts[Cell(j, c, nrx)] == old(nrcounts[Cell(j, c, nrx)]) + Weight(k, f, offset, i, c, j)
    ensures forall q :: Area(f.nrP3Bins, nrx) <= q < foldmap.Length ==> foldmap[q] == old(foldmap[q])
    ensures forall q :: Area(f.nrP3Bins, nrx) <= q < nrcounts.Length ==> nrcounts[q] == old(nrcounts[q])
  {
    CellsInside(f.nrP3Bins, nrx);
    var b := 0;
    while b < nrx
      invariant 0 <= b <= nrx
      invariant forall j: nat, c: nat :: j < f.nrP3Bins && c < nrx ==>
        foldmap[Cell(j, c, nrx)] == old(foldmap[Cell(j, c, nrx)]) + (if c < b then Term(k, f, offset, data, nrx, i, c, j) else 0.0)
        && nrcounts[Cell(j, c, nrx)] == old(nrcounts[Cell(j, c, nrx)]) + (if c < b then Weight(k, f, offset, i, c, j) else 0.0)
      invariant forall q :: Area(f.nrP3Bins, nrx) <= q < foldmap.Length ==> foldmap[q] == old(foldmap[q])
      invariant forall q :: Area(f.nrP3Bins, nrx) <= q < nrcounts.Length ==> nrcounts[q] == old(nrcounts[q])
    {
      SplitBin(data, nrx, i, b, foldmap, nrcounts, k, f, offset);
      b := b + 1;
    }
  }

  /** What phase bin j receives from a sample at bin b of pulse i with
      smoothing. */
  lemma SmoothShare(k: Kernels, f: Fold, offset: real, data: seq<real>, nrx: nat, i: nat, b: nat, j: nat,
                    weight: real, d: real)
    requires k.Derotates() && f.Valid() && f.smoothWidth > 0.0 && b < nrx && Area(i + 1, nrx) <= |data|
    requires weight == SmoothWeight(k, Phase(k, f, offset, i, b), f.nrP3Bins, f.smoothWidth, j)
    requires Cell(i, b, nrx) < |data| && d == data[Cell(i, b, nrx)]
    ensures Term(k, f, offset, data, nrx, i, b, j) == Share(weight, d)
    ensures Weight(k, f, offset, i, b, j) == weight
  {
  }

  /** The Gaussian weight phase bin j receives from pulse i at bin b
      (src/lib/spectra.c:635-647). */
  method GaussianWeight(k: Kernels, f: Fold, offset: real, i: nat, b: nat, j: nat) returns (weight: real)
    requires k.Derotates() && f.Valid() && f.smoothWidth > 0.0 && j < f.nrP3Bins
    ensures weight == SmoothWeight(k, Phase(k, f, offset, i, b), f.nrP3Bins, f.smoothWidth, j)
    ensures weight == k.exp(Exponent(RoundDist(Position(Phase(k, f, offset, i, b), f.nrP3Bins), j, f.nrP3Bins), f.smoothWidth))
  {
    var n := f.nrP3Bins;
    var p3 := k.derotate(Angle(f, offset, i, b));
    if p3 == 360.0 {
      p3 := 0.0;
    }
    assert p3 == Phase(k, f, offset, i, b);
    var x := Position(p3, n);
    var dp3 := Abs(x - j as real);
    if Abs(x - j as real + n as real) < dp3 {
      dp3 := Abs(x - j as real + n as real);
    }
    if Abs(x - j as real - n as real) < dp3 {
      dp3 := Abs(x - j as real - n as real);
    }
    assert dp3 == CircDist(x, j, n);
    weight := k.exp(Exponent(dp3, f.smoothWidth));
    SmoothWeightIsGaussian(k, p3, n, f.smoothWidth, j);
  }

  /** Adds the sample of pulse i at bin b into phase bin j with its
      Gaussian weight (src/lib/spectra.c:635-649). */
  method SmoothBin(data: seq<real>, nrx: nat, i: nat, b: nat, j: nat, foldmap: array<real>, nrcounts: array<real>,
                   k: Kernels, f: Fold, offset: real)
    requires k.Derotates() && f.Valid() && f.smoothWidth > 0.0 && j < f.nrP3Bins && b < nrx && Area(i + 1, nrx) <= |data|
    requires Area(f.nrP3Bins, nrx) <= foldmap.Length && Area(f.nrP3Bins, nrx) <= nrcounts.Length && foldmap != nrcounts
    modifies foldmap, nrcounts
    ensures forall r: nat, c: nat :: r < f.nrP3Bins && c < nrx ==>
      Cell(r, c, nrx) < foldmap.Length && Cell(r, c, nrx) < nrcounts.Length
      && foldmap[Cell(r, c, nrx)] == old(foldmap[Cell(r, c, nrx)])
         + (if r == j && c == b then Term(k, f, offset, data, nrx, i, b, j) else 0.0)
      && nrcounts[Cell(r, c, nrx)] == old(nrcounts[Cell(r, c, nrx)])
         + (if r == j && c == b then Weight(k, f, offset, i, b, j) else 0.0)
    ensures forall q :: Area(f.nrP3Bins, nrx) <= q < foldmap.Length ==> foldmap[q] == old(foldmap[q])
    ensures forall q :: Area(f.nrP3Bins, nrx) <= q < nrcounts.Length ==> nrcounts[q] == old(nrcounts[q])
  {
    var n := f.nrP3Bins;
    CellBound(i, b, i + 1, nrx);
    var weight := GaussianWeight(k, f, offset, i, b, j);
    var d := data[Cell(i, b, nrx)];
    Deposit(foldmap, nrcounts, n, nrx, j, b, Share(weight, d), weight);
    SmoothShare(k, f, offset, data, nrx, i, b, j, weight, d);
  }

  /** Adds pulse i into phase row j of every longitude column
      (src/lib/spectra.c:634-650). */
  method SmoothRow(data: seq<real>, nrx: nat, i: nat, j: nat, foldmap: array<real>, nrcounts: array<real>,
                   k: Kernels, f: Fold, offset: real)
    requires k.Derotates() && f.Valid() && f.smoothWidth > 0.0 && j < f.nrP3Bins && Area(i + 1, nrx) <= |data|
    requires Area(f.nrP3Bins, nrx) <= foldmap.Length && Area(f.nrP3Bins, nrx) <= nrcounts.Length && foldmap != nrcounts
    modifies foldmap, nrcounts
    ensures forall r: nat, c: nat :: r < f.nrP3Bins && c < nrx ==>
      Cell(r, c, nrx) < foldmap.Length && Cell(r, c, nrx) < nrcounts.Length
      && foldmap[Cell(r, c, nrx)] == old(foldmap[Cell(r, c, nrx)]) + (if r == j then Term(k, f, offset, data, nrx, i, c, j) else 0.0)
      && nrcounts[Cell(r, c, nrx)] == old(nrcounts[Cell(r, c, nrx)]) + (if r == j then Weight(k, f, offset, i, c, j) else 0.0)
    ensures forall q :: Area(f.nrP3Bins, nrx) <= q < foldmap.Length ==> foldmap[q] == old(foldmap[q])
    ensures forall q :: Area(f.nrP3Bins, nrx) <= q < nrcounts.Length ==> nrcounts[q] == old(nrcounts[q])
  {
    CellsInside(f.nrP3Bins, nrx);
    var b := 0;
    while b < nrx
      invariant 0 <= b <= nrx
      invariant forall r: nat, c: nat :: r < f.nrP3Bins && c < nrx ==>
        foldmap[Cell(r, c, nrx)] == old(foldmap[Cell(r, c, nrx)]) + (if r == j && c < b then Term(k, f, offset, data, nrx, i, c, j) else 0.0)
        && nrcounts[Cell(r, c, nrx)] == old(nrcounts[Cell(r, c, nrx)]) + (if r == j && c < b then Weight(k, f, offset, i, c, j) else 0.0)
      invariant forall q :: Area(f.nrP3Bins, nrx) <= q < foldmap.Length ==> foldmap[q] == old(foldmap[q])
      invariant forall q :: Area(f.nrP3Bins, nrx) <= q < nrcounts.Length ==> nrcounts[q] == old(nrcounts[q])
    {
      SmoothBin(data, nrx, i, b, j, foldmap, nrcounts, k, f, offset);
      b := b + 1;
    }
  }

  /** Adds pulse i, smoothed, into every phase row
      (src/lib/spectra.c:633-651). */
  method SmoothPulse(data: seq<real>, nrx: nat, i: nat, foldmap: array<real>, nrcounts: array<real>,
                     k: Kernels, f: Fold, offset: real)
    requires k.Derotates() && f.Valid() && f.smoothWidth > 0.0 && Area(i + 1, nrx) <= |data|
    requires Area(f.nrP3Bins, nrx) <= foldmap.Length && Area(f.nrP3Bins, nrx) <= nrcounts.Length && foldmap != nrcounts
    modifies foldmap, nrcounts
    ensures forall j: nat, c: nat :: j < f.nrP3Bins && c < nrx ==>
      Cell(j, c, nrx) < foldmap.Length && Cell(j, c, nrx) < nrcounts.Length
      && foldmap[Cell(j, c, nrx)] == old(foldmap[Cell(j, c, nrx)]) + Term(k, f, offset, data, nrx, i, c, j)
      && nrcounts[Cell(j, c, nrx)] == old(nrcounts[Cell(j, c, nrx)]) + Weight(k, f, offset, i, c, j)
    ensures forall q :: Area(f.nrP3Bins, nrx) <= q < foldmap.Length ==> foldmap[q] == old(foldmap[q])
    ensures forall q :: Area(f.nrP3Bins, nrx) <= q < nrcounts.Length ==> nrcounts[q] == old(nrcounts[q])
  {
    CellsInside(f.nrP3Bins, nrx);
    var j := 0;
    while j < f.nrP3Bins
      invariant 0 <= j <= f.nrP3Bins
      invariant forall r: nat, c: nat :: r < f.nrP3Bins && c < nrx ==>
        foldmap[Cell(r, c, nrx)] == old(foldmap[Cell(r, c, nrx)]) + (if r < j then Term(k, f, offset, data, nrx, i, c, r) else 0.0)
        && nrcounts[Cell(r, c, nrx)] == old(nrcounts[Cell(r, c, nrx)]) + (if r < j then Weight(k, f, offset, i, c, r) else 0.0)
      invariant forall q :: Area(f.nrP3Bins, nrx) <= q < foldmap.Length ==> foldmap[q] == old(foldmap[q])
      invariant forall q :: Area(f.nrP3Bins, nrx) <= q < nrcounts.Length ==> nrcounts[q] == old(nrcounts[q])
    {
      SmoothRow(data, nrx, i, j, foldmap, nrcounts, k, f, offset);
      j := j + 1;
    }
  }

  /** Divides every cell of the map by its weight where the weight is
      positive (src/lib/spectra.c:654-662). The double loop over phase
      bins and longitude bins visits the flat cells in increasing order. */
  method NormaliseCells(foldmap: array<real>, nrcounts: array<real>, cells: nat)
    requires cells <= foldmap.Length && cells <= nrcounts.Length && foldmap != nrcounts
    modifies foldmap
    ensures forall q :: 0 <= q < cells ==> foldmap[q] == Normalised(old(foldmap[q]), nrcounts[q])
    ensures forall q :: cells <= q < foldmap.Length ==> foldmap[q] == old(foldmap[q])
  {
    var q := 0;
    while q < cells
      invariant 0 <= q <= cells
      invariant forall r :: 0 <= r < q ==> foldmap[r] == Normalised(old(foldmap[r]), nrcounts[r])
      invariant forall r :: q <= r < foldmap.Length ==> foldmap[r] == old(foldmap[r])
    {
      if nrcounts[q] > 0.0 {
        foldmap[q] := foldmap[q] / nrcounts[q];
      }
      q := q + 1;
    }
  }

  /** One pass of the pulse loop of foldP3_simple
      (src/lib/spectra.c:606-652): with gw and gt the weights and
      contributions of the pulses, the sums over pulses lo .. i-1 become the
      sums over pulses lo .. i. */
  method FoldPulse(data: seq<real>, nrx: nat, lo: nat, i: nat, foldmap: array<real>, nrcounts: array<real>,
                   k: Kernels, f: Fold, offset: real, ghost gw: (nat, nat, nat) -> real, ghost gt: (nat, nat, nat) -> real)
    requires k.Derotates() && f.Valid() && lo <= i && Area(i + 1, nrx) <= |data|
    requires Contributions(k, f, offset, data, nrx, gw, gt)
    requires Area(f.nrP3Bins, nrx) <= foldmap.Length && Area(f.nrP3Bins, nrx) <= nrcounts.Length && foldmap != nrcounts
    requires forall j: nat, b: nat :: j < f.nrP3Bins && b < nrx ==>
      Cell(j, b, nrx) < foldmap.Length && Cell(j, b, nrx) < nrcounts.Length
      && nrcounts[Cell(j, b, nrx)] == Total(gw, lo, i, b, j) && foldmap[Cell(j, b, nrx)] == Total(gt, lo, i, b, j)
    modifies foldmap, nrcounts
    ensures forall j: nat, b: nat :: j < f.nrP3Bins && b < nrx ==>
      Cell(j, b, nrx) < foldmap.Length && Cell(j, b, nrx) < nrcounts.Length
      && nrcounts[Cell(j, b, nrx)] == Total(gw, lo, i + 1, b, j) && foldmap[Cell(j, b, nrx)] == Total(gt, lo, i + 1, b, j)
    ensures forall q :: Area(f.nrP3Bins, nrx) <= q < foldmap.Length ==> foldmap[q] == old(foldmap[q])
    ensures forall q :: Area(f.nrP3Bins, nrx) <= q < nrcounts.Length ==> nrcounts[q] == old(nrcounts[q])
  {
    if f.smoothWidth <= 0.0 {
      SplitPulse(data, nrx, i, foldmap, nrcounts, k, f, offset);
    } else {
      SmoothPulse(data, nrx, i, foldmap, nrcounts, k, f, offset);
    }
  }

  /** The pulse loop of foldP3_simple (src/lib/spectra.c:605-653), from
      cleared maps. */
  method FoldPulses(data: seq<real>, nry: nat, starty: nat, nrx: nat, foldmap: array<real>, nrcounts: array<real>,
                    k: Kernels, f: Fold, offset: real, ghost gw: (nat, nat, nat) -> real, ghost gt: (nat, nat, nat) -> real)
    requires k.Derotates() && f.Valid() && Area(nry, nrx) <= |data|
    requires Contributions(k, f, offset, data, nrx, gw, gt)
    requires Area(f.nrP3Bins, nrx) <= foldmap.Length && Area(f.nrP3Bins, nrx) <= nrcounts.Length && foldmap != nrcounts
    requires forall q :: 0 <= q < Area(f.nrP3Bins, nrx) ==> foldmap[q] == 0.0 && nrcounts[q] == 0.0
    modifies foldmap, nrcounts
    ensures forall j: nat, b: nat :: j < f.nrP3Bins && b < nrx ==>
      Cell(j, b, nrx) < foldmap.Length && Cell(j, b, nrx) < nrcounts.Length
      && nrcounts[Cell(j, b, nrx)] == Total(gw, starty, nry, b, j) && foldmap[Cell(j, b, nrx)] == Total(gt, starty, nry, b, j)
    ensures forall q :: Area(f.nrP3Bins, nrx) <= q < foldmap.Length ==> foldmap[q] == old(foldmap[q])
    ensures forall q :: Area(f.nrP3Bins, nrx) <= q < nrcounts.Length ==> nrcounts[q] == old(nrcounts[q])
  {
    var n := f.nrP3Bins;
    CellsInside(n, nrx);
    var i := starty;
    while i < nry
      invariant starty <= i && (i <= nry || i == starty)
      invariant forall j: nat, b: nat :: j < n && b < nrx ==>
        nrcounts[Cell(j, b, nrx)] == Total(gw, starty, i, b, j) && foldmap[Cell(j, b, nrx)] == Total(gt, starty, i, b, j)
      invariant forall q :: Area(n, nrx) <= q < foldmap.Length ==> foldmap[q] == old(foldmap[q])
      invariant forall q :: Area(n, nrx) <= q < nrcounts.Length ==> nrcounts[q] == old(nrcounts[q])
    {
      AreaMonotone(i + 1, nry, nrx);
      FoldPulse(data, nrx, starty, i, foldmap, nrcounts, k, f, offset, gw, gt);
      i := i + 1;
    }
  }

  /** foldP3_simple (src/lib/spectra.c:595-663): folds pulses
      starty .. nry-1, each shifted by `offset` pulses, into a map
      nr_p3_bins rows high and nrx columns wide. Cell (j, b) of nrcounts
      ends as the weight the cell received, and cell (j, b) of the map as
      the weighted sum, divided by that weight unless noNormalise is set. */
  method FoldSimple(data: seq<real>, nry: nat, starty: nat, nrx: nat, foldmap: array<real>, nrcounts: array<real>,
                    k: Kernels, f: Fold, offset: real, noNormalise: bool)
    requires k.Derotates() && f.Valid() && Area(nry, nrx) <= |data|
    requires Area(f.nrP3Bins, nrx) <= foldmap.Length && Area(f.nrP3Bins, nrx) <= nrcounts.Length && foldmap != nrcounts
    modifies foldmap, nrcounts
    ensures forall j: nat, b: nat :: j < f.nrP3Bins && b < nrx ==>
      Cell(j, b, nrx) < foldmap.Length && Cell(j, b, nrx) < nrcounts.Length
      && nrcounts[Cell(j, b, nrx)] == Counted(k, f, offset, starty, nry, b, j)
      && foldmap[Cell(j, b, nrx)] == FoldCell(k, f, offset, data, nrx, starty, nry, !noNormalise, b, j)
    ensures forall q :: Area(f.nrP3Bins, nrx) <= q < foldmap.Length ==> foldmap[q] == old(foldmap[q])
    ensures forall q :: Area(f.nrP3Bins, nrx) <= q < nrcounts.Length ==> nrcounts[q] == old(nrcounts[q])
  {
    CellsInside(f.nrP3Bins, nrx);
    ZeroPrefix(nrcounts, Area(f.nrP3Bins, nrx));
    ZeroPrefix(foldmap, Area(f.nrP3Bins, nrx));
    StackContributions(k, f, offset, data, nrx);
    FoldPulses(data, nry, starty, nrx, foldmap, nrcounts, k, f, offset, Weights(k, f, offset), Terms(k, f, offset, data, nrx));
    if !noNormalise {
      NormaliseCells(foldmap, nrcounts, Area(f.nrP3Bins, nrx));
    }
  }
}
