/** The longitude-resolved fluctuation spectrum (LRFS) of a pulse stack,
    as calcLRFS computes it (src/lib/spectra.c:234-530). The stack of nry
    pulses by nrx longitude bins is cut into nry / fftSize blocks; in each
    block every longitude bin's series of fftSize samples is transformed,
    and the power of frequency bins 0 .. fftSize/2 is written into row i,
    column bin of a scratch spectrum `lrfs_tmp`. Optionally the DC power is
    removed and bins outside a frequency window are masked; then each row
    loses the mean of its off-pulse bins, and the scratch spectrum is added
    into `lrfs`. Rows inside a -p3zap band are cleared at the end.

    The transform is a parameter (Transform). The phasor alignment that
    derives the phase track and the subpulse amplitude from the
    transforms is not part of this model; its bookkeeping is: the
    phase-track counter and the control of the alignment iterations. */
module LRFS {
  import opened Grid
  import opened Regions
  import opened Wrappers

  /** The longest transform calcLRFS accepts (src/lib/spectra.c:274). */
  const MaxFftSize := 2147483640

  /** The number of alignment iterations before the template-only pass
      (src/lib/spectra.c:400). */
  const IterationMax := 100

  datatype Complex = Complex(re: real, im: real)

  /** Coefficient i of the forward real-to-complex transform of a series,
      unnormalised as FFTW computes it. */
  type Transform = (seq<real>, int) -> Complex

  /** The switches of calcLRFS that this model covers; freqMin and freqMax
      bound the selected frequency window in cycles per period. */
  datatype Options = Options(
    subtractDC: bool,
    maskFreqs: bool,
    freqMin: real,
    freqMax: real,
    calcPhaseTrack: bool,
    inverseFFT: bool,
    calcSubpulseAmplitude: bool)
  {
    /** The options that need the selected frequency bins counted. */
    predicate NeedsSpecBins()
    {
      calcPhaseTrack || inverseFFT || calcSubpulseAmplitude
    }
  }

  /** A -p3zap band: rows whose frequency lies in [lo, hi] are cleared. */
  datatype Band = Band(lo: real, hi: real)

  /** Why calcLRFS refuses to run. */
  datatype LrfsError = TooFewPulses | FftTooLong | NoSpectralBins

  // ---------------------------------------------------------------------
  // Frequencies and their selection
  // ---------------------------------------------------------------------

  /** Frequency of spectral bin i, in cycles per period. */
  function Freq(i: int, fftSize: nat): real
    requires fftSize >= 1
  {
    i as real / fftSize as real
  }

  predicate InBand(i: int, fftSize: nat, lo: real, hi: real)
    requires fftSize >= 1
  {
    lo <= Freq(i, fftSize) && Freq(i, fftSize) <= hi
  }

  /** The number of bins in [0, n) inside the window [lo, hi], counted as
      the loop of src/lib/spectra.c:282-288 counts them. */
  function CountInBand(n: nat, fftSize: nat, lo: real, hi: real): nat
    requires fftSize >= 1
  {
    if n == 0 then 0 else CountInBand(n - 1, fftSize, lo, hi) + (if InBand(n - 1, fftSize, lo, hi) then 1 else 0)
  }

  /** The bins in [0, n) inside the window [lo, hi]. */
  ghost function BandSet(n: nat, fftSize: nat, lo: real, hi: real): set<int>
    requires fftSize >= 1
  {
    set i | 0 <= i < n && InBand(i, fftSize, lo, hi)
  }

  lemma {:induction false} CountInBandIsCardinality(n: nat, fftSize: nat, lo: real, hi: real)
    requires fftSize >= 1
    ensures CountInBand(n, fftSize, lo, hi) == |BandSet(n, fftSize, lo, hi)|
  {
    if n > 0 {
      CountInBandIsCardinality(n - 1, fftSize, lo, hi);
      if InBand(n - 1, fftSize, lo, hi) {
        assert BandSet(n, fftSize, lo, hi) == BandSet(n - 1, fftSize, lo, hi) + {n - 1};
      } else {
        assert BandSet(n, fftSize, lo, hi) == BandSet(n - 1, fftSize, lo, hi);
      }
    }
  }

  /** The count is zero exactly when no bin lies inside the window. */
  lemma {:induction false} CountInBandZero(n: nat, fftSize: nat, lo: real, hi: real)
    requires fftSize >= 1
    ensures CountInBand(n, fftSize, lo, hi) == 0 <==> forall i :: 0 <= i < n ==> !InBand(i, fftSize, lo, hi)
  {
    if n > 0 {
      CountInBandZero(n - 1, fftSize, lo, hi);
    }
  }

  /** The count of selected bins nspecbins (src/lib/spectra.c:281-288). */
  method CountSpecBins(fftSize: nat, lo: real, hi: real) returns (nspecbins: nat)
    requires fftSize >= 1
    ensures nspecbins == |BandSet(fftSize / 2 + 1, fftSize, lo, hi)|
  {
    nspecbins := 0;
    var i := 0;
    while i <= fftSize / 2
      invariant 0 <= i <= fftSize / 2 + 1
      invariant nspecbins == CountInBand(i, fftSize, lo, hi)
    {
      if InBand(i, fftSize, lo, hi) {
        nspecbins := nspecbins + 1;
      }
      i := i + 1;
    }
    CountInBandIsCardinality(fftSize / 2 + 1, fftSize, lo, hi);
  }

  // ---------------------------------------------------------------------
  // The checks made before anything is written
  // ---------------------------------------------------------------------

  /** The error calcLRFS stops with, in the order it checks
      (src/lib/spectra.c:257-263, 274-278, 280-295), or None. */
  function Rejection(nry: nat, fftSize: nat, opts: Options): (e: Option<LrfsError>)
    requires fftSize >= 1
    ensures e == Some(TooFewPulses) <==> nry < fftSize
    ensures e == None <==>
      fftSize <= nry && fftSize <= MaxFftSize
      && (opts.NeedsSpecBins() ==> exists i :: 0 <= i <= fftSize / 2 && InBand(i, fftSize, opts.freqMin, opts.freqMax))
  {
    CountInBandZero(fftSize / 2 + 1, fftSize, opts.freqMin, opts.freqMax);
    if nry / fftSize == 0 then Some(TooFewPulses)
    else if fftSize > MaxFftSize then Some(FftTooLong)
    else if opts.NeedsSpecBins() && CountInBand(fftSize / 2 + 1, fftSize, opts.freqMin, opts.freqMax) == 0 then
      Some(NoSpectralBins)
    else None
  }

  // ---------------------------------------------------------------------
  // The spectrum of one block
  // ---------------------------------------------------------------------

  /** Sum of a series. */
  function Sum(s: seq<real>): real
  {
    if |s| == 0 then 0.0 else Sum(s[..|s| - 1]) + s[|s| - 1]
  }

  /** Squared modulus. */
  function Power(z: Complex): (p: real)
    ensures p >= 0.0
  {
    Sq(z.re) + Sq(z.im)
  }

  /** The power of frequency bin i of the series `col`
      (src/lib/spectra.c:340-343): bin 0 loses the square of the series'
      total when DC subtraction is asked for. */
  function BinPower(dft: Transform, col: seq<real>, i: int, subtractDC: bool): real
  {
    Power(dft(col, i)) - (if i == 0 && subtractDC then Sq(Sum(col)) else 0.0)
  }

  /** The unnormalised transform's bin 0 is the series' total, so DC
      subtraction leaves nothing in bin 0. */
  lemma DcRemoved(dft: Transform, col: seq<real>)
    requires dft(col, 0) == Complex(Sum(col), 0.0)
    ensures BinPower(dft, col, 0, true) == 0.0
  {
  }

  /** Whether bin i reaches the scratch spectrum (src/lib/spectra.c:344). */
  predicate Kept(i: int, fftSize: nat, opts: Options)
    requires fftSize >= 1
  {
    !opts.maskFreqs || InBand(i, fftSize, opts.freqMin, opts.freqMax)
  }

  /** Cell (i, x) of the scratch spectrum of block `block` before the
      background is removed. */
  function RawCell(dft: Transform, data: seq<real>, nry: nat, nrx: nat, fftSize: nat, opts: Options, block: nat,
                   i: nat, x: nat): real
    requires fftSize >= 1 && Area(block + 1, fftSize) <= nry && Area(nry, nrx) <= |data| && x < nrx
  {
    if Kept(i, fftSize, opts) then BinPower(dft, StackColumn(data, nry, nrx, fftSize, block, x), i, opts.subtractDC)
    else 0.0
  }

  /** Row i of that scratch spectrum. */
  function RawRow(dft: Transform, data: seq<real>, nry: nat, nrx: nat, fftSize: nat, opts: Options, block: nat,
                  i: nat): (row: seq<real>)
    requires fftSize >= 1 && Area(block + 1, fftSize) <= nry && Area(nry, nrx) <= |data|
    ensures |row| == nrx
  {
    seq(nrx, x requires 0 <= x < nrx => RawCell(dft, data, nry, nrx, fftSize, opts, block, i, x))
  }

  // ---------------------------------------------------------------------
  // The off-pulse background
  // ---------------------------------------------------------------------

  /** Sum of the off-pulse entries among the first n of `row`. */
  function OffSum(row: seq<real>, r: RegionSet, n: nat): real
    requires n <= |row|
  {
    if n == 0 then 0.0 else OffSum(row, r, n - 1) + (if r.OffPulse(n - 1) then row[n - 1] else 0.0)
  }

  /** The number of off-pulse bins among the first n. */
  function OffCount(r: RegionSet, n: nat): nat
  {
    if n == 0 then 0 else OffCount(r, n - 1) + (if r.OffPulse(n - 1) then 1 else 0)
  }

  /** The off-pulse mean of a row, or 0 when it has no off-pulse bin
      (src/lib/spectra.c:360-376). */
  function OffMean(row: seq<real>, r: RegionSet): real
  {
    if OffCount(r, |row|) > 0 then OffSum(row, r, |row|) / OffCount(r, |row|) as real else 0.0
  }

  /** What is subtracted from a row: its off-pulse mean when a region set
      with at least one region is given, else nothing. */
  function Background(regions: Option<RegionSet>, row: seq<real>): real
  {
    if regions.Some? && regions.value.nrRegions > 0 then OffMean(row, regions.value) else 0.0
  }

  /** Subtracting m from every entry lowers the off-pulse sum by m per
      off-pulse bin. */
  lemma {:induction false} OffSumShift(row: seq<real>, t: seq<real>, r: RegionSet, m: real, n: nat)
    requires |t| == |row| && n <= |row|
    requires forall x :: 0 <= x < |row| ==> t[x] == row[x] - m
    ensures OffSum(t, r, n) == OffSum(row, r, n) - OffCount(r, n) as real * m
  {
    if n > 0 {
      OffSumShift(row, t, r, m, n - 1);
    }
  }

  /** After the background is removed, the off-pulse entries of a row sum
      to zero, whenever the row has an off-pulse bin. */
  lemma BackgroundRemoved(row: seq<real>, t: seq<real>, r: RegionSet)
    requires |t| == |row| && OffCount(r, |row|) > 0
    requires forall x :: 0 <= x < |row| ==> t[x] == row[x] - OffMean(row, r)
    ensures OffSum(t, r, |t|) == 0.0
  {
    var c := OffCount(r, |row|) as real;
    OffSumShift(row, t, r, OffMean(row, r), |row|);
    assert c * (OffSum(row, r, |row|) / c) == OffSum(row, r, |row|);
  }

  /** A row without off-pulse bins keeps its values. */
  lemma NoOffPulseNoChange(row: seq<real>, r: RegionSet)
    requires forall x :: 0 <= x < |row| ==> !r.OffPulse(x)
    ensures OffMean(row, r) == 0.0
  {
    OffCountNone(r, |row|);
  }

  lemma {:induction false} OffCountNone(r: RegionSet, n: nat)
    requires forall x :: 0 <= x < n ==> !r.OffPulse(x)
    ensures OffCount(r, n) == 0
  {
    if n > 0 {
      OffCountNone(r, n - 1);
    }
  }

  /** Without off-pulse bins the off-pulse sum is empty. */
  lemma {:induction false} OffSumEmpty(row: seq<real>, r: RegionSet, n: nat)
    requires n <= |row| && OffCount(r, n) == 0
    ensures OffSum(row, r, n) == 0.0
  {
    if n > 0 {
      OffSumEmpty(row, r, n - 1);
    }
  }

  /** Off-pulse sums add. */
  lemma {:induction false} OffSumAdd(a: seq<real>, b: seq<real>, t: seq<real>, r: RegionSet, n: nat)
    requires |a| == |b| == |t| && n <= |t|
    requires forall x :: 0 <= x < |t| ==> t[x] == a[x] + b[x]
    ensures OffSum(t, r, n) == OffSum(a, r, n) + OffSum(b, r, n)
  {
    if n > 0 {
      OffSumAdd(a, b, t, r, n - 1);
    }
  }

  // ---------------------------------------------------------------------
  // The accumulated spectrum
  // ---------------------------------------------------------------------

  /** Cell (i, x) of block `block`'s scratch spectrum after the background
      is removed. */
  function CleanCell(dft: Transform, data: seq<real>, nry: nat, nrx: nat, fftSize: nat, opts: Options,
                     regions: Option<RegionSet>, block: nat, i: nat, x: nat): real
    requires fftSize >= 1 && Area(block + 1, fftSize) <= nry && Area(nry, nrx) <= |data| && x < nrx
  {
    RawCell(dft, data, nry, nrx, fftSize, opts, block, i, x)
    - Background(regions, RawRow(dft, data, nry, nrx, fftSize, opts, block, i))
  }

  /** Cell (i, x) of `lrfs` after n blocks: the sum of the cleaned
      scratch spectra of blocks 0 .. n-1. */
  function Accumulated(dft: Transform, data: seq<real>, nry: nat, nrx: nat, fftSize: nat, opts: Options,
                       regions: Option<RegionSet>, n: nat, i: nat, x: nat): real
    requires fftSize >= 1 && Area(n, fftSize) <= nry && Area(nry, nrx) <= |data| && x < nrx
  {
    if n == 0 then 0.0
    else
      AreaMonotone(n - 1, n, fftSize);
      Accumulated(dft, data, nry, nrx, fftSize, opts, regions, n - 1, i, x)
      + CleanCell(dft, data, nry, nrx, fftSize, opts, regions, n - 1, i, x)
  }

  /** Row i lies in one of the -p3zap bands. */
  predicate Zapped(i: nat, fftSize: nat, bands: seq<Band>)
    requires fftSize >= 1
  {
    exists k :: 0 <= k < |bands| && InBand(i, fftSize, bands[k].lo, bands[k].hi)
  }

  /** Cell (i, x) of the finished LRFS. */
  function LrfsCell(dft: Transform, data: seq<real>, nry: nat, nrx: nat, fftSize: nat, opts: Options,
                    regions: Option<RegionSet>, bands: seq<Band>, i: nat, x: nat): real
    requires fftSize >= 1 && Area(nry, nrx) <= |data| && x < nrx
  {
    BlocksFit(nry, fftSize);
    if Zapped(i, fftSize, bands) then 0.0
    else Accumulated(dft, data, nry, nrx, fftSize, opts, regions, nry / fftSize, i, x)
  }

  /** Row i of `lrfs` after n blocks. */
  function AccumulatedRow(dft: Transform, data: seq<real>, nry: nat, nrx: nat, fftSize: nat, opts: Options,
                          regions: Option<RegionSet>, n: nat, i: nat): (row: seq<real>)
    requires fftSize >= 1 && Area(n, fftSize) <= nry && Area(nry, nrx) <= |data|
    ensures |row| == nrx
  {
    seq(nrx, x requires 0 <= x < nrx => Accumulated(dft, data, nry, nrx, fftSize, opts, regions, n, i, x))
  }

  /** With off-pulse bins and at least one region, every row of the
      accumulated spectrum has an off-pulse sum of zero: each block's
      background was removed before it was added. */
  lemma {:induction false} AccumulatedOffPulseZero(dft: Transform, data: seq<real>, nry: nat, nrx: nat, fftSize: nat,
                                                   opts: Options, r: RegionSet, n: nat, i: nat)
    requires fftSize >= 1 && Area(n, fftSize) <= nry && Area(nry, nrx) <= |data|
    requires r.nrRegions > 0 && OffCount(r, nrx) > 0
    ensures OffSum(AccumulatedRow(dft, data, nry, nrx, fftSize, opts, Some(r), n, i), r, nrx) == 0.0
  {
    var t := AccumulatedRow(dft, data, nry, nrx, fftSize, opts, Some(r), n, i);
    if n == 0 {
      OffSumZero(t, r, nrx);
    } else {
      AreaMonotone(n - 1, n, fftSize);
      var a := AccumulatedRow(dft, data, nry, nrx, fftSize, opts, Some(r), n - 1, i);
      var raw := RawRow(dft, data, nry, nrx, fftSize, opts, n - 1, i);
      var b := seq(nrx, x requires 0 <= x < nrx => raw[x] - OffMean(raw, r));
      AccumulatedOffPulseZero(dft, data, nry, nrx, fftSize, opts, r, n - 1, i);
      BackgroundRemoved(raw, b, r);
      OffSumAdd(a, b, t, r, nrx);
    }
  }

  /** A row of zeros has off-pulse sum zero. */
  lemma {:induction false} OffSumZero(t: seq<real>, r: RegionSet, n: nat)
    requires n <= |t| && forall x :: 0 <= x < |t| ==> t[x] == 0.0
    ensures OffSum(t, r, n) == 0.0
  {
    if n > 0 {
      OffSumZero(t, r, n - 1);
    }
  }

  /** Adding one more band to the -p3zap list zaps the rows in that band. */
  lemma ZappedStep(i: nat, fftSize: nat, bands: seq<Band>, b: nat)
    requires fftSize >= 1 && b < |bands|
    ensures Zapped(i, fftSize, bands[..b + 1])
      <==> Zapped(i, fftSize, bands[..b]) || InBand(i, fftSize, bands[b].lo, bands[b].hi)
  {
    if InBand(i, fftSize, bands[b].lo, bands[b].hi) {
      assert bands[..b + 1][b] == bands[b];
    }
    if Zapped(i, fftSize, bands[..b]) {
      var k :| 0 <= k < b && InBand(i, fftSize, bands[..b][k].lo, bands[..b][k].hi);
      assert bands[..b + 1][k] == bands[..b][k];
    }
  }

  // ---------------------------------------------------------------------
  // The phase-track bookkeeping
  // ---------------------------------------------------------------------

  /** The value of the counter nrphasetracks after `blocks` blocks of nrx
      bins with nspecbins selected frequency bins: each block adds
      nspecbins (src/lib/spectra.c:388); each bin subtracts nspecbins
      (src/lib/spectra.c:355) and, with a phase track asked for, first
      adds one per selected bin (src/lib/spectra.c:350). */
  function TrackCount(blocks: nat, nrx: nat, nspecbins: nat, calcPhaseTrack: bool): int
  {
    Area(blocks, nspecbins) - (if calcPhaseTrack then 0 else Area(blocks, Area(nrx, nspecbins)))
  }

  /** With a phase track there is one track per selected bin per block;
      without, the counter ends at blocks * nspecbins * (1 - nrx), negative
      as soon as there are two bins and a selected frequency. */
  lemma TrackCountIsProduct(blocks: nat, nrx: nat, nspecbins: nat, calcPhaseTrack: bool)
    ensures calcPhaseTrack ==> TrackCount(blocks, nrx, nspecbins, calcPhaseTrack) == blocks * nspecbins
    ensures !calcPhaseTrack ==> TrackCount(blocks, nrx, nspecbins, calcPhaseTrack) == blocks * nspecbins * (1 - nrx)
  {
    AreaIsProduct(blocks, nspecbins);
    AreaIsProduct(nrx, nspecbins);
    AreaIsProduct(blocks, nrx * nspecbins);
    assert blocks * (nrx * nspecbins) == blocks * nspecbins * nrx;
  }

  /** The number of alignment passes made from iteration k on, when
      `converged(k)` says whether pass k moved the phases by no more than
      the threshold (src/lib/spectra.c:457-459). */
  function AlignmentCount(converged: int -> bool, k: nat): nat
    decreases IterationMax - k
  {
    if k >= IterationMax then 0 else if converged(k) then 1 else 1 + AlignmentCount(converged, k + 1)
  }

  /** The passes stop at the first converged one, or after IterationMax. */
  lemma {:induction false} AlignmentStopsAtFirstConvergence(converged: int -> bool, k: nat)
    requires k <= IterationMax
    decreases IterationMax - k
    ensures 1 <= k + AlignmentCount(converged, k) <= IterationMax || k == IterationMax
    ensures forall j :: k <= j < k + AlignmentCount(converged, k) - 1 ==> !converged(j)
    ensures k + AlignmentCount(converged, k) < IterationMax ==> converged(k + AlignmentCount(converged, k) - 1)
  {
    if k < IterationMax && !converged(k) {
      AlignmentStopsAtFirstConvergence(converged, k + 1);
    }
  }

  /** The iteration control of the phasor alignment
      (src/lib/spectra.c:413-461): each iteration first rebuilds the
      template; the first IterationMax iterations then align the tracks,
      and a converged alignment jumps to the last iteration, which only
      rebuilds the template. */
  method AlignmentPasses(converged: int -> bool) returns (alignments: nat, templates: nat)
    ensures alignments == AlignmentCount(converged, 0)
    ensures templates == alignments + 1
  {
    alignments, templates := 0, 0;
    var itteration := 0;
    while itteration < IterationMax + 1
      invariant 0 <= itteration <= IterationMax + 1
      invariant itteration < IterationMax ==>
        alignments == templates == itteration
        && AlignmentCount(converged, 0) == itteration + AlignmentCount(converged, itteration)
      invariant itteration == IterationMax ==> alignments == templates == AlignmentCount(converged, 0)
      invariant itteration == IterationMax + 1 ==> templates == alignments + 1 && alignments == AlignmentCount(converged, 0)
    {
      templates := templates + 1;
      if itteration < IterationMax {
        alignments := alignments + 1;
        if converged(itteration) {
          itteration := IterationMax - 1;
        }
      }
      itteration := itteration + 1;
    }
  }

  // ---------------------------------------------------------------------
  // The loops of calcLRFS
  // ---------------------------------------------------------------------

  /** Copies the series of bin `bin` in block `block` into data1 and sums
      it (src/lib/spectra.c:321-325). */
  method ReadSeries(data: seq<real>, nry: nat, nrx: nat, fftSize: nat, block: nat, bin: nat, data1: array<real>)
    returns (pwrtot: real)
    requires Area(block + 1, fftSize) <= nry && Area(nry, nrx) <= |data| && bin < nrx && fftSize <= data1.Length
    modifies data1
    ensures data1[..fftSize] == StackColumn(data, nry, nrx, fftSize, block, bin)
    ensures pwrtot == Sum(data1[..fftSize])
  {
    ghost var col := StackColumn(data, nry, nrx, fftSize, block, bin);
    pwrtot := 0.0;
    var pulsenr := 0;
    while pulsenr < fftSize
      invariant 0 <= pulsenr <= fftSize
      invariant data1[..pulsenr] == col[..pulsenr]
      invariant pwrtot == Sum(col[..pulsenr])
    {
      StackColumnAt(data, nry, nrx, fftSize, block, bin, pulsenr);
      data1[pulsenr] := data[Cell(Cell(block, pulsenr, fftSize), bin, nrx)];
      pwrtot := pwrtot + data1[pulsenr];
      assert col[..pulsenr + 1][..pulsenr] == col[..pulsenr];
      pulsenr := pulsenr + 1;
    }
    assert col[..fftSize] == col;
  }

  /** Writes the power of frequency bins 0 .. fftSize/2 of the series in
      data1 into column `bin` of the scratch spectrum, and counts the
      selected bins when a phase track is asked for
      (src/lib/spectra.c:338-354). */
  method SeriesSpectrum(tmp: array<real>, nrx: nat, fftSize: nat, bin: nat, data1: array<real>, pwrtot: real,
                        dft: Transform, opts: Options, tracksIn: int) returns (tracksOut: int)
    requires fftSize >= 1 && bin < nrx && tmp.Length == Area(fftSize / 2 + 1, nrx)
    requires fftSize <= data1.Length && tmp != data1 && pwrtot == Sum(data1[..fftSize])
    modifies tmp
    ensures forall r: nat, c: nat :: r <= fftSize / 2 && c < nrx ==>
      Cell(r, c, nrx) < tmp.Length
      && tmp[Cell(r, c, nrx)] ==
        if c == bin && Kept(r, fftSize, opts) then BinPower(dft, data1[..fftSize], r, opts.subtractDC)
        else old(tmp[Cell(r, c, nrx)])
    ensures tracksOut == tracksIn + (if opts.calcPhaseTrack then CountInBand(fftSize / 2 + 1, fftSize, opts.freqMin, opts.freqMax) else 0)
  {
    var half := fftSize / 2;
    CellsInside(half + 1, nrx);
    tracksOut := tracksIn;
    var i := 0;
    while i <= half
      invariant 0 <= i <= half + 1
      invariant forall r: nat, c: nat :: r <= half && c < nrx ==>
        tmp[Cell(r, c, nrx)] ==
          if c == bin && r < i && Kept(r, fftSize, opts) then BinPower(dft, data1[..fftSize], r, opts.subtractDC)
          else old(tmp[Cell(r, c, nrx)])
      invariant tracksOut == tracksIn + (if opts.calcPhaseTrack then CountInBand(i, fftSize, opts.freqMin, opts.freqMax) else 0)
    {
      var z := dft(data1[..fftSize], i);
      var pwr := Sq(z.re) + Sq(z.im);
      if i == 0 && opts.subtractDC {
        pwr := pwr - Sq(pwrtot);
      }
      if Kept(i, fftSize, opts) {
        forall r: nat, c: nat | r <= half && c < nrx && (r != i || c != bin)
          ensures Cell(r, c, nrx) != Cell(i, bin, nrx)
        {
          CellsDiffer(r, c, i, bin, nrx);
        }
        tmp[Cell(i, bin, nrx)] := pwr;
        if opts.calcPhaseTrack && InBand(i, fftSize, opts.freqMin, opts.freqMax) {
          tracksOut := tracksOut + 1;
        }
      }
      i := i + 1;
    }
  }

  /** The scratch spectrum of block `block` before the background is
      removed (src/lib/spectra.c:318-356), with the phase-track counter's
      net change over the block's bins. */
  method BlockSpectrum(data: seq<real>, nry: nat, nrx: nat, fftSize: nat, block: nat, dft: Transform, opts: Options,
                       nspecbins: nat, tmp: array<real>, data1: array<real>, tracksIn: int) returns (tracksOut: int)
    requires fftSize >= 1 && Area(block + 1, fftSize) <= nry && Area(nry, nrx) <= |data|
    requires tmp.Length == Area(fftSize / 2 + 1, nrx) && fftSize <= data1.Length && tmp != data1
    requires opts.calcPhaseTrack ==> nspecbins == CountInBand(fftSize / 2 + 1, fftSize, opts.freqMin, opts.freqMax)
    modifies tmp, data1
    ensures forall r: nat, c: nat :: r <= fftSize / 2 && c < nrx ==>
      Cell(r, c, nrx) < tmp.Length && tmp[Cell(r, c, nrx)] == RawCell(dft, data, nry, nrx, fftSize, opts, block, r, c)
    ensures tracksOut == tracksIn - (if opts.calcPhaseTrack then 0 else Area(nrx, nspecbins))
  {
    var half := fftSize / 2;
    CellsInside(half + 1, nrx);
    ZeroPrefix(tmp, tmp.Length);
    tracksOut := tracksIn;
    var binnr := 0;
    while binnr < nrx
      invariant 0 <= binnr <= nrx
      invariant forall r: nat, c: nat :: r <= half && c < nrx ==>
        tmp[Cell(r, c, nrx)] == if c < binnr then RawCell(dft, data, nry, nrx, fftSize, opts, block, r, c) else 0.0
      invariant tracksOut == tracksIn - (if opts.calcPhaseTrack then 0 else Area(binnr, nspecbins))
    {
      var pwrtot := ReadSeries(data, nry, nrx, fftSize, block, binnr, data1);
      tracksOut := SeriesSpectrum(tmp, nrx, fftSize, binnr, data1, pwrtot, dft, opts, tracksOut);
      tracksOut := tracksOut - nspecbins;
      binnr := binnr + 1;
    }
  }

  /** Subtracts from row i of the scratch spectrum the mean of its
      off-pulse cells (src/lib/spectra.c:360-379). */
  method RemoveRowBackground(tmp: array<real>, nrx: nat, rows: nat, i: nat, r: RegionSet)
    requires i < rows && tmp.Length == Area(rows, nrx)
    modifies tmp
    ensures Area(i + 1, nrx) <= tmp.Length
    ensures forall j: nat, x: nat :: j < rows && x < nrx ==>
      Cell(j, x, nrx) < tmp.Length
      && tmp[Cell(j, x, nrx)] ==
        if j == i then old(tmp[Cell(j, x, nrx)]) - OffMean(RowSlice(old(tmp[..]), i, nrx), r)
        else old(tmp[Cell(j, x, nrx)])
  {
    CellsInside(rows, nrx);
    AreaMonotone(i + 1, rows, nrx);
    ghost var row := RowSlice(tmp[..], i, nrx);
    var pwrtot := 0.0;
    var n := 0;
    var binnr := 0;
    while binnr < nrx
      invariant 0 <= binnr <= nrx
      invariant pwrtot == OffSum(row, r, binnr) && n == OffCount(r, binnr)
    {
      if r.OffPulse(binnr) {
        pwrtot := pwrtot + tmp[Cell(i, binnr, nrx)];
        n := n + 1;
      }
      binnr := binnr + 1;
    }
    if n > 0 {
      pwrtot := pwrtot / n as real;
    } else {
      OffSumEmpty(row, r, nrx);
    }
    binnr := 0;
    while binnr < nrx
      invariant 0 <= binnr <= nrx
      invariant forall j: nat, x: nat :: j < rows && x < nrx ==>
        tmp[Cell(j, x, nrx)] ==
          if j == i && x < binnr then old(tmp[Cell(j, x, nrx)]) - pwrtot else old(tmp[Cell(j, x, nrx)])
    {
      forall j: nat, x: nat | j < rows && x < nrx && (j != i || x != binnr)
        ensures Cell(j, x, nrx) != Cell(i, binnr, nrx)
      {
        CellsDiffer(j, x, i, binnr, nrx);
      }
      tmp[Cell(i, binnr, nrx)] := tmp[Cell(i, binnr, nrx)] - pwrtot;
      binnr := binnr + 1;
    }
  }

  /** Subtracts from every row of the scratch spectrum the mean of its
      off-pulse cells (src/lib/spectra.c:357-382). */
  method RemoveBackground(tmp: array<real>, nrx: nat, rows: nat, r: RegionSet)
    requires tmp.Length == Area(rows, nrx)
    modifies tmp
    ensures forall j: nat, x: nat :: j < rows && x < nrx ==>
      Cell(j, x, nrx) < tmp.Length && Area(j + 1, nrx) <= tmp.Length
      && tmp[Cell(j, x, nrx)] == old(tmp[Cell(j, x, nrx)]) - OffMean(RowSlice(old(tmp[..]), j, nrx), r)
  {
    CellsInside(rows, nrx);
    RowsInside(rows, nrx);
    ghost var before := tmp[..];
    var i := 0;
    while i < rows
      invariant 0 <= i <= rows
      invariant forall j: nat, x: nat :: j < rows && x < nrx ==>
        tmp[Cell(j, x, nrx)] ==
          if j < i then before[Cell(j, x, nrx)] - OffMean(RowSlice(before, j, nrx), r) else before[Cell(j, x, nrx)]
    {
      assert RowSlice(tmp[..], i, nrx) == RowSlice(before, i, nrx) by {
        forall x | 0 <= x < nrx
          ensures RowSlice(tmp[..], i, nrx)[x] == RowSlice(before, i, nrx)[x]
        {
        }
      }
      RemoveRowBackground(tmp, nrx, rows, i, r);
      i := i + 1;
    }
  }

  /** The cleaned scratch spectrum of block `block`: its raw spectrum less,
      row by row, the off-pulse mean when regions are defined
      (src/lib/spectra.c:318-382). */
  method CleanBlock(data: seq<real>, nry: nat, nrx: nat, fftSize: nat, block: nat, dft: Transform, opts: Options,
                    regions: Option<RegionSet>, nspecbins: nat, tmp: array<real>, data1: array<real>, tracksIn: int)
    returns (tracksOut: int)
    requires fftSize >= 1 && Area(block + 1, fftSize) <= nry && Area(nry, nrx) <= |data|
    requires tmp.Length == Area(fftSize / 2 + 1, nrx) && fftSize <= data1.Length && tmp != data1
    requires opts.calcPhaseTrack ==> nspecbins == CountInBand(fftSize / 2 + 1, fftSize, opts.freqMin, opts.freqMax)
    modifies tmp, data1
    ensures forall r: nat, c: nat :: r <= fftSize / 2 && c < nrx ==>
      Cell(r, c, nrx) < tmp.Length
      && tmp[Cell(r, c, nrx)] == CleanCell(dft, data, nry, nrx, fftSize, opts, regions, block, r, c)
    ensures tracksOut == tracksIn - (if opts.calcPhaseTrack then 0 else Area(nrx, nspecbins))
  {
    var half := fftSize / 2;
    CellsInside(half + 1, nrx);
    tracksOut := BlockSpectrum(data, nry, nrx, fftSize, block, dft, opts, nspecbins, tmp, data1, tracksIn);
    if regions.Some? && regions.value.nrRegions > 0 {
      ghost var raw := tmp[..];
      RowsInside(half + 1, nrx);
      forall i: nat | i <= half
        ensures RowSlice(raw, i, nrx) == RawRow(dft, data, nry, nrx, fftSize, opts, block, i)
      {
        assert forall x :: 0 <= x < nrx ==>
          RowSlice(raw, i, nrx)[x] == RawRow(dft, data, nry, nrx, fftSize, opts, block, i)[x];
      }
      RemoveBackground(tmp, nrx, half + 1, regions.value);
    }
  }

  /** Adds column `bin` of the scratch spectrum into `lrfs`
      (src/lib/spectra.c:384-386). */
  method AddColumn(lrfs: array<real>, tmp: array<real>, nrx: nat, rows: nat, bin: nat)
    requires bin < nrx && tmp.Length == Area(rows, nrx) <= lrfs.Length && lrfs != tmp
    modifies lrfs
    ensures forall j: nat, x: nat :: j < rows && x < nrx ==>
      Cell(j, x, nrx) < tmp.Length
      && lrfs[Cell(j, x, nrx)] == old(lrfs[Cell(j, x, nrx)]) + (if x == bin then tmp[Cell(j, x, nrx)] else 0.0)
    ensures forall k :: Area(rows, nrx) <= k < lrfs.Length ==> lrfs[k] == old(lrfs[k])
  {
    CellsInside(rows, nrx);
    var i := 0;
    while i < rows
      invariant 0 <= i <= rows
      invariant forall j: nat, x: nat :: j < rows && x < nrx ==>
        lrfs[Cell(j, x, nrx)] == old(lrfs[Cell(j, x, nrx)]) + (if x == bin && j < i then tmp[Cell(j, x, nrx)] else 0.0)
      invariant forall k :: Area(rows, nrx) <= k < lrfs.Length ==> lrfs[k] == old(lrfs[k])
    {
      forall j: nat, x: nat | j < rows && x < nrx && (j != i || x != bin)
        ensures Cell(j, x, nrx) != Cell(i, bin, nrx)
      {
        CellsDiffer(j, x, i, bin, nrx);
      }
      lrfs[Cell(i, bin, nrx)] := lrfs[Cell(i, bin, nrx)] + tmp[Cell(i, bin, nrx)];
      i := i + 1;
    }
  }

  /** Adds the scratch spectrum into `lrfs`, bin by bin
      (src/lib/spectra.c:383-387). */
  method AddInto(lrfs: array<real>, tmp: array<real>, nrx: nat, rows: nat)
    requires tmp.Length == Area(rows, nrx) <= lrfs.Length && lrfs != tmp
    modifies lrfs
    ensures forall j: nat, x: nat :: j < rows && x < nrx ==>
      Cell(j, x, nrx) < tmp.Length && lrfs[Cell(j, x, nrx)] == old(lrfs[Cell(j, x, nrx)]) + tmp[Cell(j, x, nrx)]
    ensures forall k :: Area(rows, nrx) <= k < lrfs.Length ==> lrfs[k] == old(lrfs[k])
  {
    CellsInside(rows, nrx);
    var binnr := 0;
    while binnr < nrx
      invariant 0 <= binnr <= nrx
      invariant forall j: nat, x: nat :: j < rows && x < nrx ==>
        lrfs[Cell(j, x, nrx)] == old(lrfs[Cell(j, x, nrx)]) + (if x < binnr then tmp[Cell(j, x, nrx)] else 0.0)
      invariant forall k :: Area(rows, nrx) <= k < lrfs.Length ==> lrfs[k] == old(lrfs[k])
    {
      AddColumn(lrfs, tmp, nrx, rows, binnr);
      binnr := binnr + 1;
    }
  }

  /** Clears row j of `lrfs` (src/lib/spectra.c:491-493). */
  method ZeroRow(lrfs: array<real>, nrx: nat, rows: nat, j: nat)
    requires j < rows && Area(rows, nrx) <= lrfs.Length
    modifies lrfs
    ensures forall i: nat, x: nat :: i < rows && x < nrx ==>
      Cell(i, x, nrx) < lrfs.Length && lrfs[Cell(i, x, nrx)] == if i == j then 0.0 else old(lrfs[Cell(i, x, nrx)])
    ensures forall k :: Area(rows, nrx) <= k < lrfs.Length ==> lrfs[k] == old(lrfs[k])
  {
    CellsInside(rows, nrx);
    var k := 0;
    while k < nrx
      invariant 0 <= k <= nrx
      invariant forall i: nat, x: nat :: i < rows && x < nrx ==>
        lrfs[Cell(i, x, nrx)] == if i == j && x < k then 0.0 else old(lrfs[Cell(i, x, nrx)])
      invariant forall k' :: Area(rows, nrx) <= k' < lrfs.Length ==> lrfs[k'] == old(lrfs[k'])
    {
      forall i: nat, x: nat | i < rows && x < nrx && (i != j || x != k)
        ensures Cell(i, x, nrx) != Cell(j, k, nrx)
      {
        CellsDiffer(i, x, j, k, nrx);
      }
      lrfs[Cell(j, k, nrx)] := 0.0;
      k := k + 1;
    }
  }

  /** Clears the rows of `lrfs` whose frequency lies in one -p3zap band
      (src/lib/spectra.c:488-495). */
  method ZapBand(lrfs: array<real>, nrx: nat, fftSize: nat, band: Band)
    requires fftSize >= 1 && Area(fftSize / 2 + 1, nrx) <= lrfs.Length
    modifies lrfs
    ensures forall i: nat, x: nat :: i <= fftSize / 2 && x < nrx ==>
      Cell(i, x, nrx) < lrfs.Length
      && lrfs[Cell(i, x, nrx)] == if InBand(i, fftSize, band.lo, band.hi) then 0.0 else old(lrfs[Cell(i, x, nrx)])
    ensures forall k :: Area(fftSize / 2 + 1, nrx) <= k < lrfs.Length ==> lrfs[k] == old(lrfs[k])
  {
    var rows := fftSize / 2 + 1;
    CellsInside(rows, nrx);
    var j := 0;
    while j < rows
      invariant 0 <= j <= rows
      invariant forall i: nat, x: nat :: i < rows && x < nrx ==>
        lrfs[Cell(i, x, nrx)] == if i < j && InBand(i, fftSize, band.lo, band.hi) then 0.0 else old(lrfs[Cell(i, x, nrx)])
      invariant forall k :: Area(rows, nrx) <= k < lrfs.Length ==> lrfs[k] == old(lrfs[k])
    {
      if InBand(j, fftSize, band.lo, band.hi) {
        ZeroRow(lrfs, nrx, rows, j);
      }
      j := j + 1;
    }
  }

  /** Clears the rows of `lrfs` in any of the -p3zap bands, band by band
      as they appear on the command line (src/lib/spectra.c:479-498). */
  method ZapRows(lrfs: array<real>, nrx: nat, fftSize: nat, bands: seq<Band>)
    requires fftSize >= 1 && Area(fftSize / 2 + 1, nrx) <= lrfs.Length
    modifies lrfs
    ensures forall i: nat, x: nat :: i <= fftSize / 2 && x < nrx ==>
      Cell(i, x, nrx) < lrfs.Length
      && lrfs[Cell(i, x, nrx)] == if Zapped(i, fftSize, bands) then 0.0 else old(lrfs[Cell(i, x, nrx)])
    ensures forall k :: Area(fftSize / 2 + 1, nrx) <= k < lrfs.Length ==> lrfs[k] == old(lrfs[k])
  {
    CellsInside(fftSize / 2 + 1, nrx);
    var b := 0;
    while b < |bands|
      invariant 0 <= b <= |bands|
      invariant forall i: nat, x: nat :: i <= fftSize / 2 && x < nrx ==>
        lrfs[Cell(i, x, nrx)] == if Zapped(i, fftSize, bands[..b]) then 0.0 else old(lrfs[Cell(i, x, nrx)])
      invariant forall k :: Area(fftSize / 2 + 1, nrx) <= k < lrfs.Length ==> lrfs[k] == old(lrfs[k])
    {
      forall i: nat | i <= fftSize / 2
        ensures Zapped(i, fftSize, bands[..b + 1])
          <==> Zapped(i, fftSize, bands[..b]) || InBand(i, fftSize, bands[b].lo, bands[b].hi)
      {
        ZappedStep(i, fftSize, bands, b);
      }
      ZapBand(lrfs, nrx, fftSize, bands[b]);
      b := b + 1;
    }
    assert bands[..|bands|] == bands;
  }

  /** The number of selected frequency bins calcLRFS works with: counted
      only when a phase track, an inverse transform or a subpulse
      amplitude is asked for (src/lib/spectra.c:256, 280-288). */
  function SpecBins(fftSize: nat, opts: Options): nat
    requires fftSize >= 1
  {
    if opts.NeedsSpecBins() then CountInBand(fftSize / 2 + 1, fftSize, opts.freqMin, opts.freqMax) else 0
  }

  /** Clears `lrfs` and adds into it the cleaned scratch spectra of the
      first `blocks` blocks (src/lib/spectra.c:314-393). */
  method AccumulateBlocks(data: seq<real>, nry: nat, nrx: nat, fftSize: nat, blocks: nat, lrfs: array<real>,
                          opts: Options, regions: Option<RegionSet>, nspecbins: nat, dft: Transform)
    returns (nrphasetracks: int)
    requires fftSize >= 1 && Area(blocks, fftSize) <= nry && Area(nry, nrx) <= |data|
    requires Area(fftSize / 2 + 1, nrx) <= lrfs.Length
    requires opts.calcPhaseTrack ==> nspecbins == CountInBand(fftSize / 2 + 1, fftSize, opts.freqMin, opts.freqMax)
    modifies lrfs
    ensures forall i: nat, x: nat :: i <= fftSize / 2 && x < nrx ==>
      Cell(i, x, nrx) < lrfs.Length
      && lrfs[Cell(i, x, nrx)] == Accumulated(dft, data, nry, nrx, fftSize, opts, regions, blocks, i, x)
    ensures forall k :: Area(fftSize / 2 + 1, nrx) <= k < lrfs.Length ==> lrfs[k] == old(lrfs[k])
    ensures nrphasetracks == TrackCount(blocks, nrx, nspecbins, opts.calcPhaseTrack)
  {
    var rows := fftSize / 2 + 1;
    var data1 := new real[fftSize + 2];
    var tmp := new real[Area(rows, nrx)];
    ZeroPrefix(lrfs, Area(rows, nrx));
    CellsInside(rows, nrx);
    nrphasetracks := 0;
    var fftblock := 0;
    while fftblock < blocks
      invariant 0 <= fftblock <= blocks
      invariant Area(fftblock, fftSize) <= nry
      invariant forall i: nat, x: nat :: i < rows && x < nrx ==>
        lrfs[Cell(i, x, nrx)] == Accumulated(dft, data, nry, nrx, fftSize, opts, regions, fftblock, i, x)
      invariant forall k :: Area(rows, nrx) <= k < lrfs.Length ==> lrfs[k] == old(lrfs[k])
      invariant nrphasetracks == TrackCount(fftblock, nrx, nspecbins, opts.calcPhaseTrack)
    {
      AreaMonotone(fftblock + 1, blocks, fftSize);
      nrphasetracks := CleanBlock(data, nry, nrx, fftSize, fftblock, dft, opts, regions, nspecbins, tmp, data1, nrphasetracks);
      AddInto(lrfs, tmp, nrx, rows);
      nrphasetracks := nrphasetracks + nspecbins;
      fftblock := fftblock + 1;
    }
  }

  /** calcLRFS (src/lib/spectra.c:234-398, 479-498): refuses as Rejection
      says and then leaves `lrfs` untouched; otherwise cell (i, x) of
      `lrfs` is LrfsCell, the cells past the spectrum are untouched, and
      the phase-track counter is TrackCount. */
  method CalcLRFS(data: seq<real>, nry: nat, nrx: nat, fftSize: nat, lrfs: array<real>, opts: Options,
                  regions: Option<RegionSet>, bands: seq<Band>, dft: Transform)
    returns (ok: bool, nrphasetracks: int)
    requires fftSize >= 1 && Area(nry, nrx) <= |data| && Area(fftSize / 2 + 1, nrx) <= lrfs.Length
    modifies lrfs
    ensures ok <==> Rejection(nry, fftSize, opts) == None
    ensures !ok ==> unchanged(lrfs)
    ensures ok ==> forall i: nat, x: nat :: i <= fftSize / 2 && x < nrx ==>
      Cell(i, x, nrx) < lrfs.Length
      && lrfs[Cell(i, x, nrx)] == LrfsCell(dft, data, nry, nrx, fftSize, opts, regions, bands, i, x)
    ensures ok ==> forall k :: Area(fftSize / 2 + 1, nrx) <= k < lrfs.Length ==> lrfs[k] == old(lrfs[k])
    ensures ok ==> nrphasetracks == TrackCount(nry / fftSize, nrx, SpecBins(fftSize, opts), opts.calcPhaseTrack)
  {
    nrphasetracks := 0;
    var blocks := nry / fftSize;
    if blocks == 0 {
      return false, 0;
    }
    if fftSize > MaxFftSize {
      return false, 0;
    }
    var nspecbins := 0;
    if opts.NeedsSpecBins() {
      nspecbins := CountSpecBins(fftSize, opts.freqMin, opts.freqMax);
      CountInBandIsCardinality(fftSize / 2 + 1, fftSize, opts.freqMin, opts.freqMax);
      if nspecbins == 0 {
        return false, 0;
      }
    }
    BlocksFit(nry, fftSize);
    nrphasetracks := AccumulateBlocks(data, nry, nrx, fftSize, blocks, lrfs, opts, regions, nspecbins, dft);
    ZapRows(lrfs, nrx, fftSize, bands);
    ok := true;
  }
}
