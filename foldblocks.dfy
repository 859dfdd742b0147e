/** foldP3 (src/lib/spectra.c:664-789): the P3 fold of a whole pulse stack
    with the drift of the subpulse phase between blocks taken out.

    With `refine` <= 0 the stack is folded once with foldP3_simple and
    normalised. Otherwise the stack is cut into blocks of dN pulses
    (dN = foldp3 * cyclesperblock, truncated) and folded in `refine` passes.
    In each pass every block is folded at each of the nr_p3_bins trial
    phase offsets; the offset whose un-normalised fold correlates best with
    the reference (the map built so far in the first pass, the map of the
    previous pass afterwards) is kept, and the normalised fold of the block
    at that offset is added into the map. Pulses after the last block that
    still leaves more than foldp3 * cyclesperblock pulses are not folded. */
module FoldBlocks {
  import opened Grid
  import opened Regions
  import opened Wrappers
  import opened P3Fold
  import Modindex

  // ---------------------------------------------------------------------
  // Blocks
  // ---------------------------------------------------------------------

  /** The block length dN: foldp3 * cyclesperblock truncated to an integer
      (src/lib/spectra.c:675). */
  function BlockSize(f: Fold, cyclesPerBlock: int): (dN: nat)
    requires cyclesPerBlock >= 1 && f.foldp3 * cyclesPerBlock as real >= 1.0
    ensures 1 <= dN && dN as real <= f.foldp3 * cyclesPerBlock as real < dN as real + 1.0
  {
    (f.foldp3 * cyclesPerBlock as real).Floor
  }

  /** The number of blocks of dN pulses folded out of `left` pulses: a
      further block is taken while more than `limit` pulses are left
      (src/lib/spectra.c:725, 760-761). */
  function BlockCount(left: nat, dN: nat, limit: real): nat
    requires 1 <= dN && dN as real <= limit
    decreases left
  {
    if left as real > limit then 1 + BlockCount(left - dN, dN, limit) else 0
  }

  /** The blocks lie inside the stack, and at most `limit` pulses are left
      over after the last one. */
  lemma {:induction false} BlockCountFits(left: nat, dN: nat, limit: real)
    requires 1 <= dN && dN as real <= limit
    ensures Area(BlockCount(left, dN, limit), dN) <= left
    ensures (left - Area(BlockCount(left, dN, limit), dN)) as real <= limit
  {
    if left as real > limit {
      BlockCountFits(left - dN, dN, limit);
      AreaStep(BlockCount(left - dN, dN, limit), dN);
    }
  }

  /** One more block of a buffer is `width` more cells. */
  lemma {:induction false} AreaStep(rows: nat, width: nat)
    ensures Area(rows + 1, width) == width + Area(rows, width)
  {
  }

  /** The block counter stays within the 1 + nry/dN entries of bestoffset
      (src/lib/spectra.c:686). */
  lemma BlockIndexFits(blockcounter: nat, dN: nat, nry: nat)
    requires 1 <= dN && Area(blockcounter, dN) <= nry
    ensures blockcounter < 1 + nry / dN
  {
    AreaIsProduct(blockcounter, dN);
    assert blockcounter * dN <= nry;
    if blockcounter > nry / dN {
      MulMonotone(nry / dN + 1, blockcounter, dN);
      BlocksFit(nry, dN);
      AreaIsProduct(nry / dN + 1, dN);
    }
  }

  lemma MulMonotone(a: nat, b: nat, c: nat)
    requires a <= b
    ensures a * c <= b * c
  {
  }

  // ---------------------------------------------------------------------
  // Block folds
  // ---------------------------------------------------------------------

  /** The phase offset in pulses of trial offset o, which shifts the fold
      by o phase bins (src/lib/spectra.c:729, 753). */
  function Shift(f: Fold, o: nat): real
    requires f.Valid()
  {
    o as real * f.foldp3 / f.nrP3Bins as real
  }

  /** The map foldP3_simple makes of pulses lo .. hi-1 at phase offset
      `offset`, as a flat row-major sequence of nr_p3_bins rows. */
  function BlockMap(k: Kernels, f: Fold, offset: real, data: seq<real>, nrx: nat, lo: nat, hi: nat,
                    normalise: bool): (m: seq<real>)
    requires k.Derotates() && f.Valid() && Area(hi, nrx) <= |data|
    ensures |m| == Area(f.nrP3Bins, nrx)
  {
    seq(Area(f.nrP3Bins, nrx), q requires 0 <= q < Area(f.nrP3Bins, nrx) =>
      if nrx == 0 then 0.0
      else CellOf(q, nrx); FoldCell(k, f, offset, data, nrx, lo, hi, normalise, ColOf(q, nrx), RowOf(q, nrx)))
  }

  /** Cell (j, b) of a block map is the fold of that cell. */
  lemma BlockMapAt(k: Kernels, f: Fold, offset: real, data: seq<real>, nrx: nat, lo: nat, hi: nat, normalise: bool,
                   j: nat, b: nat)
    requires k.Derotates() && f.Valid() && Area(hi, nrx) <= |data| && j < f.nrP3Bins && b < nrx
    ensures Cell(j, b, nrx) < Area(f.nrP3Bins, nrx)
    ensures BlockMap(k, f, offset, data, nrx, lo, hi, normalise)[Cell(j, b, nrx)]
         == FoldCell(k, f, offset, data, nrx, lo, hi, normalise, b, j)
  {
    CellBound(j, b, f.nrP3Bins, nrx);
    var q := Cell(j, b, nrx);
    CellOf(q, nrx);
    CellInjective(RowOf(q, nrx), ColOf(q, nrx), j, b, nrx);
  }

  /** A buffer whose cells are those of a fold holds its block map. */
  lemma BlockMapCells(a: seq<real>, k: Kernels, f: Fold, offset: real, data: seq<real>, nrx: nat, lo: nat, hi: nat,
                      normalise: bool)
    requires k.Derotates() && f.Valid() && Area(hi, nrx) <= |data| && Area(f.nrP3Bins, nrx) <= |a|
    requires forall j: nat, b: nat :: j < f.nrP3Bins && b < nrx ==>
      Cell(j, b, nrx) < |a| && a[Cell(j, b, nrx)] == FoldCell(k, f, offset, data, nrx, lo, hi, normalise, b, j)
    ensures forall q :: 0 <= q < Area(f.nrP3Bins, nrx) ==> a[q] == BlockMap(k, f, offset, data, nrx, lo, hi, normalise)[q]
  {
    if nrx >= 1 {
      forall q | 0 <= q < Area(f.nrP3Bins, nrx)
        ensures a[q] == BlockMap(k, f, offset, data, nrx, lo, hi, normalise)[q]
      {
        CellOf(q, nrx);
        RowOfBound(q, f.nrP3Bins, nrx);
      }
    } else {
      AreaIsProduct(f.nrP3Bins, nrx);
    }
  }

  /** The block map of every pulse range of the stack, and an empty map for
      a range beyond it. */
  function BlockMaps(k: Kernels, f: Fold, data: seq<real>, nrx: nat): (real, nat, nat, bool) -> seq<real>
    requires k.Derotates() && f.Valid()
  {
    (offset: real, lo: nat, hi: nat, normalise: bool) =>
      if Area(hi, nrx) <= |data| then BlockMap(k, f, offset, data, nrx, lo, hi, normalise)
      else Zeros(Area(f.nrP3Bins, nrx))
  }

  /** Every map `folds` gives has `cells` cells. */
  ghost predicate FoldsFit(folds: (real, nat, nat, bool) -> seq<real>, cells: nat)
  {
    forall offset: real, lo: nat, hi: nat, normalise: bool :: |folds(offset, lo, hi, normalise)| == cells
  }

  /** folds gives the block maps of the stack. The link is stated with
      BlockMap as trigger so that reasoning about passes leaves the folds
      folded. */
  ghost predicate FoldsAre(k: Kernels, f: Fold, data: seq<real>, nrx: nat, folds: (real, nat, nat, bool) -> seq<real>)
    requires k.Derotates() && f.Valid()
  {
    forall offset, lo: nat, hi: nat, normalise {:trigger BlockMap(k, f, offset, data, nrx, lo, hi, normalise)} ::
      Area(hi, nrx) <= |data| ==> folds(offset, lo, hi, normalise) == BlockMap(k, f, offset, data, nrx, lo, hi, normalise)
  }

  lemma StackFolds(k: Kernels, f: Fold, data: seq<real>, nrx: nat)
    requires k.Derotates() && f.Valid()
    ensures FoldsAre(k, f, data, nrx, BlockMaps(k, f, data, nrx))
    ensures FoldsFit(BlockMaps(k, f, data, nrx), Area(f.nrP3Bins, nrx))
  {
    var folds := BlockMaps(k, f, data, nrx);
    forall offset: real, lo: nat, hi: nat, normalise: bool
      ensures |folds(offset, lo, hi, normalise)| == Area(f.nrP3Bins, nrx)
    {
      if Area(hi, nrx) <= |data| {
        assert folds(offset, lo, hi, normalise) == BlockMap(k, f, offset, data, nrx, lo, hi, normalise);
      } else {
        assert folds(offset, lo, hi, normalise) == Zeros(Area(f.nrP3Bins, nrx));
      }
    }
  }

  // ---------------------------------------------------------------------
  // Correlation with the reference
  // ---------------------------------------------------------------------

  /** Whether bin b takes part in the correlation: every bin without an
      on-pulse region, otherwise the on-pulse bins (src/lib/spectra.c:733-738). */
  predicate Selected(onpulse: Option<RegionSet>, b: nat)
  {
    onpulse.None? || onpulse.value.onPulse(b)
  }

  /** What one cell adds to the correlation: the product of the squares of
      the reference and the block map (src/lib/spectra.c:739-744). */
  function Overlap(t: real, m: real): (r: real)
    ensures r >= 0.0
  {
    Sq(t) * Sq(m)
  }

  /** The correlation of bins 0 .. m-1 of row i. */
  function CorrelRow(ref: seq<real>, bm: seq<real>, nrx: nat, onpulse: Option<RegionSet>, i: nat, m: nat): (c: real)
    requires m <= nrx && Area(i + 1, nrx) <= |ref| && Area(i + 1, nrx) <= |bm|
    ensures c >= 0.0
  {
    if m == 0 then 0.0
    else
      CellBound(i, m - 1, i + 1, nrx);
      CorrelRow(ref, bm, nrx, onpulse, i, m - 1)
      + (if Selected(onpulse, m - 1) then Overlap(ref[Cell(i, m - 1, nrx)], bm[Cell(i, m - 1, nrx)]) else 0.0)
  }

  /** The correlation of the first `rows` rows of a block map with the
      reference, over the selected bins (src/lib/spectra.c:730-746). */
  function Correlation(ref: seq<real>, bm: seq<real>, nrx: nat, onpulse: Option<RegionSet>, rows: nat): (c: real)
    requires Area(rows, nrx) <= |ref| && Area(rows, nrx) <= |bm|
    ensures c >= 0.0
  {
    if rows == 0 then 0.0
    else
      AreaMonotone(rows - 1, rows, nrx);
      Correlation(ref, bm, nrx, onpulse, rows - 1) + CorrelRow(ref, bm, nrx, onpulse, rows - 1, nrx)
  }

  lemma {:induction false} CorrelRowAgrees(ref: seq<real>, ref2: seq<real>, bm: seq<real>, bm2: seq<real>, nrx: nat,
                                           onpulse: Option<RegionSet>, i: nat, m: nat)
    requires m <= nrx && Area(i + 1, nrx) <= |ref| && Area(i + 1, nrx) <= |bm|
    requires Area(i + 1, nrx) <= |ref2| && Area(i + 1, nrx) <= |bm2|
    requires forall q :: 0 <= q < Area(i + 1, nrx) ==> ref[q] == ref2[q] && bm[q] == bm2[q]
    ensures CorrelRow(ref, bm, nrx, onpulse, i, m) == CorrelRow(ref2, bm2, nrx, onpulse, i, m)
  {
    if m > 0 {
      CorrelRowAgrees(ref, ref2, bm, bm2, nrx, onpulse, i, m - 1);
      CellBound(i, m - 1, i + 1, nrx);
    }
  }

  /** The correlation reads only the cells of its rows. */
  lemma {:induction false} CorrelationAgrees(ref: seq<real>, ref2: seq<real>, bm: seq<real>, bm2: seq<real>, nrx: nat,
                                             onpulse: Option<RegionSet>, rows: nat)
    requires Area(rows, nrx) <= |ref| && Area(rows, nrx) <= |bm| && Area(rows, nrx) <= |ref2| && Area(rows, nrx) <= |bm2|
    requires forall q :: 0 <= q < Area(rows, nrx) ==> ref[q] == ref2[q] && bm[q] == bm2[q]
    ensures Correlation(ref, bm, nrx, onpulse, rows) == Correlation(ref2, bm2, nrx, onpulse, rows)
  {
    if rows > 0 {
      AreaMonotone(rows - 1, rows, nrx);
      CorrelationAgrees(ref, ref2, bm, bm2, nrx, onpulse, rows - 1);
      CorrelRowAgrees(ref, ref2, bm, bm2, nrx, onpulse, rows - 1, nrx);
    }
  }

  lemma {:induction false} CorrelRowOfZero(ref: seq<real>, bm: seq<real>, nrx: nat, onpulse: Option<RegionSet>, i: nat, m: nat)
    requires m <= nrx && Area(i + 1, nrx) <= |ref| && Area(i + 1, nrx) <= |bm|
    requires forall q :: 0 <= q < Area(i + 1, nrx) ==> ref[q] == 0.0
    ensures CorrelRow(ref, bm, nrx, onpulse, i, m) == 0.0
  {
    if m > 0 {
      CorrelRowOfZero(ref, bm, nrx, onpulse, i, m - 1);
      CellBound(i, m - 1, i + 1, nrx);
    }
  }

  /** Nothing correlates with an empty reference. */
  lemma {:induction false} CorrelationOfZero(ref: seq<real>, bm: seq<real>, nrx: nat, onpulse: Option<RegionSet>, rows: nat)
    requires Area(rows, nrx) <= |ref| && Area(rows, nrx) <= |bm|
    requires forall q :: 0 <= q < Area(rows, nrx) ==> ref[q] == 0.0
    ensures Correlation(ref, bm, nrx, onpulse, rows) == 0.0
  {
    if rows > 0 {
      AreaMonotone(rows - 1, rows, nrx);
      CorrelationOfZero(ref, bm, nrx, onpulse, rows - 1);
      CorrelRowOfZero(ref, bm, nrx, onpulse, rows - 1, nrx);
    }
  }

  /** The correlation with the reference of the un-normalised fold of
      pulses lo .. hi-1 at each trial offset. */
  function Correlations(f: Fold, folds: (real, nat, nat, bool) -> seq<real>, nrx: nat, onpulse: Option<RegionSet>,
                        ref: seq<real>, lo: nat, hi: nat): (cs: seq<real>)
    requires f.Valid() && FoldsFit(folds, Area(f.nrP3Bins, nrx)) && Area(f.nrP3Bins, nrx) <= |ref|
    ensures |cs| == f.nrP3Bins
  {
    seq(f.nrP3Bins, o requires 0 <= o < f.nrP3Bins =>
      Correlation(ref, folds(Shift(f, o), lo, hi, false), nrx, onpulse, f.nrP3Bins))
  }

  /** The offset kept for a block: the first trial offset whose correlation
      is the largest (src/lib/spectra.c:747-750). */
  function BestOffset(f: Fold, folds: (real, nat, nat, bool) -> seq<real>, nrx: nat, onpulse: Option<RegionSet>,
                      ref: seq<real>, lo: nat, hi: nat): (o: nat)
    requires f.Valid() && FoldsFit(folds, Area(f.nrP3Bins, nrx)) && Area(f.nrP3Bins, nrx) <= |ref|
    ensures o < f.nrP3Bins
    ensures var cs := Correlations(f, folds, nrx, onpulse, ref, lo, hi);
      (forall o' :: 0 <= o' < f.nrP3Bins ==> cs[o'] <= cs[o]) && (forall o' :: 0 <= o' < o ==> cs[o'] < cs[o])
  {
    var cs := Correlations(f, folds, nrx, onpulse, ref, lo, hi);
    Modindex.PeakIsMaximum(cs);
    Modindex.PeakAt(cs)
  }

  /** The correlations only depend on the cells of the reference map. */
  lemma BestOffsetAgrees(f: Fold, folds: (real, nat, nat, bool) -> seq<real>, nrx: nat, onpulse: Option<RegionSet>,
                         ref: seq<real>, ref2: seq<real>, lo: nat, hi: nat)
    requires f.Valid() && FoldsFit(folds, Area(f.nrP3Bins, nrx))
    requires Area(f.nrP3Bins, nrx) <= |ref| && Area(f.nrP3Bins, nrx) <= |ref2|
    requires forall q :: 0 <= q < Area(f.nrP3Bins, nrx) ==> ref[q] == ref2[q]
    ensures Correlations(f, folds, nrx, onpulse, ref, lo, hi) == Correlations(f, folds, nrx, onpulse, ref2, lo, hi)
    ensures BestOffset(f, folds, nrx, onpulse, ref, lo, hi) == BestOffset(f, folds, nrx, onpulse, ref2, lo, hi)
  {
    var cs := Correlations(f, folds, nrx, onpulse, ref, lo, hi);
    var cs2 := Correlations(f, folds, nrx, onpulse, ref2, lo, hi);
    forall o | 0 <= o < f.nrP3Bins
      ensures cs[o] == cs2[o]
    {
      var bm := folds(Shift(f, o), lo, hi, false);
      CorrelationAgrees(ref, ref2, bm, bm, nrx, onpulse, f.nrP3Bins);
    }
  }

  /** Of equal values the running maximum keeps the first. */
  lemma {:induction false} PeakAtOfFlat(s: seq<real>)
    requires |s| >= 1 && forall i :: 0 <= i < |s| ==> s[i] == s[0]
    ensures Modindex.PeakAt(s) == 0
  {
    if |s| > 1 {
      var t := s[..|s| - 1];
      assert forall i :: 0 <= i < |t| ==> t[i] == t[0] == s[0];
      PeakAtOfFlat(t);
      assert Modindex.Peak(t) == t[0];
    }
  }

  /** Against an empty reference every trial offset correlates to zero,
      so the first, offset 0, is kept. */
  lemma EmptyReferenceKeepsOffsetZero(f: Fold, folds: (real, nat, nat, bool) -> seq<real>, nrx: nat,
                                      onpulse: Option<RegionSet>, ref: seq<real>, lo: nat, hi: nat)
    requires f.Valid() && FoldsFit(folds, Area(f.nrP3Bins, nrx)) && Area(f.nrP3Bins, nrx) <= |ref|
    requires forall q :: 0 <= q < Area(f.nrP3Bins, nrx) ==> ref[q] == 0.0
    ensures BestOffset(f, folds, nrx, onpulse, ref, lo, hi) == 0
  {
    var cs := Correlations(f, folds, nrx, onpulse, ref, lo, hi);
    forall o | 0 <= o < f.nrP3Bins
      ensures cs[o] == 0.0
    {
      CorrelationOfZero(ref, folds(Shift(f, o), lo, hi, false), nrx, onpulse, f.nrP3Bins);
    }
    PeakAtOfFlat(cs);
  }

  // ---------------------------------------------------------------------
  // Passes
  // ---------------------------------------------------------------------

  /** The offset kept for every reference map and block of pulses. */
  function BestOffsets(f: Fold, folds: (real, nat, nat, bool) -> seq<real>, nrx: nat, onpulse: Option<RegionSet>)
    : (seq<real>, nat, nat) -> nat
    requires f.Valid() && FoldsFit(folds, Area(f.nrP3Bins, nrx))
  {
    (ref: seq<real>, lo: nat, hi: nat) =>
      if Area(f.nrP3Bins, nrx) <= |ref| then BestOffset(f, folds, nrx, onpulse, ref, lo, hi) else 0
  }

  /** choose gives the offset kept for every reference and block. The link
      is stated with BestOffset as trigger so that reasoning about passes
      leaves the choice folded. */
  ghost predicate Chooses(f: Fold, folds: (real, nat, nat, bool) -> seq<real>, nrx: nat, onpulse: Option<RegionSet>,
                          choose: (seq<real>, nat, nat) -> nat)
    requires f.Valid() && FoldsFit(folds, Area(f.nrP3Bins, nrx))
  {
    forall ref: seq<real>, lo: nat, hi: nat {:trigger BestOffset(f, folds, nrx, onpulse, ref, lo, hi)} ::
      Area(f.nrP3Bins, nrx) <= |ref| ==> choose(ref, lo, hi) == BestOffset(f, folds, nrx, onpulse, ref, lo, hi)
  }

  lemma BestOffsetsChoose(f: Fold, folds: (real, nat, nat, bool) -> seq<real>, nrx: nat, onpulse: Option<RegionSet>)
    requires f.Valid() && FoldsFit(folds, Area(f.nrP3Bins, nrx))
    ensures Chooses(f, folds, nrx, onpulse, BestOffsets(f, folds, nrx, onpulse))
  {
  }

  /** The map a block is correlated with: the template when there is one,
      the map so far otherwise (src/lib/spectra.c:740-743). */
  function Reference(template: Option<seq<real>>, prev: seq<real>): seq<real>
  {
    if template.Some? then template.value else prev
  }

  /** The map after the first `blocks` blocks of one pass. Block b covers
      pulses b*dN .. (b+1)*dN-1; it is folded normalised at the offset
      chosen against the reference and added into the map
      (src/lib/spectra.c:716-766). */
  function PassMap(f: Fold, folds: (real, nat, nat, bool) -> seq<real>, choose: (seq<real>, nat, nat) -> nat, nrx: nat,
                   dN: nat, template: Option<seq<real>>, blocks: nat): (m: seq<real>)
    requires f.Valid() && FoldsFit(folds, Area(f.nrP3Bins, nrx))
    ensures |m| == Area(f.nrP3Bins, nrx)
    decreases blocks
  {
    if blocks == 0 then Zeros(Area(f.nrP3Bins, nrx))
    else
      var prev := PassMap(f, folds, choose, nrx, dN, template, blocks - 1);
      var lo := Area(blocks - 1, dN);
      var bm := folds(Shift(f, choose(Reference(template, prev), lo, lo + dN)), lo, lo + dN, true);
      seq(Area(f.nrP3Bins, nrx), q requires 0 <= q < Area(f.nrP3Bins, nrx) => prev[q] + bm[q])
  }

  /** Block `blocks` is the dN pulses from lo on, after the blocks before
      it; its normalised fold at the offset chosen for it is added cell by
      cell. */
  lemma PassMapNext(f: Fold, folds: (real, nat, nat, bool) -> seq<real>, choose: (seq<real>, nat, nat) -> nat, nrx: nat,
                    dN: nat, template: Option<seq<real>>, blocks: nat, lo: nat, offset: nat)
    requires f.Valid() && FoldsFit(folds, Area(f.nrP3Bins, nrx)) && lo == Area(blocks, dN)
    requires offset == choose(Reference(template, PassMap(f, folds, choose, nrx, dN, template, blocks)), lo, lo + dN)
    ensures forall q :: 0 <= q < Area(f.nrP3Bins, nrx) ==>
      PassMap(f, folds, choose, nrx, dN, template, blocks + 1)[q]
      == PassMap(f, folds, choose, nrx, dN, template, blocks)[q] + folds(Shift(f, offset), lo, lo + dN, true)[q]
  {
  }

  /** PassMap as a function of the number of blocks folded. */
  ghost function PartialMaps(f: Fold, folds: (real, nat, nat, bool) -> seq<real>, choose: (seq<real>, nat, nat) -> nat,
                             nrx: nat, dN: nat, template: Option<seq<real>>): nat -> seq<real>
    requires f.Valid() && FoldsFit(folds, Area(f.nrP3Bins, nrx))
  {
    (blocks: nat) => PassMap(f, folds, choose, nrx, dN, template, blocks)
  }

  /** pass gives the map after every number of blocks of one pass. The
      link is stated with PassMap as trigger so that reasoning about the
      block loop leaves the blocks folded. */
  ghost predicate PartialMapsAre(f: Fold, folds: (real, nat, nat, bool) -> seq<real>, choose: (seq<real>, nat, nat) -> nat,
                                 nrx: nat, dN: nat, template: Option<seq<real>>, pass: nat -> seq<real>)
    requires f.Valid() && FoldsFit(folds, Area(f.nrP3Bins, nrx))
  {
    (forall blocks: nat {:trigger PassMap(f, folds, choose, nrx, dN, template, blocks)} ::
       pass(blocks) == PassMap(f, folds, choose, nrx, dN, template, blocks))
    && (forall blocks: nat :: |pass(blocks)| == Area(f.nrP3Bins, nrx))
  }

  lemma PartialMapsLink(f: Fold, folds: (real, nat, nat, bool) -> seq<real>, choose: (seq<real>, nat, nat) -> nat,
                        nrx: nat, dN: nat, template: Option<seq<real>>)
    requires f.Valid() && FoldsFit(folds, Area(f.nrP3Bins, nrx))
    ensures PartialMapsAre(f, folds, choose, nrx, dN, template, PartialMaps(f, folds, choose, nrx, dN, template))
  {
  }

  /** The first block of the first pass is compared with an empty map and
      so is folded unshifted. */
  lemma FirstBlockUnshifted(f: Fold, folds: (real, nat, nat, bool) -> seq<real>, nrx: nat, onpulse: Option<RegionSet>,
                            choose: (seq<real>, nat, nat) -> nat, dN: nat)
    requires f.Valid() && FoldsFit(folds, Area(f.nrP3Bins, nrx)) && Chooses(f, folds, nrx, onpulse, choose)
    ensures PassMap(f, folds, choose, nrx, dN, None, 1) == folds(0.0, 0, dN, true)
  {
    var z := PassMap(f, folds, choose, nrx, dN, None, 0);
    EmptyReferenceKeepsOffsetZero(f, folds, nrx, onpulse, z, 0, dN);
    assert Shift(f, 0) == 0.0;
    AreaStep(0, dN);
  }

  /** The map after `passes` passes over the stack; each pass after the
      first takes the map of the pass before as its template
      (src/lib/spectra.c:715, 768-774). */
  function Refined(f: Fold, folds: (real, nat, nat, bool) -> seq<real>, choose: (seq<real>, nat, nat) -> nat,
                   nry: nat, nrx: nat, dN: nat, limit: real, passes: nat): (m: seq<real>)
    requires f.Valid() && FoldsFit(folds, Area(f.nrP3Bins, nrx)) && 1 <= dN && dN as real <= limit && passes >= 1
    ensures |m| == Area(f.nrP3Bins, nrx)
    decreases passes
  {
    var template := if passes == 1 then None else Some(Refined(f, folds, choose, nry, nrx, dN, limit, passes - 1));
    PassMap(f, folds, choose, nrx, dN, template, BlockCount(nry, dN, limit))
  }

  /** Each pass takes the map of the pass before as its template. */
  lemma RefinedNext(f: Fold, folds: (real, nat, nat, bool) -> seq<real>, choose: (seq<real>, nat, nat) -> nat,
                    nry: nat, nrx: nat, dN: nat, limit: real, passes: nat)
    requires f.Valid() && FoldsFit(folds, Area(f.nrP3Bins, nrx)) && 1 <= dN && dN as real <= limit
    ensures Refined(f, folds, choose, nry, nrx, dN, limit, passes + 1)
         == PassMap(f, folds, choose, nrx, dN,
                    if passes == 0 then None else Some(Refined(f, folds, choose, nry, nrx, dN, limit, passes)),
                    BlockCount(nry, dN, limit))
  {
  }

  /** Refined as a function of the number of passes. */
  ghost function PassMaps(f: Fold, folds: (real, nat, nat, bool) -> seq<real>, choose: (seq<real>, nat, nat) -> nat,
                          nry: nat, nrx: nat, dN: nat, limit: real): nat -> seq<real>
    requires f.Valid() && FoldsFit(folds, Area(f.nrP3Bins, nrx)) && 1 <= dN && dN as real <= limit
  {
    passes => if passes >= 1 then Refined(f, folds, choose, nry, nrx, dN, limit, passes) else []
  }

  /** refined gives the map after every number of passes. The link is
      stated with Refined as trigger so that reasoning about the pass loop
      leaves the passes folded. */
  ghost predicate RefinesAs(f: Fold, folds: (real, nat, nat, bool) -> seq<real>, choose: (seq<real>, nat, nat) -> nat,
                            nry: nat, nrx: nat, dN: nat, limit: real, refined: nat -> seq<real>)
    requires f.Valid() && FoldsFit(folds, Area(f.nrP3Bins, nrx)) && 1 <= dN && dN as real <= limit
  {
    (forall passes: nat {:trigger Refined(f, folds, choose, nry, nrx, dN, limit, passes)} ::
       passes >= 1 ==> refined(passes) == Refined(f, folds, choose, nry, nrx, dN, limit, passes))
    && (forall passes: nat :: passes >= 1 ==> |refined(passes)| == Area(f.nrP3Bins, nrx))
  }

  lemma PassMapsRefine(f: Fold, folds: (real, nat, nat, bool) -> seq<real>, choose: (seq<real>, nat, nat) -> nat,
                       nry: nat, nrx: nat, dN: nat, limit: real)
    requires f.Valid() && FoldsFit(folds, Area(f.nrP3Bins, nrx)) && 1 <= dN && dN as real <= limit
    ensures RefinesAs(f, folds, choose, nry, nrx, dN, limit, PassMaps(f, folds, choose, nry, nrx, dN, limit))
  {
  }

  // ---------------------------------------------------------------------
  // The fold
  // ---------------------------------------------------------------------

  /** The map foldP3 makes with `passes` >= 1 passes over blocks of dN
      pulses. */
  function RefinedFold(k: Kernels, f: Fold, data: seq<real>, nry: nat, nrx: nat, onpulse: Option<RegionSet>, dN: nat,
                       limit: real, passes: nat): (m: seq<real>)
    requires k.Derotates() && f.Valid() && 1 <= dN && dN as real <= limit && passes >= 1
    ensures |m| == Area(f.nrP3Bins, nrx)
  {
    StackFolds(k, f, data, nrx);
    var folds := BlockMaps(k, f, data, nrx);
    Refined(f, folds, BestOffsets(f, folds, nrx, onpulse), nry, nrx, dN, limit, passes)
  }

  /** The correlation of the first `rows` rows of a block map with the
      reference (src/lib/spectra.c:730-746). */
  method CorrelationOf(ref: array<real>, bm: array<real>, nrx: nat, rows: nat, onpulse: Option<RegionSet>)
    returns (correl: real)
    requires Area(rows, nrx) <= ref.Length && Area(rows, nrx) <= bm.Length
    ensures correl == Correlation(ref[..], bm[..], nrx, onpulse, rows)
  {
    ghost var r, s := ref[..], bm[..];
    RowsInside(rows, nrx);
    correl := 0.0;
    var i := 0;
    while i < rows
      invariant 0 <= i <= rows
      invariant correl == Correlation(r, s, nrx, onpulse, i)
    {
      ghost var before := correl;
      var b := 0;
      while b < nrx
        invariant 0 <= b <= nrx
        invariant correl == before + CorrelRow(r, s, nrx, onpulse, i, b)
      {
        CellBound(i, b, i + 1, nrx);
        var c := Cell(i, b, nrx);
        if onpulse.None? || onpulse.value.onPulse(b) {
          correl := correl + Overlap(ref[c], bm[c]);
        }
        b := b + 1;
      }
      i := i + 1;
    }
  }

  /** foldP3_simple of pulses lo .. hi-1 at phase offset `offset` into the
      scratch map blockmap (src/lib/spectra.c:729, 753). */
  method FoldTrial(data: seq<real>, nrx: nat, blockmap: array<real>, nrcountsBlock: array<real>, k: Kernels, f: Fold,
                   offset: real, lo: nat, hi: nat, normalise: bool, ghost folds: (real, nat, nat, bool) -> seq<real>)
    requires k.Derotates() && f.Valid() && Area(hi, nrx) <= |data|
    requires FoldsAre(k, f, data, nrx, folds) && FoldsFit(folds, Area(f.nrP3Bins, nrx))
    requires Area(f.nrP3Bins, nrx) <= blockmap.Length && Area(f.nrP3Bins, nrx) <= nrcountsBlock.Length
    requires blockmap != nrcountsBlock
    modifies blockmap, nrcountsBlock
    ensures forall q :: 0 <= q < Area(f.nrP3Bins, nrx) ==> blockmap[q] == folds(offset, lo, hi, normalise)[q]
  {
    FoldSimple(data, hi, lo, nrx, blockmap, nrcountsBlock, k, f, offset, !normalise);
    BlockMapCells(blockmap[..], k, f, offset, data, nrx, lo, hi, normalise);
  }

  /** The correlation with the reference of the block of pulses lo .. hi-1
      folded without normalisation at trial offset o
      (src/lib/spectra.c:729-746). */
  method TrialCorrelation(data: seq<real>, nrx: nat, ref: array<real>, blockmap: array<real>,
                          nrcountsBlock: array<real>, k: Kernels, f: Fold, o: nat, lo: nat, hi: nat,
                          onpulse: Option<RegionSet>, ghost folds: (real, nat, nat, bool) -> seq<real>)
    returns (correl: real)
    requires k.Derotates() && f.Valid() && Area(hi, nrx) <= |data|
    requires FoldsAre(k, f, data, nrx, folds) && FoldsFit(folds, Area(f.nrP3Bins, nrx))
    requires Area(f.nrP3Bins, nrx) <= ref.Length && Area(f.nrP3Bins, nrx) <= blockmap.Length
    requires Area(f.nrP3Bins, nrx) <= nrcountsBlock.Length
    requires ref != blockmap && ref != nrcountsBlock && blockmap != nrcountsBlock
    modifies blockmap, nrcountsBlock
    ensures correl == Correlation(ref[..], folds(Shift(f, o), lo, hi, false), nrx, onpulse, f.nrP3Bins)
  {
    FoldTrial(data, nrx, blockmap, nrcountsBlock, k, f, Shift(f, o), lo, hi, false, folds);
    correl := CorrelationOf(ref, blockmap, nrx, f.nrP3Bins, onpulse);
    CorrelationAgrees(ref[..], ref[..], blockmap[..], folds(Shift(f, o), lo, hi, false), nrx, onpulse, f.nrP3Bins);
  }

  /** The running maximum of SearchOffset after one more trial offset x at
      o: the first offset starts it, and a later one replaces it only when
      its correlation is larger. */
  lemma PeakStep(s: seq<real>, o: nat, max: real, at: nat, x: real)
    requires o < |s| && x == s[o]
    requires o >= 1 ==> max == Modindex.Peak(s[..o]) && at == Modindex.PeakAt(s[..o])
    ensures x > max || o == 0 ==> x == Modindex.Peak(s[..o + 1]) && o == Modindex.PeakAt(s[..o + 1])
    ensures !(x > max || o == 0) ==> max == Modindex.Peak(s[..o + 1]) && at == Modindex.PeakAt(s[..o + 1])
  {
    assert s[..o + 1][..o] == s[..o];
  }

  /** The trial offset kept for the block of pulses lo .. hi-1: each offset
      is folded without normalisation into blockmap and correlated with the
      reference, and a later offset replaces the kept one only when it
      correlates better (src/lib/spectra.c:727-751). */
  method SearchOffset(data: seq<real>, nrx: nat, ref: array<real>, blockmap: array<real>, nrcountsBlock: array<real>,
                      k: Kernels, f: Fold, lo: nat, hi: nat, onpulse: Option<RegionSet>,
                      ghost folds: (real, nat, nat, bool) -> seq<real>)
    returns (best: nat)
    requires k.Derotates() && f.Valid() && Area(hi, nrx) <= |data|
    requires FoldsAre(k, f, data, nrx, folds) && FoldsFit(folds, Area(f.nrP3Bins, nrx))
    requires Area(f.nrP3Bins, nrx) <= ref.Length && Area(f.nrP3Bins, nrx) <= blockmap.Length
    requires Area(f.nrP3Bins, nrx) <= nrcountsBlock.Length
    requires ref != blockmap && ref != nrcountsBlock && blockmap != nrcountsBlock
    modifies blockmap, nrcountsBlock
    ensures best == BestOffset(f, folds, nrx, onpulse, ref[..], lo, hi)
  {
    ghost var cs := Correlations(f, folds, nrx, onpulse, ref[..], lo, hi);
    var maxcorrel := 0.0;
    best := 0;
    var o := 0;
    while o < f.nrP3Bins
      invariant 0 <= o <= f.nrP3Bins
      invariant o >= 1 ==> maxcorrel == Modindex.Peak(cs[..o]) && best == Modindex.PeakAt(cs[..o])
    {
      var correl := TrialCorrelation(data, nrx, ref, blockmap, nrcountsBlock, k, f, o, lo, hi, onpulse, folds);
      assert correl == cs[o];
      var next := o + 1;
      PeakStep(cs, o, maxcorrel, best, correl);
      if correl > maxcorrel || o == 0 {
        maxcorrel := correl;
        best := o;
      }
      o := next;
    }
    assert cs[..o] == cs;
  }

  /** Adds the first n cells of `src` into `dst`. */
  method AddCells(dst: array<real>, src: array<real>, n: nat)
    requires n <= dst.Length && n <= src.Length && dst != src
    modifies dst
    ensures forall q :: 0 <= q < n ==> dst[q] == old(dst[q]) + src[q]
    ensures forall q :: n <= q < dst.Length ==> dst[q] == old(dst[q])
  {
    var q := 0;
    while q < n
      invariant 0 <= q <= n
      invariant forall p :: 0 <= p < q ==> dst[p] == old(dst[p]) + src[p]
      invariant forall p :: q <= p < dst.Length ==> dst[p] == old(dst[p])
    {
      dst[q] := dst[q] + src[q];
      q := q + 1;
    }
  }

  /** Copies the first n cells of `src` into `dst`. */
  method CopyCells(dst: array<real>, src: array<real>, n: nat)
    requires n <= dst.Length && n <= src.Length && dst != src
    modifies dst
    ensures forall q :: 0 <= q < n ==> dst[q] == src[q]
    ensures forall q :: n <= q < dst.Length ==> dst[q] == old(dst[q])
  {
    var q := 0;
    while q < n
      invariant 0 <= q <= n
      invariant forall p :: 0 <= p < q ==> dst[p] == src[p]
      invariant forall p :: q <= p < dst.Length ==> dst[p] == old(dst[p])
    {
      dst[q] := src[q];
      q := q + 1;
    }
  }

  /** Folds block `blocks`, the pulses lo .. lo+dN-1, at its best offset
      and adds it into the map (src/lib/spectra.c:727-759). */
  method FoldBlock(data: seq<real>, nrx: nat, foldmap: array<real>, blockmap: array<real>, nrcountsBlock: array<real>,
                   ref: array<real>, k: Kernels, f: Fold, dN: nat, lo: nat, onpulse: Option<RegionSet>,
                   ghost folds: (real, nat, nat, bool) -> seq<real>, ghost choose: (seq<real>, nat, nat) -> nat,
                   ghost template: Option<seq<real>>, ghost pass: nat -> seq<real>, ghost blocks: nat)
    returns (best: nat)
    requires k.Derotates() && f.Valid() && lo == Area(blocks, dN) && Area(lo + dN, nrx) <= |data|
    requires FoldsAre(k, f, data, nrx, folds) && FoldsFit(folds, Area(f.nrP3Bins, nrx))
    requires Chooses(f, folds, nrx, onpulse, choose)
    requires Area(f.nrP3Bins, nrx) <= foldmap.Length && Area(f.nrP3Bins, nrx) <= ref.Length
    requires Area(f.nrP3Bins, nrx) <= blockmap.Length && Area(f.nrP3Bins, nrx) <= nrcountsBlock.Length
    requires foldmap != blockmap && foldmap != nrcountsBlock && blockmap != nrcountsBlock
    requires ref != blockmap && ref != nrcountsBlock
    requires template.None? ==> ref == foldmap
    requires template.Some? ==> (Area(f.nrP3Bins, nrx) <= |template.value| && ref != foldmap
      && forall q :: 0 <= q < Area(f.nrP3Bins, nrx) ==> ref[q] == template.value[q])
    requires PartialMapsAre(f, folds, choose, nrx, dN, template, pass)
    requires forall q :: 0 <= q < Area(f.nrP3Bins, nrx) ==> foldmap[q] == pass(blocks)[q]
    modifies foldmap, blockmap, nrcountsBlock
    ensures forall q :: 0 <= q < Area(f.nrP3Bins, nrx) ==> foldmap[q] == pass(blocks + 1)[q]
    ensures forall q :: Area(f.nrP3Bins, nrx) <= q < foldmap.Length ==> foldmap[q] == old(foldmap[q])
    ensures template.Some? ==> forall q :: 0 <= q < Area(f.nrP3Bins, nrx) ==> ref[q] == template.value[q]
  {
    var hi := lo + dN;
    ghost var prev := PassMap(f, folds, choose, nrx, dN, template, blocks);
    ghost var reference := Reference(template, prev);
    best := ChooseOffset(data, nrx, ref, blockmap, nrcountsBlock, k, f, lo, hi, onpulse, folds, choose, reference);
    AddBlock(data, nrx, foldmap, blockmap, nrcountsBlock, k, f, Shift(f, best), lo, hi, folds);
    PassMapNext(f, folds, choose, nrx, dN, template, blocks, lo, best);
    assert pass(blocks) == prev && pass(blocks + 1) == PassMap(f, folds, choose, nrx, dN, template, blocks + 1);
  }

  /** The offset SearchOffset keeps when the scratch reference holds
      `reference`: the one choose gives. */
  method ChooseOffset(data: seq<real>, nrx: nat, ref: array<real>, blockmap: array<real>, nrcountsBlock: array<real>,
                      k: Kernels, f: Fold, lo: nat, hi: nat, onpulse: Option<RegionSet>,
                      ghost folds: (real, nat, nat, bool) -> seq<real>, ghost choose: (seq<real>, nat, nat) -> nat,
                      ghost reference: seq<real>)
    returns (best: nat)
    requires k.Derotates() && f.Valid() && Area(hi, nrx) <= |data|
    requires FoldsAre(k, f, data, nrx, folds) && FoldsFit(folds, Area(f.nrP3Bins, nrx))
    requires Chooses(f, folds, nrx, onpulse, choose)
    requires Area(f.nrP3Bins, nrx) <= ref.Length && Area(f.nrP3Bins, nrx) <= blockmap.Length
    requires Area(f.nrP3Bins, nrx) <= nrcountsBlock.Length && Area(f.nrP3Bins, nrx) <= |reference|
    requires ref != blockmap && ref != nrcountsBlock && blockmap != nrcountsBlock
    requires forall q :: 0 <= q < Area(f.nrP3Bins, nrx) ==> ref[q] == reference[q]
    modifies blockmap, nrcountsBlock
    ensures best == choose(reference, lo, hi)
  {
    best := SearchOffset(data, nrx, ref, blockmap, nrcountsBlock, k, f, lo, hi, onpulse, folds);
    BestOffsetAgrees(f, folds, nrx, onpulse, ref[..], reference, lo, hi);
  }

  /** Folds the pulses lo .. hi-1 normalised at `offset` and adds the
      result into the map (src/lib/spectra.c:753-759). */
  method AddBlock(data: seq<real>, nrx: nat, foldmap: array<real>, blockmap: array<real>, nrcountsBlock: array<real>,
                  k: Kernels, f: Fold, offset: real, lo: nat, hi: nat, ghost folds: (real, nat, nat, bool) -> seq<real>)
    requires k.Derotates() && f.Valid() && Area(hi, nrx) <= |data|
    requires FoldsAre(k, f, data, nrx, folds) && FoldsFit(folds, Area(f.nrP3Bins, nrx))
    requires Area(f.nrP3Bins, nrx) <= foldmap.Length && Area(f.nrP3Bins, nrx) <= blockmap.Length
    requires Area(f.nrP3Bins, nrx) <= nrcountsBlock.Length
    requires foldmap != blockmap && foldmap != nrcountsBlock && blockmap != nrcountsBlock
    modifies foldmap, blockmap, nrcountsBlock
    ensures forall q :: 0 <= q < Area(f.nrP3Bins, nrx) ==>
      foldmap[q] == old(foldmap[q]) + folds(offset, lo, hi, true)[q]
    ensures forall q :: Area(f.nrP3Bins, nrx) <= q < foldmap.Length ==> foldmap[q] == old(foldmap[q])
  {
    FoldTrial(data, nrx, blockmap, nrcountsBlock, k, f, offset, lo, hi, true, folds);
    AddCells(foldmap, blockmap, Area(f.nrP3Bins, nrx));
  }

  /** One pass over the stack (src/lib/spectra.c:716-767): the map is
      cleared and every block is folded into it; bestoffset records the
      offset kept for each block. */
  method FoldPass(data: seq<real>, nry: nat, nrx: nat, foldmap: array<real>, blockmap: array<real>,
                  nrcountsBlock: array<real>, ref: array<real>, bestoffset: array<int>, k: Kernels, f: Fold,
                  dN: nat, limit: real, onpulse: Option<RegionSet>, ghost folds: (real, nat, nat, bool) -> seq<real>,
                  ghost choose: (seq<real>, nat, nat) -> nat, ghost template: Option<seq<real>>,
                  ghost pass: nat -> seq<real>)
    requires k.Derotates() && f.Valid() && Area(nry, nrx) <= |data| && 1 <= dN && dN as real <= limit
    requires FoldsAre(k, f, data, nrx, folds) && FoldsFit(folds, Area(f.nrP3Bins, nrx))
    requires Chooses(f, folds, nrx, onpulse, choose)
    requires bestoffset.Length == 1 + nry / dN
    requires Area(f.nrP3Bins, nrx) <= foldmap.Length && Area(f.nrP3Bins, nrx) <= ref.Length
    requires Area(f.nrP3Bins, nrx) <= blockmap.Length && Area(f.nrP3Bins, nrx) <= nrcountsBlock.Length
    requires foldmap != blockmap && foldmap != nrcountsBlock && blockmap != nrcountsBlock
    requires ref != blockmap && ref != nrcountsBlock
    requires template.None? ==> ref == foldmap
    requires template.Some? ==> (Area(f.nrP3Bins, nrx) <= |template.value| && ref != foldmap
      && forall q :: 0 <= q < Area(f.nrP3Bins, nrx) ==> ref[q] == template.value[q])
    requires PartialMapsAre(f, folds, choose, nrx, dN, template, pass)
    modifies foldmap, blockmap, nrcountsBlock, bestoffset
    ensures forall q :: 0 <= q < Area(f.nrP3Bins, nrx) ==> foldmap[q] == pass(BlockCount(nry, dN, limit))[q]
    ensures forall q :: Area(f.nrP3Bins, nrx) <= q < foldmap.Length ==> foldmap[q] == old(foldmap[q])
  {
    ZeroPrefix(foldmap, Area(f.nrP3Bins, nrx));
    assert pass(0) == PassMap(f, folds, choose, nrx, dN, template, 0);
    var startpulse: nat := 0;
    var pulsesleft: nat := nry;
    var blockcounter: nat := 0;
    while pulsesleft as real > limit
      invariant startpulse == Area(blockcounter, dN) && startpulse + pulsesleft == nry
      invariant BlockCount(nry, dN, limit) == blockcounter + BlockCount(pulsesleft, dN, limit)
      invariant forall q :: 0 <= q < Area(f.nrP3Bins, nrx) ==> foldmap[q] == pass(blockcounter)[q]
      invariant forall q :: Area(f.nrP3Bins, nrx) <= q < foldmap.Length ==> foldmap[q] == old(foldmap[q])
      invariant template.Some? ==> forall q :: 0 <= q < Area(f.nrP3Bins, nrx) ==> ref[q] == template.value[q]
      decreases pulsesleft
    {
      var next := blockcounter + 1;
      AreaStep(blockcounter, dN);
      AreaMonotone(startpulse + dN, nry, nrx);
      BlockIndexFits(blockcounter, dN, nry);
      var best := FoldBlock(data, nrx, foldmap, blockmap, nrcountsBlock, ref, k, f, dN, startpulse, onpulse,
                            folds, choose, template, pass, blockcounter);
      bestoffset[blockcounter] := best;
      startpulse := startpulse + dN;
      pulsesleft := pulsesleft - dN;
      blockcounter := next;
    }
  }

  /** One pass of a refined fold (src/lib/spectra.c:716-774): the block
      folds of the stack, each aligned with the map of the pass before
      (the template, once there is one), and the map kept as the template
      of the next pass when more follow. */
  method RefinePass(data: seq<real>, nry: nat, nrx: nat, foldmap: array<real>, blockmap: array<real>,
                    nrcountsBlock: array<real>, template: array<real>, bestoffset: array<int>, k: Kernels, f: Fold,
                    dN: nat, limit: real, onpulse: Option<RegionSet>, ghost folds: (real, nat, nat, bool) -> seq<real>,
                    ghost choose: (seq<real>, nat, nat) -> nat, ghost refined: nat -> seq<real>, itt: nat,
                    keep: bool)
    requires k.Derotates() && f.Valid() && Area(nry, nrx) <= |data| && 1 <= dN && dN as real <= limit
    requires FoldsAre(k, f, data, nrx, folds) && FoldsFit(folds, Area(f.nrP3Bins, nrx))
    requires Chooses(f, folds, nrx, onpulse, choose)
    requires bestoffset.Length == 1 + nry / dN
    requires Area(f.nrP3Bins, nrx) <= foldmap.Length && Area(f.nrP3Bins, nrx) <= blockmap.Length
    requires Area(f.nrP3Bins, nrx) <= nrcountsBlock.Length
    requires foldmap != blockmap && foldmap != nrcountsBlock && blockmap != nrcountsBlock
    requires template != foldmap && template != blockmap && template != nrcountsBlock
    requires RefinesAs(f, folds, choose, nry, nrx, dN, limit, refined)
    requires (itt >= 1 || keep) ==> Area(f.nrP3Bins, nrx) <= template.Length
    requires itt >= 1 ==> forall q :: 0 <= q < Area(f.nrP3Bins, nrx) ==> template[q] == refined(itt)[q]
    modifies foldmap, blockmap, nrcountsBlock, bestoffset, template
    ensures forall q :: 0 <= q < Area(f.nrP3Bins, nrx) ==> foldmap[q] == refined(itt + 1)[q]
    ensures keep ==> forall q :: 0 <= q < Area(f.nrP3Bins, nrx) ==> template[q] == refined(itt + 1)[q]
    ensures !keep ==> unchanged(template)
    ensures forall q :: Area(f.nrP3Bins, nrx) <= q < foldmap.Length ==> foldmap[q] == old(foldmap[q])
  {
    var cells := Area(f.nrP3Bins, nrx);
    ghost var tmpl := if itt == 0 then None else Some(Refined(f, folds, choose, nry, nrx, dN, limit, itt));
    RefinedNext(f, folds, choose, nry, nrx, dN, limit, itt);
    assert refined(itt + 1) == Refined(f, folds, choose, nry, nrx, dN, limit, itt + 1);
    PartialMapsLink(f, folds, choose, nrx, dN, tmpl);
    var ref := if itt > 0 then template else foldmap;
    FoldPass(data, nry, nrx, foldmap, blockmap, nrcountsBlock, ref, bestoffset, k, f, dN, limit, onpulse, folds, choose,
             tmpl, PartialMaps(f, folds, choose, nrx, dN, tmpl));
    if keep {
      CopyCells(template, foldmap, cells);
    }
  }

  /** The `refine` passes of a refined fold (src/lib/spectra.c:715-775):
      after each pass but the last, the map becomes the template of the
      next. */
  method FoldPasses(data: seq<real>, nry: nat, nrx: nat, foldmap: array<real>, k: Kernels, f: Fold, refine: nat,
                    dN: nat, limit: real, onpulse: Option<RegionSet>, ghost folds: (real, nat, nat, bool) -> seq<real>,
                    ghost choose: (seq<real>, nat, nat) -> nat, ghost refined: nat -> seq<real>)
    requires k.Derotates() && f.Valid() && Area(nry, nrx) <= |data| && 1 <= dN && dN as real <= limit && refine >= 1
    requires FoldsAre(k, f, data, nrx, folds) && FoldsFit(folds, Area(f.nrP3Bins, nrx))
    requires Chooses(f, folds, nrx, onpulse, choose)
    requires RefinesAs(f, folds, choose, nry, nrx, dN, limit, refined)
    requires Area(f.nrP3Bins, nrx) <= foldmap.Length
    modifies foldmap
    ensures forall q :: 0 <= q < Area(f.nrP3Bins, nrx) ==> foldmap[q] == refined(refine)[q]
    ensures forall q :: Area(f.nrP3Bins, nrx) <= q < foldmap.Length ==> foldmap[q] == old(foldmap[q])
  {
    var cells := Area(f.nrP3Bins, nrx);
    var bestoffset := new int[1 + nry / dN];
    var blockmap := new real[cells];
    var nrcountsBlock := new real[cells];
    var template := new real[if refine > 1 then cells else 0];
    var itt := 0;
    while itt < refine
      invariant 0 <= itt <= refine
      invariant itt >= 1 ==> forall q :: 0 <= q < cells ==> foldmap[q] == refined(itt)[q]
      invariant itt >= 1 && refine > 1 ==> forall q :: 0 <= q < cells ==> template[q] == refined(itt)[q]
      invariant forall q :: cells <= q < foldmap.Length ==> foldmap[q] == old(foldmap[q])
    {
      RefinePass(data, nry, nrx, foldmap, blockmap, nrcountsBlock, template, bestoffset, k, f, dN, limit, onpulse,
                 folds, choose, refined, itt, refine > 1);
      itt := itt + 1;
    }
  }

  /** foldP3 (src/lib/spectra.c:664-789). It refuses a cyclesperblock below
      1. Otherwise, with refine <= 0, the map is the normalised fold of the
      whole stack; with refine >= 1 it is the map after `refine` passes of
      block folds. */
  method FoldP3(data: seq<real>, nry: nat, nrx: nat, foldmap: array<real>, k: Kernels, f: Fold, refine: int,
                cyclesPerBlock: int, onpulse: Option<RegionSet>)
    returns (ok: bool)
    requires k.Derotates() && f.Valid() && Area(nry, nrx) <= |data| && Area(f.nrP3Bins, nrx) <= foldmap.Length
    requires cyclesPerBlock >= 1 ==> f.foldp3 * cyclesPerBlock as real >= 1.0
    modifies foldmap
    ensures ok <==> cyclesPerBlock >= 1
    ensures !ok ==> foldmap[..] == old(foldmap[..])
    ensures ok && refine <= 0 ==> forall j: nat, b: nat :: j < f.nrP3Bins && b < nrx ==>
      Cell(j, b, nrx) < foldmap.Length && foldmap[Cell(j, b, nrx)] == FoldCell(k, f, 0.0, data, nrx, 0, nry, true, b, j)
    ensures ok && refine > 0 ==> forall q :: 0 <= q < Area(f.nrP3Bins, nrx) ==>
      foldmap[q] == RefinedFold(k, f, data, nry, nrx, onpulse, BlockSize(f, cyclesPerBlock),
                                f.foldp3 * cyclesPerBlock as real, refine)[q]
    ensures forall q :: Area(f.nrP3Bins, nrx) <= q < foldmap.Length ==> foldmap[q] == old(foldmap[q])
  {
    if cyclesPerBlock < 1 {
      return false;
    }
    var limit := f.foldp3 * cyclesPerBlock as real;
    var dN := limit.Floor;
    assert dN == BlockSize(f, cyclesPerBlock);
    if refine <= 0 {
      var nrcounts := new real[Area(f.nrP3Bins, nrx)];
      FoldSimple(data, nry, 0, nrx, foldmap, nrcounts, k, f, 0.0, false);
    } else {
      StackFolds(k, f, data, nrx);
      ghost var folds := BlockMaps(k, f, data, nrx);
      BestOffsetsChoose(f, folds, nrx, onpulse);
      ghost var choose := BestOffsets(f, folds, nrx, onpulse);
      PassMapsRefine(f, folds, choose, nry, nrx, dN, limit);
      ghost var refined := PassMaps(f, folds, choose, nry, nrx, dN, limit);
      FoldPasses(data, nry, nrx, foldmap, k, f, refine, dN, limit, onpulse, folds, choose, refined);
      assert refined(refine) == Refined(f, folds, choose, nry, nrx, dN, limit, refine);
    }
    return true;
  }
}
