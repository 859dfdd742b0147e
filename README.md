# Fluctuation spectra, P3 folds and PA swings

This project models the core of psrsalsa's pulse-stack analysis and its PA-swing file handling as imperative Dafny, and proves what that code computes.

A pulse stack is `nry` pulses by `nrx` longitude bins, stored row-major in one flat buffer.

- **`TwoDFS`** models calc2DFS, the two-dimensional fluctuation spectrum.
  - It validates the arguments, then searches for the first window of off-pulse bins.
  - For every block it accumulates the power of the on-pulse window, with the columns rotated by half the width.
  - It subtracts the power of the off-pulse window.
- **`LRFS`** models calcLRFS, the longitude-resolved fluctuation spectrum.
  - It validates the arguments and counts the selected frequency bins.
  - Each block gets its own spectrum, with optional DC removal and a frequency mask.
  - Each row loses its off-pulse mean, and the block spectra are summed.
  - At the end, rows inside the -p3zap bands are cleared.
  - It also models the phase-track counter and the control of the alignment iterations.
- **`Modindex`** models calcModindex: column sums, normalisation by the profile peak, and the modulation index with its -1e10 sentinel.
- **`P3Fold`** models foldP3_simple, the fold of a stack onto the subpulse phase P3.
  - Without smoothing, a sample is split between two adjacent phase bins.
  - With smoothing, every phase bin receives a Gaussian weight of its circular distance.
  - The cells are then optionally divided by their weights.
- **`FoldBlocks`** models foldP3.
  - The stack is folded in blocks, each placed at the trial offset that correlates best with the reference map.
  - The fold runs over `refine` passes.
- **`Paswing`** models four operations on a `DataFile` class:
  - filterPApoints, which keeps the bins with a significant PA;
  - writePPOLfile, modelled as the sequence of records it prints;
  - readPPOLHeader and readPPOLfile, over files given as tokenised lines.
- **`Grid`** holds the flat row-major indexing shared by all the buffers; `Regions` holds the region table; `Wrappers` holds `Option`.

Some callees are parameters:

- the transforms (`Magnitude2D`, `Transform`);
- `checkRegions` (`RegionSet.onPulse`);
- `derotate_deg` and `exp` (`Kernels`);
- `sqrt`.

Samples are `real`s. Loops that update arrays in place are methods with loop invariants. Each method is proved against a specification function, and the lemmas state the properties of those functions.

## Model

All source paths are under `src/lib/`.

| member | source | states |
|---|---|---|
| TwoDFS.PowerOfTwoSound | src/lib/spectra.c:44-51 | Every transform length the power-of-two test accepts is at least 1 and equals 2 to the power of its logarithm. |
| TwoDFS.PowerOfTwoComplete | src/lib/spectra.c:44-51 | Every power of two passes the test. |
| TwoDFS.Validate2DFSAsWritten | src/lib/spectra.c:44-98 | The checks as written. A plan needs a region table and `region <= nrRegions`. Without a table, a power-of-two length leads to a read outside the table, because the table is dereferenced before its NULL test. |
| TwoDFS.Validate2DFS | src/lib/spectra.c:44-98 | The checks as intended. They never read outside the table. They give a plan exactly when all of these hold: the length is a power of two, a table exists, `region < nrRegions`, the region is in bins, its width is even, and `nry >= fftSize`. The plan holds the region's left bin, its width, and `nry / fftSize` whole blocks. |
| TwoDFS.StaleSlotAccepted | src/lib/spectra.c:52-56 | With one region in use, region 1 reads a stale slot and is accepted as written. The intended checks reject it. |
| TwoDFS.ReadOutsideTable | src/lib/spectra.c:52-93 | A full table read at `region == nrRegions`, and a NULL table, both read outside the table as written. The intended checks report the missing table. |
| TwoDFS.FirstFreeWindowIsLeftmost | src/lib/spectra.c:117-137 | The window found is the leftmost start whose `width` bins all lie inside the stack and off-pulse. It is -1 exactly when no start qualifies. |
| TwoDFS.FirstFreeWindow | src/lib/spectra.c:117-137 | The search from a start bin gives -1 or a start at or after it whose window is free. |
| TwoDFS.FindOffpulseWindow | src/lib/spectra.c:117-137 | The search loop returns -1 exactly when no window is free. Otherwise it returns a free window with no free window before it. |
| TwoDFS.ShiftIsBijection | src/lib/spectra.c:157-160 | The rotation of column nb to `nb + width/2` (mod width) is a bijection on `[0, width)`, with inverse Unshift. |
| TwoDFS.WindowAt | src/lib/spectra.c:146-154 | Coefficient p of window column b is pulse p of the block at longitude `left + b`. |
| TwoDFS.ExtractWindow | src/lib/spectra.c:146-154 | The transform's input buffer ends up holding the block's window, column by column. |
| TwoDFS.ExtractWindowColumn | src/lib/spectra.c:147-153 | Copying column nb appends that longitude's series of the block to the columns already copied. |
| TwoDFS.AddOnPulse | src/lib/spectra.c:157-167 | Each cell (r, c) of the first half+1 rows gains the squared magnitude of coefficient (Unshift(c), r); row 0 gains nothing. Every other cell is unchanged. |
| TwoDFS.AddOnPulseColumn | src/lib/spectra.c:158-166 | One column nb of the on-pulse pass adds the squared magnitudes of rows 1 .. half at column Shift(nb). |
| TwoDFS.SubtractOffPulse | src/lib/spectra.c:193-202 | The intended off-pulse pass. Each cell loses exactly what the on-pulse pass adds to it, and row 0 is untouched. |
| TwoDFS.SubtractOffPulseAsWritten | src/lib/spectra.c:193-202 | The pass as written. Rows 1 .. half lose the block power. Row 0 loses the square of the stale magnitude left in `pwr`: the incoming value for the first column, the previous column's last magnitude for every later one (or the incoming value throughout when fftSize/2 is 0). The `pwr` left at the end is returned to the caller. |
| TwoDFS.SubtractOffPulseColumn | src/lib/spectra.c:194-201 | One column of the intended off-pulse pass subtracts the squared magnitudes of rows 1 .. half. |
| TwoDFS.SubtractOffPulseColumnAsWritten | src/lib/spectra.c:194-201 | One column of the pass as written. Row 0 loses the square of the incoming stale `pwr`. The `pwr` left behind is the magnitude of row `half`, or the incoming one when half is 0. |
| TwoDFS.StaleRowZeroIsNotZero | src/lib/spectra.c:197-200 | Runs both passes on a cleared two-column output, for a window whose magnitudes are all 1 and an incoming `pwr` of 1. Cell (0, 0) ends at -1 after the as-written pass and at 0 after the intended pass. |
| TwoDFS.RowZeroStaysZero | src/lib/spectra.c:161-165 | Row 0 (zero P3 frequency) of the spectrum is zero. |
| TwoDFS.ZeroStackZeroSpectrum | src/lib/spectra.c:139-202 | A stack of zeros gives an all-zero spectrum, given a transform that sends zero to zero. |
| TwoDFS.ZeroWindow | src/lib/spectra.c:146-154 | Every window of a stack of zeros is zero. |
| TwoDFS.Calc2DFS | src/lib/spectra.c:29-233 | Success exactly when Validate2DFS gives a plan; on failure the output is unchanged. On success, cell (r, c) of the first fftSize/2+1 rows is the sum over blocks of on-pulse power minus off-pulse power. The off-pulse power comes from the first free window and is omitted when there is none. The rest of the buffer is unchanged. |
| LRFS.CountInBandIsCardinality | src/lib/spectra.c:281-288 | The loop's count of selected bins is the number of bins i whose frequency i/fftSize lies in [freq_min, freq_max]. |
| LRFS.CountInBandZero | src/lib/spectra.c:281-295 | The count is zero exactly when no bin lies in the band. |
| LRFS.CountSpecBins | src/lib/spectra.c:281-288 | nspecbins is the number of bins 0 .. fftSize/2 inside the band. |
| LRFS.Rejection | src/lib/spectra.c:257-295 | calcLRFS stops with TooFewPulses exactly when `nry < fftSize`. It goes on exactly when the stack holds a block, the length is within the FFTW limit, and, if a phase track, inverse transform or amplitude is asked for, some bin is selected. |
| LRFS.DcRemoved | src/lib/spectra.c:341-343 | When bin 0 of the transform is the series total, DC subtraction leaves zero power in bin 0. |
| LRFS.BackgroundRemoved | src/lib/spectra.c:359-379 | After the off-pulse mean is subtracted, a row with an off-pulse bin has off-pulse entries that sum to zero. |
| LRFS.NoOffPulseNoChange | src/lib/spectra.c:371-379 | A row without off-pulse bins has mean 0 subtracted, so it keeps its values. |
| LRFS.AccumulatedOffPulseZero | src/lib/spectra.c:314-387 | With regions and at least one off-pulse bin, every row of the summed spectrum has an off-pulse sum of zero. |
| LRFS.ZappedStep | src/lib/spectra.c:479-498 | After one more -p3zap band, a row is zapped exactly when an earlier band zapped it or its frequency lies in the new band. |
| LRFS.TrackCountIsProduct | src/lib/spectra.c:334-388 | The phase-track counter ends at blocks * nspecbins with a phase track. Without one it ends at blocks * nspecbins * (1 - nrx). |
| LRFS.AlignmentStopsAtFirstConvergence | src/lib/spectra.c:413-461 | The alignment runs up to and including the first converged iteration, and at most IterationMax = 100 times. |
| LRFS.AlignmentPasses | src/lib/spectra.c:413-461 | The iteration loop aligns AlignmentCount times and rebuilds the template once more than that. |
| LRFS.ReadSeries | src/lib/spectra.c:321-325 | data1 holds the series of one bin in one block, and pwrtot is its sum. |
| LRFS.SeriesSpectrum | src/lib/spectra.c:338-354 | Column `bin` of the scratch spectrum gets the (DC-corrected) power of each kept frequency row. All other cells are unchanged. The phase-track counter grows by the number of selected bins. |
| LRFS.BlockSpectrum | src/lib/spectra.c:318-356 | Every scratch cell holds the raw power of its frequency and bin: zero where masked, DC-corrected in row 0. The counter's net change over the block is -nrx*nspecbins without a phase track and 0 with one. |
| LRFS.RemoveRowBackground | src/lib/spectra.c:360-379 | Row i loses the mean of its off-pulse cells; the other rows are unchanged. |
| LRFS.RemoveBackground | src/lib/spectra.c:357-382 | Every row loses the mean of its own off-pulse cells, computed before any change. |
| LRFS.CleanBlock | src/lib/spectra.c:318-382 | The scratch spectrum of a block is its raw spectrum, less the row's off-pulse mean when regions are defined. |
| LRFS.AddColumn | src/lib/spectra.c:384-386 | Column `bin` of the scratch spectrum is added into `lrfs`; everything else is unchanged. |
| LRFS.AddInto | src/lib/spectra.c:383-387 | The whole scratch spectrum is added into `lrfs`; cells past it are unchanged. |
| LRFS.ZeroRow | src/lib/spectra.c:491-493 | Row j of `lrfs` is cleared; all other cells are unchanged. |
| LRFS.ZapBand | src/lib/spectra.c:488-495 | The rows whose frequency lies in the band are cleared; all other cells are unchanged. |
| LRFS.ZapRows | src/lib/spectra.c:479-498 | The rows in any band are cleared; all other cells are unchanged. |
| LRFS.AccumulateBlocks | src/lib/spectra.c:314-393 | `lrfs` is cleared and becomes the sum of the cleaned block spectra. The counter ends at TrackCount. |
| LRFS.CalcLRFS | src/lib/spectra.c:234-498 | Success exactly when Rejection gives no error; on failure `lrfs` is untouched. On success each cell is the summed cleaned spectrum, or zero in a zapped row. Cells past the spectrum are unchanged. nrphasetracks is TrackCount of the nry/fftSize blocks. |
| Modindex.SumColumn | src/lib/spectra.c:536-540 | The loop returns the total of column b over the given rows. |
| Modindex.PeakAt | src/lib/spectra.c:543-547 | The index found lies in the profile and holds the peak. |
| Modindex.PeakIsMaximum | src/lib/spectra.c:543-547 | The peak is at least every bin, and every bin before PeakAt is strictly below it. |
| Modindex.FindPeak | src/lib/spectra.c:543-547 | The loop returns the peak of the profile and the first bin holding it. |
| Modindex.ModIndex | src/lib/spectra.c:583-587 | Where the normalised profile is zero the index is the -1e10 sentinel. Elsewhere, index times profile equals sigma. |
| Modindex.NormalisedPeak | src/lib/spectra.c:548-549 | After division by a positive peak, no bin exceeds 1 and the first peak bin is exactly 1. |
| Modindex.Normalise | src/lib/spectra.c:548-552 | Each profile bin is divided by the peak. Each column total becomes `sqrt(abs(total / max^2) * nrpulses * 2 / fftSize)`. Entries past nrx are unchanged. |
| Modindex.ColumnSums | src/lib/spectra.c:535-541 | sigma[b] is the total of LRFS column b; entries past nrx are unchanged. |
| Modindex.ModIndices | src/lib/spectra.c:583-587 | modind[b] is ModIndex(sigma[b], profile[b]) for every bin; entries past nrx are unchanged. |
| Modindex.CalcModindex | src/lib/spectra.c:531-589 | Returns the profile peak. The profile is divided by it. sigma holds the standard deviation from the column totals over rows 0 .. fftSize/2. modind holds the modulation index, or the sentinel where the profile is zero. |
| P3Fold.Phase | src/lib/spectra.c:608-611 | The reduced phase lies in [0, 360): a reduction to 360 is mapped to 0. |
| P3Fold.BinOf | src/lib/spectra.c:612 | The truncated phase bin is below nr_p3_bins. |
| P3Fold.Frac | src/lib/spectra.c:613-617 | The share that goes to the next bin lies in [0, 1). |
| P3Fold.NextBin | src/lib/spectra.c:624-626 | The bin after j wraps round and stays below nr_p3_bins. |
| P3Fold.SplitWeight | src/lib/spectra.c:613-629 | Each weight lies in [0, 1]. With noSmooth, the own bin gets weight 1 and every other bin 0. Bins other than the own and next bins get 0. |
| P3Fold.SplitWeightsSumToOne | src/lib/spectra.c:613-629 | Without smoothing, each sample hands out a total weight of exactly 1 over the phase bins. |
| P3Fold.CircDist | src/lib/spectra.c:640-646 | The circular distance is non-negative. |
| P3Fold.CircDistIsRoundDist | src/lib/spectra.c:640-646 | For a position and a bin inside the circle, the three-way comparison gives the distance round the circle: the shorter of the two ways, abs(x - j) and n - abs(x - j). |
| P3Fold.CircDistAtMostHalf | src/lib/spectra.c:640-646 | No phase bin is more than half the circle away. |
| P3Fold.PulseWeightIsSplitTotal | src/lib/spectra.c:613-629 | Without smoothing, the weight one pulse adds to a column's first m phase bins is its split total over those bins. |
| P3Fold.ColumnWeightIsPulseCount | src/lib/spectra.c:605-631 | Without smoothing, each longitude column of nrcounts totals exactly the number of pulses folded. |
| P3Fold.Deposit | src/lib/spectra.c:621-649 | Adds v to one map cell and w to the same weight cell; nothing else changes. |
| P3Fold.SplitBin | src/lib/spectra.c:608-630 | Each phase bin of column b gains that pulse's term and weight; the other columns are unchanged. |
| P3Fold.SplitPulse | src/lib/spectra.c:607-631 | Every cell gains the pulse's term and weight without smoothing; cells past the map are unchanged. |
| P3Fold.SmoothWeightIsGaussian | src/lib/spectra.c:633-647 | The smoothing weight of a phase bin is exp(-d^2/w^2), where d is the distance round the circle between the sample's position and the bin. |
| P3Fold.GaussianWeight | src/lib/spectra.c:635-647 | The weight of pulse i at bin b for phase bin j is exp(-d^2/w^2). Here d is the distance round the circle, in phase bins, between the sample's reduced phase and bin j. |
| P3Fold.SmoothBin | src/lib/spectra.c:635-649 | Cell (j, b) gains the Gaussian term and weight; nothing else changes. |
| P3Fold.SmoothRow | src/lib/spectra.c:634-650 | Row j gains the pulse's smoothed terms and weights; the other rows are unchanged. |
| P3Fold.SmoothPulse | src/lib/spectra.c:633-651 | Every cell gains the pulse's smoothed term and weight. |
| P3Fold.NormaliseCells | src/lib/spectra.c:654-662 | Each cell is divided by its weight where the weight is positive and otherwise kept. Cells past the map are unchanged. |
| P3Fold.FoldPulse | src/lib/spectra.c:606-652 | One more pulse extends the running sums over pulses lo .. i to lo .. i+1. |
| P3Fold.FoldPulses | src/lib/spectra.c:605-653 | Starting from cleared maps, every cell holds the sum over the pulses of its terms and weights. |
| P3Fold.FoldSimple | src/lib/spectra.c:595-663 | nrcounts holds each cell's total weight over pulses starty .. nry-1. Each map cell holds its total contribution, divided by the weight unless normalisation is off. Cells past the map are unchanged. |
| FoldBlocks.BlockSize | src/lib/spectra.c:675 | dN is foldp3 * cyclesperblock truncated, and at least 1. |
| FoldBlocks.BlockCountFits | src/lib/spectra.c:725-761 | The blocks lie inside the stack, and at most foldp3 * cyclesperblock pulses are left unfolded. |
| FoldBlocks.BlockIndexFits | src/lib/spectra.c:686 | The block counter stays within the 1 + nry/dN entries of bestoffset. |
| FoldBlocks.BlockMapAt | src/lib/spectra.c:729-753 | Cell (j, b) of a block map is the fold of that cell over the block's pulses. |
| FoldBlocks.CorrelationOfZero | src/lib/spectra.c:740-743 | Nothing correlates with an all-zero reference. |
| FoldBlocks.BestOffset | src/lib/spectra.c:747-750 | The kept offset is a valid phase bin, at least as good as every offset and strictly better than every earlier one: the first maximum. |
| FoldBlocks.EmptyReferenceKeepsOffsetZero | src/lib/spectra.c:727-750 | Against a zero reference every offset correlates to zero, so offset 0 is kept. |
| FoldBlocks.PeakStep | src/lib/spectra.c:747-750 | The running maximum of `correl > maxcorrel \|\| offset == 0` is the first maximum of the correlations seen so far. |
| FoldBlocks.PassMapNext | src/lib/spectra.c:753-759 | The next block adds its normalised fold, at the offset chosen against the reference, cell by cell. |
| FoldBlocks.FirstBlockUnshifted | src/lib/spectra.c:727-759 | The first block of the first pass meets an empty map and is folded unshifted. |
| FoldBlocks.RefinedNext | src/lib/spectra.c:715-774 | Each pass after the first uses the map of the pass before as its template. |
| FoldBlocks.CorrelationOf | src/lib/spectra.c:730-746 | The double loop returns the correlation of the reference with the block map over the selected bins. |
| FoldBlocks.FoldTrial | src/lib/spectra.c:729-753 | The scratch map holds the block's fold at the given offset. |
| FoldBlocks.TrialCorrelation | src/lib/spectra.c:729-746 | The correlation of the reference with the block's un-normalised fold at trial offset o. |
| FoldBlocks.SearchOffset | src/lib/spectra.c:727-751 | The offset loop returns BestOffset: the first offset with the largest correlation. |
| FoldBlocks.CopyCells | src/lib/spectra.c:768-774 | The template becomes a copy of the map's cells; the rest is unchanged. |
| FoldBlocks.FoldBlock | src/lib/spectra.c:727-759 | Folds one block into the map at the offset chosen against the reference. The map advances from the pass map of `blocks` blocks to that of `blocks + 1`, and a template is left as it was. |
| FoldBlocks.ChooseOffset | src/lib/spectra.c:727-751 | The offset searched for the block is the one the pass's choice function gives for the reference map. |
| FoldBlocks.AddCells | src/lib/spectra.c:755-757 | Every cell of the block map is added into the map; the rest is unchanged. |
| FoldBlocks.AddBlock | src/lib/spectra.c:753-759 | The normalised fold of the block at the offset is added into the map. |
| FoldBlocks.FoldPass | src/lib/spectra.c:716-767 | The map is cleared and becomes the pass map of all the whole blocks the stack holds; cells past the map are unchanged. |
| FoldBlocks.RefinePass | src/lib/spectra.c:716-774 | One refined pass against the previous pass's map; the template is copied when another pass follows. |
| FoldBlocks.FoldPasses | src/lib/spectra.c:715-775 | After `refine` passes, the map is Refined of that many passes. |
| FoldBlocks.FoldP3 | src/lib/spectra.c:664-789 | Success exactly when cyclesperblock >= 1; on failure the map is unchanged. With refine <= 0, the map is the normalised fold of the whole stack. Otherwise it is the refined block fold. Cells past the map are unchanged. |
| Grid.ZeroPrefix | src/lib/spectra.c:318-319 | The first n cells become zero; the rest are unchanged. |
| Paswing.PALayout | src/lib/psrio_paswing.c:32-56 | The layout is accepted exactly when all of these hold: ILVPAdPA with 5 channels or PAdPA with 2, at most one sub-integration and one frequency channel, and a longitude list. PA and dPA are then the last two channels. |
| Paswing.PickedExactly | src/lib/psrio_paswing.c:60-80 | A bin is picked exactly when it is below n and its dPA is positive (or all bins are kept). |
| Paswing.PickedIncreasing | src/lib/psrio_paswing.c:78-94 | The picked bins are strictly increasing, and the m-th is at or after bin m, so the in-place move never overwrites a longitude still to be read. |
| Paswing.PickedAll | src/lib/psrio_paswing.c:559-560 | Keeping all bins picks every bin in order. |
| Paswing.PickedGrows | src/lib/psrio_paswing.c:61-65 | The bins picked below i are a prefix of those picked below any larger n. |
| Paswing.CountSignificant | src/lib/psrio_paswing.c:60-65 | nrpoints is the number of bins with positive dPA. |
| Paswing.CopyBin | src/lib/psrio_paswing.c:81-90 | Every channel of old bin i goes to new bin j; the other new bins are unchanged. |
| Paswing.KeepBin | src/lib/psrio_paswing.c:80-92 | Keeping old bin i as the next new bin extends the copied prefix by it: every channel of bin i lands in the new bin, and its longitude moves down to that slot. |
| Paswing.CompactBins | src/lib/psrio_paswing.c:69-95 | The new buffer has NrPols rows of nrpoints cells. Cell (ch, j) is old cell (ch, p[j]), where p[j] is the j-th significant bin. The first nrpoints longitudes are those of the picked bins in order; the tail is unchanged. |
| Paswing.DataFile.FilterPAPoints | src/lib/psrio_paswing.c:27-98 | A layout PALayout refuses returns 0 and changes nothing. Otherwise the result is the number of significant bins, and NrBins becomes it. data is a fresh compacted buffer holding the significant bins of every channel in order. tsampList is compacted in place. The description and the other lists are unchanged. |
| Paswing.ProfileFollowsPicked | src/lib/psrio_paswing.c:559-567 | A turn prints exactly one record per picked bin, in increasing bin order. |
| Paswing.NextTurn | src/lib/psrio_paswing.c:569-577 | A record one turn on keeps its kind, PA and dPA, and lies 360 degrees later. |
| Paswing.SecondTurnRepeatsFirst | src/lib/psrio_paswing.c:568-578 | The intended second turn has as many records as the first, and each is the first turn's record one turn on. |
| Paswing.SecondTurnAsWrittenPrintsStokesI | src/lib/psrio_paswing.c:574 | A short ILVPAdPA file with I = 1, PA = 2 and dPA = 1. The first turn prints PA 2; the as-written second turn prints 1 (Stokes I), not the first record one turn on. |
| Paswing.PAChannel | src/lib/psrio_paswing.c:562-574 | The channel printed as PA is the layout's PA channel, except in the as-written second turn. |
| Paswing.RecordAt | src/lib/psrio_paswing.c:562-574 | The record printed for bin j, read from the source's cells `data[j + ch*NrBins]`. It is long exactly in extended mode. Its longitude is `tsamp[j]`, plus 360 in the second turn. Its PA is the PAChannel sample plus the offset, and its dPA is the dPA channel's sample. In extended mode the index is j (or j + NrBins in the second turn), and I, L and V are channels 0-2 with rms values 0-2. |
| Paswing.EmitProfile | src/lib/psrio_paswing.c:559-577 | The output loop prints the records of one turn for the picked bins. |
| Paswing.DataFile.WritePPOLFileAsWritten | src/lib/psrio_paswing.c:528-580 | Succeeds exactly when PALayout accepts, and prints nothing when it fails. On success it prints the first turn, then with twoprofiles the second turn as written. |
| Paswing.DataFile.WritePPOLFile | src/lib/psrio_paswing.c:528-580 | The same, with the intended second turn, which prints the layout's PA channel. |
| Paswing.ScanHeaderCounts | src/lib/psrio_paswing.c:396-441 | The header scan counts the data lines up to the first line that is malformed or at 360 degrees or more. It reports failure exactly when that line is malformed. |
| Paswing.DataFile.CountBins | src/lib/psrio_paswing.c:396-441 | The counting loop leaves NrBins equal to the header scan's count. It succeeds exactly when the scan met no malformed line. |
| Paswing.DataFile.NewTsubList | src/lib/psrio_paswing.c:363-371 | A fresh sub-integration list holding the single time 0. |
| Paswing.DataFile.AllocateLists | src/lib/psrio_paswing.c:452-469 | A fresh longitude list of NrBins entries, and an off-pulse rms list of 5 entries (extended) or none. |
| Paswing.DataFile.ReadPPOLHeader | src/lib/psrio_paswing.c:345-471 | The file is described as one folded sub-integration, with a longitude list and the ILVPAdPA or PAdPA layout. NrBins is the header count. Success requires the file to be readable, the count to be clean and at least one bin. After success the lists are fresh and sized; after failure the old ones are kept. |
| Paswing.Scanned | src/lib/psrio_paswing.c:505-507 | sscanf assigns word f exactly when it and every word before it read as numbers. |
| Paswing.StoreChannelsAt | src/lib/psrio_paswing.c:505-507 | Channels of slot k get the numbers read for them; no other cell of the layout changes. |
| Paswing.StartRead | src/lib/psrio_paswing.c:491-494 | The read starts at slot 0 with the buffers as given; in extended mode the rms of channels 3 and 4 becomes -1 and the first three rms values are kept. |
| Paswing.ScanChannels | src/lib/psrio_paswing.c:505-507 | The channel values of one line are stored in slot k, as StoreChannels describes. |
| Paswing.ScanRms | src/lib/psrio_paswing.c:507 | The three off-pulse rms values of an extended line are stored, as StoreRms describes. |
| Paswing.AcceptedLines | src/lib/psrio_paswing.c:509-515 | The accepted lines are data lines, in order, whose shifted longitude lies in [0, 360). |
| Paswing.DataFile.ScanInto | src/lib/psrio_paswing.c:504-508 | The sscanf of one data line leaves the state ScanLine describes. |
| Paswing.DataFile.ReadInto | src/lib/psrio_paswing.c:496-516 | One pass of the reading loop leaves the state ReadLine describes. |
| Paswing.ReadLinesStoresAccepted | src/lib/psrio_paswing.c:495-517 | Reading complete lines accepts exactly those whose shifted longitude is in [0, 360). Accepted line m sits in slot m: its shifted longitude in tsampList[m] and each channel in data. |
| Paswing.DataFile.ReadPPOLFile | src/lib/psrio_paswing.c:472-527 | NrBins == 0 fails and changes nothing. Otherwise the rms of channels 3 and 4 is marked -1 (extended), and the first NrBins lines (or fewer, if the file ends) are read. The call succeeds exactly when NrBins lines were there and the accepted count is NrBins. |

## Left out

- I/O is not modelled: fgets, fprintf, fseek/rewind, skipallhashedlines, pickWordFromString and the "#pp" magic test, which only warns.
  - The readers take the lines after the leading comments, already split into words.
  - Whether the file can be read is the `readable` parameter.
  - The datastart offset is implicit in the lines passed to readPPOLfile.
  - The writer returns its records rather than printing them.
- Verbose and progress output, memory-allocation failures and frees are left out.
- Floating point is modelled as unbounded reals: float/double rounding, NaN and infinity are not captured.
- The FFTs (FFTW and the Numerical Recipes branches) are parameters, and so are `cabs`, `derotate_deg`, `exp` and `sqrt`.
- checkRegions is an uninterpreted predicate, and the region table's own bookkeeping is not part of this model.
- The phasor alignment of calcLRFS (spectra.c:399-477) is not modelled beyond its iteration control and the phase-track counter, because it is complex floating-point arithmetic. That includes the template, the correlations, phase_track, phase_track_phases and subpulseAmplitude.
- inverseFFT only enables the count of selected frequency bins (spectra.c:280), which is modelled. The inverse plan made at spectra.c:273 is never executed.
- The var_rms statistics of calcLRFS and the uncertainties rms_sigma/rms_modind of calcModindex are not modelled, because they are floating-point statistics.
- The argv parsing of -p3zap (an unparsable band calls exit) is not modelled: the bands are a parameter.
- foldP3's nrcounts accumulation on the refined path is never read, and is left out.
- make_paswing_fromIQUV and writePPOLHeader are not part of this model.
- sscanf's partial parses are not modelled: a word reads as a number entirely or not at all. The extended reader's `%ld` on a non-integer first word is not modelled either.
- TwoDFS.Calc2DFS: requires fftSize >= 1, because the source takes the logarithm of 0 and divides by fft_size.
  - It also requires, for an accepted plan (PlanFits), that the region's left bin is at least 0, its width at least 1, `left + width <= nrx`, and that the output holds `(fftSize/2+1) * width` cells.
  - spectra.c:44-98 checks none of these; without them the source reads outside `data` or writes outside `twodfs`.
- LRFS.CalcLRFS: requires fftSize >= 1. The source divides nry by fft_size.
- FoldBlocks.FoldP3: requires the truncated block length foldp3 * cyclesperblock to be at least 1 when cyclesperblock >= 1. Otherwise the source divides by dN = 0 at spectra.c:686, and its block loop never ends.
- P3Fold.FoldSimple: requires nr_p3_bins >= 1 and foldp3 != 0, and assumes derotate_deg returns an angle in [0, 360]. The source's out-of-range message at spectra.c:619-620 is not modelled.
- Modindex.CalcModindex: requires a non-zero profile peak. The source divides by it and would produce infinities, which reals cannot represent.
- Paswing.DataFile.WritePPOLFile: requires the buffers to hold every sample a record reads. The extended format reads channels 0-4 and three rms values for either layout, and the model does not capture the out-of-bounds reads the source makes for extended PAdPA data.
- Paswing.DataFile.WritePPOLFileAsWritten: requires the same buffers as WritePPOLFile.
- Paswing.DataFile.FilterPAPoints: requires the sample buffer to hold NrPols rows of NrBins and the longitude list NrBins entries, which the source assumes.
- Paswing.DataFile.ReadPPOLFile: requires the buffers to hold the layout's NrBins slots. The source writes past them if they do not.
- The phase-track counter is modelled as written. When an amplitude is asked for without a phase track, it ends at `blocks * nspecbins * (1 - nrx)`, which is negative for nrx >= 2 (LRFS.TrackCountIsProduct). spectra.c:404 then passes that count to malloc; the alignment stage that would use it is not part of this model.
- The integer widths of the source (int/long counters) are unbounded here: no counter in the modelled paths wraps for realistic sizes.

## Findings

| source | as written | input that shows it | evidently intended | confidence | as-written member | corrected member |
|---|---|---|---|---|---|---|
| src/lib/spectra.c:52 | `if(onpulse->nrRegions < region)` lets `region == nrRegions` through, reading the slot past the regions in use | one region in use, region = 1, with a stale second slot: accepted | reject `region >= nrRegions` | not executed | TwoDFS.Validate2DFSAsWritten, TwoDFS.StaleSlotAccepted | TwoDFS.Validate2DFS |
| src/lib/spectra.c:89 | the NULL test of `onpulse` comes after `onpulse->nrRegions` was already read at line 52 | `onpulse == NULL` with a power-of-two length: dereferenced | test for NULL before the first dereference | not executed | TwoDFS.Validate2DFSAsWritten, TwoDFS.ReadOutsideTable | TwoDFS.Validate2DFS |
| src/lib/spectra.c:197-200 | without braces only `pwr = ...` is guarded by `np != 0`, so row 0 loses the square of a stale `pwr` | a window whose coefficients all have magnitude 1: row 0 goes to -1 | guard both statements, as in the on-pulse pass at lines 162-165 | not executed | TwoDFS.SubtractOffPulseAsWritten, TwoDFS.StaleRowZeroIsNotZero | TwoDFS.SubtractOffPulse, TwoDFS.RowZeroStaysZero |
| src/lib/psrio_paswing.c:574 | the short-format second turn prints `data[j]+PAoffset`, which is Stokes I for ILVPAdPA data (and line 572 prints channel 3 for extended PAdPA data) | short ILVPAdPA, one bin with I = 1, PA = 2, dPA = 1: the first turn prints PA 2, the second 1 | print `data[j+pa_offset*NrBins]+PAoffset`, as the first turn does | not executed | Paswing.DataFile.WritePPOLFileAsWritten, Paswing.SecondTurnAsWrittenPrintsStokesI | Paswing.DataFile.WritePPOLFile, Paswing.SecondTurnRepeatsFirst |
