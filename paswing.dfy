/** Position-angle swings (src/lib/psrio_paswing.c): a profile held as
    polarisation channels, one row of NrBins samples per channel, of which
    the last two are the position angle (PA) and its uncertainty (dPA).
    This module models the filter that keeps only the bins with a
    significant PA, the PPOL writer as the sequence of records it emits,
    and the two PPOL readers over files given as tokenised lines.

    Channel ch of bin i lives at Grid.Cell(ch, i, NrBins), that is
    `i + ch*NrBins`, as in the source. */
module Paswing {
  import opened Grid
  import opened Wrappers

  /** The polarisation layouts the module distinguishes: Stokes I, L, V,
      PA and dPA (POLTYPE_ILVPAdPA), PA and dPA alone (POLTYPE_PAdPA), and
      every other layout. */
  datatype PolType = ILVPAdPA | PAdPA | OtherPolType

  /** How the pulse longitude of each bin is known: from a fixed sampling
      time, or from an explicit list of longitudes (TSAMPMODE_LONGITUDELIST). */
  datatype TsampMode = FixedTsamp | LongitudeList

  datatype FoldMode = FixedPeriod | OtherFoldMode

  datatype TsubMode = FixedTsub | OtherTsubMode

  /** The channels holding the position angle and its uncertainty. */
  datatype Channels = Channels(pa: nat, dpa: nat)

  /** The checks filterPApoints and writePPOLfile make before reading any
      sample (src/lib/psrio_paswing.c:32-50, 531-549): a PA layout with its
      number of channels, one sub-integration, one frequency channel and a
      longitude list. On success, the channels of PA and dPA
      (src/lib/psrio_paswing.c:52-56, 550-558). */
  function PALayout(poltype: PolType, nrPols: int, nrSubints: int, nrFreqChan: int, tsampMode: TsampMode)
    : (c: Option<Channels>)
    ensures c.Some? <==>
      ((poltype == ILVPAdPA && nrPols == 5) || (poltype == PAdPA && nrPols == 2))
      && nrSubints <= 1 && nrFreqChan <= 1 && tsampMode == LongitudeList
    ensures c.Some? ==> c.value.dpa + 1 == nrPols && c.value.pa + 1 == c.value.dpa
  {
    if poltype != ILVPAdPA && poltype != PAdPA then None
    else if poltype == ILVPAdPA && nrPols != 5 then None
    else if poltype == PAdPA && nrPols != 2 then None
    else if nrSubints > 1 || nrFreqChan > 1 then None
    else if tsampMode != LongitudeList then None
    else if poltype == ILVPAdPA then Some(Channels(3, 4))
    else Some(Channels(0, 1))
  }

  // ---------------------------------------------------------------------
  // The bins with a significant position angle
  // ---------------------------------------------------------------------

  /** Bin i has a significant PA: its dPA is positive. */
  predicate Significant(data: seq<real>, nrBins: nat, dpa: nat, i: nat)
    requires i < nrBins && Area(dpa + 1, nrBins) <= |data|
  {
    CellBound(dpa, i, dpa + 1, nrBins);
    data[Cell(dpa, i, nrBins)] > 0.0
  }

  /** The bins among 0 .. n-1 that are kept, in increasing order: all of
      them when `all`, the significant ones otherwise. */
  function Picked(data: seq<real>, nrBins: nat, dpa: nat, all: bool, n: nat): (p: seq<nat>)
    requires n <= nrBins && Area(dpa + 1, nrBins) <= |data|
    ensures |p| <= n
    ensures forall m :: 0 <= m < |p| ==> p[m] < n
  {
    if n == 0 then []
    else Picked(data, nrBins, dpa, all, n - 1) + (if all || Significant(data, nrBins, dpa, n - 1) then [n - 1] else [])
  }

  /** A bin is picked exactly when it is below n and kept. */
  lemma {:induction false} PickedExactly(data: seq<real>, nrBins: nat, dpa: nat, all: bool, n: nat, i: nat)
    requires n <= nrBins && Area(dpa + 1, nrBins) <= |data|
    ensures i in Picked(data, nrBins, dpa, all, n) <==> i < n && (all || Significant(data, nrBins, dpa, i))
  {
    if n > 0 {
      PickedExactly(data, nrBins, dpa, all, n - 1, i);
    }
  }

  /** The picked bins keep their order, and the m-th of them is bin m or a
      later one (so compacting them in place never overwrites a bin still
      to be read). */
  lemma {:induction false} PickedIncreasing(data: seq<real>, nrBins: nat, dpa: nat, all: bool, n: nat)
    requires n <= nrBins && Area(dpa + 1, nrBins) <= |data|
    ensures forall a, b :: 0 <= a < b < |Picked(data, nrBins, dpa, all, n)| ==>
      Picked(data, nrBins, dpa, all, n)[a] < Picked(data, nrBins, dpa, all, n)[b]
    ensures forall m :: 0 <= m < |Picked(data, nrBins, dpa, all, n)| ==> m <= Picked(data, nrBins, dpa, all, n)[m]
  {
    if n > 0 {
      PickedIncreasing(data, nrBins, dpa, all, n - 1);
      var p := Picked(data, nrBins, dpa, all, n - 1);
      var q := Picked(data, nrBins, dpa, all, n);
      assert q == p + (if all || Significant(data, nrBins, dpa, n - 1) then [n - 1] else []);
      assert forall m :: 0 <= m < |p| ==> q[m] == p[m] < n - 1;
    }
  }

  /** Keeping all bins keeps every bin. */
  lemma {:induction false} PickedAll(data: seq<real>, nrBins: nat, dpa: nat, n: nat)
    requires n <= nrBins && Area(dpa + 1, nrBins) <= |data|
    ensures |Picked(data, nrBins, dpa, true, n)| == n
    ensures forall m :: 0 <= m < n ==> Picked(data, nrBins, dpa, true, n)[m] == m
  {
    if n > 0 {
      PickedAll(data, nrBins, dpa, n - 1);
    }
  }

  // ---------------------------------------------------------------------
  // The data file
  // ---------------------------------------------------------------------

  /** The fields of a datafile_definition that describe its data rather
      than hold it: the polarisation layout and number of channels, the
      numbers of sub-integrations and frequency channels, how longitudes
      and sub-integration times are known, and where the data start. */
  datatype Description = Description(
    poltype: PolType, nrPols: nat, nrSubints: int, nrFreqChan: int,
    isFolded: bool, foldMode: FoldMode, fixedPeriod: real,
    tsampMode: TsampMode, fixedTsamp: real, tsubMode: TsubMode, datastart: int)

  /** The description readPPOLHeader gives every PPOL file
      (src/lib/psrio_paswing.c:357-381): folded, one sub-integration and
      one frequency channel, a longitude list, and the layout ILVPAdPA
      (extended) or PAdPA. */
  function PPOLDescription(extended: bool): Description
  {
    Description(if extended then ILVPAdPA else PAdPA, NrChannels(extended), 1, 1,
                true, FixedPeriod, 0.0, LongitudeList, 0.0, FixedTsub, 0)
  }

  /** The data file: its description, NrBins, the samples `data` (NrPols
      rows of NrBins), the longitude of each bin `tsampList`, the off-pulse
      rms of each channel `offpulseRms` (empty where the source leaves it
      NULL) and the time of each sub-integration `tsubList`. */
  class DataFile {
    var desc: Description
    var nrBins: nat
    var data: array<real>
    var tsampList: array<real>
    var offpulseRms: array<real>
    var tsubList: array<real>

    /** A data file with no samples. */
    constructor Empty()
      ensures nrBins == 0 && desc.nrPols == 0 && data.Length == 0 && tsampList.Length == 0
      ensures offpulseRms.Length == 0 && tsubList.Length == 0
    {
      desc := Description(OtherPolType, 0, 0, 0, false, OtherFoldMode, 0.0, FixedTsamp, 0.0, OtherTsubMode, 0);
      nrBins := 0;
      data := new real[0];
      tsampList := new real[0];
      offpulseRms := new real[0];
      tsubList := new real[0];
    }

    function Layout(): Option<Channels>
      reads this
    {
      PALayout(desc.poltype, desc.nrPols, desc.nrSubints, desc.nrFreqChan, desc.tsampMode)
    }

    /** filterPApoints (src/lib/psrio_paswing.c:27-98). It refuses data
        that fails PALayout and changes nothing. Otherwise the samples
        become a new buffer holding, for every channel, only the bins with
        a significant PA in their original order, the longitude list is
        compacted the same way in place, and NrBins, which it returns,
        becomes the number of bins kept. */
    method FilterPAPoints() returns (r: nat)
      requires Layout().Some? ==> Area(desc.nrPols, nrBins) <= data.Length && nrBins <= tsampList.Length
      requires data != tsampList
      modifies this, tsampList
      ensures desc == old(desc) && tsampList == old(tsampList)
      ensures offpulseRms == old(offpulseRms) && tsubList == old(tsubList)
      ensures old(Layout()).None? ==> r == 0 && unchanged(this) && unchanged(tsampList)
      ensures old(Layout()).Some? ==>
        var p := Picked(old(data[..]), old(nrBins), old(Layout()).value.dpa, false, old(nrBins));
        r == |p| == nrBins && fresh(data) && data.Length == Area(desc.nrPols, r)
        && (forall ch: nat, j: nat :: ch < desc.nrPols && j < r ==>
              Cell(ch, j, r) < data.Length && Cell(ch, p[j], old(nrBins)) < |old(data[..])|
              && data[Cell(ch, j, r)] == old(data[..])[Cell(ch, p[j], old(nrBins))])
        && (forall j :: 0 <= j < r ==> tsampList[j] == old(tsampList[..])[p[j]])
        && (forall j :: r <= j < tsampList.Length ==> tsampList[j] == old(tsampList[j]))
    {
      var layout := Layout();
      if layout.None? {
        return 0;
      }
      var dpa := layout.value.dpa;
      var oldBins := nrBins;
      var olddata := data;
      AreaMonotone(dpa + 1, desc.nrPols, oldBins);
      var nrpoints := CountSignificant(olddata, oldBins, dpa);
      var newdata := CompactBins(olddata, tsampList, desc.nrPols, oldBins, dpa, nrpoints);
      data := newdata;
      nrBins := nrpoints;
      r := nrpoints;
    }

    /** writePPOLfile as written (src/lib/psrio_paswing.c:528-580): the
        records it prints, or failure for data PALayout refuses. The
        second turn prints channel 0 as the PA of short records and
        channel 3 as that of extended ones. */
    method WritePPOLFileAsWritten(data: array<real>, extended: bool, onlySignificantPA: bool, twoProfiles: bool, paOffset: real)
      returns (ok: bool, records: seq<Record>)
      requires Layout().Some? ==> Holds(data[..], tsampList[..], offpulseRms[..], nrBins, Layout().value, extended)
      ensures ok <==> Layout().Some?
      ensures !ok ==> records == []
      ensures ok ==> records == Written(data[..], tsampList[..], offpulseRms[..], nrBins, Layout().value, extended,
        !onlySignificantPA, twoProfiles, paOffset, SecondTurnAsWritten)
    {
      var layout := Layout();
      if layout.None? {
        return false, [];
      }
      records := EmitProfile(data, tsampList, offpulseRms, nrBins, layout.value, extended, !onlySignificantPA, paOffset, FirstTurn);
      if twoProfiles {
        var second := EmitProfile(data, tsampList, offpulseRms, nrBins, layout.value, extended, !onlySignificantPA, paOffset, SecondTurnAsWritten);
        records := records + second;
      }
      ok := true;
    }

    /** writePPOLfile with the second turn printing the PA channel of the
        layout, as the first turn does. */
    method WritePPOLFile(data: array<real>, extended: bool, onlySignificantPA: bool, twoProfiles: bool, paOffset: real)
      returns (ok: bool, records: seq<Record>)
      requires Layout().Some? ==> Holds(data[..], tsampList[..], offpulseRms[..], nrBins, Layout().value, extended)
      ensures ok <==> Layout().Some?
      ensures !ok ==> records == []
      ensures ok ==> records == Written(data[..], tsampList[..], offpulseRms[..], nrBins, Layout().value, extended,
        !onlySignificantPA, twoProfiles, paOffset, SecondTurn)
    {
      var layout := Layout();
      if layout.None? {
        return false, [];
      }
      records := EmitProfile(data, tsampList, offpulseRms, nrBins, layout.value, extended, !onlySignificantPA, paOffset, FirstTurn);
      if twoProfiles {
        var second := EmitProfile(data, tsampList, offpulseRms, nrBins, layout.value, extended, !onlySignificantPA, paOffset, SecondTurn);
        records := records + second;
      }
      ok := true;
    }

    /** readPPOLHeader (src/lib/psrio_paswing.c:345-471) on the lines that
        follow the leading comment lines. It describes the file as one
        folded sub-integration and frequency channel with a longitude list
        in layout ILVPAdPA (extended) or PAdPA. `readable` says whether the
        first three bytes of the file could be read; when they cannot, it
        fails before counting. Otherwise NrBins becomes the number of data
        lines before the first one at a longitude of 360 degrees or more,
        and it fails when a data line has the wrong number of words or an
        unreadable longitude, or when there are no bins; on success the
        longitude list and the off-pulse rms list (extended only) are new
        buffers of the right size. */
    method ReadPPOLHeader(lines: seq<Line>, extended: bool, readable: bool) returns (ok: bool)
      modifies this
      ensures desc == PPOLDescription(extended)
      ensures Layout() == Some(if extended then Channels(3, 4) else Channels(0, 1))
      ensures fresh(tsubList) && tsubList.Length == 1 && tsubList[0] == 0.0
      ensures !readable ==> !ok && nrBins == old(nrBins)
      ensures readable ==> nrBins == ScanHeader(lines, extended).bins
      ensures ok <==> readable && ScanHeader(lines, extended).Counted? && nrBins > 0
      ensures ok ==> fresh(tsampList) && tsampList.Length == nrBins
      ensures ok ==> fresh(offpulseRms) && offpulseRms.Length == (if extended then 5 else 0)
      ensures !ok ==> tsampList == old(tsampList) && offpulseRms == old(offpulseRms)
      ensures data == old(data)
    {
      desc := PPOLDescription(extended);
      NewTsubList();
      if !readable {
        return false;
      }
      ok := CountBins(lines, extended);
      if !ok {
        return;
      }
      if nrBins == 0 {
        return false;
      }
      AllocateLists(extended);
    }

    /** A sub-integration list holding the single time 0
        (src/lib/psrio_paswing.c:363-371). */
    method NewTsubList()
      modifies this`tsubList
      ensures fresh(tsubList) && tsubList.Length == 1 && tsubList[0] == 0.0
    {
      var tsub := new real[1];
      tsub[0] := 0.0;
      tsubList := tsub;
    }

    /** The lists readPPOLHeader allocates once it knows NrBins
        (src/lib/psrio_paswing.c:452-469): no off-pulse rms list, or one of
        NrSubints*NrFreqChan*NrPols = 5 entries (extended), and a longitude
        list of NrBins entries. */
    method AllocateLists(extended: bool)
      modifies this`offpulseRms, this`tsampList
      ensures fresh(tsampList) && tsampList.Length == nrBins
      ensures fresh(offpulseRms) && offpulseRms.Length == (if extended then 5 else 0)
    {
      offpulseRms := new real[if extended then 5 else 0];
      tsampList := new real[nrBins];
    }

    /** The counting loop of readPPOLHeader (src/lib/psrio_paswing.c:396-441). */
    method CountBins(lines: seq<Line>, extended: bool) returns (ok: bool)
      modifies this`nrBins
      ensures nrBins == ScanHeader(lines, extended).bins
      ensures ok <==> ScanHeader(lines, extended).Counted?
    {
      nrBins := 0;
      var last := 0.0;
      var i := 0;
      var more := true;
      while more
        invariant 0 <= i <= |lines|
        invariant more ==> ScanHeader(lines, extended) == Offset(ScanHeader(lines[i..], extended), nrBins)
        invariant !more ==> ScanHeader(lines, extended) == Counted(nrBins)
        invariant more ==> last < 360.0
        decreases |lines| - i, more
      {
        if i < |lines| {
          var line := lines[i];
          var next := i + 1;
          assert lines[i..][1..] == lines[next..];
          if line.Words? {
            if |line.words| != WordCount(extended) {
              return false;
            }
            var w := line.words[LongitudeWord(extended)];
            if w.Text? {
              return false;
            }
            last := w.value;
            if last < 360.0 {
              nrBins := nrBins + 1;
            }
          }
          i := next;
          more := last < 360.0;
        } else {
          more := false;
        }
      }
      ok := true;
    }

    /** readPPOLfile (src/lib/psrio_paswing.c:472-527) on the lines from
        the start of the data on. It fails at once when NrBins is zero.
        Otherwise it marks the rms of channels 3 and 4 as unknown
        (extended), reads NrBins lines, failing when the file ends first,
        and passes each data line through ReadLine; it succeeds when every
        one of those lines was accepted. */
    method ReadPPOLFile(data: array<real>, lines: seq<Line>, extended: bool, shift: real) returns (ok: bool)
      requires data != tsampList && data != offpulseRms && tsampList != offpulseRms
      requires nrBins > 0 ==> Fits(ReadState(tsampList[..], data[..], offpulseRms[..], 0), extended, nrBins)
      modifies data, tsampList, offpulseRms
      ensures nrBins == 0 ==> !ok && unchanged(data) && unchanged(tsampList) && unchanged(offpulseRms)
      ensures nrBins > 0 ==>
        var n := if |lines| < nrBins then |lines| else nrBins;
        var st := ReadLines(StartRead(old(tsampList[..]), old(data[..]), old(offpulseRms[..]), extended),
                            lines[..n], extended, shift, nrBins);
        tsampList[..] == st.tsamp && data[..] == st.data && offpulseRms[..] == st.rms
        && (ok <==> nrBins <= |lines| && st.k == nrBins)
    {
      if nrBins == 0 {
        return false;
      }
      if extended {
        offpulseRms[3] := -1.0;
        offpulseRms[4] := -1.0;
      }
      ghost var st0 := ReadState(tsampList[..], data[..], offpulseRms[..], 0);
      assert st0 == StartRead(old(tsampList[..]), old(data[..]), old(offpulseRms[..]), extended);
      var k: nat := 0;
      var i := 0;
      while i < nrBins
        invariant 0 <= i <= nrBins && i <= |lines| && k <= i
        invariant ReadState(tsampList[..], data[..], offpulseRms[..], k) == ReadLines(st0, lines[..i], extended, shift, nrBins)
      {
        if i >= |lines| {
          assert lines[..i] == lines[..|lines|];
          return false;
        }
        var next := i + 1;
        assert lines[..next][..i] == lines[..i];
        k := ReadInto(data, lines[i], extended, shift, k);
        i := next;
      }
      assert lines[..nrBins] == lines[..i];
      ok := k == nrBins;
    }

    /** One pass of the reading loop of readPPOLfile
        (src/lib/psrio_paswing.c:496-516), returning the new slot. */
    method ReadInto(data: array<real>, line: Line, extended: bool, shift: real, k: nat) returns (k': nat)
      requires data != tsampList && data != offpulseRms && tsampList != offpulseRms
      requires Fits(ReadState(tsampList[..], data[..], offpulseRms[..], k), extended, nrBins) && k < nrBins
      modifies data, tsampList, offpulseRms
      ensures ReadState(tsampList[..], data[..], offpulseRms[..], k')
        == ReadLine(ReadState(old(tsampList[..]), old(data[..]), old(offpulseRms[..]), k), line, extended, shift, nrBins)
    {
      k' := k;
      if line.Words? {
        ScanInto(data, line.words, extended, k);
        tsampList[k] := tsampList[k] + shift;
        if 0.0 <= tsampList[k] < 360.0 {
          k' := k + 1;
        }
      }
    }

    /** The sscanf of one data line into slot k
        (src/lib/psrio_paswing.c:504-508): each target is written when the
        words up to and including its own read as numbers. */
    method ScanInto(data: array<real>, words: seq<Word>, extended: bool, k: nat)
      requires data != tsampList && data != offpulseRms && tsampList != offpulseRms
      requires Fits(ReadState(tsampList[..], data[..], offpulseRms[..], k), extended, nrBins) && k < nrBins
      modifies data, tsampList, offpulseRms
      ensures ReadState(tsampList[..], data[..], offpulseRms[..], k)
        == ScanLine(ReadState(old(tsampList[..]), old(data[..]), old(offpulseRms[..]), k), words, extended, nrBins)
    {
      var t := Scanned(words, LongitudeWord(extended));
      if t.Some? {
        tsampList[k] := t.value;
      }
      ScanChannels(data, words, extended, k, nrBins);
      if extended {
        ScanRms(offpulseRms, words);
      }
    }
  }

  /** The channel targets of the sscanf of a line: channel ch of slot k. */
  method ScanChannels(data: array<real>, words: seq<Word>, extended: bool, k: nat, nrBins: nat)
    requires k < nrBins && Area(NrChannels(extended), nrBins) <= data.Length
    modifies data
    ensures data[..] == StoreChannels(old(data[..]), words, extended, k, nrBins, NrChannels(extended))
  {
    ghost var d0 := data[..];
    var ch := 0;
    while ch < NrChannels(extended)
      invariant 0 <= ch <= NrChannels(extended)
      invariant data[..] == StoreChannels(d0, words, extended, k, nrBins, ch)
    {
      CellBound(ch, k, NrChannels(extended), nrBins);
      var w := Scanned(words, ChannelWord(extended, ch));
      if w.Some? {
        data[Cell(ch, k, nrBins)] := w.value;
      }
      ch := ch + 1;
    }
  }

  /** The off-pulse rms targets of the sscanf of an extended line. */
  method ScanRms(rms: array<real>, words: seq<Word>)
    requires 3 <= rms.Length
    modifies rms
    ensures rms[..] == StoreRms(old(rms[..]), words, 3)
  {
    ghost var r0 := rms[..];
    var r := 0;
    while r < 3
      invariant 0 <= r <= 3
      invariant rms[..] == StoreRms(r0, words, r)
    {
      var w := Scanned(words, RmsWord(r));
      if w.Some? {
        rms[r] := w.value;
      }
      r := r + 1;
    }
  }

  /** The copy loop of filterPApoints (src/lib/psrio_paswing.c:66-95):
      the kept bins of every channel go, in order, to a new buffer of
      nrpoints bins, and their longitudes move down the list in place. */
  method CompactBins(olddata: array<real>, tsamp: array<real>, nrPols: nat, nrBins: nat, dpa: nat, nrpoints: nat)
    returns (newdata: array<real>)
    requires olddata != tsamp && dpa < nrPols
    requires Area(nrPols, nrBins) <= olddata.Length && nrBins <= tsamp.Length
    requires Area(dpa + 1, nrBins) <= olddata.Length
    requires nrpoints == |Picked(olddata[..], nrBins, dpa, false, nrBins)|
    modifies tsamp
    ensures fresh(newdata) && newdata.Length == Area(nrPols, nrpoints)
    ensures var p := Picked(olddata[..], nrBins, dpa, false, nrBins);
      (forall ch: nat, j: nat :: ch < nrPols && j < nrpoints ==>
         Cell(ch, j, nrpoints) < newdata.Length && Cell(ch, p[j], nrBins) < olddata.Length
         && newdata[Cell(ch, j, nrpoints)] == olddata[Cell(ch, p[j], nrBins)])
      && (forall j :: 0 <= j < nrpoints ==> tsamp[j] == old(tsamp[..])[p[j]])
    ensures forall j :: nrpoints <= j < tsamp.Length ==> tsamp[j] == old(tsamp[j])
  {
    ghost var d := olddata[..];
    newdata := new real[Area(nrPols, nrpoints)];
    ghost var t0 := tsamp[..];
    ghost var kept: seq<nat> := [];
    var i, j := 0, 0;
    while i < nrBins
      invariant 0 <= i <= nrBins
      invariant olddata[..] == d && newdata.Length == Area(nrPols, nrpoints)
      invariant kept == Picked(d, nrBins, dpa, false, i) && j == |kept| <= i
      invariant BinsCopied(newdata[..], d, kept, nrPols, nrpoints, nrBins)
      invariant MovedDown(tsamp[..], t0, kept)
    {
      var next := i + 1;
      CellBound(dpa, i, nrPols, nrBins);
      PickedGrows(d, nrBins, dpa, false, next, nrBins);
      if olddata[Cell(dpa, i, nrBins)] > 0.0 {
        assert Picked(d, nrBins, dpa, false, next) == kept + [i];
        KeepBin(newdata, olddata, tsamp, nrPols, nrpoints, nrBins, j, i, d, t0, kept);
        kept := kept + [i];
        j := j + 1;
      } else {
        assert Picked(d, nrBins, dpa, false, next) == kept;
      }
      i := next;
    }
  }

  /** Keeps old bin i as new bin j: its channels are copied and its
      longitude moves down (src/lib/psrio_paswing.c:80-92). */
  method KeepBin(newdata: array<real>, olddata: array<real>, tsamp: array<real>,
                 nrPols: nat, nrpoints: nat, nrBins: nat, j: nat, i: nat,
                 ghost d: seq<real>, ghost t0: seq<real>, ghost kept: seq<nat>)
    requires newdata != olddata && newdata != tsamp && olddata != tsamp && olddata[..] == d
    requires j == |kept| < nrpoints && |kept| <= i < nrBins <= tsamp.Length
    requires Area(nrPols, nrpoints) <= newdata.Length && Area(nrPols, nrBins) <= olddata.Length
    requires BinsCopied(newdata[..], d, kept, nrPols, nrpoints, nrBins) && MovedDown(tsamp[..], t0, kept)
    modifies newdata, tsamp
    ensures BinsCopied(newdata[..], d, kept + [i], nrPols, nrpoints, nrBins)
    ensures MovedDown(tsamp[..], t0, kept + [i])
  {
    ghost var nd, ts := newdata[..], tsamp[..];
    CopyBin(newdata, olddata, nrPols, nrpoints, nrBins, j, i);
    tsamp[j] := tsamp[i];
    assert tsamp[..] == ts[j := ts[i]];
    CopyStep(nd, newdata[..], d, kept, i, nrPols, nrpoints, nrBins);
    MoveDownStep(ts, t0, kept, i);
  }

  /** The first |kept| bins of every channel of nd are the bins `kept` of d. */
  ghost predicate BinsCopied(nd: seq<real>, d: seq<real>, kept: seq<nat>, nrPols: nat, nrpoints: nat, nrBins: nat)
  {
    forall ch: nat, m: nat :: ch < nrPols && m < |kept| ==>
      Cell(ch, m, nrpoints) < |nd| && Cell(ch, kept[m], nrBins) < |d|
      && nd[Cell(ch, m, nrpoints)] == d[Cell(ch, kept[m], nrBins)]
  }

  /** The first |kept| entries of ts are the entries `kept` of t0, and the
      rest are those of t0. */
  ghost predicate MovedDown(ts: seq<real>, t0: seq<real>, kept: seq<nat>)
  {
    |ts| == |t0|
    && (forall m :: 0 <= m < |kept| ==> m < |ts| && kept[m] < |t0| && ts[m] == t0[kept[m]])
    && (forall m :: |kept| <= m < |ts| ==> ts[m] == t0[m])
  }

  lemma CopyStep(nd: seq<real>, nd2: seq<real>, d: seq<real>, kept: seq<nat>, i: nat, nrPols: nat, nrpoints: nat, nrBins: nat)
    requires BinsCopied(nd, d, kept, nrPols, nrpoints, nrBins) && |kept| < nrpoints && i < nrBins
    requires Area(nrPols, nrpoints) <= |nd| == |nd2| && Area(nrPols, nrBins) <= |d|
    requires forall ch: nat :: ch < nrPols ==>
      Cell(ch, |kept|, nrpoints) < |nd2| && Cell(ch, i, nrBins) < |d| && nd2[Cell(ch, |kept|, nrpoints)] == d[Cell(ch, i, nrBins)]
    requires forall ch: nat, m: nat :: ch < nrPols && m < nrpoints && m != |kept| ==>
      Cell(ch, m, nrpoints) < |nd2| && nd2[Cell(ch, m, nrpoints)] == nd[Cell(ch, m, nrpoints)]
    ensures BinsCopied(nd2, d, kept + [i], nrPols, nrpoints, nrBins)
  {
    CellsInside(nrPols, nrpoints);
    CellsInside(nrPols, nrBins);
  }

  lemma MoveDownStep(ts: seq<real>, t0: seq<real>, kept: seq<nat>, i: nat)
    requires MovedDown(ts, t0, kept) && |kept| <= i < |ts|
    ensures MovedDown(ts[|kept| := ts[i]], t0, kept + [i])
  {
  }

  /** The number of significant bins (src/lib/psrio_paswing.c:60-65). */
  method CountSignificant(data: array<real>, nrBins: nat, dpa: nat) returns (n: nat)
    requires Area(dpa + 1, nrBins) <= data.Length
    ensures n == |Picked(data[..], nrBins, dpa, false, nrBins)|
  {
    n := 0;
    var i := 0;
    while i < nrBins
      invariant 0 <= i <= nrBins
      invariant n == |Picked(data[..], nrBins, dpa, false, i)|
    {
      CellBound(dpa, i, dpa + 1, nrBins);
      if data[Cell(dpa, i, nrBins)] > 0.0 {
        n := n + 1;
      }
      i := i + 1;
    }
  }

  /** The bins picked below i are those picked below any larger n, up to
      their number, and they are fewer when i is smaller. */
  lemma {:induction false} PickedGrows(data: seq<real>, nrBins: nat, dpa: nat, all: bool, i: nat, n: nat)
    requires i <= n <= nrBins && Area(dpa + 1, nrBins) <= |data|
    ensures |Picked(data, nrBins, dpa, all, i)| <= |Picked(data, nrBins, dpa, all, n)|
    ensures Picked(data, nrBins, dpa, all, n)[..|Picked(data, nrBins, dpa, all, i)|] == Picked(data, nrBins, dpa, all, i)
  {
    if i < n {
      PickedGrows(data, nrBins, dpa, all, i, n - 1);
      var p := Picked(data, nrBins, dpa, all, n - 1);
      var q := Picked(data, nrBins, dpa, all, n);
      assert q[..|p|] == p;
    } else {
      var q := Picked(data, nrBins, dpa, all, n);
      assert q[..|q|] == q;
    }
  }

  /** Copies every channel of old bin i to new bin j
      (src/lib/psrio_paswing.c:80-89). */
  method CopyBin(newdata: array<real>, olddata: array<real>, nrPols: nat, nrpoints: nat, nrBins: nat, j: nat, i: nat)
    requires j < nrpoints && i < nrBins && newdata != olddata
    requires Area(nrPols, nrpoints) <= newdata.Length && Area(nrPols, nrBins) <= olddata.Length
    modifies newdata
    ensures forall ch: nat :: ch < nrPols ==>
      Cell(ch, j, nrpoints) < newdata.Length && Cell(ch, i, nrBins) < olddata.Length
      && newdata[Cell(ch, j, nrpoints)] == olddata[Cell(ch, i, nrBins)]
    ensures forall ch: nat, m: nat :: ch < nrPols && m < nrpoints && m != j ==>
      Cell(ch, m, nrpoints) < newdata.Length && newdata[Cell(ch, m, nrpoints)] == old(newdata[Cell(ch, m, nrpoints)])
  {
    CellsInside(nrPols, nrpoints);
    CellsInside(nrPols, nrBins);
    var ch := 0;
    while ch < nrPols
      invariant 0 <= ch <= nrPols
      invariant forall c: nat :: c < ch ==> newdata[Cell(c, j, nrpoints)] == olddata[Cell(c, i, nrBins)]
      invariant forall c: nat, m: nat :: (ch <= c < nrPols || m != j) && c < nrPols && m < nrpoints ==>
        newdata[Cell(c, m, nrpoints)] == old(newdata[Cell(c, m, nrpoints)])
    {
      forall c: nat, m: nat | c < nrPols && m < nrpoints && (c != ch || m != j)
        ensures Cell(c, m, nrpoints) != Cell(ch, j, nrpoints)
      {
        CellsDiffer(c, m, ch, j, nrpoints);
      }
      newdata[Cell(ch, j, nrpoints)] := olddata[Cell(ch, i, nrBins)];
      ch := ch + 1;
    }
  }

  // ---------------------------------------------------------------------
  // Writing PPOL records
  // ---------------------------------------------------------------------

  /** One line of a PPOL file: the index, longitude, Stokes I, L and V each
      with the off-pulse rms of its channel, PA and dPA (extended), or the
      longitude, PA and dPA alone (short). */
  datatype Record =
    | Long(index: int, longitude: real, stokesI: real, rmsI: real, linear: real, rmsL: real,
           circular: real, rmsV: real, pa: real, dpa: real)
    | Short(longitude: real, pa: real, dpa: real)

  /** Which turn of the profile a record belongs to: the first, the
      second (one turn, 360 degrees, later), or the second as the source
      prints it. */
  datatype Turn = FirstTurn | SecondTurn | SecondTurnAsWritten

  /** The buffers hold every sample a record of this layout reads: the
      extended records read channels 0 to 4 and three rms values. */
  predicate Holds(data: seq<real>, tsamp: seq<real>, rms: seq<real>, nrBins: nat, c: Channels, extended: bool)
  {
    nrBins <= |tsamp| && c.pa < c.dpa && Area(c.dpa + 1, nrBins) <= |data|
    && (extended ==> c.dpa < 5 && Area(5, nrBins) <= |data| && 3 <= |rms|)
  }

  /** Channel ch of bin j. */
  function Sample(data: seq<real>, nrBins: nat, ch: nat, j: nat): real
    requires j < nrBins && Area(ch + 1, nrBins) <= |data|
  {
    CellBound(ch, j, ch + 1, nrBins);
    data[Cell(ch, j, nrBins)]
  }

  /** The PA channel a record of this turn prints. */
  function PAChannel(c: Channels, extended: bool, turn: Turn): (ch: nat)
    ensures turn != SecondTurnAsWritten ==> ch == c.pa
  {
    if turn == SecondTurnAsWritten then (if extended then 3 else 0) else c.pa
  }

  /** The record printed for bin j in the given turn
      (src/lib/psrio_paswing.c:560-565, 570-575). */
  function RecordOf(data: seq<real>, tsamp: seq<real>, rms: seq<real>, nrBins: nat, c: Channels, extended: bool,
                    paOffset: real, turn: Turn, j: nat): Record
    requires Holds(data, tsamp, rms, nrBins, c, extended) && j < nrBins
  {
    var turned := if turn == FirstTurn then 0.0 else 360.0;
    var index := if turn == FirstTurn then j else j + nrBins;
    var pa := PAChannel(c, extended, turn);
    if extended then
      RowsInside(5, nrBins);
      Long(index, tsamp[j] + turned, Sample(data, nrBins, 0, j), rms[0], Sample(data, nrBins, 1, j), rms[1],
           Sample(data, nrBins, 2, j), rms[2], Sample(data, nrBins, pa, j) + paOffset, Sample(data, nrBins, c.dpa, j))
    else
      AreaMonotone(pa + 1, c.dpa + 1, nrBins);
      Short(tsamp[j] + turned, Sample(data, nrBins, pa, j) + paOffset, Sample(data, nrBins, c.dpa, j))
  }

  /** The records of one turn for bins 0 .. n-1 of the picked ones. */
  function Profile(data: seq<real>, tsamp: seq<real>, rms: seq<real>, nrBins: nat, c: Channels, extended: bool,
                   all: bool, paOffset: real, turn: Turn, n: nat): seq<Record>
    requires Holds(data, tsamp, rms, nrBins, c, extended) && n <= nrBins
  {
    if n == 0 then []
    else
      var r := RecordOf(data, tsamp, rms, nrBins, c, extended, paOffset, turn, n - 1);
      Profile(data, tsamp, rms, nrBins, c, extended, all, paOffset, turn, n - 1)
      + (if all || Significant(data, nrBins, c.dpa, n - 1) then [r] else [])
  }

  /** Everything writePPOLfile prints: the first turn, then, with two
      profiles, the second. */
  function Written(data: seq<real>, tsamp: seq<real>, rms: seq<real>, nrBins: nat, c: Channels, extended: bool,
                   all: bool, twoProfiles: bool, paOffset: real, second: Turn): seq<Record>
    requires Holds(data, tsamp, rms, nrBins, c, extended)
  {
    Profile(data, tsamp, rms, nrBins, c, extended, all, paOffset, FirstTurn, nrBins)
    + (if twoProfiles then Profile(data, tsamp, rms, nrBins, c, extended, all, paOffset, second, nrBins) else [])
  }

  /** A turn prints one record per picked bin, in the order of the bins. */
  lemma {:induction false} ProfileFollowsPicked(data: seq<real>, tsamp: seq<real>, rms: seq<real>, nrBins: nat, c: Channels,
                                                extended: bool, all: bool, paOffset: real, turn: Turn, n: nat)
    requires Holds(data, tsamp, rms, nrBins, c, extended) && n <= nrBins
    ensures |Profile(data, tsamp, rms, nrBins, c, extended, all, paOffset, turn, n)| == |Picked(data, nrBins, c.dpa, all, n)|
    ensures forall m :: 0 <= m < |Picked(data, nrBins, c.dpa, all, n)| ==>
      Profile(data, tsamp, rms, nrBins, c, extended, all, paOffset, turn, n)[m]
      == RecordOf(data, tsamp, rms, nrBins, c, extended, paOffset, turn, Picked(data, nrBins, c.dpa, all, n)[m])
  {
    if n > 0 {
      ProfileFollowsPicked(data, tsamp, rms, nrBins, c, extended, all, paOffset, turn, n - 1);
    }
  }

  /** A record of the first turn moved one turn on: 360 degrees later
      and, extended, NrBins indices later. */
  function NextTurn(r: Record, nrBins: nat): (s: Record)
    ensures s.Long? == r.Long? && s.longitude == r.longitude + 360.0 && s.pa == r.pa && s.dpa == r.dpa
  {
    match r
    case Long(index, longitude, i, ri, l, rl, v, rv, pa, dpa) => Long(index + nrBins, longitude + 360.0, i, ri, l, rl, v, rv, pa, dpa)
    case Short(longitude, pa, dpa) => Short(longitude + 360.0, pa, dpa)
  }

  /** The second turn repeats the first one turn later, record by record. */
  lemma {:induction false} SecondTurnRepeatsFirst(data: seq<real>, tsamp: seq<real>, rms: seq<real>, nrBins: nat, c: Channels,
                                                  extended: bool, all: bool, paOffset: real, n: nat)
    requires Holds(data, tsamp, rms, nrBins, c, extended) && n <= nrBins
    ensures var first := Profile(data, tsamp, rms, nrBins, c, extended, all, paOffset, FirstTurn, n);
      var second := Profile(data, tsamp, rms, nrBins, c, extended, all, paOffset, SecondTurn, n);
      |second| == |first| && forall m :: 0 <= m < |first| ==> second[m] == NextTurn(first[m], nrBins)
  {
    if n > 0 {
      SecondTurnRepeatsFirst(data, tsamp, rms, nrBins, c, extended, all, paOffset, n - 1);
    }
  }

  /** As written, the second turn of a short ILVPAdPA file prints Stokes
      I where the PA belongs: here a bin with I = 1 and PA = 2. */
  lemma SecondTurnAsWrittenPrintsStokesI()
    ensures var data := [1.0, 0.0, 0.0, 2.0, 1.0];
      var c := PALayout(ILVPAdPA, 5, 1, 1, LongitudeList).value;
      var first := Profile(data, [10.0], [], 1, c, false, false, 0.0, FirstTurn, 1);
      var second := Profile(data, [10.0], [], 1, c, false, false, 0.0, SecondTurnAsWritten, 1);
      first == [Short(10.0, 2.0, 1.0)] && second == [Short(370.0, 1.0, 1.0)] && second[0] != NextTurn(first[0], 1)
  {
    var data := [1.0, 0.0, 0.0, 2.0, 1.0];
    assert Cell(4, 0, 1) == 4 && Cell(3, 0, 1) == 3 && Cell(0, 0, 1) == 0;
    assert Significant(data, 1, 4, 0);
  }

  /** The fprintf of one record (src/lib/psrio_paswing.c:562, 564, 572, 574). */
  method RecordAt(data: array<real>, tsamp: array<real>, rms: array<real>, nrBins: nat, c: Channels, extended: bool,
                  paOffset: real, turn: Turn, j: nat) returns (r: Record)
    requires Holds(data[..], tsamp[..], rms[..], nrBins, c, extended) && j < nrBins
    ensures r == RecordOf(data[..], tsamp[..], rms[..], nrBins, c, extended, paOffset, turn, j)
    ensures r.Long? == extended
    ensures r.longitude == tsamp[j] + (if turn == FirstTurn then 0.0 else 360.0)
    ensures var pa := PAChannel(c, extended, turn);
      j + pa * nrBins < data.Length && r.pa == data[j + pa * nrBins] + paOffset
    ensures j + c.dpa * nrBins < data.Length && r.dpa == data[j + c.dpa * nrBins]
    ensures extended ==>
      j + 2 * nrBins < data.Length && 3 <= rms.Length
      && r.index == (if turn == FirstTurn then j else j + nrBins)
      && r.stokesI == data[j] && r.rmsI == rms[0]
      && r.linear == data[j + nrBins] && r.rmsL == rms[1]
      && r.circular == data[j + 2 * nrBins] && r.rmsV == rms[2]
  {
    CellIsProduct(PAChannel(c, extended, turn), j, nrBins);
    CellIsProduct(c.dpa, j, nrBins);
    CellIsProduct(0, j, nrBins);
    CellIsProduct(1, j, nrBins);
    CellIsProduct(2, j, nrBins);
    var turned := if turn == FirstTurn then 0.0 else 360.0;
    var pa := PAChannel(c, extended, turn);
    var index := if turn == FirstTurn then j else j + nrBins;
    if extended {
      CellsInside(5, nrBins);
      r := Long(index, tsamp[j] + turned, data[Cell(0, j, nrBins)], rms[0], data[Cell(1, j, nrBins)], rms[1],
                data[Cell(2, j, nrBins)], rms[2], data[Cell(pa, j, nrBins)] + paOffset, data[Cell(c.dpa, j, nrBins)]);
    } else {
      CellBound(pa, j, c.dpa + 1, nrBins);
      CellBound(c.dpa, j, c.dpa + 1, nrBins);
      r := Short(tsamp[j] + turned, data[Cell(pa, j, nrBins)] + paOffset, data[Cell(c.dpa, j, nrBins)]);
    }
  }

  /** The output loop of one turn (src/lib/psrio_paswing.c:559-567, 569-577). */
  method EmitProfile(data: array<real>, tsamp: array<real>, rms: array<real>, nrBins: nat, c: Channels, extended: bool,
                     all: bool, paOffset: real, turn: Turn) returns (out: seq<Record>)
    requires Holds(data[..], tsamp[..], rms[..], nrBins, c, extended)
    ensures out == Profile(data[..], tsamp[..], rms[..], nrBins, c, extended, all, paOffset, turn, nrBins)
  {
    out := [];
    var j := 0;
    while j < nrBins
      invariant 0 <= j <= nrBins
      invariant out == Profile(data[..], tsamp[..], rms[..], nrBins, c, extended, all, paOffset, turn, j)
    {
      CellBound(c.dpa, j, c.dpa + 1, nrBins);
      if data[Cell(c.dpa, j, nrBins)] > 0.0 || all {
        var r := RecordAt(data, tsamp, rms, nrBins, c, extended, paOffset, turn, j);
        out := out + [r];
      }
      j := j + 1;
    }
  }

  // ---------------------------------------------------------------------
  // Reading PPOL files
  // ---------------------------------------------------------------------

  /** A line of a PPOL file as the readers see it: a comment (its first
      character is '#') or its blank-separated words. */
  datatype Line = Comment | Words(words: seq<Word>)

  /** A word reads as a number as a whole, or not at all. */
  datatype Word = Number(value: real) | Text

  /** The channels of the layout a reader produces: I, L, V, PA and dPA
      (extended) or PA and dPA. */
  function NrChannels(extended: bool): nat
  {
    if extended then 5 else 2
  }

  /** The words of a data line. */
  function WordCount(extended: bool): nat
  {
    if extended then 10 else 3
  }

  /** The word holding the longitude: the second (extended) or the first. */
  function LongitudeWord(extended: bool): (w: nat)
    ensures w < WordCount(extended)
  {
    if extended then 1 else 0
  }

  /** The word holding channel ch: the words after the longitude give I,
      rms, L, rms, V, rms, PA and dPA (extended), or PA and dPA. */
  function ChannelWord(extended: bool, ch: nat): (w: nat)
    requires ch < NrChannels(extended)
    ensures LongitudeWord(extended) < w < WordCount(extended)
  {
    if !extended then ch + 1 else if ch < 3 then 2 + 2 * ch else ch + 5
  }

  /** The word holding the off-pulse rms of channel r (extended only). */
  function RmsWord(r: nat): (w: nat)
    requires r < 3
    ensures 2 < w < WordCount(true) && w % 2 == 1
  {
    3 + 2 * r
  }

  /** The header scan of a data line accepts it: it has the number of
      words of its format and a readable longitude. */
  predicate WellFormed(l: Line, extended: bool)
  {
    l.Words? && |l.words| == WordCount(extended) && l.words[LongitudeWord(extended)].Number?
  }

  function Longitude(l: Line, extended: bool): real
    requires WellFormed(l, extended)
  {
    l.words[LongitudeWord(extended)].value
  }

  /** The outcome of the header scan: the bins counted, and whether it
      stopped at a malformed data line. */
  datatype HeaderScan = Counted(bins: nat) | Malformed(bins: nat)

  function Offset(h: HeaderScan, n: nat): (g: HeaderScan)
    ensures g.Counted? == h.Counted? && g.bins == h.bins + n
  {
    match h
    case Counted(b) => Counted(b + n)
    case Malformed(b) => Malformed(b + n)
  }

  /** The header scan: comments are skipped, a malformed data line stops
      it with failure, a data line at 360 degrees or more stops it without
      being counted, and every other data line is a bin. */
  function ScanHeader(lines: seq<Line>, extended: bool): HeaderScan
    decreases |lines|
  {
    if |lines| == 0 then Counted(0)
    else if lines[0].Comment? then ScanHeader(lines[1..], extended)
    else if !WellFormed(lines[0], extended) then Malformed(0)
    else if Longitude(lines[0], extended) >= 360.0 then Counted(0)
    else Offset(ScanHeader(lines[1..], extended), 1)
  }

  /** The number of data lines. */
  function DataLines(lines: seq<Line>): (n: nat)
    ensures n <= |lines|
    decreases |lines|
  {
    if |lines| == 0 then 0 else (if lines[0].Words? then 1 else 0) + DataLines(lines[1..])
  }

  /** The header scan counts the data lines before the first data line
      that is malformed or at 360 degrees or more, and fails exactly when
      that line is malformed. */
  lemma {:induction false} ScanHeaderCounts(lines: seq<Line>, extended: bool, s: nat)
    requires s <= |lines|
    requires forall i :: 0 <= i < s ==>
      lines[i].Comment? || (WellFormed(lines[i], extended) && Longitude(lines[i], extended) < 360.0)
    ensures s == |lines| ==> ScanHeader(lines, extended) == Counted(DataLines(lines))
    ensures s < |lines| && WellFormed(lines[s], extended) && Longitude(lines[s], extended) >= 360.0 ==>
      ScanHeader(lines, extended) == Counted(DataLines(lines[..s]))
    ensures s < |lines| && lines[s].Words? && !WellFormed(lines[s], extended) ==>
      ScanHeader(lines, extended) == Malformed(DataLines(lines[..s]))
  {
    if s > 0 {
      ScanHeaderCounts(lines[1..], extended, s - 1);
      assert lines[..s][1..] == lines[1..][..s - 1];
    }
  }

  /** What readPPOLfile keeps between lines: the longitude list, the
      samples, the off-pulse rms list and the next free slot k. */
  datatype ReadState = ReadState(tsamp: seq<real>, data: seq<real>, rms: seq<real>, k: nat)

  /** The buffers have room for NrBins slots of the layout. */
  predicate Fits(st: ReadState, extended: bool, nrBins: nat)
  {
    nrBins <= |st.tsamp| && Area(NrChannels(extended), nrBins) <= |st.data| && (extended ==> 5 <= |st.rms|)
  }

  /** The number sscanf reads for word f: there is one when word f and
      every word before it read as numbers. */
  function Scanned(words: seq<Word>, f: nat): (w: Option<real>)
    ensures w.Some? <==> f < |words| && forall g :: 0 <= g <= f ==> words[g].Number?
    ensures w.Some? ==> w.value == words[f].value
  {
    if f >= |words| || !words[f].Number? then None
    else if f == 0 then Some(words[0].value)
    else if Scanned(words, f - 1).None? then None
    else Some(words[f].value)
  }

  /** s with position `at` set to the number read, if any. */
  function Store(s: seq<real>, at: nat, w: Option<real>): (t: seq<real>)
    requires at < |s|
    ensures |t| == |s| && t[at] == (if w.Some? then w.value else s[at])
    ensures forall i :: 0 <= i < |s| && i != at ==> t[i] == s[i]
  {
    if w.Some? then s[at := w.value] else s
  }

  /** Channels 0 .. n-1 of slot k after the sscanf of a line. */
  function StoreChannels(data: seq<real>, words: seq<Word>, extended: bool, k: nat, nrBins: nat, n: nat): (d: seq<real>)
    requires n <= NrChannels(extended) && k < nrBins && Area(NrChannels(extended), nrBins) <= |data|
    ensures |d| == |data|
  {
    if n == 0 then data
    else
      CellBound(n - 1, k, NrChannels(extended), nrBins);
      Store(StoreChannels(data, words, extended, k, nrBins, n - 1), Cell(n - 1, k, nrBins), Scanned(words, ChannelWord(extended, n - 1)))
  }

  /** The first n off-pulse rms values after the sscanf of an extended line. */
  function StoreRms(rms: seq<real>, words: seq<Word>, n: nat): (r: seq<real>)
    requires n <= 3 <= |rms|
    ensures |r| == |rms|
  {
    if n == 0 then rms else Store(StoreRms(rms, words, n - 1), n - 1, Scanned(words, RmsWord(n - 1)))
  }

  /** The state after the sscanf of a data line into slot st.k. */
  function ScanLine(st: ReadState, words: seq<Word>, extended: bool, nrBins: nat): (s: ReadState)
    requires Fits(st, extended, nrBins) && st.k < nrBins
    ensures Fits(s, extended, nrBins) && s.k == st.k
    ensures |s.tsamp| == |st.tsamp| && |s.data| == |st.data| && |s.rms| == |st.rms|
  {
    ReadState(Store(st.tsamp, st.k, Scanned(words, LongitudeWord(extended))),
              StoreChannels(st.data, words, extended, st.k, nrBins, NrChannels(extended)),
              if extended then StoreRms(st.rms, words, 3) else st.rms,
              st.k)
  }

  /** One line of readPPOLfile (src/lib/psrio_paswing.c:496-516): a
      comment changes nothing; a data line is read into slot k, its
      longitude shifted, and it is accepted, moving k on, when the shifted
      longitude lies in [0, 360). */
  function ReadLine(st: ReadState, line: Line, extended: bool, shift: real, nrBins: nat): (s: ReadState)
    requires Fits(st, extended, nrBins) && st.k < nrBins
    ensures Fits(s, extended, nrBins) && st.k <= s.k <= st.k + 1
    ensures |s.tsamp| == |st.tsamp| && |s.data| == |st.data| && |s.rms| == |st.rms|
  {
    if line.Comment? then st
    else
      var s := ScanLine(st, line.words, extended, nrBins);
      var longitude := s.tsamp[s.k] + shift;
      ReadState(s.tsamp[s.k := longitude], s.data, s.rms, if 0.0 <= longitude < 360.0 then s.k + 1 else s.k)
  }

  /** The state after reading the given lines in order. */
  function ReadLines(st: ReadState, lines: seq<Line>, extended: bool, shift: real, nrBins: nat): (s: ReadState)
    requires Fits(st, extended, nrBins) && st.k + |lines| <= nrBins
    ensures Fits(s, extended, nrBins) && st.k <= s.k <= st.k + |lines|
    ensures |s.tsamp| == |st.tsamp| && |s.data| == |st.data| && |s.rms| == |st.rms|
    decreases |lines|
  {
    if |lines| == 0 then st
    else ReadLine(ReadLines(st, lines[..|lines| - 1], extended, shift, nrBins), lines[|lines| - 1], extended, shift, nrBins)
  }

  /** The state readPPOLfile starts from: slot 0, and in extended mode the
      rms of channels 3 and 4 marked unknown. */
  function StartRead(tsamp: seq<real>, data: seq<real>, rms: seq<real>, extended: bool): (st: ReadState)
    requires extended ==> 5 <= |rms|
    ensures st.k == 0 && st.tsamp == tsamp && st.data == data && |st.rms| == |rms|
    ensures extended ==> st.rms[3] == -1.0 && st.rms[4] == -1.0 && st.rms[..3] == rms[..3]
  {
    ReadState(tsamp, data, if extended then rms[3 := -1.0][4 := -1.0] else rms, 0)
  }

  /** Channels 0 .. n-1 of slot k hold the numbers read for them, and no
      other cell of the layout changes. */
  lemma {:induction false} StoreChannelsAt(data: seq<real>, words: seq<Word>, extended: bool, k: nat, nrBins: nat, n: nat)
    requires n <= NrChannels(extended) && k < nrBins && Area(NrChannels(extended), nrBins) <= |data|
    ensures forall ch: nat :: ch < n ==>
      Cell(ch, k, nrBins) < |data|
      && StoreChannels(data, words, extended, k, nrBins, n)[Cell(ch, k, nrBins)]
         == (var w := Scanned(words, ChannelWord(extended, ch)); if w.Some? then w.value else data[Cell(ch, k, nrBins)])
    ensures forall ch: nat, m: nat :: ch < NrChannels(extended) && m < nrBins && (m != k || n <= ch) ==>
      Cell(ch, m, nrBins) < |data|
      && StoreChannels(data, words, extended, k, nrBins, n)[Cell(ch, m, nrBins)] == data[Cell(ch, m, nrBins)]
  {
    CellsInside(NrChannels(extended), nrBins);
    if n > 0 {
      StoreChannelsAt(data, words, extended, k, nrBins, n - 1);
      forall ch: nat, m: nat | ch < NrChannels(extended) && m < nrBins && (m != k || ch != n - 1)
        ensures Cell(ch, m, nrBins) != Cell(n - 1, k, nrBins)
      {
        CellsDiffer(ch, m, n - 1, k, nrBins);
      }
    }
  }

  /** A data line carries, as numbers, every word the reader stores. */
  predicate Complete(l: Line, extended: bool)
  {
    l.Comment? || (WordCount(extended) <= |l.words| && forall g :: 0 <= g < WordCount(extended) ==> l.words[g].Number?)
  }

  /** The longitude of a complete data line after the shift. */
  function Shifted(l: Line, extended: bool, shift: real): real
    requires l.Words? && Complete(l, extended)
  {
    l.words[LongitudeWord(extended)].value + shift
  }

  /** Channel ch of a complete data line. */
  function ChannelValue(l: Line, extended: bool, ch: nat): real
    requires l.Words? && Complete(l, extended) && ch < NrChannels(extended)
  {
    var f := ChannelWord(extended, ch);
    assert l.words[f].Number?;
    l.words[f].value
  }

  /** The complete data lines the reader accepts, in order: those whose
      shifted longitude lies in [0, 360). */
  function AcceptedLines(lines: seq<Line>, extended: bool, shift: real): (a: seq<Line>)
    requires forall i :: 0 <= i < |lines| ==> Complete(lines[i], extended)
    ensures |a| <= |lines|
    ensures forall m :: 0 <= m < |a| ==>
      a[m].Words? && Complete(a[m], extended) && 0.0 <= Shifted(a[m], extended, shift) < 360.0
    decreases |lines|
  {
    if |lines| == 0 then []
    else
      var last := lines[|lines| - 1];
      AcceptedLines(lines[..|lines| - 1], extended, shift)
      + (if last.Words? && 0.0 <= Shifted(last, extended, shift) < 360.0 then [last] else [])
  }

  /** The slots below s.k hold the accepted lines, one each, in order:
      the shifted longitude and every channel. */
  ghost predicate Stored(s: ReadState, accepted: seq<Line>, extended: bool, shift: real, nrBins: nat)
    requires forall m :: 0 <= m < |accepted| ==> accepted[m].Words? && Complete(accepted[m], extended)
  {
    s.k == |accepted|
    && (forall m :: 0 <= m < |accepted| ==> m < |s.tsamp| && s.tsamp[m] == Shifted(accepted[m], extended, shift))
    && (forall ch: nat, m: nat :: ch < NrChannels(extended) && m < |accepted| ==>
          Cell(ch, m, nrBins) < |s.data|
          && s.data[Cell(ch, m, nrBins)] == ChannelValue(accepted[m], extended, ch))
  }

  /** Reading one complete line keeps the accepted lines stored, adding
      the line when it is accepted. */
  lemma ReadLineStores(s0: ReadState, accepted: seq<Line>, line: Line, extended: bool, shift: real, nrBins: nat)
    requires Fits(s0, extended, nrBins) && s0.k < nrBins && Complete(line, extended)
    requires forall m :: 0 <= m < |accepted| ==> accepted[m].Words? && Complete(accepted[m], extended)
    requires Stored(s0, accepted, extended, shift, nrBins)
    ensures var more := if line.Words? && 0.0 <= Shifted(line, extended, shift) < 360.0 then [line] else [];
      Stored(ReadLine(s0, line, extended, shift, nrBins), accepted + more, extended, shift, nrBins)
  {
    CellsInside(NrChannels(extended), nrBins);
    if line.Words? {
      StoreChannelsAt(s0.data, line.words, extended, s0.k, nrBins, NrChannels(extended));
      forall ch: nat | ch < NrChannels(extended)
        ensures Scanned(line.words, ChannelWord(extended, ch)) == Some(line.words[ChannelWord(extended, ch)].value)
      {
      }
      assert Scanned(line.words, LongitudeWord(extended)) == Some(line.words[LongitudeWord(extended)].value);
    }
  }

  /** Reading complete lines from slot 0 accepts exactly the data lines
      whose shifted longitude lies in [0, 360), and leaves them in
      consecutive slots: slot m holds the shifted longitude and every
      channel of the m-th accepted line. */
  lemma {:induction false} ReadLinesStoresAccepted(st: ReadState, lines: seq<Line>, extended: bool, shift: real, nrBins: nat)
    requires Fits(st, extended, nrBins) && st.k == 0 && |lines| <= nrBins
    requires forall i :: 0 <= i < |lines| ==> Complete(lines[i], extended)
    ensures var s := ReadLines(st, lines, extended, shift, nrBins);
      var accepted := AcceptedLines(lines, extended, shift);
      s.k == |accepted|
      && (forall m :: 0 <= m < |accepted| ==> s.tsamp[m] == Shifted(accepted[m], extended, shift))
      && (forall ch: nat, m: nat :: ch < NrChannels(extended) && m < |accepted| ==>
            Cell(ch, m, nrBins) < |s.data|
            && s.data[Cell(ch, m, nrBins)] == ChannelValue(accepted[m], extended, ch))
  {
    ReadLinesStore(st, lines, extended, shift, nrBins);
  }

  lemma {:induction false} ReadLinesStore(st: ReadState, lines: seq<Line>, extended: bool, shift: real, nrBins: nat)
    requires Fits(st, extended, nrBins) && st.k == 0 && |lines| <= nrBins
    requires forall i :: 0 <= i < |lines| ==> Complete(lines[i], extended)
    ensures Stored(ReadLines(st, lines, extended, shift, nrBins), AcceptedLines(lines, extended, shift), extended, shift, nrBins)
    decreases |lines|
  {
    if |lines| > 0 {
      var init := lines[..|lines| - 1];
      ReadLinesStore(st, init, extended, shift, nrBins);
      ReadLineStores(ReadLines(st, init, extended, shift, nrBins), AcceptedLines(init, extended, shift),
                     lines[|lines| - 1], extended, shift, nrBins);
    }
  }
}
