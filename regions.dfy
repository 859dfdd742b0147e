/** The pulse-longitude regions the analysis code queries but never
    changes. The internals of the region bookkeeping are not part of this
    model: membership of a bin in "any on-pulse region" (what
    `checkRegions(bin, regions, 0, ...)` answers) is an uninterpreted
    predicate carried by the value. */
module Regions {

  /** A region table: the number of regions in use, and per table slot
      whether the slot is given in bins and its first and last bin. The
      three sequences are the fixed-size slot arrays of the table, so
      they may hold slots beyond `nrRegions`. */
  datatype RegionSet = RegionSet(
    nrRegions: int,
    binsDefined: seq<bool>,
    leftBin: seq<int>,
    rightBin: seq<int>,
    onPulse: int -> bool)
  {
    /** The number of slots in the table. */
    predicate SlotsAgree()
    {
      |binsDefined| == |leftBin| == |rightBin|
    }

    /** The slot sequences agree and the regions in use fit in the table. */
    predicate WellFormed()
    {
      SlotsAgree() && 0 <= nrRegions <= |binsDefined|
    }

    /** Bin `b` lies outside every region. */
    predicate OffPulse(b: int)
    {
      !onPulse(b)
    }
  }
}
