/** The modulation index of every longitude bin, as calcModindex derives it
    from an LRFS and the pulse profile (src/lib/spectra.c:531-589): the
    column sums of the LRFS give the variance, the profile is normalised
    by its peak, and the modulation index is the standard deviation over
    the normalised profile, or a sentinel where the profile is zero.

    The square root is a parameter. The uncertainties (rms_sigma,
    rms_modind) are not part of this model. */
module Modindex {
  import opened Grid

  /** The value written for a bin whose profile is zero
      (src/lib/spectra.c:586). */
  const Sentinel: real := -10000000000.0

  /** The sum of column b over the first n rows of a row-major buffer
      nrx cells wide. */
  function ColumnTotal(s: seq<real>, nrx: nat, b: nat, n: nat): real
    requires b < nrx && Area(n, nrx) <= |s|
  {
    if n == 0 then 0.0
    else
      AreaMonotone(n - 1, n, nrx);
      CellBound(n - 1, b, n, nrx);
      ColumnTotal(s, nrx, b, n - 1) + s[Cell(n - 1, b, nrx)]
  }

  /** Sums column b over rows 0 .. rows-1 (src/lib/spectra.c:536-540). */
  method SumColumn(lrfs: array<real>, nrx: nat, rows: nat, b: nat) returns (v: real)
    requires b < nrx && Area(rows, nrx) <= lrfs.Length
    ensures v == ColumnTotal(lrfs[..], nrx, b, rows)
  {
    v := 0.0;
    var f := 0;
    while f < rows
      invariant 0 <= f <= rows
      invariant Area(f, nrx) <= lrfs.Length
      invariant v == ColumnTotal(lrfs[..], nrx, b, f)
    {
      AreaMonotone(f + 1, rows, nrx);
      CellBound(f, b, f + 1, nrx);
      v := v + lrfs[Cell(f, b, nrx)];
      f := f + 1;
    }
  }

  /** The peak of a non-empty series as the running maximum from the
      left finds it: a later value replaces the peak only when larger. */
  function Peak(s: seq<real>): real
    requires |s| >= 1
  {
    if |s| == 1 then s[0]
    else if Peak(s[..|s| - 1]) < s[|s| - 1] then s[|s| - 1]
    else Peak(s[..|s| - 1])
  }

  /** The first bin holding the peak. */
  function PeakAt(s: seq<real>): (at: nat)
    requires |s| >= 1
    ensures at < |s| && s[at] == Peak(s)
  {
    if |s| == 1 then 0
    else if Peak(s[..|s| - 1]) < s[|s| - 1] then |s| - 1
    else PeakAt(s[..|s| - 1])
  }

  /** The peak is the maximum of the series, and no bin before PeakAt
      reaches it. */
  lemma {:induction false} PeakIsMaximum(s: seq<real>)
    requires |s| >= 1
    ensures forall b :: 0 <= b < |s| ==> s[b] <= Peak(s)
    ensures forall b :: 0 <= b < PeakAt(s) ==> s[b] < Peak(s)
  {
    if |s| > 1 {
      var t := s[..|s| - 1];
      PeakIsMaximum(t);
      assert forall b :: 0 <= b < |t| ==> s[b] == t[b];
    }
  }

  /** a / m <= 1 when 0 < m and a <= m. */
  lemma RatioAtMostOne(a: real, m: real)
    requires 0.0 < m && a <= m
    ensures a / m <= 1.0
  {
    assert a / m * m == a;
  }

  /** The peak of the profile, and the first bin holding it
      (src/lib/spectra.c:543-547). */
  method FindPeak(profile: array<real>) returns (max: real, at: nat)
    requires profile.Length >= 1
    ensures max == Peak(profile[..]) && at == PeakAt(profile[..])
  {
    max, at := profile[0], 0;
    var b := 1;
    while b < profile.Length
      invariant 1 <= b <= profile.Length
      invariant max == Peak(profile[..b]) && at == PeakAt(profile[..b])
    {
      assert profile[..b + 1][..b] == profile[..b];
      if max < profile[b] {
        max, at := profile[b], b;
      }
      b := b + 1;
    }
    assert profile[..profile.Length] == profile[..];
  }

  /** The variance estimate of bin b whose square root is its standard
      deviation: the magnitude of the column total over the squared peak,
      scaled by the number of pulses per spectral bin
      (src/lib/spectra.c:550-551). */
  function Variance(total: real, max: real, nrpulses: nat, fftSize: nat): real
    requires max != 0.0 && fftSize >= 1
  {
    Abs(total / (max * max)) * nrpulses as real * 2.0 / fftSize as real
  }

  function Abs(x: real): (a: real)
    ensures a >= 0.0 && (a == x || a == -x)
  {
    if x < 0.0 then -x else x
  }

  /** The standard deviation of bin b before it is divided by the
      profile. */
  function Sigma(sqrt: real -> real, total: real, max: real, nrpulses: nat, fftSize: nat): real
    requires max != 0.0 && fftSize >= 1
  {
    sqrt(Variance(total, max, nrpulses, fftSize))
  }

  /** The modulation index of a bin with standard deviation sigma and
      normalised profile value p (src/lib/spectra.c:583-586). */
  function ModIndex(sigma: real, p: real): (m: real)
    ensures p == 0.0 ==> m == Sentinel
    ensures p != 0.0 ==> m * p == sigma
  {
    if p != 0.0 then sigma / p else Sentinel
  }

  /** After dividing by a positive peak no bin exceeds 1, and the first
      peak bin is exactly 1. */
  lemma NormalisedPeak(before: seq<real>, after: seq<real>, max: real)
    requires |after| == |before| >= 1 && max == Peak(before) && max > 0.0
    requires forall b :: 0 <= b < |after| ==> after[b] == before[b] / max
    ensures forall b :: 0 <= b < |after| ==> after[b] <= 1.0
    ensures after[PeakAt(before)] == 1.0
  {
    PeakIsMaximum(before);
    forall b | 0 <= b < |after|
      ensures after[b] <= 1.0
    {
      RatioAtMostOne(before[b], max);
    }
    SelfRatio(max);
  }

  lemma SelfRatio(m: real)
    requires m != 0.0
    ensures m / m == 1.0
  {
  }

  /** Divides the profile by its peak and turns each column total into a
      standard deviation (src/lib/spectra.c:548-552). */
  method Normalise(profile: array<real>, sigma: array<real>, nrx: nat, max: real, nrpulses: nat, fftSize: nat,
                   sqrt: real -> real)
    requires max != 0.0 && fftSize >= 1 && nrx <= profile.Length && nrx <= sigma.Length && profile != sigma
    modifies profile, sigma
    ensures forall k :: 0 <= k < nrx ==> profile[k] == old(profile[k]) / max
    ensures forall k :: nrx <= k < profile.Length ==> profile[k] == old(profile[k])
    ensures forall k :: 0 <= k < nrx ==> sigma[k] == Sigma(sqrt, old(sigma[k]), max, nrpulses, fftSize)
    ensures forall k :: nrx <= k < sigma.Length ==> sigma[k] == old(sigma[k])
  {
    var b := 0;
    while b < nrx
      invariant 0 <= b <= nrx
      invariant forall k :: 0 <= k < b ==> profile[k] == old(profile[k]) / max
      invariant forall k :: b <= k < profile.Length ==> profile[k] == old(profile[k])
      invariant forall k :: 0 <= k < b ==> sigma[k] == Sigma(sqrt, old(sigma[k]), max, nrpulses, fftSize)
      invariant forall k :: b <= k < sigma.Length ==> sigma[k] == old(sigma[k])
    {
      profile[b] := profile[b] / max;
      var variance := Abs(sigma[b] / (max * max)) * nrpulses as real * 2.0 / fftSize as real;
      assert variance == Variance(sigma[b], max, nrpulses, fftSize);
      sigma[b] := sqrt(variance);
      b := b + 1;
    }
  }

  /** The column totals of the LRFS (src/lib/spectra.c:535-541). */
  method ColumnSums(lrfs: array<real>, nrx: nat, rows: nat, sigma: array<real>)
    requires Area(rows, nrx) <= lrfs.Length && nrx <= sigma.Length && lrfs != sigma
    modifies sigma
    ensures forall k :: 0 <= k < nrx ==> sigma[k] == ColumnTotal(lrfs[..], nrx, k, rows)
    ensures forall k :: nrx <= k < sigma.Length ==> sigma[k] == old(sigma[k])
  {
    var b := 0;
    while b < nrx
      invariant 0 <= b <= nrx
      invariant forall k :: 0 <= k < b ==> sigma[k] == ColumnTotal(lrfs[..], nrx, k, rows)
      invariant forall k :: nrx <= k < sigma.Length ==> sigma[k] == old(sigma[k])
    {
      var v := SumColumn(lrfs, nrx, rows, b);
      sigma[b] := v;
      b := b + 1;
    }
  }

  /** The modulation indices, with the sentinel where the normalised
      profile is zero (src/lib/spectra.c:583-587). */
  method ModIndices(sigma: array<real>, profile: array<real>, modind: array<real>, nrx: nat)
    requires nrx <= sigma.Length && nrx <= profile.Length && nrx <= modind.Length
    requires modind != sigma && modind != profile
    modifies modind
    ensures forall k :: 0 <= k < nrx ==> modind[k] == ModIndex(sigma[k], profile[k])
    ensures forall k :: nrx <= k < modind.Length ==> modind[k] == old(modind[k])
  {
    var b := 0;
    while b < nrx
      invariant 0 <= b <= nrx
      invariant forall k :: 0 <= k < b ==> modind[k] == ModIndex(sigma[k], profile[k])
      invariant forall k :: nrx <= k < modind.Length ==> modind[k] == old(modind[k])
    {
      if profile[b] != 0.0 {
        modind[b] := sigma[b] / profile[b];
      } else {
        modind[b] := Sentinel;
      }
      b := b + 1;
    }
  }

  /** calcModindex (src/lib/spectra.c:531-589): sigma[b] is Sigma over
      the total of LRFS column b across frequency rows 0 .. fftSize/2,
      the profile is divided by its peak, and modind[b] is ModIndex of
      the two. */
  method CalcModindex(lrfs: array<real>, profile: array<real>, nrx: nat, fftSize: nat, nrpulses: nat,
                      sigma: array<real>, modind: array<real>, sqrt: real -> real)
    returns (max: real)
    requires fftSize >= 1 && Area(fftSize / 2 + 1, nrx) <= lrfs.Length
    requires profile.Length == nrx >= 1 && sigma.Length >= nrx && modind.Length >= nrx
    requires profile != sigma && profile != modind && sigma != modind
    requires lrfs != profile && lrfs != sigma && lrfs != modind
    requires Peak(profile[..]) != 0.0
    modifies profile, sigma, modind
    ensures max == Peak(old(profile[..]))
    ensures forall b :: 0 <= b < nrx ==> profile[b] == old(profile[b]) / max
    ensures forall b :: 0 <= b < nrx ==>
      sigma[b] == Sigma(sqrt, ColumnTotal(lrfs[..], nrx, b, fftSize / 2 + 1), max, nrpulses, fftSize)
    ensures forall b :: 0 <= b < nrx ==> modind[b] == ModIndex(sigma[b], profile[b])
    ensures forall b :: nrx <= b < sigma.Length ==> sigma[b] == old(sigma[b])
    ensures forall b :: nrx <= b < modind.Length ==> modind[b] == old(modind[b])
  {
    var rows := fftSize / 2 + 1;
    ColumnSums(lrfs, nrx, rows, sigma);
    var at;
    max, at := FindPeak(profile);
    Normalise(profile, sigma, nrx, max, nrpulses, fftSize, sqrt);
    ModIndices(sigma, profile, modind, nrx);
  }
}
