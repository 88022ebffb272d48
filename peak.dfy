/** The Peak Locator (`getPeakValue`, pybaseline_loop.py:40-57): the highest
    signal sample of the search slice `[margin:-margin]`, optionally only
    among the samples whose local slope (`np.gradient`) is below `maxSlope`. */
module PeakSearch {
  import opened Base

  /** The chosen sample. The source returns (potential, signal); the model
      also returns the index both came from. */
  datatype Peak = Peak(voltage: real, current: real, index: nat)

  function Abs(x: real): real
  {
    if x < 0.0 then -x else x
  }

  /** `int(n * marginRatio)`: truncation, which is the floor for a
      non-negative ratio. */
  function Margin(n: nat, ratio: real): (m: nat)
    requires 0.0 <= ratio
    ensures m as real <= n as real * ratio < m as real + 1.0
  {
    var x := n as real * ratio;
    assert 0.0 <= x by {
      assert 0.0 <= n as real;
    }
    x.Floor
  }

  /** With the default ratio 0.10 the margin is the integer tenth of n. */
  lemma DefaultMargin(n: nat)
    ensures Margin(n, 0.1) == n / 10
  {
  }

  /** Python's normalisation of one slice bound against a length. */
  function SliceBound(i: int, len: nat): (j: nat)
    ensures j <= len
  {
    if i < 0 then (if i + len < 0 then 0 else i + len)
    else if i > len then len else i
  }

  /** The index range picked out by the slice `[m:-m]` of a length-n array.
      It is empty exactly when m is 0 (the slice `[0:-0]` is `[0:0]`) or
      when the two margins meet. */
  function Region(n: nat, m: nat): (b: (nat, nat))
    ensures b.0 <= b.1 <= n
    ensures b.0 < b.1 <==> 1 <= m && 2 * m < n
    ensures b.0 < b.1 ==> b.0 == m && b.1 == n - m
  {
    var lo := SliceBound(m, n);
    var hi := SliceBound(-(m as int), n);
    (lo, if hi < lo then lo else hi)
  }

  /** A division whose zero divisor yields an IEEE infinity or NaN: `None`. */
  function Quotient(a: real, b: real): Option<real>
  {
    if b == 0.0 then None else Some(a / b)
  }

  /** Entry i of `np.gradient(f[lo:hi], x[lo:hi])`, indexed in the whole
      arrays: one-sided differences at both ends of the slice, numpy's
      second-order three-point formula inside. `None` stands for a
      non-finite value, produced by every zero spacing (duplicate
      potentials). */
  function GradientAt(f: seq<real>, x: seq<real>, lo: nat, hi: nat, i: nat): (g: Option<real>)
    requires |f| == |x| && lo + 2 <= hi <= |f| && lo <= i < hi
    // strictly increasing potentials around i give a finite slope
    ensures (forall k :: lo < k < hi ==> x[k - 1] < x[k]) ==> g.Some?
  {
    if i == lo then Quotient(f[lo + 1] - f[lo], x[lo + 1] - x[lo])
    else if i == hi - 1 then Quotient(f[i] - f[i - 1], x[i] - x[i - 1])
    else
      var dx1 := x[i] - x[i - 1];
      var dx2 := x[i + 1] - x[i];
      if dx1 == 0.0 || dx2 == 0.0 || dx1 + dx2 == 0.0 then None
      else
        Some(ThreePoint(f[i - 1], f[i], f[i + 1], dx1, dx2))
  }

  /** numpy's non-uniform three-point derivative at the middle of samples
      f0, f1, f2 spaced dx1 and dx2 apart. */
  function ThreePoint(f0: real, f1: real, f2: real, dx1: real, dx2: real): real
    requires dx1 != 0.0 && dx2 != 0.0 && dx1 + dx2 != 0.0
  {
    -dx2 / (dx1 * (dx1 + dx2)) * f0 + (dx2 - dx1) / (dx1 * dx2) * f1 + dx1 / (dx2 * (dx1 + dx2)) * f2
  }

  /** `np.abs(slope) < maxSlope`; a non-finite slope never passes. */
  predicate Steady(slope: Option<real>, maxSlope: real)
  {
    slope.Some? && Abs(slope.value) < maxSlope
  }

  /** Sample j lies in the search region `[m, n - m)` of a trace whose region
      holds at least two samples, and its slope, computed over the region,
      passes the bound. */
  predicate Qualifies(signal: seq<real>, potentials: seq<real>, m: nat, maxSlope: real, j: int)
  {
    && |signal| == |potentials|
    && 1 <= m && 2 * m + 2 <= |signal|
    && m <= j < |signal| - m
    && Steady(GradientAt(signal, potentials, m, |signal| - m, j), maxSlope)
  }

  /** `np.argmax(s[lo:hi])`, indexed in the whole array: the first position
      of the largest sample between lo and hi. */
  function ArgMaxIn(s: seq<real>, lo: nat, hi: nat): (k: nat)
    requires lo < hi <= |s|
    ensures lo <= k < hi
    ensures forall j :: lo <= j < hi ==> s[j] <= s[k]
    ensures forall j :: lo <= j < k ==> s[j] < s[k]
    decreases hi
  {
    if hi == lo + 1 then lo
    else
      var k := ArgMaxIn(s, lo, hi - 1);
      if s[hi - 1] > s[k] then hi - 1 else k
  }

  /** `validIndices[np.argmax(searchRegion[validIndices])]`, indexed in the
      whole array and restricted to the samples below hi: the first position
      of the largest qualifying sample, or `None` if no sample qualifies. */
  function BestQualified(signal: seq<real>, potentials: seq<real>, m: nat, ms: real, hi: nat): (r: Option<nat>)
    requires hi <= |signal|
    ensures r.None? <==> forall j :: j < hi ==> !Qualifies(signal, potentials, m, ms, j)
    ensures r.Some? ==> r.value < hi && Qualifies(signal, potentials, m, ms, r.value)
    ensures r.Some? ==>
              forall j {:trigger Qualifies(signal, potentials, m, ms, j)} :: j < hi && Qualifies(signal, potentials, m, ms, j) ==>
                && signal[j] <= signal[r.value]
                && (j < r.value ==> signal[j] < signal[r.value])
    decreases hi
  {
    if hi == 0 then None
    else
      var r := BestQualified(signal, potentials, m, ms, hi - 1);
      if !Qualifies(signal, potentials, m, ms, hi - 1) then r
      else if r.None? || signal[hi - 1] > signal[r.value] then Some(hi - 1)
      else r
  }

  /** The search without a slope bound, for margin m: `np.argmax` over the
      slice `[m:-m]`, which raises when the slice is empty. */
  function PlainSearch(signal: seq<real>, potentials: seq<real>, m: nat): (r: Result<Peak>)
    requires |signal| == |potentials|
    ensures r.Success? <==> 1 <= m && 2 * m < |signal|
    ensures r.Failure? ==> r.error == EmptySearchRegion
    ensures r.Success? ==>
              && m <= r.value.index < |signal| - m
              && r.value.voltage == potentials[r.value.index]
              && r.value.current == signal[r.value.index]
    ensures r.Success? ==> forall j :: m <= j < |signal| - m ==> signal[j] <= signal[r.value.index]
    ensures r.Success? ==> forall j :: m <= j < r.value.index ==> signal[j] < signal[r.value.index]
  {
    var bounds := Region(|signal|, m);
    if bounds.0 == bounds.1 then Failure(EmptySearchRegion)
    else
      var best := ArgMaxIn(signal, bounds.0, bounds.1);
      Success(Peak(potentials[best], signal[best], best))
  }

  /** The search with slope bound ms, for margin m: `np.gradient` over the
      slice `[m:-m]` (which raises below two samples), then `np.argmax` over
      the qualifying samples, falling back to sample m when none qualifies. */
  function SlopeSearch(signal: seq<real>, potentials: seq<real>, m: nat, ms: real): (r: Result<Peak>)
    requires |signal| == |potentials|
    ensures r.Success? <==> 1 <= m && 2 * m + 2 <= |signal|
    ensures r.Failure? ==> r.error == GradientTooShort
    ensures r.Success? ==>
              && m <= r.value.index < |signal| - m
              && r.value.voltage == potentials[r.value.index]
              && r.value.current == signal[r.value.index]
    ensures r.Success? && (exists j :: Qualifies(signal, potentials, m, ms, j)) ==>
              && Qualifies(signal, potentials, m, ms, r.value.index)
              && forall j {:trigger Qualifies(signal, potentials, m, ms, j)} :: Qualifies(signal, potentials, m, ms, j) ==>
                   && signal[j] <= signal[r.value.index]
                   && (j < r.value.index ==> signal[j] < signal[r.value.index])
    ensures r.Success? && (forall j :: !Qualifies(signal, potentials, m, ms, j)) ==> r.value.index == m
  {
    var n := |signal|;
    if !(1 <= m && 2 * m + 2 <= n) then Failure(GradientTooShort)
    else
      match BestQualified(signal, potentials, m, ms, n - m)
      case None => Success(Peak(potentials[m], signal[m], m))
      case Some(best) => Success(Peak(potentials[best], signal[best], best))
  }

  /** `getPeakValue(signal, potentials, marginRatio, maxSlope)`, with
      `margin = int(n * marginRatio)`. */
  function GetPeakValue(signal: seq<real>, potentials: seq<real>, ratio: real, maxSlope: Option<real>): (r: Result<Peak>)
    requires |signal| == |potentials| && 0.0 <= ratio
    // the search raises exactly when its slice is too short: empty for argmax,
    // shorter than two samples for np.gradient
    ensures maxSlope.None? ==>
              (r.Success? <==> 1 <= Margin(|signal|, ratio) && 2 * Margin(|signal|, ratio) < |signal|)
    ensures maxSlope.Some? ==>
              (r.Success? <==> 1 <= Margin(|signal|, ratio) && 2 * Margin(|signal|, ratio) + 2 <= |signal|)
    ensures r.Failure? ==> r.error == if maxSlope.None? then EmptySearchRegion else GradientTooShort
    // the returned voltage and current come from one index of the search region
    ensures r.Success? ==>
              && Margin(|signal|, ratio) <= r.value.index < |signal| - Margin(|signal|, ratio)
              && r.value.voltage == potentials[r.value.index]
              && r.value.current == signal[r.value.index]
    // without a slope bound: the first maximum of the region
    ensures r.Success? && maxSlope.None? ==>
              forall j :: Margin(|signal|, ratio) <= j < |signal| - Margin(|signal|, ratio) ==>
                signal[j] <= signal[r.value.index]
    ensures r.Success? && maxSlope.None? ==>
              forall j :: Margin(|signal|, ratio) <= j < r.value.index ==> signal[j] < signal[r.value.index]
    // with a slope bound: the first maximum among the qualifying samples ...
    ensures r.Success? && maxSlope.Some? && (exists j :: Qualifies(signal, potentials, Margin(|signal|, ratio), maxSlope.value, j)) ==>
              && Qualifies(signal, potentials, Margin(|signal|, ratio), maxSlope.value, r.value.index)
              && forall j {:trigger Qualifies(signal, potentials, Margin(|signal|, ratio), maxSlope.value, j)} :: Qualifies(signal, potentials, Margin(|signal|, ratio), maxSlope.value, j) ==>
                   && signal[j] <= signal[r.value.index]
                   && (j < r.value.index ==> signal[j] < signal[r.value.index])
    // ... or, when none qualifies, the first sample of the region
    ensures r.Success? && maxSlope.Some? && (forall j :: !Qualifies(signal, potentials, Margin(|signal|, ratio), maxSlope.value, j)) ==>
              r.value.index == Margin(|signal|, ratio)
  {
    var m := Margin(|signal|, ratio);
    match maxSlope
    case Some(ms) => SlopeSearch(signal, potentials, m, ms)
    case None => PlainSearch(signal, potentials, m)
  }

  /** With the default margin ratio, a trace of fewer than ten samples has a
      zero margin, so its search slice `[0:-0]` is empty and the search
      raises, with or without a slope bound. */
  lemma ShortTraceSearchRaises(signal: seq<real>, potentials: seq<real>, maxSlope: Option<real>)
    requires |signal| == |potentials| < 10
    ensures GetPeakValue(signal, potentials, 0.1, maxSlope).Failure?
  {
    DefaultMargin(|signal|);
  }

  /** A duplicate potential makes the slopes on both sides of it non-finite,
      so neither neighbour can qualify. */
  lemma DuplicatePotentialSlopes(f: seq<real>, x: seq<real>, lo: nat, hi: nat, i: nat)
    requires |f| == |x| && lo + 2 <= hi <= |f| && lo < i < hi && x[i - 1] == x[i]
    ensures GradientAt(f, x, lo, hi, i - 1).None? && GradientAt(f, x, lo, hi, i).None?
  {
  }

  /** The gradient is exact on straight lines sampled at strictly increasing
      coordinates: every slope is the line's slope. */
  lemma GradientOfLine(f: seq<real>, x: seq<real>, lo: nat, hi: nat, c: real, d: real, i: nat)
    requires |f| == |x| && lo + 2 <= hi <= |f| && lo <= i < hi
    requires forall k :: 0 < k < |x| ==> x[k - 1] < x[k]
    requires forall k :: 0 <= k < |f| ==> f[k] == c * x[k] + d
    ensures GradientAt(f, x, lo, hi, i) == Some(c)
  {
    if i == lo {
      LineQuotient(c, d, x[lo], x[lo + 1], f[lo], f[lo + 1]);
    } else if i == hi - 1 {
      LineQuotient(c, d, x[i - 1], x[i], f[i - 1], f[i]);
    } else {
      var dx1 := x[i] - x[i - 1];
      var dx2 := x[i + 1] - x[i];
      LineDifference(c, d, x[i - 1], x[i], f[i - 1], f[i]);
      LineDifference(c, d, x[i], x[i + 1], f[i], f[i + 1]);
      ThreePointOfLine(f[i - 1], f[i], f[i + 1], dx1, dx2, c);
    }
  }

  /** Two samples of the line c * x + d differ by c times their spacing. */
  lemma LineDifference(c: real, d: real, xa: real, xb: real, fa: real, fb: real)
    requires fa == c * xa + d && fb == c * xb + d
    ensures fb - fa == c * (xb - xa)
  {
  }

  /** The one-sided difference of two distinct samples of a line is its slope. */
  lemma LineQuotient(c: real, d: real, xa: real, xb: real, fa: real, fb: real)
    requires xa < xb && fa == c * xa + d && fb == c * xb + d
    ensures Quotient(fb - fa, xb - xa) == Some(c)
  {
    var dx := xb - xa;
    LineDifference(c, d, xa, xb, fa, fb);
    assert fb - fa == c * dx;
    assert (c * dx) / dx == c;
  }

  /** numpy's three-point formula returns the slope of a line through its
      three samples. */
  lemma ThreePointOfLine(f0: real, f1: real, f2: real, dx1: real, dx2: real, c: real)
    requires 0.0 < dx1 && 0.0 < dx2
    requires f0 == f1 - c * dx1 && f2 == f1 + c * dx2
    ensures ThreePoint(f0, f1, f2, dx1, dx2) == c
  {
  }
}
