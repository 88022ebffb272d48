/** The Baseline Estimator (`calculateSignalBaseLine`,
    pybaseline_loop.py:59-68): a weight vector that suppresses the samples
    near the located peak, handed with the signal to the asymmetric
    penalized least-squares fitter (`aspls`, a parameter of the model). */
module Baseline {
  import opened Base

  /** The weight of a sample strictly inside the exclusion window. */
  const Suppressed: real := 0.001

  /** A baseline fitter: (signal, weights, lambda) to baseline. */
  type Fitter = (seq<real>, seq<real>, real) -> seq<real>

  /** The fitter returns one baseline value per signal sample. */
  ghost predicate FitPreservesLength(fit: Fitter)
  {
    forall s, w, lam :: |fit(s, w, lam)| == |s|
  }

  /** What `calculateSignalBaseLine` returns: the baseline and the exclusion
      window bounds. */
  datatype BaselineFit = BaselineFit(values: seq<real>, exclusionMin: real, exclusionMax: real)

  /** `exclusionWidthRatio * (potentialValues[-1] - potentialValues[0])`. */
  function ExclusionWidth(potentials: seq<real>, ratio: real): real
    requires |potentials| > 0
  {
    ratio * (potentials[|potentials| - 1] - potentials[0])
  }

  /** `lam = lambdaFactor * (n ** 2)`: the penalty grows with the square of
      the trace length. */
  function Lambda(lambdaFactor: real, n: nat): real
  {
    lambdaFactor * ((n * n) as real)
  }

  /** The weight vector for window (lo, hi): 0.001 strictly inside, 1 elsewhere. */
  function ExclusionWeights(potentials: seq<real>, lo: real, hi: real): (w: seq<real>)
    ensures |w| == |potentials|
    ensures forall i :: 0 <= i < |w| ==>
              (w[i] == Suppressed <==> lo < potentials[i] < hi) && (w[i] == 1.0 <==> !(lo < potentials[i] < hi))
  {
    seq(|potentials|, i requires 0 <= i < |potentials| => if lo < potentials[i] < hi then Suppressed else 1.0)
  }

  /** Lines 62-66: the window around the peak voltage and the weights,
      built as `np.ones_like` followed by a masked assignment. */
  method BuildExclusionWeights(potentials: seq<real>, peakVoltage: real, ratio: real)
    returns (weights: seq<real>, lo: real, hi: real)
    requires |potentials| > 0
    ensures lo == peakVoltage - ExclusionWidth(potentials, ratio)
    ensures hi == peakVoltage + ExclusionWidth(potentials, ratio)
    ensures |weights| == |potentials|
    ensures forall i :: 0 <= i < |weights| ==>
              (weights[i] == Suppressed <==> lo < potentials[i] < hi) &&
              (weights[i] == 1.0 <==> !(lo < potentials[i] < hi))
    ensures weights == ExclusionWeights(potentials, lo, hi)
  {
    var width := ExclusionWidth(potentials, ratio);
    lo := peakVoltage - width;
    hi := peakVoltage + width;
    var w := new real[|potentials|](i => 1.0);
    var i := 0;
    while i < |potentials|
      invariant 0 <= i <= |potentials| == w.Length
      invariant forall k :: 0 <= k < i ==> w[k] == if lo < potentials[k] < hi then Suppressed else 1.0
      invariant forall k :: i <= k < w.Length ==> w[k] == 1.0
    {
      if lo < potentials[i] && potentials[i] < hi {
        w[i] := Suppressed;
      }
      i := i + 1;
    }
    weights := w[..];
  }

  /** `calculateSignalBaseLine(signal, potentials, peakVoltage, ratio,
      lambdaFactor)` for the fitter `fit`. */
  function CalculateSignalBaseLine(fit: Fitter, signal: seq<real>, potentials: seq<real>,
                                   peakVoltage: real, ratio: real, lambdaFactor: real): (r: Result<BaselineFit>)
    requires FitPreservesLength(fit)
    // `potentialValues[-1]` raises on an empty trace
    ensures r.Failure? <==> |potentials| == 0
    ensures r.Failure? ==> r.error == EmptyPotentials
    ensures r.Success? ==>
              && |r.value.values| == |signal|
              && r.value.exclusionMin == peakVoltage - ExclusionWidth(potentials, ratio)
              && r.value.exclusionMax == peakVoltage + ExclusionWidth(potentials, ratio)
    // the fitter sees the signal, the exclusion weights and lambda = lambdaFactor * n^2
    ensures r.Success? ==>
              r.value.values == fit(signal, ExclusionWeights(potentials, r.value.exclusionMin, r.value.exclusionMax),
                                    Lambda(lambdaFactor, |signal|))
  {
    var lam := Lambda(lambdaFactor, |signal|);
    if |potentials| == 0 then Failure(EmptyPotentials)
    else
      var width := ExclusionWidth(potentials, ratio);
      var lo := peakVoltage - width;
      var hi := peakVoltage + width;
      Success(BaselineFit(fit(signal, ExclusionWeights(potentials, lo, hi), lam), lo, hi))
  }

  /** On a trace sorted by potential the suppressed samples form one
      contiguous block of indices. */
  lemma SuppressedBlockIsContiguous(potentials: seq<real>, lo: real, hi: real, i: nat, j: nat, k: nat)
    requires forall a :: 0 < a < |potentials| ==> potentials[a - 1] <= potentials[a]
    requires i <= j <= k < |potentials|
    requires ExclusionWeights(potentials, lo, hi)[i] == Suppressed
    requires ExclusionWeights(potentials, lo, hi)[k] == Suppressed
    ensures ExclusionWeights(potentials, lo, hi)[j] == Suppressed
  {
    NonDecreasingBetween(potentials, i, j);
    NonDecreasingBetween(potentials, j, k);
  }

  /** A trace sorted pair by pair is sorted between any two indices. */
  lemma {:induction false} NonDecreasingBetween(p: seq<real>, i: nat, j: nat)
    requires forall a :: 0 < a < |p| ==> p[a - 1] <= p[a]
    requires i <= j < |p|
    ensures p[i] <= p[j]
  {
    if i < j {
      NonDecreasingBetween(p, i, j - 1);
    }
  }

  /** When the trace spans a positive potential range and the ratio is
      positive, the window is not empty: the sample at the peak voltage
      itself is suppressed. */
  lemma PeakSampleIsSuppressed(potentials: seq<real>, ratio: real, k: nat)
    requires k < |potentials| && 0.0 < ratio
    requires potentials[0] < potentials[|potentials| - 1]
    ensures
      var width := ExclusionWidth(potentials, ratio);
      ExclusionWeights(potentials, potentials[k] - width, potentials[k] + width)[k] == Suppressed
  {
    PositiveProduct(ratio, potentials[|potentials| - 1] - potentials[0]);
  }
}
