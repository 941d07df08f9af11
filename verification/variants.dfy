/**
 * The four concrete filters as one enumeration, and the dispatch of the
 * three hooks the engine template calls: transition bandwidth, ideal
 * coefficients and tap assembly.
 */
module Variants {
  import opened Outcomes
  import opened Numeric
  import opened Specs
  import opened Taps
  import LowPassFilter
  import HighBandFilter
  import BandPassFilter
  import DifferentiatingFilter

  datatype Variant = LowPass | HighBand | BandPass | Differentiating

  /** The cutoffs the variant's transition bandwidth formula reads. */
  predicate HasCutoffs(v: Variant, s: FilterSpec) {
    match v
    case LowPass => s.omegaHigh.Some?
    case Differentiating => s.omegaHigh.Some?
    case HighBand => s.omegaLow.Some?
    case BandPass => s.omegaHigh.Some? && s.omegaLow.Some?
  }

  /** `_calculate_transition_bandwidth` of the variant. */
  function TransitionBandwidth(v: Variant, s: FilterSpec): (r: Result<real>)
    ensures r.Success? <==> HasCutoffs(v, s) && (v == HighBand ==> s.nuStar != 0.0)
    ensures r.Failure? ==> r.error == (if v == HighBand && s.nuStar == 0.0 then DivisionByZero else MissingCutoff)
  {
    match v
    case LowPass => LowPassFilter.TransitionBandwidth(s)
    case HighBand => HighBandFilter.TransitionBandwidth(s)
    case BandPass => BandPassFilter.TransitionBandwidth(s)
    // The differentiating variant repeats the low-pass rule verbatim.
    case Differentiating => LowPassFilter.TransitionBandwidth(s)
  }

  /**
   * The variant's positivity condition on its cutoffs: above it, the
   * transition bandwidth is strictly positive.
   */
  predicate CutoffsWellOrdered(v: Variant, s: FilterSpec) {
    && s.nuStar > 1.0
    && HasCutoffs(v, s)
    && match v
       case LowPass => s.omegaHigh.value > 0.0
       case Differentiating => s.omegaHigh.value > 0.0
       case HighBand => s.omegaLow.value > 0.0
       case BandPass => s.omegaHigh.value > s.omegaLow.value
  }

  lemma TransitionBandwidthPositive(v: Variant, s: FilterSpec)
    requires CutoffsWellOrdered(v, s)
    ensures TransitionBandwidth(v, s).Success?
    ensures TransitionBandwidth(v, s).value > 0.0
  {
  }

  /**
   * The passband edges the variant's `_calculate_a_coefficients` reads: an
   * absent one raises TypeError. The differentiator reads its upper edge only
   * in the k >= 1 terms, so with L = 0 it tolerates an absent edge.
   */
  predicate EdgesAvailable(v: Variant, upper: Option<real>, L: nat, lower: Option<real>) {
    match v
    case LowPass => upper.Some?
    case HighBand => lower.Some?
    case BandPass => upper.Some? && lower.Some?
    case Differentiating => upper.Some? || L == 0
  }

  /** `_calculate_a_coefficients` of the variant, on possibly absent edges. */
  function IdealCoefficients(v: Variant, t: Analytic, s: FilterSpec, upper: Option<real>, nyquist: real, L: nat,
                             lower: Option<real>): (r: Result<seq<real>>)
    requires Valid(t) && nyquist != 0.0
    ensures r.Success? <==> EdgesAvailable(v, upper, L, lower)
    ensures r.Failure? ==> r.error == MissingEdge
    ensures r.Success? ==> |r.value| == L + 1
    ensures r.Success? && v == Differentiating ==> r.value[0] == 0.0
  {
    if !EdgesAvailable(v, upper, L, lower) then Failure(MissingEdge)
    else
      var hi := upper.GetOr(0.0);
      var lo := lower.GetOr(0.0);
      match v
      case LowPass => Success(LowPassFilter.Ideal(t, s, hi, nyquist, L, lo))
      case HighBand => Success(HighBandFilter.Ideal(t, s, hi, nyquist, L, lo))
      case BandPass => Success(BandPassFilter.Ideal(t, s, hi, nyquist, L, lo))
      case Differentiating => Success(DifferentiatingFilter.Ideal(t, s, hi, nyquist, L, lo))
  }

  /** `_calculate_w_coefficients` of the variant. */
  function AssembleTaps(v: Variant, window: seq<real>, a: seq<real>, L: nat): (w: seq<real>)
    requires L < |window| && L < |a|
    ensures |w| == 2 * L + 1
    ensures forall k :: 0 <= k <= L ==> w[L - k] == Weighted(window, a, k)
    ensures v != Differentiating ==> IsSymmetric(w, L)
    ensures v == Differentiating ==> IsAntisymmetric(w, L)
    ensures v == Differentiating && a[0] == 0.0 ==> w[L] == 0.0
  {
    if v == Differentiating then Antisymmetric(window, a, L) else Symmetric(window, a, L)
  }

  /** A band-pass filter whose two edges coincide has all-zero taps. */
  lemma BandPassEqualEdgesGiveZeroTaps(t: Analytic, s: FilterSpec, edge: real, nyquist: real, L: nat, window: seq<real>)
    requires Valid(t) && nyquist != 0.0
    requires L < |window|
    ensures IdealCoefficients(BandPass, t, s, Some(edge), nyquist, L, Some(edge)).Success?
    ensures var a := IdealCoefficients(BandPass, t, s, Some(edge), nyquist, L, Some(edge)).value;
            forall j :: 0 <= j < 2 * L + 1 ==> AssembleTaps(BandPass, window, a, L)[j] == 0.0
  {
    var a := IdealCoefficients(BandPass, t, s, Some(edge), nyquist, L, Some(edge)).value;
    BandPassFilter.EqualEdgesGiveZeroIdeal(t, s, edge, nyquist, L);
    ZeroIdealGivesZeroTaps(window, a, L);
  }
}
