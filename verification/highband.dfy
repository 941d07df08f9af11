/** The high-band variant: passes frequencies above the lower cutoff. */
module HighBandFilter {
  import opened Outcomes
  import opened Numeric
  import opened Specs
  import LowPassFilter

  /**
   * Transition bandwidth `(1 - 1/nu*) * omega_low`. The reciprocal is taken
   * first, so `nu* == 0` raises ZeroDivisionError even without a lower cutoff.
   */
  function TransitionBandwidth(s: FilterSpec): (r: Result<real>)
    ensures r.Success? <==> s.nuStar != 0.0 && s.omegaLow.Some?
    ensures s.nuStar == 0.0 ==> r == Failure(DivisionByZero)
    ensures s.nuStar != 0.0 && s.omegaLow.None? ==> r == Failure(MissingCutoff)
    ensures r.Success? ==> r.value == (1.0 - 1.0 / s.nuStar) * s.omegaLow.value
    ensures r.Success? && s.nuStar > 1.0 && s.omegaLow.value > 0.0 ==> r.value > 0.0
  {
    if s.nuStar == 0.0 then Failure(DivisionByZero)
    else if s.omegaLow.None? then Failure(MissingCutoff)
    else
      var shrink := 1.0 - 1.0 / s.nuStar;
      assert s.nuStar > 1.0 ==> shrink > 0.0 by {
        assert (1.0 / s.nuStar) * s.nuStar == 1.0;
      }
      PositiveProduct(shrink, s.omegaLow.value);
      Success(shrink * s.omegaLow.value)
  }

  /** The ideal coefficient of index k. */
  function Coefficient(t: Analytic, gain: real, dt: real, lower: real, nyquist: real, k: nat): real
    requires Valid(t) && nyquist != 0.0
  {
    if k == 0 then 2.0 * gain * (1.0 - lower / nyquist)
    else -2.0 * gain * t.sin(Phase(k, dt, lower)) / (k as real * t.pi)
  }

  /**
   * The L+1 ideal coefficients of a high-band filter with lower passband edge
   * `lower`; the upper edge argument is accepted and ignored.
   */
  function Ideal(t: Analytic, s: FilterSpec, upper: real, nyquist: real, L: nat, lower: real): (a: seq<real>)
    requires Valid(t) && nyquist != 0.0
    ensures |a| == L + 1
    ensures a[0] == 2.0 * s.gain * (1.0 - lower / nyquist)
    ensures forall k: nat :: k <= L ==> a[k] == Coefficient(t, s.gain, s.timeStep, lower, nyquist, k)
  {
    seq(L + 1, k requires 0 <= k <= L => Coefficient(t, s.gain, s.timeStep, lower, nyquist, k))
  }

  /** One index of the complement relation below. */
  lemma CoefficientIsComplement(t: Analytic, gain: real, dt: real, lower: real, nyquist: real, k: nat)
    requires Valid(t) && nyquist != 0.0
    ensures Coefficient(t, gain, dt, lower, nyquist, k)
      == (if k == 0 then 2.0 * gain else 0.0) - LowPassFilter.Coefficient(t, gain, dt, lower, nyquist, k)
  {
    if k == 0 {
      ScaleQuotient(2.0 * gain, lower, nyquist);
    } else {
      var x := t.sin(Phase(k, dt, lower));
      var d := k as real * t.pi;
      PositiveProduct(k as real, t.pi);
      ScaleQuotient(-2.0 * gain, x, d);
      ScaleQuotient(2.0 * gain, x, d);
    }
  }

  /**
   * The high-band response is an all-pass of height `2 * gain` (a unit
   * impulse at k = 0) minus the low-pass response with edge `lower`.
   */
  lemma IdealIsComplementOfLowPass(t: Analytic, s: FilterSpec, upper: real, nyquist: real, L: nat, lower: real)
    requires Valid(t) && nyquist != 0.0
    ensures forall k :: 0 <= k <= L ==>
      Ideal(t, s, upper, nyquist, L, lower)[k]
        == (if k == 0 then 2.0 * s.gain else 0.0) - LowPassFilter.Ideal(t, s, lower, nyquist, L, upper)[k]
  {
    forall k: nat | k <= L {
      CoefficientIsComplement(t, s.gain, s.timeStep, lower, nyquist, k);
    }
  }

  /** The upper edge argument has no influence on the coefficients. */
  lemma IdealIgnoresUpper(t: Analytic, s: FilterSpec, upper1: real, upper2: real, nyquist: real, L: nat, lower: real)
    requires Valid(t) && nyquist != 0.0
    ensures Ideal(t, s, upper1, nyquist, L, lower) == Ideal(t, s, upper2, nyquist, L, lower)
  {
  }
}
