/** The low-pass variant: passes frequencies below the upper cutoff. */
module LowPassFilter {
  import opened Outcomes
  import opened Numeric
  import opened Specs

  /** Transition bandwidth `(nu* - 1) * omega_high`; a missing upper cutoff raises. */
  function TransitionBandwidth(s: FilterSpec): (r: Result<real>)
    ensures r.Success? <==> s.omegaHigh.Some?
    ensures r.Failure? ==> r.error == MissingCutoff
    ensures r.Success? ==> r.value == (s.nuStar - 1.0) * s.omegaHigh.value
    ensures r.Success? && s.nuStar > 1.0 && s.omegaHigh.value > 0.0 ==> r.value > 0.0
  {
    if s.omegaHigh.None? then Failure(MissingCutoff)
    else
      PositiveProduct(s.nuStar - 1.0, s.omegaHigh.value);
      Success((s.nuStar - 1.0) * s.omegaHigh.value)
  }

  /** The ideal coefficient of index k: the k = 0 limit, or the sinc term. */
  function Coefficient(t: Analytic, gain: real, dt: real, upper: real, nyquist: real, k: nat): real
    requires Valid(t) && nyquist != 0.0
  {
    if k == 0 then 2.0 * gain * upper / nyquist
    else 2.0 * gain * t.sin(Phase(k, dt, upper)) / (k as real * t.pi)
  }

  /**
   * The L+1 ideal coefficients of a low-pass filter with upper passband edge
   * `upper`; the lower edge argument is accepted and ignored.
   */
  function Ideal(t: Analytic, s: FilterSpec, upper: real, nyquist: real, L: nat, lower: real): (a: seq<real>)
    requires Valid(t) && nyquist != 0.0
    ensures |a| == L + 1
    ensures a[0] == 2.0 * s.gain * upper / nyquist
    ensures forall k: nat :: k <= L ==> a[k] == Coefficient(t, s.gain, s.timeStep, upper, nyquist, k)
  {
    seq(L + 1, k requires 0 <= k <= L => Coefficient(t, s.gain, s.timeStep, upper, nyquist, k))
  }

  /** One index of the gain scaling below. */
  lemma CoefficientScalesWithGain(t: Analytic, gain: real, dt: real, upper: real, nyquist: real, k: nat)
    requires Valid(t) && nyquist != 0.0
    ensures Coefficient(t, gain, dt, upper, nyquist, k) == gain * Coefficient(t, 1.0, dt, upper, nyquist, k)
  {
    if k == 0 {
      ScaleQuotient(gain, 2.0 * upper, nyquist);
    } else {
      var x := t.sin(Phase(k, dt, upper));
      var d := k as real * t.pi;
      PositiveProduct(k as real, t.pi);
      ScaleQuotient(gain, 2.0 * x, d);
    }
  }

  /** The coefficients are proportional to the gain: those of unit gain, scaled. */
  lemma IdealScalesWithGain(t: Analytic, s: FilterSpec, upper: real, nyquist: real, L: nat, lower: real)
    requires Valid(t) && nyquist != 0.0
    ensures forall k :: 0 <= k <= L ==>
      Ideal(t, s, upper, nyquist, L, lower)[k] == s.gain * Ideal(t, s.(gain := 1.0), upper, nyquist, L, lower)[k]
  {
    forall k: nat | k <= L {
      CoefficientScalesWithGain(t, s.gain, s.timeStep, upper, nyquist, k);
    }
  }

  /** A zero passband edge passes nothing: every coefficient is zero. */
  lemma ZeroEdgeGivesZeroIdeal(t: Analytic, s: FilterSpec, nyquist: real, L: nat, lower: real)
    requires Valid(t) && nyquist != 0.0
    ensures forall k :: 0 <= k <= L ==> Ideal(t, s, 0.0, nyquist, L, lower)[k] == 0.0
  {
    forall k: nat | 1 <= k <= L
      ensures Coefficient(t, s.gain, s.timeStep, 0.0, nyquist, k) == 0.0
    {
      assert Phase(k, s.timeStep, 0.0) == 0.0;
    }
  }
}
