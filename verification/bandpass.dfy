/** The band-pass variant: passes frequencies between the two cutoffs. */
module BandPassFilter {
  import opened Outcomes
  import opened Numeric
  import opened Specs
  import LowPassFilter

  /** Transition bandwidth `(nu* - 1) * (omega_high - omega_low)`; both cutoffs are needed. */
  function TransitionBandwidth(s: FilterSpec): (r: Result<real>)
    ensures r.Success? <==> s.omegaHigh.Some? && s.omegaLow.Some?
    ensures r.Failure? ==> r.error == MissingCutoff
    ensures r.Success? ==> r.value == (s.nuStar - 1.0) * (s.omegaHigh.value - s.omegaLow.value)
    ensures r.Success? && s.nuStar > 1.0 && s.omegaHigh.value > s.omegaLow.value ==> r.value > 0.0
  {
    if s.omegaHigh.None? || s.omegaLow.None? then Failure(MissingCutoff)
    else
      var width := s.omegaHigh.value - s.omegaLow.value;
      PositiveProduct(s.nuStar - 1.0, width);
      Success((s.nuStar - 1.0) * width)
  }

  /** The ideal coefficient of index k. */
  function Coefficient(t: Analytic, gain: real, dt: real, upper: real, nyquist: real, lower: real, k: nat): real
    requires Valid(t) && nyquist != 0.0
  {
    if k == 0 then 2.0 * gain * (upper - lower) / nyquist
    else 2.0 * gain * (t.sin(Phase(k, dt, upper)) - t.sin(Phase(k, dt, lower))) / (k as real * t.pi)
  }

  /** The L+1 ideal coefficients of a band-pass filter with edges `lower` and `upper`. */
  function Ideal(t: Analytic, s: FilterSpec, upper: real, nyquist: real, L: nat, lower: real): (a: seq<real>)
    requires Valid(t) && nyquist != 0.0
    ensures |a| == L + 1
    ensures a[0] == 2.0 * s.gain * (upper - lower) / nyquist
    ensures forall k: nat :: k <= L ==> a[k] == Coefficient(t, s.gain, s.timeStep, upper, nyquist, lower, k)
  {
    seq(L + 1, k requires 0 <= k <= L => Coefficient(t, s.gain, s.timeStep, upper, nyquist, lower, k))
  }

  /** One index of the difference relation below. */
  lemma CoefficientIsLowPassDifference(t: Analytic, gain: real, dt: real, upper: real, nyquist: real, lower: real, k: nat)
    requires Valid(t) && nyquist != 0.0
    ensures Coefficient(t, gain, dt, upper, nyquist, lower, k)
      == LowPassFilter.Coefficient(t, gain, dt, upper, nyquist, k) - LowPassFilter.Coefficient(t, gain, dt, lower, nyquist, k)
  {
    if k == 0 {
      assert 2.0 * gain * (upper - lower) == 2.0 * gain * upper - 2.0 * gain * lower;
      DivideDifference(2.0 * gain * upper, 2.0 * gain * lower, nyquist);
    } else {
      var x := t.sin(Phase(k, dt, upper));
      var y := t.sin(Phase(k, dt, lower));
      var d := k as real * t.pi;
      PositiveProduct(k as real, t.pi);
      assert 2.0 * gain * (x - y) == 2.0 * gain * x - 2.0 * gain * y;
      DivideDifference(2.0 * gain * x, 2.0 * gain * y, d);
    }
  }

  /** The band-pass response is the low-pass at `upper` minus the low-pass at `lower`. */
  lemma IdealIsLowPassDifference(t: Analytic, s: FilterSpec, upper: real, nyquist: real, L: nat, lower: real)
    requires Valid(t) && nyquist != 0.0
    ensures forall k :: 0 <= k <= L ==>
      Ideal(t, s, upper, nyquist, L, lower)[k]
        == LowPassFilter.Ideal(t, s, upper, nyquist, L, lower)[k] - LowPassFilter.Ideal(t, s, lower, nyquist, L, upper)[k]
  {
    forall k: nat | k <= L {
      CoefficientIsLowPassDifference(t, s.gain, s.timeStep, upper, nyquist, lower, k);
    }
  }

  /** Coinciding edges give an empty passband: every ideal coefficient is zero. */
  lemma EqualEdgesGiveZeroIdeal(t: Analytic, s: FilterSpec, edge: real, nyquist: real, L: nat)
    requires Valid(t) && nyquist != 0.0
    ensures forall k :: 0 <= k <= L ==> Ideal(t, s, edge, nyquist, L, edge)[k] == 0.0
  {
    forall k: nat | k <= L {
      CoefficientIsLowPassDifference(t, s.gain, s.timeStep, edge, nyquist, edge, k);
    }
  }
}
