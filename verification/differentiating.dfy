/** The differentiating variant: an antisymmetric filter approximating d/dt below the upper cutoff. */
module DifferentiatingFilter {
  import opened Numeric
  import opened Specs

  /** The ideal coefficient of index k; the k = 0 term is zero. */
  function Coefficient(t: Analytic, dt: real, upper: real, nyquist: real, k: nat): real
    requires Valid(t)
  {
    if k == 0 then 0.0
    else
      2.0 * nyquist
        * (t.sin(Phase(k, dt, upper)) - Phase(k, dt, upper) * t.cos(Phase(k, dt, upper)))
        / ((k as real * t.pi) * (k as real * t.pi))
  }

  /**
   * The L+1 ideal coefficients of a differentiator with upper passband edge
   * `upper`; gain and lower edge are not used.
   */
  function Ideal(t: Analytic, s: FilterSpec, upper: real, nyquist: real, L: nat, lower: real): (a: seq<real>)
    requires Valid(t)
    ensures |a| == L + 1
    ensures a[0] == 0.0
    ensures forall k: nat :: k <= L ==> a[k] == Coefficient(t, s.timeStep, upper, nyquist, k)
  {
    seq(L + 1, k requires 0 <= k <= L => Coefficient(t, s.timeStep, upper, nyquist, k))
  }

  /** Neither the gain nor the lower edge has any influence on the coefficients. */
  lemma IdealIgnoresGainAndLower(t: Analytic, s1: FilterSpec, s2: FilterSpec, upper: real, nyquist: real, L: nat,
                                 lower1: real, lower2: real)
    requires Valid(t)
    requires s1.timeStep == s2.timeStep
    ensures Ideal(t, s1, upper, nyquist, L, lower1) == Ideal(t, s2, upper, nyquist, L, lower2)
  {
  }
}
