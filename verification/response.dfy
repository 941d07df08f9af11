/**
 * The amplitude and phase responses of a linear-phase filter with 2L+1
 * taps, evaluated at one angular frequency.
 */
module Response {
  import opened Numeric
  import opened Series
  import opened Taps

  /** Summand k of the cosine series: the tap pair at distance k from the centre. */
  function CosineTerms(t: Analytic, w: seq<real>, L: nat, dt: real, omega: real): int -> real {
    k => 2.0 * Padded(w, L - k) * t.cos(Phase(k, dt, omega))
  }

  /**
   * The signed amplitude as `frequency_response` accumulates it: the centre
   * tap plus the cosine terms for k = 1 .. L-1 only.
   */
  function AmplitudeAsWritten(t: Analytic, w: seq<real>, L: nat, dt: real, omega: real): real
    requires L < |w|
  {
    w[L] + Sum(CosineTerms(t, w, L, dt, omega), 1, L)
  }

  /** The value `frequency_response` stores for one frequency. */
  function MagnitudeAsWritten(t: Analytic, w: seq<real>, L: nat, dt: real, omega: real): (m: real)
    requires L < |w|
    ensures m >= 0.0
    ensures m == AmplitudeAsWritten(t, w, L, dt, omega) || m == -AmplitudeAsWritten(t, w, L, dt, omega)
  {
    Abs(AmplitudeAsWritten(t, w, L, dt, omega))
  }

  /** The signed amplitude with every tap pair, k = 1 .. L. */
  function Amplitude(t: Analytic, w: seq<real>, L: nat, dt: real, omega: real): real
    requires L < |w|
  {
    w[L] + Sum(CosineTerms(t, w, L, dt, omega), 1, L + 1)
  }

  /** The magnitude response over all 2L+1 taps. */
  function Magnitude(t: Analytic, w: seq<real>, L: nat, dt: real, omega: real): (m: real)
    requires L < |w|
    ensures m >= 0.0
    ensures m == Amplitude(t, w, L, dt, omega) || m == -Amplitude(t, w, L, dt, omega)
  {
    Abs(Amplitude(t, w, L, dt, omega))
  }

  /** The distance of tap j from the centre tap L. */
  function Dist(j: int, L: int): (d: nat)
    ensures d == j - L || d == L - j
  {
    if j >= L then j - L else L - j
  }

  /** Summand j of the zero-phase transfer function: tap j weighted by the cosine of its delay. */
  function ZeroPhaseTerms(t: Analytic, w: seq<real>, L: nat, dt: real, omega: real): int -> real {
    j => Padded(w, j) * t.cos(Phase(Dist(j, L), dt, omega))
  }

  /**
   * The real part of the transfer function `sum_j w[j] exp(-i (j - L) omega dt)`
   * over all 2L+1 taps, i.e. the transfer function with the delay of L
   * samples removed: the reference the cosine series is meant to evaluate.
   */
  function ZeroPhaseAmplitude(t: Analytic, w: seq<real>, L: nat, dt: real, omega: real): real {
    Sum(ZeroPhaseTerms(t, w, L, dt, omega), 0, 2 * L + 1)
  }

  /** `circuit_phase_response` at one frequency: `pi/2 - L dt omega`. */
  function PhaseAt(t: Analytic, L: nat, dt: real, omega: real): real {
    t.pi / 2.0 - Phase(L, dt, omega)
  }

  /** The cosine series with every pair is the as-written one plus the outer pair `2 w[0] cos(L dt omega)`. */
  lemma {:induction false} AmplitudeAddsOuterPair(t: Analytic, w: seq<real>, L: nat, dt: real, omega: real)
    requires 1 <= L < |w|
    ensures Amplitude(t, w, L, dt, omega)
         == AmplitudeAsWritten(t, w, L, dt, omega) + 2.0 * w[0] * t.cos(Phase(L, dt, omega))
  {
    var f := CosineTerms(t, w, L, dt, omega);
    assert f(L) == 2.0 * w[0] * t.cos(Phase(L, dt, omega));
  }

  /** The as-written amplitude reads only taps 1 .. L: tap 0, its mirror 2L and the rest of the right half never matter. */
  lemma {:induction false} AsWrittenIgnoresOuterTaps(t: Analytic, w1: seq<real>, w2: seq<real>, L: nat, dt: real, omega: real)
    requires L < |w1| && L < |w2|
    requires w1[L] == w2[L]
    requires forall j :: 1 <= j < L ==> w1[j] == w2[j]
    ensures AmplitudeAsWritten(t, w1, L, dt, omega) == AmplitudeAsWritten(t, w2, L, dt, omega)
    ensures MagnitudeAsWritten(t, w1, L, dt, omega) == MagnitudeAsWritten(t, w2, L, dt, omega)
  {
    var f1 := CosineTerms(t, w1, L, dt, omega);
    var f2 := CosineTerms(t, w2, L, dt, omega);
    forall k | 1 <= k < L
      ensures f1(k) == f2(k)
    {
      assert Padded(w1, L - k) == Padded(w2, L - k);
    }
    SumCongruent(f1, f2, 1, L);
  }

  /** The left half of the zero-phase sum, taps 0 .. L-1, is the cosine series' share from the left. */
  lemma {:induction false} LeftHalf(t: Analytic, w: seq<real>, L: nat, dt: real, omega: real)
    ensures Sum(ZeroPhaseTerms(t, w, L, dt, omega), 0, L)
         == Sum((k: int) => Padded(w, L - k) * t.cos(Phase(k, dt, omega)), 1, L + 1)
  {
    var z := ZeroPhaseTerms(t, w, L, dt, omega);
    var g := (k: int) => Padded(w, L - k) * t.cos(Phase(k, dt, omega));
    forall i | 0 <= i < L
      ensures z(i) == g(L - i)
    {
      assert Dist(i, L) == L - i;
    }
    SumReflect(g, z, 0, L, L);
  }

  /** The right half of the zero-phase sum, taps L+1 .. 2L, read through the symmetry. */
  lemma {:induction false} RightHalf(t: Analytic, w: seq<real>, L: nat, dt: real, omega: real)
    requires IsSymmetric(w, L)
    ensures Sum(ZeroPhaseTerms(t, w, L, dt, omega), L + 1, 2 * L + 1)
         == Sum((k: int) => Padded(w, L - k) * t.cos(Phase(k, dt, omega)), 1, L + 1)
  {
    var z := ZeroPhaseTerms(t, w, L, dt, omega);
    var g := (k: int) => Padded(w, L - k) * t.cos(Phase(k, dt, omega));
    forall k | 1 <= k < L + 1
      ensures g(k) == z(k + L)
    {
      RightTerm(t, w, L, dt, omega, k);
    }
    SumShift(z, g, 1, L + 1, L);
  }

  /** One summand of the right half: tap L+k has the value and the delay of tap L-k. */
  lemma RightTerm(t: Analytic, w: seq<real>, L: nat, dt: real, omega: real, k: int)
    requires IsSymmetric(w, L) && 1 <= k <= L
    ensures ZeroPhaseTerms(t, w, L, dt, omega)(k + L) == Padded(w, L - k) * t.cos(Phase(k, dt, omega))
  {
    assert Dist(k + L, L) == k;
    assert Padded(w, k + L) == w[k + L] == w[2 * L - (L + k)] == Padded(w, L - k);
  }

  /**
   * For symmetric taps the cosine series over all pairs is the zero-phase
   * transfer function, so `Magnitude` is the true magnitude response.
   */
  lemma {:induction false} AmplitudeIsZeroPhase(t: Analytic, w: seq<real>, L: nat, dt: real, omega: real)
    requires Valid(t) && IsSymmetric(w, L)
    ensures Amplitude(t, w, L, dt, omega) == ZeroPhaseAmplitude(t, w, L, dt, omega)
    ensures Magnitude(t, w, L, dt, omega) == Abs(ZeroPhaseAmplitude(t, w, L, dt, omega))
  {
    var z := ZeroPhaseTerms(t, w, L, dt, omega);
    var g := (k: int) => Padded(w, L - k) * t.cos(Phase(k, dt, omega));
    var c := CosineTerms(t, w, L, dt, omega);
    SumSplit(z, 0, L, 2 * L + 1);
    SumFront(z, L, 2 * L + 1);
    assert Dist(L, L) == 0 && Phase(0, dt, omega) == 0.0;
    assert z(L) == w[L];
    LeftHalf(t, w, L, dt, omega);
    RightHalf(t, w, L, dt, omega);
    forall k | 1 <= k < L + 1
      ensures c(k) == g(k) + g(k)
    {
    }
    SumAdd(g, g, c, 1, L + 1);
  }

  /**
   * Three taps `[1, 0, 1]` at omega = 0: the as-written magnitude is 0,
   * while the filter passes a constant signal with gain 2.
   */
  lemma OuterPairCounterexample(t: Analytic, dt: real)
    requires Valid(t)
    ensures MagnitudeAsWritten(t, [1.0, 0.0, 1.0], 1, dt, 0.0) == 0.0
    ensures Magnitude(t, [1.0, 0.0, 1.0], 1, dt, 0.0) == 2.0
    ensures ZeroPhaseAmplitude(t, [1.0, 0.0, 1.0], 1, dt, 0.0) == 2.0
  {
    var w := [1.0, 0.0, 1.0];
    AmplitudeAddsOuterPair(t, w, 1, dt, 0.0);
    assert Phase(1, dt, 0.0) == 0.0;
    AmplitudeIsZeroPhase(t, w, 1, dt, 0.0);
  }

  /** The phase response falls linearly in omega with slope `-L dt`, from pi/2 at omega = 0. */
  lemma PhaseIsLinear(t: Analytic, L: nat, dt: real, omega1: real, omega2: real)
    ensures PhaseAt(t, L, dt, 0.0) == t.pi / 2.0
    ensures PhaseAt(t, L, dt, omega1) - PhaseAt(t, L, dt, omega2) == (L as real * dt) * (omega2 - omega1)
  {
  }
}
