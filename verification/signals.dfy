/**
 * The sampled signal: a sum of unit sinusoids given by their angular
 * frequencies, or a list of sample values supplied directly.
 */
module Signals {
  import opened Outcomes
  import opened Numeric

  /**
   * `sinCoeffs` and `cosCoeffs` are the angular frequencies of the sine and
   * cosine components, `samples` the values F, `timeStep` the sampling
   * interval, `nx` the stored point count Nx and `t0` the duration T0.
   */
  datatype Signal = Signal(
    sinCoeffs: seq<real>,
    cosCoeffs: seq<real>,
    samples: seq<real>,
    timeStep: Option<real>,
    nx: Option<int>,
    t0: Option<real>)

  /**
   * The constructor. Coefficient lists take precedence over `values`: when
   * either list is given the samples start empty; otherwise the samples are
   * `values` (or empty). The scalar fields are stored as passed.
   */
  function NewSignal(sinCoeffs: Option<seq<real>>, cosCoeffs: Option<seq<real>>, values: Option<seq<real>>,
                     timeStep: Option<real>, t0: Option<real>, nx: Option<int>): (s: Signal)
    ensures s.sinCoeffs == sinCoeffs.GetOr([]) && s.cosCoeffs == cosCoeffs.GetOr([])
    ensures sinCoeffs.Some? || cosCoeffs.Some? ==> s.samples == []
    ensures sinCoeffs.None? && cosCoeffs.None? ==> s.samples == values.GetOr([])
    ensures s.timeStep == timeStep && s.nx == nx && s.t0 == t0
  {
    if sinCoeffs.Some? || cosCoeffs.Some? then
      Signal(sinCoeffs.GetOr([]), cosCoeffs.GetOr([]), [], timeStep, nx, t0)
    else if values.Some? then
      Signal([], [], values.value, timeStep, nx, t0)
    else
      Signal([], [], [], timeStep, nx, t0)
  }

  /** `sum_{c in cs} f(c * i * dt)`, accumulated in list order. */
  function Superpose(f: real -> real, cs: seq<real>, i: int, dt: real): real
  {
    if |cs| == 0 then 0.0
    else Superpose(f, cs[..|cs| - 1], i, dt) + f(Phase(i, dt, cs[|cs| - 1]))
  }

  /** Sample i: every sine component, then every cosine component, at time `i dt`. */
  function Sample(t: Analytic, s: Signal, dt: real, i: int): real {
    Superpose(t.sin, s.sinCoeffs, i, dt) + Superpose(t.cos, s.cosCoeffs, i, dt)
  }

  /**
   * `generate_points`: store the step, then `Nx = int(T0 / dt)` (which
   * raises on a zero step, leaving only the step stored), then `T0`, and
   * replace the samples by the `Nx + 1` values at times `0, dt, .., Nx dt`.
   */
  function GeneratePoints(t: Analytic, s: Signal, dt: real, T0: real): (r: Outcome<Signal>)
    ensures r.state.timeStep == Some(dt)
    ensures r.state.sinCoeffs == s.sinCoeffs && r.state.cosCoeffs == s.cosCoeffs
    ensures r.raised.None? <==> dt != 0.0
    ensures r.raised.Some? ==> r.raised.value == DivisionByZero
    ensures r.raised.Some? ==> r.state.samples == s.samples && r.state.nx == s.nx && r.state.t0 == s.t0
    ensures r.raised.None? ==> r.state.t0 == Some(T0) && r.state.nx.Some?
    ensures r.raised.None? && T0 / dt >= 0.0 ==>
              r.state.nx.value as real <= T0 / dt < r.state.nx.value as real + 1.0
    ensures r.raised.None? && T0 / dt < 0.0 ==>
              r.state.nx.value as real - 1.0 < T0 / dt <= r.state.nx.value as real
    ensures r.raised.None? ==> |r.state.samples| == if r.state.nx.value < 0 then 0 else r.state.nx.value + 1
    ensures r.raised.None? ==> forall i :: 0 <= i < |r.state.samples| ==> r.state.samples[i] == Sample(t, s, dt, i)
  {
    var stepped := s.(timeStep := Some(dt));
    if dt == 0.0 then Outcome(stepped, Some(DivisionByZero))
    else
      var n := Trunc(T0 / dt);
      var count := if n < 0 then 0 else n + 1;
      Outcome(stepped.(nx := Some(n), t0 := Some(T0), samples := seq(count, i => Sample(t, s, dt, i))), None)
  }

  /** Superposing over a concatenation of coefficient lists adds the two superpositions. */
  lemma {:induction false} SuperposeConcat(f: real -> real, a: seq<real>, b: seq<real>, i: int, dt: real)
    ensures Superpose(f, a + b, i, dt) == Superpose(f, a, i, dt) + Superpose(f, b, i, dt)
    decreases |b|
  {
    if |b| > 0 {
      var b' := b[..|b| - 1];
      assert (a + b)[..|a + b| - 1] == a + b';
      SuperposeConcat(f, a, b', i, dt);
    } else {
      assert a + b == a;
    }
  }

  /** At time 0 every sine is 0 and every cosine is 1. */
  lemma {:induction false} SuperposeAtZero(t: Analytic, cs: seq<real>, dt: real)
    requires Valid(t)
    ensures Superpose(t.sin, cs, 0, dt) == 0.0
    ensures Superpose(t.cos, cs, 0, dt) == |cs| as real
  {
    if |cs| > 0 {
      SuperposeAtZero(t, cs[..|cs| - 1], dt);
      assert Phase(0, dt, cs[|cs| - 1]) == 0.0;
    }
  }

  /** The first generated sample counts the cosine components. */
  lemma FirstSampleCountsCosines(t: Analytic, s: Signal, dt: real, T0: real)
    requires Valid(t) && dt != 0.0 && T0 / dt >= 0.0
    ensures |GeneratePoints(t, s, dt, T0).state.samples| >= 1
    ensures GeneratePoints(t, s, dt, T0).state.samples[0] == |s.cosCoeffs| as real
  {
    SuperposeAtZero(t, s.sinCoeffs, dt);
    SuperposeAtZero(t, s.cosCoeffs, dt);
  }

  /** A signal without components generates silence. */
  lemma NoComponentsGiveSilence(t: Analytic, s: Signal, dt: real, T0: real)
    requires s.sinCoeffs == [] && s.cosCoeffs == [] && dt != 0.0
    ensures forall i :: 0 <= i < |GeneratePoints(t, s, dt, T0).state.samples| ==>
              GeneratePoints(t, s, dt, T0).state.samples[i] == 0.0
  {
  }

  /** Generation depends only on the components: previous samples, count and duration are discarded. */
  lemma GenerationForgetsHistory(t: Analytic, s1: Signal, s2: Signal, dt: real, T0: real)
    requires dt != 0.0
    requires s1.sinCoeffs == s2.sinCoeffs && s1.cosCoeffs == s2.cosCoeffs
    ensures GeneratePoints(t, s1, dt, T0).state == GeneratePoints(t, s2, dt, T0).state
  {
    var g1 := GeneratePoints(t, s1, dt, T0).state;
    var g2 := GeneratePoints(t, s2, dt, T0).state;
    assert forall i :: 0 <= i < |g1.samples| ==> g1.samples[i] == Sample(t, s1, dt, i) == Sample(t, s2, dt, i);
    assert g1.samples == g2.samples;
  }
}
