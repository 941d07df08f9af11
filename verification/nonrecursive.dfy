/**
 * The engine template of a non-recursive (FIR) filter: the design pipeline
 * `calculate_coefficients`, which stores its intermediate results on the
 * object, and the operations that use the designed taps.
 */
module NonRecursive {
  import opened Outcomes
  import opened Numeric
  import opened Specs
  import opened Taps
  import opened Variants
  import opened Kaiser
  import opened Convolution
  import opened Response
  import opened Signals
  import LowPassFilter
  import HighBandFilter
  import BandPassFilter
  import DifferentiatingFilter

  /**
   * A filter object: its variant and design parameters, the taps
   * (`coefficients`), the Kaiser window (`a` in the code) and the
   * intermediate values `d1`, `d2`, `R`, `L`, absent until computed.
   */
  datatype Filter = Filter(
    variant: Variant,
    spec: FilterSpec,
    coefficients: seq<real>,
    window: seq<real>,
    d1: Option<real>,
    d2: Option<real>,
    R: Option<real>,
    L: Option<nat>)

  /** A freshly constructed filter: no taps, no window, nothing computed. */
  function NewFilter(v: Variant, spec: FilterSpec): (f: Filter)
    ensures Consistent(f)
  {
    Filter(v, spec, [], [], None, None, None, None)
  }

  /** Once L is stored, the window and the taps have the lengths L determines. */
  ghost predicate Consistent(f: Filter) {
    f.L.Some? ==> |f.window| == f.L.value + 1 && |f.coefficients| == 2 * f.L.value + 1
  }

  /**
   * `_calculate_passband_frequencies`: each present cutoff moves outward by
   * half the transition bandwidth; an absent cutoff gives an absent edge.
   */
  function PassbandEdges(s: FilterSpec, tb: real): (e: (Option<real>, Option<real>))
    ensures e.0.Some? <==> s.omegaHigh.Some?
    ensures e.1.Some? <==> s.omegaLow.Some?
    ensures e.0.Some? ==> e.0.value - s.omegaHigh.value == tb / 2.0
    ensures e.1.Some? ==> s.omegaLow.value - e.1.value == tb / 2.0
    ensures tb > 0.0 && e.0.Some? ==> e.0.value > s.omegaHigh.value
    ensures tb > 0.0 && e.1.Some? ==> e.1.value < s.omegaLow.value
  {
    var upper := if s.omegaHigh.Some? then Some(s.omegaHigh.value + tb / 2.0) else None;
    var lower := if s.omegaLow.Some? then Some(s.omegaLow.value - tb / 2.0) else None;
    (upper, lower)
  }

  /** `omega_b = pi / dt`, the Nyquist angular frequency. */
  function Nyquist(t: Analytic, dt: real): (nyquist: real)
    requires Valid(t) && dt != 0.0
    ensures nyquist != 0.0
    ensures nyquist * dt == t.pi
  {
    t.pi / dt
  }

  /**
   * The transition bandwidth has a value and `tb * dt` is nonzero (neither
   * factor is zero), so `int()` of the length formula is finite.
   */
  predicate LengthFinite(f: Filter) {
    var tb := TransitionBandwidth(f.variant, f.spec);
    tb.Success? && tb.value != 0.0 && f.spec.timeStep != 0.0
  }

  /**
   * `calculate_coefficients`, with R and L given. A failing transition
   * bandwidth leaves the object untouched; then d1, d2 and R are stored;
   * a zero `tb * dt` makes the length infinite and `int()` raises, so L,
   * the window and the taps keep their old values; otherwise L, the window
   * and the assembled taps are stored.
   */
  function CalculateCoefficients(t: Analytic, f: Filter, R: real, L: nat): (r: Outcome<Filter>)
    requires Valid(t)
    ensures r.state.variant == f.variant && r.state.spec == f.spec
    ensures r.raised.None? <==> LengthFinite(f)
    ensures TransitionBandwidth(f.variant, f.spec).Failure? ==>
              r.state == f && r.raised == Some(TransitionBandwidth(f.variant, f.spec).error)
    ensures TransitionBandwidth(f.variant, f.spec).Success? ==>
              r.state.d1 == Some(D1D2(f.spec.delta).0) && r.state.d2 == Some(D1D2(f.spec.delta).1) &&
              r.state.R == Some(R)
    ensures TransitionBandwidth(f.variant, f.spec).Success? && !LengthFinite(f) ==>
              r.raised == Some(NotFinite) && r.state.L == f.L &&
              r.state.window == f.window && r.state.coefficients == f.coefficients
    ensures r.raised.None? ==>
              && r.state.L == Some(L)
              && r.state.window == Window(t, R, L)
              && |r.state.window| == L + 1 && r.state.window[0] == 1.0
              && |r.state.coefficients| == 2 * L + 1
    ensures Consistent(f) ==> Consistent(r.state)
  {
    match TransitionBandwidth(f.variant, f.spec)
    case Failure(e) => Outcome(f, Some(e))
    case Success(tb) =>
      var edges := PassbandEdges(f.spec, tb);
      var d := D1D2(f.spec.delta);
      var stored := f.(d1 := Some(d.0), d2 := Some(d.1), R := Some(R));
      if tb * f.spec.timeStep == 0.0 then Outcome(stored, Some(NotFinite))
      else
        var window := Window(t, R, L);
        var sized := stored.(L := Some(L), window := window);
        var ideal := IdealCoefficients(f.variant, t, f.spec, edges.0, Nyquist(t, f.spec.timeStep), L, edges.1);
        if ideal.Failure? then Outcome(sized, Some(ideal.error))
        else Outcome(sized.(coefficients := AssembleTaps(f.variant, window, ideal.value, L)), None)
  }

  /** The taps of a successful design: the variant's assembly of the window and the hook's coefficients. */
  lemma StoredTaps(t: Analytic, f: Filter, R: real, L: nat, upper: Option<real>, lower: Option<real>)
    requires Valid(t) && LengthFinite(f)
    requires (upper, lower) == PassbandEdges(f.spec, TransitionBandwidth(f.variant, f.spec).value)
    ensures IdealCoefficients(f.variant, t, f.spec, upper, Nyquist(t, f.spec.timeStep), L, lower).Success?
    ensures CalculateCoefficients(t, f, R, L).state.coefficients
              == AssembleTaps(f.variant, Window(t, R, L),
                              IdealCoefficients(f.variant, t, f.spec, upper, Nyquist(t, f.spec.timeStep), L, lower).value, L)
  {
  }

  /**
   * `w` is the low-pass design over `window`: tap `i` of the left half is
   * half the window multiplier `L - i` times the ideal coefficient `L - i`,
   * and the right half mirrors the left.
   */
  ghost predicate LowPassTapsAre(t: Analytic, s: FilterSpec, window: seq<real>, upper: real, nyquist: real, L: nat, w: seq<real>)
    requires Valid(t) && nyquist != 0.0 && L < |window|
  {
    && |w| == 2 * L + 1
    && (forall i :: 0 <= i <= L ==>
          w[i] == 0.5 * window[L - i] * LowPassFilter.Coefficient(t, s.gain, s.timeStep, upper, nyquist, L - i))
    && IsSymmetric(w, L)
  }

  /**
   * Every tap of a successful low-pass design in closed form, built from
   * the upper passband edge `omega_high + tb/2`, with `omega_b = pi / dt`.
   */
  lemma LowPassTaps(t: Analytic, f: Filter, R: real, L: nat)
    requires Valid(t) && LengthFinite(f) && f.variant == LowPass
    ensures var tb := TransitionBandwidth(f.variant, f.spec).value;
            var edges := PassbandEdges(f.spec, tb);
            && edges.0 == Some(f.spec.omegaHigh.value + tb / 2.0)
            && LowPassTapsAre(t, f.spec, Window(t, R, L), edges.0.GetOr(0.0), Nyquist(t, f.spec.timeStep), L,
                            CalculateCoefficients(t, f, R, L).state.coefficients)
  {
    var edges := PassbandEdges(f.spec, TransitionBandwidth(f.variant, f.spec).value);
    LowPassStored(t, f, R, L);
    LowPassAssembled(t, f.spec, Window(t, R, L), edges.0.GetOr(0.0), Nyquist(t, f.spec.timeStep), edges.1.GetOr(0.0), L,
                 CalculateCoefficients(t, f, R, L).state.coefficients);
  }

  /** The stored taps of a low-pass design, before they are read one by one. */
  lemma LowPassStored(t: Analytic, f: Filter, R: real, L: nat)
    requires Valid(t) && LengthFinite(f) && f.variant == LowPass
    ensures var edges := PassbandEdges(f.spec, TransitionBandwidth(f.variant, f.spec).value);
            CalculateCoefficients(t, f, R, L).state.coefficients
              == Symmetric(Window(t, R, L), LowPassFilter.Ideal(t, f.spec, edges.0.GetOr(0.0), Nyquist(t, f.spec.timeStep), L, edges.1.GetOr(0.0)), L)
  {
    var edges := PassbandEdges(f.spec, TransitionBandwidth(f.variant, f.spec).value);
    var a := LowPassFilter.Ideal(t, f.spec, edges.0.GetOr(0.0), Nyquist(t, f.spec.timeStep), L, edges.1.GetOr(0.0));
    assert IdealCoefficients(LowPass, t, f.spec, edges.0, Nyquist(t, f.spec.timeStep), L, edges.1) == Success(a);
    StoredTaps(t, f, R, L, edges.0, edges.1);
  }

  /** The window times the ideal low-pass response, tap by tap. */
  lemma LowPassAssembled(t: Analytic, s: FilterSpec, window: seq<real>, upper: real, nyquist: real, lower: real,
                          L: nat, w: seq<real>)
    requires Valid(t) && nyquist != 0.0 && L < |window|
    requires w == Symmetric(window, LowPassFilter.Ideal(t, s, upper, nyquist, L, lower), L)
    ensures LowPassTapsAre(t, s, window, upper, nyquist, L, w)
  {
    var a := LowPassFilter.Ideal(t, s, upper, nyquist, L, lower);
    forall i | 0 <= i <= L {
      SymmetricAt(window, a, L, L - i, LowPassFilter.Coefficient(t, s.gain, s.timeStep, upper, nyquist, L - i));
    }
  }

  /**
   * `w` is the high-band design over `window`: tap `i` of the left half is
   * half the window multiplier `L - i` times the ideal coefficient `L - i`,
   * and the right half mirrors the left.
   */
  ghost predicate HighBandTapsAre(t: Analytic, s: FilterSpec, window: seq<real>, lower: real, nyquist: real, L: nat, w: seq<real>)
    requires Valid(t) && nyquist != 0.0 && L < |window|
  {
    && |w| == 2 * L + 1
    && (forall i :: 0 <= i <= L ==>
          w[i] == 0.5 * window[L - i] * HighBandFilter.Coefficient(t, s.gain, s.timeStep, lower, nyquist, L - i))
    && IsSymmetric(w, L)
  }

  /**
   * Every tap of a successful high-band design in closed form, built from
   * the lower passband edge `omega_low - tb/2`, with `omega_b = pi / dt`.
   */
  lemma HighBandTaps(t: Analytic, f: Filter, R: real, L: nat)
    requires Valid(t) && LengthFinite(f) && f.variant == HighBand
    ensures var tb := TransitionBandwidth(f.variant, f.spec).value;
            var edges := PassbandEdges(f.spec, tb);
            && edges.1 == Some(f.spec.omegaLow.value - tb / 2.0)
            && HighBandTapsAre(t, f.spec, Window(t, R, L), edges.1.GetOr(0.0), Nyquist(t, f.spec.timeStep), L,
                            CalculateCoefficients(t, f, R, L).state.coefficients)
  {
    var edges := PassbandEdges(f.spec, TransitionBandwidth(f.variant, f.spec).value);
    HighBandStored(t, f, R, L);
    HighBandAssembled(t, f.spec, Window(t, R, L), edges.0.GetOr(0.0), Nyquist(t, f.spec.timeStep), edges.1.GetOr(0.0), L,
                 CalculateCoefficients(t, f, R, L).state.coefficients);
  }

  /** The stored taps of a high-band design, before they are read one by one. */
  lemma HighBandStored(t: Analytic, f: Filter, R: real, L: nat)
    requires Valid(t) && LengthFinite(f) && f.variant == HighBand
    ensures var edges := PassbandEdges(f.spec, TransitionBandwidth(f.variant, f.spec).value);
            CalculateCoefficients(t, f, R, L).state.coefficients
              == Symmetric(Window(t, R, L), HighBandFilter.Ideal(t, f.spec, edges.0.GetOr(0.0), Nyquist(t, f.spec.timeStep), L, edges.1.GetOr(0.0)), L)
  {
    var edges := PassbandEdges(f.spec, TransitionBandwidth(f.variant, f.spec).value);
    var a := HighBandFilter.Ideal(t, f.spec, edges.0.GetOr(0.0), Nyquist(t, f.spec.timeStep), L, edges.1.GetOr(0.0));
    assert IdealCoefficients(HighBand, t, f.spec, edges.0, Nyquist(t, f.spec.timeStep), L, edges.1) == Success(a);
    StoredTaps(t, f, R, L, edges.0, edges.1);
  }

  /** The window times the ideal high-band response, tap by tap. */
  lemma HighBandAssembled(t: Analytic, s: FilterSpec, window: seq<real>, upper: real, nyquist: real, lower: real,
                          L: nat, w: seq<real>)
    requires Valid(t) && nyquist != 0.0 && L < |window|
    requires w == Symmetric(window, HighBandFilter.Ideal(t, s, upper, nyquist, L, lower), L)
    ensures HighBandTapsAre(t, s, window, lower, nyquist, L, w)
  {
    var a := HighBandFilter.Ideal(t, s, upper, nyquist, L, lower);
    forall i | 0 <= i <= L {
      SymmetricAt(window, a, L, L - i, HighBandFilter.Coefficient(t, s.gain, s.timeStep, lower, nyquist, L - i));
    }
  }

  /**
   * `w` is the band-pass design over `window`: tap `i` of the left half is
   * half the window multiplier `L - i` times the ideal coefficient `L - i`,
   * and the right half mirrors the left.
   */
  ghost predicate BandPassTapsAre(t: Analytic, s: FilterSpec, window: seq<real>, upper: real, nyquist: real, lower: real,
                                  L: nat, w: seq<real>)
    requires Valid(t) && nyquist != 0.0 && L < |window|
  {
    && |w| == 2 * L + 1
    && (forall i :: 0 <= i <= L ==>
          w[i] == 0.5 * window[L - i] * BandPassFilter.Coefficient(t, s.gain, s.timeStep, upper, nyquist, lower, L - i))
    && IsSymmetric(w, L)
  }

  /**
   * Every tap of a successful band-pass design in closed form, built from
   * both passband edges, `omega_high + tb/2` and `omega_low - tb/2`, with
   * `omega_b = pi / dt`.
   */
  lemma BandPassTaps(t: Analytic, f: Filter, R: real, L: nat)
    requires Valid(t) && LengthFinite(f) && f.variant == BandPass
    ensures var tb := TransitionBandwidth(f.variant, f.spec).value;
            var edges := PassbandEdges(f.spec, tb);
            && edges.0 == Some(f.spec.omegaHigh.value + tb / 2.0)
            && edges.1 == Some(f.spec.omegaLow.value - tb / 2.0)
            && BandPassTapsAre(t, f.spec, Window(t, R, L), edges.0.GetOr(0.0), Nyquist(t, f.spec.timeStep), edges.1.GetOr(0.0),
                               L, CalculateCoefficients(t, f, R, L).state.coefficients)
  {
    var tb := TransitionBandwidth(f.variant, f.spec).value;
    BandPassStored(t, f, R, L);
    BandPassAssembled(t, f.spec, Window(t, R, L), PassbandEdges(f.spec, tb).0.GetOr(0.0), Nyquist(t, f.spec.timeStep),
                      PassbandEdges(f.spec, tb).1.GetOr(0.0), L, CalculateCoefficients(t, f, R, L).state.coefficients);
  }

  /** The stored taps of a band-pass design, before they are read one by one. */
  lemma BandPassStored(t: Analytic, f: Filter, R: real, L: nat)
    requires Valid(t) && LengthFinite(f) && f.variant == BandPass
    ensures var edges := PassbandEdges(f.spec, TransitionBandwidth(f.variant, f.spec).value);
            CalculateCoefficients(t, f, R, L).state.coefficients
              == Symmetric(Window(t, R, L), BandPassFilter.Ideal(t, f.spec, edges.0.GetOr(0.0), Nyquist(t, f.spec.timeStep), L, edges.1.GetOr(0.0)), L)
  {
    var edges := PassbandEdges(f.spec, TransitionBandwidth(f.variant, f.spec).value);
    var a := BandPassFilter.Ideal(t, f.spec, edges.0.GetOr(0.0), Nyquist(t, f.spec.timeStep), L, edges.1.GetOr(0.0));
    assert IdealCoefficients(BandPass, t, f.spec, edges.0, Nyquist(t, f.spec.timeStep), L, edges.1) == Success(a);
    StoredTaps(t, f, R, L, edges.0, edges.1);
  }

  /** The window times the ideal band-pass response, tap by tap. */
  lemma BandPassAssembled(t: Analytic, s: FilterSpec, window: seq<real>, upper: real, nyquist: real, lower: real,
                          L: nat, w: seq<real>)
    requires Valid(t) && nyquist != 0.0 && L < |window|
    requires w == Symmetric(window, BandPassFilter.Ideal(t, s, upper, nyquist, L, lower), L)
    ensures BandPassTapsAre(t, s, window, upper, nyquist, lower, L, w)
  {
    var a := BandPassFilter.Ideal(t, s, upper, nyquist, L, lower);
    forall i | 0 <= i <= L {
      SymmetricAt(window, a, L, L - i, BandPassFilter.Coefficient(t, s.gain, s.timeStep, upper, nyquist, lower, L - i));
    }
  }

  /**
   * `w` is the differentiator design over `window`: tap `i` of the left half is
   * half the window multiplier `L - i` times the ideal coefficient `L - i`,
   * the centre is zero and the right half is the left negated.
   */
  ghost predicate DifferentiatorTapsAre(t: Analytic, s: FilterSpec, window: seq<real>, upper: real, nyquist: real, L: nat, w: seq<real>)
    requires Valid(t) && L < |window|
  {
    && |w| == 2 * L + 1
    && (forall i :: 0 <= i <= L ==>
          w[i] == 0.5 * window[L - i] * DifferentiatingFilter.Coefficient(t, s.timeStep, upper, nyquist, L - i))
    && w[L] == 0.0
    && IsAntisymmetric(w, L)
  }

  /**
   * Every tap of a successful differentiator design in closed form, built from
   * the upper passband edge `omega_high + tb/2`, with `omega_b = pi / dt`.
   */
  lemma DifferentiatorTaps(t: Analytic, f: Filter, R: real, L: nat)
    requires Valid(t) && LengthFinite(f) && f.variant == Differentiating
    ensures var tb := TransitionBandwidth(f.variant, f.spec).value;
            var edges := PassbandEdges(f.spec, tb);
            && edges.0 == Some(f.spec.omegaHigh.value + tb / 2.0)
            && DifferentiatorTapsAre(t, f.spec, Window(t, R, L), edges.0.GetOr(0.0), Nyquist(t, f.spec.timeStep), L,
                            CalculateCoefficients(t, f, R, L).state.coefficients)
  {
    var edges := PassbandEdges(f.spec, TransitionBandwidth(f.variant, f.spec).value);
    DifferentiatorStored(t, f, R, L);
    DifferentiatorAssembled(t, f.spec, Window(t, R, L), edges.0.GetOr(0.0), Nyquist(t, f.spec.timeStep), edges.1.GetOr(0.0), L,
                 CalculateCoefficients(t, f, R, L).state.coefficients);
  }

  /** The stored taps of a differentiator design, before they are read one by one. */
  lemma DifferentiatorStored(t: Analytic, f: Filter, R: real, L: nat)
    requires Valid(t) && LengthFinite(f) && f.variant == Differentiating
    ensures var edges := PassbandEdges(f.spec, TransitionBandwidth(f.variant, f.spec).value);
            CalculateCoefficients(t, f, R, L).state.coefficients
              == Antisymmetric(Window(t, R, L), DifferentiatingFilter.Ideal(t, f.spec, edges.0.GetOr(0.0), Nyquist(t, f.spec.timeStep), L, edges.1.GetOr(0.0)), L)
  {
    var edges := PassbandEdges(f.spec, TransitionBandwidth(f.variant, f.spec).value);
    var a := DifferentiatingFilter.Ideal(t, f.spec, edges.0.GetOr(0.0), Nyquist(t, f.spec.timeStep), L, edges.1.GetOr(0.0));
    assert IdealCoefficients(Differentiating, t, f.spec, edges.0, Nyquist(t, f.spec.timeStep), L, edges.1) == Success(a);
    StoredTaps(t, f, R, L, edges.0, edges.1);
  }

  /** The window times the ideal differentiator response, tap by tap. */
  lemma DifferentiatorAssembled(t: Analytic, s: FilterSpec, window: seq<real>, upper: real, nyquist: real, lower: real,
                          L: nat, w: seq<real>)
    requires Valid(t) && L < |window|
    requires w == Antisymmetric(window, DifferentiatingFilter.Ideal(t, s, upper, nyquist, L, lower), L)
    ensures DifferentiatorTapsAre(t, s, window, upper, nyquist, L, w)
  {
    var a := DifferentiatingFilter.Ideal(t, s, upper, nyquist, L, lower);
    forall i | 0 <= i <= L {
      AntisymmetricAt(window, a, L, L - i, DifferentiatingFilter.Coefficient(t, s.timeStep, upper, nyquist, L - i));
    }
  }

  /** Well-ordered cutoffs and a positive step always design successfully. */
  lemma DesignSucceeds(t: Analytic, f: Filter, R: real, L: nat)
    requires Valid(t) && CutoffsWellOrdered(f.variant, f.spec) && f.spec.timeStep > 0.0
    ensures CalculateCoefficients(t, f, R, L).raised.None?
  {
    TransitionBandwidthPositive(f.variant, f.spec);
    PositiveProduct(TransitionBandwidth(f.variant, f.spec).value, f.spec.timeStep);
  }

  /** Designing twice with the same R and L gives the same object as designing once. */
  lemma DesignIsIdempotent(t: Analytic, f: Filter, R: real, L: nat)
    requires Valid(t)
    ensures var once := CalculateCoefficients(t, f, R, L);
            CalculateCoefficients(t, once.state, R, L) == once
  {
  }

  /** The low-pass, high-band and band-pass designs are symmetric about tap L. */
  lemma DesignedTapsAreSymmetric(t: Analytic, f: Filter, R: real, L: nat)
    requires Valid(t) && LengthFinite(f) && f.variant != Differentiating
    ensures IsSymmetric(CalculateCoefficients(t, f, R, L).state.coefficients, L)
  {
  }

  /** The differentiator's design is antisymmetric with a zero centre, so its taps sum to zero. */
  lemma DifferentiatorTapsCancel(t: Analytic, f: Filter, R: real, L: nat)
    requires Valid(t) && LengthFinite(f) && f.variant == Differentiating
    ensures var w := CalculateCoefficients(t, f, R, L).state.coefficients;
            IsAntisymmetric(w, L) && w[L] == 0.0 && TapSum(w) == 0.0
  {
    var w := CalculateCoefficients(t, f, R, L).state.coefficients;
    AntisymmetricSumIsZero(w, L);
  }

  /** The low-pass centre tap is `gain * Omega_p / omega_b`. */
  lemma LowPassCentreTap(t: Analytic, f: Filter, R: real, L: nat)
    requires Valid(t) && LengthFinite(f) && f.variant == LowPass
    ensures CalculateCoefficients(t, f, R, L).state.coefficients[L]
              == f.spec.gain * (f.spec.omegaHigh.value + TransitionBandwidth(f.variant, f.spec).value / 2.0) / Nyquist(t, f.spec.timeStep)
  {
    var edges := PassbandEdges(f.spec, TransitionBandwidth(f.variant, f.spec).value);
    LowPassStored(t, f, R, L);
    LowPassCentreOf(t, f.spec, Window(t, R, L), edges.0.GetOr(0.0), Nyquist(t, f.spec.timeStep), edges.1.GetOr(0.0), L,
                    CalculateCoefficients(t, f, R, L).state.coefficients);
  }

  /** The centre tap above for any low-pass taps over a window whose centre multiplier is one. */
  lemma LowPassCentreOf(t: Analytic, s: FilterSpec, window: seq<real>, upper: real, nyquist: real, lower: real,
                        L: nat, w: seq<real>)
    requires Valid(t) && nyquist != 0.0 && L < |window| && window[0] == 1.0
    requires w == Symmetric(window, LowPassFilter.Ideal(t, s, upper, nyquist, L, lower), L)
    ensures w[L] == s.gain * upper / nyquist
  {
    var a := LowPassFilter.Ideal(t, s, upper, nyquist, L, lower);
    assert w[L - 0] == Weighted(window, a, 0);
    HalveDouble(s.gain * upper, nyquist, a[0]);
  }

  /** Half of the window-weighted ideal centre coefficient `2 x / d` is `x / d`. */
  lemma HalveDouble(x: real, d: real, a0: real)
    requires d != 0.0 && a0 == 2.0 * x / d
    ensures 0.5 * 1.0 * a0 == x / d
  {
    ScaleQuotient(2.0, x, d);
  }

  /**
   * `apply_filter` of the variant: the low-pass override hands the signal
   * back; otherwise the taps are read at index L (no L: TypeError; too few
   * taps: IndexError), the signal must carry Nx (else TypeError) and at
   * least Nx samples (else IndexError), and the result is a new signal of
   * the first Nx outputs of the folded convolution, with the input's step
   * and duration.
   */
  function ApplyFilter(f: Filter, s: Signal): (r: Result<Signal>)
    ensures f.variant == LowPass ==> r == Success(s)
    ensures r.Success? <==>
              f.variant == LowPass ||
              (f.L.Some? && f.L.value < |f.coefficients| && s.nx.Some? && s.nx.value <= |s.samples|)
    ensures r.Failure? ==>
              r.error == (if f.L.None? then NotReady
                          else if |f.coefficients| <= f.L.value then IndexOutOfRange
                          else if s.nx.None? then MissingLength
                          else IndexOutOfRange)
    ensures r.Success? && f.variant != LowPass ==>
              && |r.value.samples| == (if s.nx.value < 0 then 0 else s.nx.value)
              && r.value.nx == Some(|r.value.samples|)
              && r.value.timeStep == s.timeStep && r.value.t0 == s.t0
              && r.value.sinCoeffs == [] && r.value.cosCoeffs == []
              && forall k :: 0 <= k < |r.value.samples| ==>
                   r.value.samples[k] == FoldAt(f.coefficients, f.L.value, s.samples, k)
  {
    if f.variant == LowPass then Success(s)
    else if f.L.None? then Failure(NotReady)
    else if |f.coefficients| <= f.L.value then Failure(IndexOutOfRange)
    else if s.nx.None? then Failure(MissingLength)
    else if s.nx.value > |s.samples| then Failure(IndexOutOfRange)
    else
      var y := Fold(f.coefficients, f.L.value, s.samples, s.nx.value);
      Success(NewSignal(None, None, Some(y), s.timeStep, s.t0, Some(|y|)))
  }

  /**
   * The filtering step run on the method that mirrors the loops of
   * `apply_filter`; it agrees with the functional model.
   */
  method RunFilter(f: Filter, s: Signal) returns (r: Result<Signal>)
    ensures r == ApplyFilter(f, s)
  {
    if f.variant == LowPass {
      return Success(s);
    }
    if f.L.None? {
      return Failure(NotReady);
    }
    if |f.coefficients| <= f.L.value {
      return Failure(IndexOutOfRange);
    }
    if s.nx.None? {
      return Failure(MissingLength);
    }
    if s.nx.value > |s.samples| {
      return Failure(IndexOutOfRange);
    }
    var y := Convolve(f.coefficients, f.L.value, s.samples, s.nx.value);
    return Success(NewSignal(None, None, Some(y), s.timeStep, s.t0, Some(|y|)));
  }

  /**
   * A generated signal stores Nx but holds Nx + 1 samples, so filtering it
   * with a designed filter returns one sample fewer: the last sample is
   * never filtered.
   */
  lemma FilteringDropsLastSample(t: Analytic, f: Filter, s: Signal, dt: real, T0: real)
    requires f.variant != LowPass && f.L.Some? && f.L.value < |f.coefficients|
    requires dt != 0.0 && T0 / dt >= 0.0
    ensures var g := GeneratePoints(t, s, dt, T0).state;
            ApplyFilter(f, g).Success? && |ApplyFilter(f, g).value.samples| == |g.samples| - 1
  {
  }

  /**
   * `apply_filter` with every tap, `y[k] = sum_j w[j] x[k - j]`: the
   * convolution the folded form stands for, correct for antisymmetric taps
   * as well.
   */
  function ApplyFilterCorrected(f: Filter, s: Signal): (r: Result<Signal>)
    ensures (r.Success? && f.variant != LowPass) <==> (ApplyFilter(f, s).Success? && f.variant != LowPass)
    ensures r.Success? && f.variant != LowPass ==>
              forall k :: 0 <= k < |r.value.samples| ==> r.value.samples[k] == FullAt(f.coefficients, f.L.value, s.samples, k)
  {
    var folded := ApplyFilter(f, s);
    if f.variant == LowPass || folded.Failure? then folded
    else
      var y := Full(f.coefficients, f.L.value, s.samples, s.nx.value);
      Success(NewSignal(None, None, Some(y), s.timeStep, s.t0, Some(|y|)))
  }

  /** For symmetric designs the folded and the corrected filtering agree. */
  lemma FoldedFilteringIsExactForSymmetricTaps(t: Analytic, f: Filter, R: real, L: nat, s: Signal)
    requires Valid(t) && LengthFinite(f) && f.variant != Differentiating
    ensures var g := CalculateCoefficients(t, f, R, L).state;
            ApplyFilter(g, s) == ApplyFilterCorrected(g, s)
  {
    var g := CalculateCoefficients(t, f, R, L).state;
    if g.variant != LowPass && ApplyFilter(g, s).Success? {
      FoldOfSymmetricIsFull(g.coefficients, L, s.samples, s.nx.value);
    }
  }

  /**
   * A designed differentiator filters a unit impulse into the taps
   * mirrored left to right: right of the centre it outputs `-w[k]`, the
   * negation of its own impulse response, while the corrected filtering
   * reproduces `w[k]`.
   */
  lemma DifferentiatorImpulseIsSymmetrised(t: Analytic, f: Filter, R: real, L: nat, n: nat)
    requires Valid(t) && LengthFinite(f) && f.variant == Differentiating && n >= 1
    ensures var g := CalculateCoefficients(t, f, R, L).state;
            var x := NewSignal(None, None, Some(Impulse(n)), None, None, Some(n));
            && ApplyFilter(g, x).Success? && ApplyFilterCorrected(g, x).Success?
            && forall k :: 0 <= k < n && L < k <= 2 * L ==>
                 && ApplyFilter(g, x).value.samples[k] == -g.coefficients[k]
                 && ApplyFilterCorrected(g, x).value.samples[k] == g.coefficients[k]
  {
    var g := CalculateCoefficients(t, f, R, L).state;
    FoldedImpulseNegatesRightHalf(g.coefficients, L, n);
    FullImpulseIsTaps(g.coefficients, L, n);
  }

  /**
   * The magnitude `frequency_response` computes at one frequency: the
   * low-pass override returns the gain; otherwise L must be set and tap L
   * must exist.
   */
  function FrequencyResponseAt(t: Analytic, f: Filter, omega: real): (r: Result<real>)
    ensures f.variant == LowPass ==> r == Success(f.spec.gain)
    ensures r.Success? <==> f.variant == LowPass || (f.L.Some? && f.L.value < |f.coefficients|)
    ensures r.Failure? ==> r.error == (if f.L.None? then NotReady else IndexOutOfRange)
    ensures r.Success? && f.variant != LowPass ==>
              r.value >= 0.0 && r.value == MagnitudeAsWritten(t, f.coefficients, f.L.value, f.spec.timeStep, omega)
  {
    if f.variant == LowPass then Success(f.spec.gain)
    else if f.L.None? then Failure(NotReady)
    else if |f.coefficients| <= f.L.value then Failure(IndexOutOfRange)
    else Success(MagnitudeAsWritten(t, f.coefficients, f.L.value, f.spec.timeStep, omega))
  }

  /**
   * The magnitude with every tap pair in the cosine series. For the
   * symmetric taps of the low-pass, high-band and band-pass designs this is
   * the transfer-function magnitude; the differentiator's antisymmetric taps
   * have a sine-series response instead, which neither form computes.
   */
  function FrequencyResponseCorrectedAt(t: Analytic, f: Filter, omega: real): (r: Result<real>)
    ensures r.Success? <==> FrequencyResponseAt(t, f, omega).Success?
    ensures r.Success? && f.variant != LowPass ==>
              r.value >= 0.0 && r.value == Magnitude(t, f.coefficients, f.L.value, f.spec.timeStep, omega)
  {
    if f.variant == LowPass then Success(f.spec.gain)
    else if f.L.None? || |f.coefficients| <= f.L.value then FrequencyResponseAt(t, f, omega)
    else Success(Magnitude(t, f.coefficients, f.L.value, f.spec.timeStep, omega))
  }

  /**
   * For symmetric taps the corrected magnitude is the magnitude of the
   * transfer function; the as-written one differs from it by the missing
   * outer pair.
   */
  lemma SymmetricMagnitudeIsTransferMagnitude(t: Analytic, f: Filter, omega: real)
    requires Valid(t) && f.variant != LowPass && f.L.Some? && IsSymmetric(f.coefficients, f.L.value)
    ensures FrequencyResponseCorrectedAt(t, f, omega)
              == Success(Abs(ZeroPhaseAmplitude(t, f.coefficients, f.L.value, f.spec.timeStep, omega)))
    ensures f.L.value >= 1 ==>
              Amplitude(t, f.coefficients, f.L.value, f.spec.timeStep, omega)
              == AmplitudeAsWritten(t, f.coefficients, f.L.value, f.spec.timeStep, omega)
                 + 2.0 * f.coefficients[0] * t.cos(Phase(f.L.value, f.spec.timeStep, omega))
  {
    var w, L, dt := f.coefficients, f.L.value, f.spec.timeStep;
    AmplitudeIsZeroPhase(t, w, L, dt, omega);
    if L >= 1 {
      AmplitudeAddsOuterPair(t, w, L, dt, omega);
    }
  }

  /** A designed high-band or band-pass filter meets the symmetric-magnitude lemma. */
  lemma DesignedMagnitudeIsTransferMagnitude(t: Analytic, f: Filter, R: real, L: nat, omega: real)
    requires Valid(t) && LengthFinite(f) && f.variant != Differentiating && f.variant != LowPass
    ensures var g := CalculateCoefficients(t, f, R, L).state;
            FrequencyResponseCorrectedAt(t, g, omega)
              == Success(Abs(ZeroPhaseAmplitude(t, g.coefficients, L, f.spec.timeStep, omega)))
  {
    DesignedTapsAreSymmetric(t, f, R, L);
    SymmetricMagnitudeIsTransferMagnitude(t, CalculateCoefficients(t, f, R, L).state, omega);
  }

  /** `circuit_phase_response` at one frequency: `pi/2 - L dt omega`, once L is set. */
  function PhaseResponseAt(t: Analytic, f: Filter, omega: real): (r: Result<real>)
    ensures r.Success? <==> f.L.Some?
    ensures r.Failure? ==> r.error == NotReady
    ensures r.Success? ==> r.value + f.L.value as real * f.spec.timeStep * omega == t.pi / 2.0
  {
    if f.L.None? then Failure(NotReady) else Success(PhaseAt(t, f.L.value, f.spec.timeStep, omega))
  }
}
