/**
 * The older copy of the engine template. It keeps no intermediate values
 * on the object, assigns the taps only at the last step, and calls the
 * ideal-coefficient hook without the lower passband edge. The hooks it
 * calls are the current variants' (`Variants`), with their signatures: the
 * older tree's own variant classes are not part of this model.
 */
module Legacy {
  import opened Outcomes
  import opened Numeric
  import opened Specs
  import opened Variants
  import opened Kaiser
  import NonRecursive

  /** A filter object of the older engine: variant, design parameters and taps only. */
  datatype LegacyFilter = LegacyFilter(variant: Variant, spec: FilterSpec, coefficients: seq<real>)

  /**
   * `calculate_coefficients` of the older engine, with R and L given. The
   * hook sees the upper edge only, so a variant that reads the lower edge
   * raises, and the taps are then left as they were.
   */
  function LegacyCalculateCoefficients(t: Analytic, f: LegacyFilter, R: real, L: nat): (r: Outcome<LegacyFilter>)
    requires Valid(t)
    ensures r.state.variant == f.variant && r.state.spec == f.spec
    ensures r.raised.Some? ==> r.state == f
    ensures r.raised.None? <==>
              NonRecursive.LengthFinite(NonRecursive.NewFilter(f.variant, f.spec)) &&
              (f.variant == LowPass || f.variant == Differentiating)
    ensures TransitionBandwidth(f.variant, f.spec).Failure? ==>
              r.raised == Some(TransitionBandwidth(f.variant, f.spec).error)
    ensures (NonRecursive.LengthFinite(NonRecursive.NewFilter(f.variant, f.spec)) &&
             (f.variant == HighBand || f.variant == BandPass)) ==> r.raised == Some(MissingEdge)
    ensures r.raised.None? ==> |r.state.coefficients| == 2 * L + 1
  {
    match TransitionBandwidth(f.variant, f.spec)
    case Failure(e) => Outcome(f, Some(e))
    case Success(tb) =>
      var edges := NonRecursive.PassbandEdges(f.spec, tb);
      if tb * f.spec.timeStep == 0.0 then Outcome(f, Some(NotFinite))
      else
        var window := Window(t, R, L);
        var ideal := IdealCoefficients(f.variant, t, f.spec, edges.0, NonRecursive.Nyquist(t, f.spec.timeStep), L, None);
        if ideal.Failure? then Outcome(f, Some(ideal.error))
        else Outcome(f.(coefficients := AssembleTaps(f.variant, window, ideal.value, L)), None)
  }

  /**
   * For the low-pass filter and the differentiator the older engine stores
   * the same taps and raises the same exceptions as the current one.
   */
  lemma AgreesWithCurrentEngine(t: Analytic, f: LegacyFilter, R: real, L: nat)
    requires Valid(t) && (f.variant == LowPass || f.variant == Differentiating)
    ensures var older := LegacyCalculateCoefficients(t, f, R, L);
            var current := NonRecursive.CalculateCoefficients(t, NonRecursive.NewFilter(f.variant, f.spec), R, L);
            older.raised == current.raised &&
            (older.raised.None? ==> older.state.coefficients == current.state.coefficients)
  {
  }

  /** Wherever the current engine designs a high-band or band-pass filter, the older one raises. */
  lemma FailsWhereCurrentSucceeds(t: Analytic, f: LegacyFilter, R: real, L: nat)
    requires Valid(t) && (f.variant == HighBand || f.variant == BandPass)
    requires NonRecursive.CalculateCoefficients(t, NonRecursive.NewFilter(f.variant, f.spec), R, L).raised.None?
    ensures LegacyCalculateCoefficients(t, f, R, L).raised == Some(MissingEdge)
    ensures LegacyCalculateCoefficients(t, f, R, L).state == f
  {
  }
}
