/** The design parameters a non-recursive filter is constructed with. */
module Specs {
  import opened Outcomes

  /**
   * `delta` and `deltaStop` are the pass- and stop-band ripples, `nuStar`
   * the relative transition steepness, `omegaHigh` and `omegaLow` the
   * optional upper and lower cutoffs, `gain` the passband gain and
   * `timeStep` the sampling interval.
   */
  datatype FilterSpec = FilterSpec(
    delta: real,
    deltaStop: real,
    nuStar: real,
    omegaHigh: Option<real>,
    omegaLow: Option<real>,
    gain: real,
    timeStep: real)
}
