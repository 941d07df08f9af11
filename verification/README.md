# Windowed-sinc FIR filters in Dafny

This project models the exact, index-level core of a small Python library.
The library designs non-recursive (FIR) filters by the window method: a
Kaiser window multiplies an ideal sinc-type impulse response.

The model covers:

- the engine template `NonRecursiveFilter.calculate_coefficients`. It picks
  the `(d1, d2)` pair from the ripple threshold, shifts the cutoffs outward
  by half the transition bandwidth, builds an `L+1`-point Kaiser window with
  head `1.0`, sets `omega_b = pi / dt`, calls the variant hooks and stores
  `2L+1` taps;
- the four variants (low-pass, high-band, band-pass, differentiating). Each
  has its transition bandwidth, its ideal coefficients and its symmetric or
  antisymmetric tap assembly;
- `apply_filter`, the folded convolution
  `y[k] = w[L] x[k-L] + sum_{i<L} w[i] (x[k-i] + x[k-(2L-i)])` with zero
  padding on the left;
- the per-frequency magnitude sum of `frequency_response` and the phase of
  `circuit_phase_response`;
- the `Signal` value object: constructor precedence and `generate_points`;
- the older copy of the engine template under `Filters/`.

Sine, cosine, square root, `I0` and `pi` are not computed. They are fields of
`Numeric.Analytic`, passed to every operation that needs them. The model
relies only on `pi > 0`, `sin 0 = 0`, `cos 0 = 1` and `I0 >= 1`; the Kaiser
bounds additionally use monotonicity of `I0` and `0 <= sqrt u <= 1` on
`[0, 1]`.

Python exceptions become `Outcomes.FilterError` values. A function that
mutates the object returns an `Outcomes.Outcome`: the object as the
exception left it, and the exception. `R` and `L` are inputs of
`calculate_coefficients`.

Modules: `Outcomes`, `Numeric`, `Series` (finite sums), `Specs`, `Taps`,
`LowPassFilter`, `HighBandFilter`, `BandPassFilter`, `DifferentiatingFilter`,
`Variants` (dispatch over the four variants), `Kaiser`, `Convolution`,
`Response`, `Signals`, `NonRecursive` (the engine) and `Legacy`.

## Model

| member | source | states |
|---|---|---|
| Kaiser.D1D2 | src/models/filters/non_recursive/base.py:41-44 | `(d1, d2)` is `(0.34, 1.61)` exactly when `delta > 0.01`, and `(4.41, 0.375)` exactly when `delta <= 0.01`; the older copy (Filters/models/filters/non_recursive/base.py lines 68-71) uses the same thresholds |
| Kaiser.ThresholdIsStrict | src/models/filters/non_recursive/base.py:42 | `delta = 0.01` takes the second branch |
| Kaiser.Window | src/models/filters/non_recursive/base.py:91-93 | the window has `L+1` entries, entry 0 is `1.0`, and entry i is `I0(R sqrt(1 - (i/L)^2)) / I0(R)` |
| Kaiser.WindowInUnitInterval | src/models/filters/non_recursive/base.py:93 | for `R >= 0` every window entry lies in `(0, 1]` |
| NonRecursive.NewFilter | src/models/filters/non_recursive/base.py:10-25 | a new filter has no taps, no window and no `d1`, `d2`, `R`, `L`, and satisfies the length invariant |
| NonRecursive.PassbandEdges | src/models/filters/non_recursive/base.py:27-39 | a present cutoff moves outward by exactly `tb/2` (upper up, lower down); an absent cutoff gives an absent edge; with `tb > 0` the edges lie strictly outside the cutoffs; the older copy (Filters/models/filters/non_recursive/base.py lines 54-66) applies the same rule |
| NonRecursive.Nyquist | src/models/filters/non_recursive/base.py:78 | `omega_b` is non-zero and `omega_b * dt = pi` |
| NonRecursive.CalculateCoefficients | src/models/filters/non_recursive/base.py:52-83 | it raises exactly when the transition bandwidth fails or `tb * dt = 0`; a failing bandwidth leaves the object unchanged; otherwise `d1`, `d2`, `R` are stored; on success `L`, the window (`L+1` entries, head `1.0`) and `2L+1` taps are stored; the length invariant is preserved |
| NonRecursive.LowPassTaps | src/models/filters/non_recursive/LowPassFilter.py:11-22 | a successful low-pass design with window `win` has `2L+1` taps; for `0 <= i <= L`, `w[i] = 0.5 win[L-i] c(L-i)` and `w[2L-i] = w[i]`, where `c(k)` is the low-pass coefficient (`2 gain Omega_p / omega_b` at 0, `2 gain sin(k dt Omega_p) / (k pi)` after) with `Omega_p = omega_high + tb/2` and `omega_b = pi / dt` (base.py lines 78-83) |
| NonRecursive.HighBandTaps | src/models/filters/non_recursive/HighBandFilter.py:11-22 | a successful high-band design has `2L+1` taps, `w[i] = 0.5 win[L-i] c(L-i)` for `0 <= i <= L` and `w[2L-i] = w[i]`, where `c(k)` is the high-band coefficient at the lower edge `omega_p = omega_low - tb/2` and `omega_b = pi / dt` (base.py lines 78-83) |
| NonRecursive.BandPassTaps | src/models/filters/non_recursive/BandPassFilter.py:11-22 | a successful band-pass design has `2L+1` taps, `w[i] = 0.5 win[L-i] c(L-i)` for `0 <= i <= L` and `w[2L-i] = w[i]`, where `c(k)` is the band-pass coefficient at both edges, `Omega_p = omega_high + tb/2` and `omega_p = omega_low - tb/2`, and `omega_b = pi / dt` (base.py lines 78-83) |
| NonRecursive.DifferentiatorTaps | src/models/filters/non_recursive/DifferentiatingFilter.py:11-22 | a successful differentiator design has `2L+1` taps, `w[i] = 0.5 win[L-i] c(L-i)` for `0 <= i <= L`, a zero centre, and a negated right half `w[2L-i] = -w[i]`, where `c(k)` is the differentiator coefficient at `Omega_p = omega_high + tb/2` and `omega_b = pi / dt` (base.py lines 78-83) |
| NonRecursive.DesignSucceeds | src/models/filters/non_recursive/base.py:56-83 | well-ordered cutoffs with `nu* > 1` and a positive step always design without an exception |
| NonRecursive.DesignIsIdempotent | src/models/filters/non_recursive/base.py:52-83 | designing a second time with the same `R` and `L` changes nothing, whichever path the first call took |
| NonRecursive.DesignedTapsAreSymmetric | src/models/filters/non_recursive/base.py:83 | low-pass, high-band and band-pass designs have taps symmetric about index L |
| NonRecursive.DifferentiatorTapsCancel | src/models/filters/non_recursive/DifferentiatingFilter.py:12-22 | the differentiator's taps are antisymmetric with `w[L] = 0`, so they sum to zero |
| NonRecursive.LowPassCentreTap | src/models/filters/non_recursive/LowPassFilter.py:12-20 | the low-pass centre tap equals `gain * Omega_p / omega_b` |
| NonRecursive.ApplyFilter | src/models/filters/non_recursive/base.py:164-207 | errors in the code's order (no `L`, too few taps, no `Nx`, `Nx` beyond the samples); on success exactly `max(Nx, 0)` samples with the input's step and `T0`, each the folded sum; the low-pass subclass overrides it (LowPassFilter.py lines 28-30) to return its input signal unchanged |
| NonRecursive.RunFilter | src/models/filters/non_recursive/base.py:164-207 | the loop-based filtering returns the same result as the functional model |
| NonRecursive.FilteringDropsLastSample | src/models/filters/non_recursive/base.py:176 | a generated signal holds `Nx+1` samples, but filtering it returns one fewer: the last sample is never filtered |
| NonRecursive.ApplyFilterCorrected | src/models/filters/non_recursive/base.py:165-198 | succeeds exactly when `apply_filter` does, and each output is the convolution over all `2L+1` taps |
| NonRecursive.FoldedFilteringIsExactForSymmetricTaps | src/models/filters/non_recursive/base.py:165-198 | for low-pass, high-band and band-pass designs the folded filtering equals the full convolution |
| NonRecursive.DifferentiatorImpulseIsSymmetrised | src/models/filters/non_recursive/base.py:176-198 | a designed differentiator filters an impulse into `-w[k]` right of the centre, where the full convolution gives `w[k]` |
| NonRecursive.FrequencyResponseAt | src/models/filters/non_recursive/base.py:122-133 | it fails without `L` (TypeError) or without tap L (IndexError); otherwise it gives the non-negative as-written magnitude; the low-pass subclass overrides it (LowPassFilter.py lines 24-26) to return the gain whatever the frequency |
| NonRecursive.FrequencyResponseCorrectedAt | src/models/filters/non_recursive/base.py:128-133 | it succeeds exactly when the as-written response does, and gives the magnitude of the cosine series over every tap pair |
| NonRecursive.SymmetricMagnitudeIsTransferMagnitude | src/models/filters/non_recursive/base.py:128-133 | for symmetric taps the corrected magnitude is the magnitude of the zero-phase transfer function; the as-written amplitude lacks exactly the term `2 w[0] cos(L dt omega)` |
| NonRecursive.DesignedMagnitudeIsTransferMagnitude | src/models/filters/non_recursive/base.py:128-133 | the corrected magnitude of a designed high-band or band-pass filter is its transfer-function magnitude |
| NonRecursive.PhaseResponseAt | src/models/filters/non_recursive/base.py:147-152 | it fails without `L`; otherwise the phase plus `L dt omega` is `pi/2` |
| Response.MagnitudeAsWritten | src/models/filters/non_recursive/base.py:126-133 | the magnitude is non-negative, and it is the as-written amplitude up to sign |
| Response.AsWrittenIgnoresOuterTaps | src/models/filters/non_recursive/base.py:128-133 | the magnitude does not depend on `w[0]` or on any of `w[L+1..2L]` |
| Response.AmplitudeAddsOuterPair | src/models/filters/non_recursive/base.py:128 | the full cosine series is the as-written sum plus the missing outer pair |
| Response.AmplitudeIsZeroPhase | src/models/filters/non_recursive/base.py:128-133 | for symmetric taps the full cosine series equals `sum_j w[j] cos(|j-L| dt omega)` over all taps |
| Response.OuterPairCounterexample | src/models/filters/non_recursive/base.py:128 | taps `[1, 0, 1]` at `omega = 0` give as-written magnitude 0, while the transfer function is 2 |
| Response.PhaseIsLinear | src/models/filters/non_recursive/base.py:152 | the phase is `pi/2` at `omega = 0` and falls linearly with slope `-L dt` |
| Convolution.Convolve | src/models/filters/non_recursive/base.py:174-198 | the two nested loops, guarded for negative indices, compute the first `n` folded outputs |
| Convolution.PairedSum | src/models/filters/non_recursive/base.py:177-190 | the inner loop accumulates, for one output index, the L tap pairs each multiplying the two mirrored past samples, zero before the signal starts |
| Convolution.FoldIsMirroredFull | src/models/filters/non_recursive/base.py:176-198 | each folded output is the full convolution with the taps' left half mirrored onto the right |
| Convolution.FoldOfSymmetricIsFull | src/models/filters/non_recursive/base.py:165-198 | for symmetric taps the folded form equals `sum_{j=0}^{2L} w[j] x[k-j]` |
| Convolution.ImpulseResponse | src/models/filters/non_recursive/base.py:176-198 | an impulse gives `w[k]` for `k <= L`, `w[2L-k]` for `L < k <= 2L`, and 0 beyond |
| Convolution.FoldedImpulseNegatesRightHalf | src/models/filters/non_recursive/base.py:176-198 | for antisymmetric taps the impulse response right of the centre is `-w[k]` |
| Convolution.FullImpulseIsTaps | src/models/filters/non_recursive/base.py:167 | the full convolution of an impulse reproduces every tap, then zeros |
| Convolution.FoldIsCausal | src/models/filters/non_recursive/base.py:179-195 | output k depends only on samples `0..k` |
| Convolution.FoldIsLinear | src/models/filters/non_recursive/base.py:190-197 | filtering `a x1 + b x2` gives `a y1 + b y2` |
| Convolution.FoldOfZeroIsZero | src/models/filters/non_recursive/base.py:176-198 | a silent input gives a silent output of the requested length |
| Taps.Symmetric | src/models/filters/non_recursive/LowPassFilter.py:19-22 | `2L+1` taps with `w[L-k] = w[L+k] = 0.5 win[k] a[k]`, symmetric about L |
| Taps.Antisymmetric | src/models/filters/non_recursive/DifferentiatingFilter.py:19-22 | `2L+1` taps with `w[L-k] = 0.5 win[k] a[k]` and `w[L+k] = -0.5 win[k] a[k]`, antisymmetric about L |
| Taps.AntisymmetricSumIsZero | src/models/filters/non_recursive/DifferentiatingFilter.py:20-21 | antisymmetric taps with a zero centre sum to zero |
| Taps.ZeroIdealGivesZeroTaps | src/models/filters/non_recursive/BandPassFilter.py:20-21 | zero ideal coefficients give all-zero taps |
| LowPassFilter.TransitionBandwidth | src/models/filters/non_recursive/LowPassFilter.py:7-9 | `(nu* - 1) omega_high`, an error without an upper cutoff, positive when `nu* > 1` and `omega_high > 0`; the differentiating variant (DifferentiatingFilter.py lines 7-9) repeats the rule and shares this definition |
| LowPassFilter.Ideal | src/models/filters/non_recursive/LowPassFilter.py:11-17 | `L+1` coefficients, `a[0] = 2 gain Omega_p / omega_b`, and for k >= 1 the sinc term `2 gain sin(k dt Omega_p) / (k pi)` |
| LowPassFilter.IdealScalesWithGain | src/models/filters/non_recursive/LowPassFilter.py:12-16 | the coefficients are the unit-gain coefficients scaled by the gain |
| LowPassFilter.ZeroEdgeGivesZeroIdeal | src/models/filters/non_recursive/LowPassFilter.py:12-16 | a zero passband edge makes every coefficient zero |
| HighBandFilter.TransitionBandwidth | src/models/filters/non_recursive/HighBandFilter.py:7-9 | `(1 - 1/nu*) omega_low`; `nu* = 0` raises ZeroDivisionError before the cutoff is read; positive when `nu* > 1` and `omega_low > 0` |
| HighBandFilter.Ideal | src/models/filters/non_recursive/HighBandFilter.py:11-18 | `L+1` coefficients with `a[0] = 2 gain (1 - omega_p / omega_b)` and the negated sinc term for k >= 1 |
| HighBandFilter.IdealIsComplementOfLowPass | src/models/filters/non_recursive/HighBandFilter.py:11-18 | the coefficients are `2 gain` at index 0 minus the low-pass coefficients at edge `omega_p` |
| HighBandFilter.IdealIgnoresUpper | src/models/filters/non_recursive/HighBandFilter.py:11-18 | the upper edge argument does not affect the coefficients |
| BandPassFilter.TransitionBandwidth | src/models/filters/non_recursive/BandPassFilter.py:7-9 | `(nu* - 1)(omega_high - omega_low)`, needs both cutoffs, positive when `nu* > 1` and `omega_high > omega_low` |
| BandPassFilter.Ideal | src/models/filters/non_recursive/BandPassFilter.py:11-17 | `L+1` coefficients with `a[0] = 2 gain (Omega_p - omega_p) / omega_b` and the difference of two sinc terms for k >= 1 |
| BandPassFilter.IdealIsLowPassDifference | src/models/filters/non_recursive/BandPassFilter.py:11-17 | the coefficients are the low-pass ones at `Omega_p` minus the low-pass ones at `omega_p`, element by element |
| BandPassFilter.EqualEdgesGiveZeroIdeal | src/models/filters/non_recursive/BandPassFilter.py:12-16 | equal edges make every coefficient zero |
| Variants.BandPassEqualEdgesGiveZeroTaps | src/models/filters/non_recursive/BandPassFilter.py:11-22 | equal edges make every band-pass tap zero |
| DifferentiatingFilter.Ideal | src/models/filters/non_recursive/DifferentiatingFilter.py:11-17 | `L+1` coefficients, `a[0] = 0`, and `2 omega_b (sin u - u cos u) / (k pi)^2` with `u = k dt Omega_p` for k >= 1 |
| DifferentiatingFilter.IdealIgnoresGainAndLower | src/models/filters/non_recursive/DifferentiatingFilter.py:11-17 | the coefficients depend on neither the gain nor the lower edge |
| Variants.TransitionBandwidth | src/models/filters/non_recursive/base.py:56 | it succeeds exactly when the variant's cutoffs are present (and `nu* != 0` for high-band), and names the exception otherwise |
| Variants.TransitionBandwidthPositive | src/models/filters/non_recursive/base.py:56 | well-ordered cutoffs with `nu* > 1` give a positive bandwidth for every variant |
| Variants.IdealCoefficients | src/models/filters/non_recursive/base.py:80 | the hook succeeds exactly when the edges the variant reads are present; it returns `L+1` coefficients, and `a[0] = 0` for the differentiator |
| Variants.AssembleTaps | src/models/filters/non_recursive/base.py:83 | `2L+1` taps from `0.5 win[k] a[k]`, symmetric except for the differentiator, which is antisymmetric with a zero centre when `a[0] = 0` |
| Signals.NewSignal | src/models/signal.py:6-31 | coefficient lists win over `values` and leave the samples empty; a missing list becomes `[]`; `values` is used only without lists; step, `Nx` and `T0` are stored as passed |
| Signals.GeneratePoints | src/models/signal.py:33-53 | the step is always stored; a zero step raises with nothing else changed; otherwise `Nx` is `T0/dt` truncated toward zero, `T0` is stored and there are exactly `max(Nx+1, 0)` fresh samples |
| Signals.SuperposeConcat | src/models/signal.py:47-51 | the superposition over two concatenated coefficient lists is the sum of the two superpositions |
| Signals.SuperposeAtZero | src/models/signal.py:43-51 | at time 0 the sines contribute 0 and each cosine contributes 1 |
| Signals.FirstSampleCountsCosines | src/models/signal.py:43-53 | the first generated sample equals the number of cosine components |
| Signals.NoComponentsGiveSilence | src/models/signal.py:43-53 | without components every generated sample is 0 |
| Signals.GenerationForgetsHistory | src/models/signal.py:37-41 | the result depends only on the components: old samples, `Nx` and `T0` are discarded |
| Legacy.LegacyCalculateCoefficients | Filters/models/filters/non_recursive/base.py:20-46 | taps are assigned only at the last step; paired with the current variant hooks, it raises exactly when the bandwidth fails, `tb * dt = 0`, or the variant's hook reads the lower edge, which the older engine never passes |
| Legacy.AgreesWithCurrentEngine | Filters/models/filters/non_recursive/base.py:20-46 | paired with the current variant hooks, for low-pass and differentiator it raises and stores the same as the current engine |
| Legacy.FailsWhereCurrentSucceeds | Filters/models/filters/non_recursive/base.py:43 | paired with the current high-band and band-pass hooks, which read the lower edge, the older engine raises and keeps its taps wherever the current engine designs successfully |

## Left out

- Plotting and console output: `impulse_response`, the matplotlib parts of `frequency_response` and `circuit_phase_response`, `plot_signal`, `print_passband_info`, and every `print`. They have no checkable result.
- The closed forms for `R` (`log10`, `** 0.5`) and for `L` (`sqrt`, `int()`). `R` and `L` are inputs of `CalculateCoefficients`. The only part of `_calculate_L` kept is that a zero `tb * dt` makes `int()` raise.
- The numeric values of `sin`, `cos`, `sqrt`, `I0` and `pi`, and all floating-point rounding. Arithmetic is over exact reals.
- The `np.linspace` frequency grid. Responses are modelled at one frequency; the code's sweep evaluates the same expression at every grid point.
- A negative `L`: `L` is a natural number.
- The abstract interfaces in `src/models/filters/filter.py` and `Filters/models/filters/filter.py`, and the demo script `main.py`.
- The broken imports (`from base import ...` in the low-pass file and `from scipy import i0` in the older engine). The model assumes both resolve.
- The signal getters: `get_values`, `get_time_step` and `get_Nx` return the `samples`, `timeStep` and `nx` fields of `Signals.Signal`, which are read directly.
- NonRecursive.CalculateCoefficients: when `tb * dt = 0`, numpy produces an infinite length and `int()` raises OverflowError. The model reports this as `NotFinite` and does not tell OverflowError from the ZeroDivisionError a plain-float `R` would cause.
- Signals.GeneratePoints: a zero step is reported as `DivisionByZero`. A numpy `T0` would instead give an infinite quotient and an OverflowError from `int()`.
- Legacy.FailsWhereCurrentSucceeds: the older engine is paired with the current variant hooks and their signatures. No class in the source subclasses the older engine, and the older tree's own variant classes are not part of this model. So this and the other `Legacy` rows describe that pairing, not a combination the repository builds.
- The differentiator's frequency response. Its taps are antisymmetric, so its transfer magnitude is the sine series `|sum_{k=1}^{L} 2 w[L-k] sin(k dt omega)|`. Both the code's cosine sum and the corrected cosine series miss it: for taps `[1, 0, -1]` at `omega = 0` the corrected series gives 2, while the taps sum to 0. The model does not define the sine series.
- An empty frequency grid: when `np.linspace` yields no points, `frequency_response` and `circuit_phase_response` raise nothing even with `L` unset, since the loop body never runs. At one frequency the model reports `NotReady`.
- A NaN `R`: when the ripple makes `delta <= 0` or the radicand of `R` negative, `R` is NaN and `int()` raises ValueError. With `R` as an input, the model never produces this error.
- NonRecursive.FrequencyResponseAt: the low-pass override takes one argument, so calling it with the base method's three arguments raises TypeError. The model gives its returned value, the gain.

## Findings

| source | as written | input that shows it | evidently intended | confidence | as-written member | corrected member |
|---|---|---|---|---|---|---|
| src/models/filters/non_recursive/base.py:128 | the cosine series runs over `range(1, self.L)`, so the outermost tap pair `w[0]`, `w[2L]` never enters the magnitude | taps `[1, 0, 1]` (L = 1) at `omega = 0`: magnitude 0, where the filter passes a constant with gain 2 | k runs from 1 to L, so for the symmetric taps of the low-pass, high-band and band-pass designs the magnitude is that of the transfer function | high; not executed | Response.OuterPairCounterexample | Response.AmplitudeIsZeroPhase |
| src/models/filters/non_recursive/base.py:176-198 | the folded sum applies tap `w[i]` to both `x[k-i]` and `x[k-(2L-i)]`, which assumes symmetric taps; the differentiator's taps are antisymmetric | a designed differentiator with L >= 1 fed a unit impulse: outputs `L+1 .. 2L` are `-w[k]` instead of `w[k]` | the convolution `sum_j w[j] x[k-j]` over all `2L+1` taps, which reproduces the taps for an impulse | medium; not executed | Convolution.FoldedImpulseNegatesRightHalf | Convolution.FullImpulseIsTaps |
