# GPU clock-selection core, modelled in Dafny

This project models the decision logic of a GPU DVFS (dynamic voltage and
frequency scaling) toolkit and proves properties of it. Two clock controllers
share a small vocabulary of decisions and a legality gate:

- **The EVeREST pipeline.**
  - **Phase identification** keeps a trailing buffer of metric windows
    trimmed to `window_seconds`. It averages GPU and memory utilisation
    over the buffer, weighted by window duration. It classifies each
    window as idle-like or active, and declares a new phase when the
    averages move past a relative-change threshold.
  - **Phase characterization** turns two memory-pressure samples at two
    clocks into a frequency sensitivity in `[0, 1]`. It caches one record
    per phase id, and the last write wins.
  - **Frequency scaling** turns that sensitivity and a
    performance-degradation budget into a clock. It uses Equation 4,
    clamps the result into the allowed range, and quantizes it upward
    onto the platform's clock grid.
- **The static oracle.**
  - It picks one fixed clock from an offline frequency sweep: the lowest
    frequency whose relative performance meets `1 - pd`, else the
    best-performing point.
  - It applies that clock on the first window and holds it afterwards.
  - It counts the windows whose measured performance falls short.
- **The shared types.**
  - `DecisionAction`, `PlatformSpec`, `MetricWindow`, `Decision` and the
    per-algorithm state bag.
  - `validate_decision`, the gate every decision must pass before it
    reaches the hardware.

Files, one Dafny module each:

| file | module | models |
|---|---|---|
| `results.dfy` | `Results` | `Option`, `Result` and `Outcome`, which stand for raised exceptions and `None` |
| `numerics.dfy` | `Numerics` | `_clamp`, `_clamp_int`, `math.ceil`, and the order facts about real arithmetic the proofs need |
| `experiment_types.dfy` | `ExperimentTypes` | `src/common/experiment/types.py` |
| `validation.dfy` | `Validation` | `src/common/experiment/validation.py` |
| `everest_types.dfy` | `EverestTypes` | `everest_reimpl/types.py`, plus a decimal printer and parser used to prove `to_phase_id` injective |
| `frequency_scaler.dfy` | `FrequencyScaling` | `frequency_scaler.py` |
| `phase_characterizer.dfy` | `PhaseCharacterization` | `phase_characterizer.py` |
| `phase_identifier.dfy` | `PhaseIdentification` | `phase_identifier.py` |
| `static_oracle.dfy` | `StaticOracle` | `oracle_static/policy.py` |

Modelling conventions:

- **Numbers.**
  - Python floats are `real`, so there is no rounding anywhere in the model.
  - Python's float `//` is `.Floor` of the exact quotient.
  - `math.ceil` is `Numerics.Ceil`.
  - Clocks, buckets and counters are unbounded `int`.
- **Errors.** A raised `ValueError` becomes an `Err`/`Fail` value.
- **Mutable objects.** These are immutable records, and each operation
  returns the updated record:
  - `PhaseIdentifier`;
  - the characterizer's cache;
  - the oracle's state bag, which becomes the typed record `OracleState`.
- **The identifier's baseline.** Its four `None`-able baseline fields are
  always set together, so they are one `Option<ActivePhase>`.
- **Window custom metrics.** The only entry the oracle reads from a
  window's `custom_metrics` is the performance ratio. It is the field
  `performanceRatio: RatioReading`.
- **Profiles.** They are given as already-typed sweep points.

Facts about the code that the proofs establish:

- **Direction of the sensitivity effect.** Equation 4's clock grows with
  the sensitivity, and a sensitivity at or below `1e-8` takes
  `min_allowed`. Insensitive phases therefore run at the bottom of the
  allowed range, and the most sensitive ones run closest to `freq_high`.
  `FrequencyScaling.RawFrequencyMonotoneInSensitivity` and
  `FrequencyScaling.InsensitivePhaseUsesMinAllowed` prove this.
- **What Equation 4 computes.** Suppose the fraction `fs` of the run time
  at `freq_high` scales with the clock period and the rest does not. Then
  Equation 4's clock is the one clock whose predicted performance is
  exactly `1 - pd` of that at `freq_high`
  (`FrequencyScaling.EquationFourMeetsDegradationBudget`,
  `FrequencyScaling.EquationFourIsTheOnlyClockMeetingBudget`).
- **The re-quantization step** in `frequency_scaler.py:50-56` never
  changes the result (`FrequencyScaling.RequantizationIsNoOp`).
  - The first quantization can land below `min_allowed` only when no grid
    point lies in `[clamped, max_allowed]`. Its result is then the highest
    grid point at most `max_allowed`.
  - Quantizing again from `min_allowed` falls back to that same point.
  - So the target lies below `min_allowed` exactly when no grid point lies
    in `[min_allowed, max_allowed]` (`FrequencyScaling.TargetIsQuantizedClamp`).
  - It never exceeds `max_allowed` when the platform minimum does not.
    When `freq_high` lies below the platform minimum, `max_allowed` does
    too, and the target is the platform minimum, above `max_allowed`.
  - When the platform's `min <= max`, the target stays within the
    platform's `[min, max]`.
- **Negative quantizer steps.** The quantizer's step count `k` can be
  negative when the value lies below the platform minimum. The code does
  not forbid it. The grid is therefore stated over all integers `k`, and
  the lower bound `min <= result` is proved only for values at or above
  `min`. The scaler hands the quantizer a value below `min` only when
  `max_allowed < min`, i.e. with inverted bounds, and then the quantizer
  returns `min` (`FrequencyScaling.HighFrequencyBelowPlatformMinExample`).
- **No duration precondition.** Observing a window needs no
  `duration_s >= 0`: no contract depends on it. With exact reals, the
  running duration total equals the sum of the buffered durations
  (`PhaseIdentification.TrimHistory`).

## Model

| member | source | states |
|---|---|---|
| Numerics.Clamp | src/methods/reimplemented_methods/everest_reimpl/frequency_scaling/frequency_scaler.py:90-91 | the result lies in `[lower, upper]` when that range is non-empty; values inside are kept, values below give `lower`, values above give `upper`; when `upper < lower` every value gives `lower` |
| Numerics.ClampInt | src/methods/reimplemented_methods/oracle_static/policy.py:234-235 | the same clamp on integers, `lower` included for inverted bounds |
| Numerics.Ceil | src/methods/reimplemented_methods/everest_reimpl/frequency_scaling/frequency_scaler.py:80 | `math.ceil`: an integer in `[x, x + 1)` |
| Numerics.CeilIsLeast | src/methods/reimplemented_methods/everest_reimpl/frequency_scaling/frequency_scaler.py:80 | no integer at or above `x` is smaller than `Ceil(x)` |
| ExperimentTypes.AlgorithmState.Get | src/common/experiment/types.py:106-107 | the stored value when the key is present, the default otherwise |
| ExperimentTypes.AlgorithmState.Set | src/common/experiment/types.py:109-110 | afterwards the key set gains `key`, `key` maps to the value, and every other key keeps its value |
| ExperimentTypes.GetAfterSet | src/common/experiment/types.py:106-110 | a read after a write returns the written value for that key and the old value for any other key |
| ExperimentTypes.ExperimentContext.PerformanceTargetRatio | src/common/experiment/types.py:59-62 | `1 - pd_target`: it and the target sum to 1, and it lies in `[0,1]` when the target does |
| ExperimentTypes.Decision.RequiresClockChange | src/common/experiment/types.py:122-124 | true exactly for SET_CLOCK and RESET_TO_MAX; no contract of its own: `Validation.ClockChangeMatchesTarget` relates it to the target |
| Validation.ValidateClockRange | src/common/experiment/validation.py:48-52 | passes exactly for clocks in `[min, max]`; the error names the clock and the range |
| Validation.ValidateDecision | src/common/experiment/validation.py:10-45 | SET_CLOCK passes iff a target is present and in range, and a missing target is that specific error; RESET_TO_MAX passes iff there is no target or the target is the maximum; HOLD_CLOCK and NO_OP pass iff there is no target |
| Validation.VerdictIgnoresReasonAndDescription | src/common/experiment/validation.py:10-45 | the verdict depends only on the action, the target and the platform's min/max, never on the reason code or the descriptive platform fields |
| Validation.AcceptedTargetIsLegal | src/common/experiment/validation.py:19-43 | an accepted decision that carries a clock carries one in the platform's range, and asks for a clock change |
| Validation.ClockChangeMatchesTarget | src/common/experiment/validation.py:19-43 | an accepted decision that requires no clock change carries no target; an accepted SET_CLOCK always carries one |
| EverestTypes.PhaseSignature.ToPhaseId | src/methods/reimplemented_methods/everest_reimpl/types.py:14-16 | idle signatures yield ids starting `idle-g`, active ones ids starting `active-g` |
| EverestTypes.ParseIntToString | src/methods/reimplemented_methods/everest_reimpl/types.py:16 | reading back the decimal rendering of any integer, negative ones included, gives the integer |
| EverestTypes.BucketsRoundTrip | src/methods/reimplemented_methods/everest_reimpl/types.py:16 | the `<gpu>-m<mem>` tail of an id reads back as the two buckets |
| EverestTypes.PhaseIdRoundTrip | src/methods/reimplemented_methods/everest_reimpl/types.py:14-16 | every phase id parses back to the signature it was rendered from |
| EverestTypes.PhaseIdInjective | src/methods/reimplemented_methods/everest_reimpl/types.py:14-16 | two signatures have the same id iff they are equal, so idle and active phases with the same buckets never share an id |
| EverestTypes.PhaseIdModePrefix | src/methods/reimplemented_methods/everest_reimpl/types.py:15 | the id starts with `idle` iff the signature is idle-like, and with `active` iff it is not |
| FrequencyScaling.GridUpIsLeast | src/methods/reimplemented_methods/everest_reimpl/frequency_scaling/frequency_scaler.py:80-81 | `min + ceil((v - min)/step) * step` is the least grid point not below `v` |
| FrequencyScaling.GridDownIsGreatest | src/methods/reimplemented_methods/everest_reimpl/frequency_scaling/frequency_scaler.py:85-86 | `min + floor((max - min)/step) * step` is the greatest grid point not above `max`, and is at least `min` |
| FrequencyScaling.QuantizeUpWithinBounds | src/methods/reimplemented_methods/everest_reimpl/frequency_scaling/frequency_scaler.py:69-87 | fails iff the step is not positive; returns `min` for inverted bounds; otherwise the result is a grid point at most `max`, is the least grid point at or above the value when it rounds up, and is the greatest grid point at most `max` when no grid point lies between the value and `max` |
| FrequencyScaling.GreatestGridPointUnique | src/methods/reimplemented_methods/everest_reimpl/frequency_scaling/frequency_scaler.py:85-87 | the fallback grid point is unique |
| FrequencyScaling.MaxAllowedMhz | src/methods/reimplemented_methods/everest_reimpl/frequency_scaling/frequency_scaler.py:28 | `min(platform max, freq_high)`: at most each of the two, and equal to one of them |
| FrequencyScaling.MinAllowedMhz | src/methods/reimplemented_methods/everest_reimpl/frequency_scaling/frequency_scaler.py:29-32 | with `lower = max(platform min, ceil(ratio * platform max))`: the result is `lower` when `lower <= max_allowed`, and `max_allowed` otherwise, so it never exceeds `max_allowed` |
| FrequencyScaling.RawFrequencyMhz | src/methods/reimplemented_methods/everest_reimpl/frequency_scaling/frequency_scaler.py:34-40 | Equation 4 with its two special cases; no contract of its own: its meaning is stated by `EquationFourMeetsDegradationBudget` and its shape by the monotonicity lemmas below |
| FrequencyScaling.QuantizedTargetMhz | src/methods/reimplemented_methods/everest_reimpl/frequency_scaling/frequency_scaler.py:42-56 | the quantized clock with its re-quantization; when the platform minimum is at most `max_allowed` it is a grid point not above `max_allowed` |
| FrequencyScaling.ComputeTargetFrequency | src/methods/reimplemented_methods/everest_reimpl/frequency_scaling/frequency_scaler.py:12-66 | fails iff `freq_high <= 0` or the step is not positive; otherwise `fs_used = clamp(fs, 0, 1)`, `pd_used = clamp(pd, 0, 0.99)`, `max_allowed = min(platform max, freq_high)`, `min_allowed` is `MinAllowedMhz` and at most `max_allowed`, raw is Equation 4 on the used values, and clamped is raw clamped into `[min_allowed, max_allowed]`; the target lies in the platform range when `min <= max`, is at most `max_allowed` whenever the platform minimum is, and is the platform minimum whenever `max_allowed` lies below it |
| FrequencyScaling.RequantizationIsNoOp | src/methods/reimplemented_methods/everest_reimpl/frequency_scaling/frequency_scaler.py:43-56 | the second quantization from `min_allowed` always returns what the first returned |
| FrequencyScaling.TargetIsQuantizedClamp | src/methods/reimplemented_methods/everest_reimpl/frequency_scaling/frequency_scaler.py:42-56 | when the platform minimum is at most `min(platform max, freq_high)`: the target is a grid point at most `max_allowed`; it is the least grid point at or above the clamped value when it is not below it; it is the greatest grid point under `max_allowed` when no grid point lies in `[clamped, max_allowed]`; and it is below `min_allowed` iff no grid point lies in `[min_allowed, max_allowed]` |
| FrequencyScaling.InsensitivePhaseUsesMinAllowed | src/methods/reimplemented_methods/everest_reimpl/frequency_scaling/frequency_scaler.py:34-56 | a sensitivity at or below `1e-8` gives raw = clamped = `min_allowed`, and the target is `min_allowed` quantized up |
| FrequencyScaling.ZeroDegradationKeepsHighFrequency | src/methods/reimplemented_methods/everest_reimpl/frequency_scaling/frequency_scaler.py:36-56 | with no degradation tolerated, raw is `freq_high`, clamped is `min(platform max, freq_high)`, and the target is that value quantized up |
| FrequencyScaling.DegradationLowersRawFrequency | src/methods/reimplemented_methods/everest_reimpl/frequency_scaling/frequency_scaler.py:38-40 | with a positive degradation budget and a sensitive phase, Equation 4 gives a clock strictly between 0 and `freq_high` |
| FrequencyScaling.RawFrequencyAntitoneInDegradation | src/methods/reimplemented_methods/everest_reimpl/frequency_scaling/frequency_scaler.py:38-40 | tolerating more degradation never raises Equation 4's clock |
| FrequencyScaling.RawFrequencyMonotoneInSensitivity | src/methods/reimplemented_methods/everest_reimpl/frequency_scaling/frequency_scaler.py:38-40 | a more sensitive phase never gets a lower Equation 4 clock |
| FrequencyScaling.EquationFourMeetsDegradationBudget | src/methods/reimplemented_methods/everest_reimpl/frequency_scaling/frequency_scaler.py:38-40 | when the fraction `fs` of the run time scales with the clock period, the predicted run time at Equation 4's clock is `1 / (1 - pd)` times that at `freq_high`, so exactly the budget `pd` of performance is given up |
| FrequencyScaling.EquationFourIsTheOnlyClockMeetingBudget | src/methods/reimplemented_methods/everest_reimpl/frequency_scaling/frequency_scaler.py:38-40 | any positive clock that gives up exactly the budget `pd` under that model is Equation 4's clock |
| FrequencyScaling.ScalerTargetPassesValidation | src/common/experiment/validation.py:24-29 | a SET_CLOCK decision carrying the scaler's target passes the legality gate on any platform with `min <= max` |
| FrequencyScaling.EquationFourExample | tests/everest/test_frequency_scaler.py:21-29 | `freq_high` 1410, fs 0.5, pd 0.1 on the 210/1410/15 platform: raw 12690/11, target 1155 |
| FrequencyScaling.ZeroSensitivityExample | tests/everest/test_frequency_scaler.py:31-39 | fs 0 gives `min_allowed` 776 and target 780 |
| FrequencyScaling.ZeroDegradationExample | tests/everest/test_frequency_scaler.py:41-48 | pd 0 at `freq_high` 1200 gives 1200 |
| FrequencyScaling.HighFrequencyBelowPlatformMinExample | src/methods/reimplemented_methods/everest_reimpl/frequency_scaling/frequency_scaler.py:42-56 | `freq_high` 100 on the 210–1410 platform: `max_allowed` is 100, the clamped value lies below the grid, and the target is the platform minimum 210 |
| FrequencyScaling.LowHighFrequencyExample | tests/everest/test_frequency_scaler.py:60-69 | floor ratio 0.95 with `freq_high` 300 gives `max_allowed` 300 and target 300 |
| PhaseCharacterization.ValidateInputs | src/methods/reimplemented_methods/everest_reimpl/phase_characterization/phase_characterizer.py:58-65 | passes iff both memory samples are positive, the low clock is positive and the high clock exceeds it |
| PhaseCharacterization.EstimateFrequencySensitivity | src/methods/reimplemented_methods/everest_reimpl/phase_characterization/phase_characterizer.py:12-25 | succeeds exactly on valid inputs; the result lies in `[0,1]` and is the raw ratio-of-ratios clamped to it |
| PhaseCharacterization.FreqRatioAboveOne | src/methods/reimplemented_methods/everest_reimpl/phase_characterization/phase_characterizer.py:23-24 | on valid inputs the frequency ratio exceeds 1, so the division is defined |
| PhaseCharacterization.GetPhaseCharacterization | src/methods/reimplemented_methods/everest_reimpl/phase_characterization/phase_characterizer.py:52-53 | no record iff the id is not cached; in a well-formed cache the record found is the one for that id, with a sensitivity in `[0,1]` |
| PhaseCharacterization.HasPhaseCharacterization | src/methods/reimplemented_methods/everest_reimpl/phase_characterization/phase_characterizer.py:55-56 | true iff `get` returns a record for the id |
| PhaseCharacterization.SensitivityExtremes | src/methods/reimplemented_methods/everest_reimpl/phase_characterization/phase_characterizer.py:22-25 | the estimate is 0 exactly when memory pressure does not grow with the clock, and 1 exactly when it grows at least as fast as the clock |
| PhaseCharacterization.SensitivityMonotoneInMemHigh | src/methods/reimplemented_methods/everest_reimpl/phase_characterization/phase_characterizer.py:22-25 | for fixed clocks and low sample, the estimate never decreases as the high-clock memory pressure grows |
| PhaseCharacterization.SensitivityExamples | tests/everest/test_phase_characterizer.py:9-45 | 1.25/1.0 at 1500/1000 gives 0.5; 0.5/1.0 clamps to 0; 4.0/1.0 at 2000/1000 clamps to 1; a zero memory sample or equal clocks fail |
| PhaseCharacterization.HasIffGet | src/methods/reimplemented_methods/everest_reimpl/phase_characterization/phase_characterizer.py:52-56 | `has` holds iff `get` returns a record |
| PhaseCharacterization.UpsertPhaseCharacterization | src/methods/reimplemented_methods/everest_reimpl/phase_characterization/phase_characterizer.py:27-50 | succeeds iff the id is non-empty and the inputs are valid; a failure leaves the cache unchanged; a success stores the record with the clamped sensitivity under the id and returns it, leaving every other id untouched |
| PhaseCharacterization.UpsertPreservesWellFormed | src/methods/reimplemented_methods/everest_reimpl/phase_characterization/phase_characterizer.py:41-49 | every cached record stays under its own id with a sensitivity in `[0,1]` |
| PhaseCharacterization.LastWriteWins | src/methods/reimplemented_methods/everest_reimpl/phase_characterization/phase_characterizer.py:41-50 | two successful upserts of one id leave the second record in the cache |
| PhaseCharacterization.CacheOverrideExample | tests/everest/test_phase_characterizer.py:47-75 | 0.4 then 0.7 under `active-g4-m2` reads back 0.7; an empty id is rejected |
| PhaseIdentification.NewPhaseIdentifier | src/everest/phase_identification/phase_identifier.py:13-36 | fails iff `window_seconds <= 0` or the change threshold is not positive; otherwise the buffer is empty and there is no active phase |
| PhaseIdentification.Reset | src/everest/phase_identification/phase_identifier.py:38-44 | empties the buffer and forgets the active phase, keeping the configuration |
| PhaseIdentification.TotalDurationAppend | src/everest/phase_identification/phase_identifier.py:88-89 | appending a window adds its duration to the buffered total |
| PhaseIdentification.TrimHistory | src/everest/phase_identification/phase_identifier.py:91-93 | the running total stays the sum of the kept durations; trimming never empties a non-empty buffer; afterwards the total is within the window or one window remains |
| PhaseIdentification.TrimKeepsSuffix | src/everest/phase_identification/phase_identifier.py:91-93 | trimming keeps a suffix of the buffer: it only drops the oldest windows |
| PhaseIdentification.TrimStopsEarly | src/everest/phase_identification/phase_identifier.py:91 | trimming stops as soon as it may: putting back the last dropped window would exceed the window |
| PhaseIdentification.PushWindow | src/everest/phase_identification/phase_identifier.py:87-93 | the buffer ends with the new window, only the oldest windows are dropped (the result is a suffix of the old buffer plus the window), its total is within the window unless one window remains, and it grows by at most one |
| PhaseIdentification.AverageWithinBounds | src/everest/phase_identification/phase_identifier.py:95-114 | when every buffered value lies in `[lo, hi]`, so does the duration-weighted average, including the unweighted fallback |
| PhaseIdentification.MinMetric | src/everest/phase_identification/phase_identifier.py:95-114 | the smallest buffered value: every value lies at or above it, and some window attains it |
| PhaseIdentification.MaxMetric | src/everest/phase_identification/phase_identifier.py:95-114 | the largest buffered value: every value lies at or below it, and some window attains it |
| PhaseIdentification.AverageBetweenExtremes | src/everest/phase_identification/phase_identifier.py:95-114 | each average lies between the least and the greatest buffered value |
| PhaseIdentification.WeightedAverage | src/everest/phase_identification/phase_identifier.py:95-114 | the duration-weighted mean, the plain mean when every weight is 0; an empty buffer gives 0; its bounds are stated by `AverageWithinBounds` |
| PhaseIdentification.SingleWindowAverage | src/everest/phase_identification/phase_identifier.py:95-114 | a one-window buffer averages to that window's value, whatever its duration, negative or zero included |
| PhaseIdentification.BucketSize | src/everest/phase_identification/phase_identifier.py:129 | the bucket width is at least 1 |
| PhaseIdentification.Bucket | src/everest/phase_identification/phase_identifier.py:130-131 | the bucket `k` is the floor quotient: `k * size <= value < (k + 1) * size` |
| PhaseIdentification.BuildSignature | src/everest/phase_identification/phase_identifier.py:128-132 | each bucket brackets its average to within one bucket width, and the idle flag is carried over |
| PhaseIdentification.RelativeChangePct | src/everest/phase_identification/phase_identifier.py:137-140 | the relative change is never negative, and is zero iff the value equals the baseline |
| PhaseIdentification.IsIdleLike | src/everest/phase_identification/phase_identifier.py:134-135 | idle-like iff both averages are at or below their idle thresholds, both bounds inclusive; no contract of its own |
| PhaseIdentification.IdleLikeIsDownwardClosed | src/everest/phase_identification/phase_identifier.py:134-135 | lowering both averages keeps an idle-like window idle-like |
| PhaseIdentification.PhaseChanged | src/everest/phase_identification/phase_identifier.py:116-126 | an idle flip, or a relative change at or above the threshold in either metric; no contract of its own: its partners are the two lemmas below and `DecideStable` |
| PhaseIdentification.BaselineNeverChangesPhase | src/everest/phase_identification/phase_identifier.py:116-126 | with a positive threshold, re-observing the baseline's own averages and idle flag is never a change |
| PhaseIdentification.IdleFlipChangesPhase | src/everest/phase_identification/phase_identifier.py:121-122 | a flip between idle-like and active is always a change, whatever the averages |
| PhaseIdentification.DecideStable | src/everest/phase_identification/phase_identifier.py:116-126 | a new phase is declared iff there is no active phase or the change test fires; a new phase records the signature's id and the current averages as the baseline; otherwise the active phase is kept |
| PhaseIdentification.Classify | src/everest/phase_identification/phase_identifier.py:50-85 | the observation after the push: stable iff the buffered total reaches the window; an unstable observation has no id, is not new, and keeps the baseline; a stable one reports the active id; a new phase installs the current signature |
| PhaseIdentification.Observe | src/everest/phase_identification/phase_identifier.py:46-85 | the buffer is the pushed buffer; the averages are its weighted averages; idle-like iff both averages are within the idle thresholds; stability and the new-phase rule as in `Classify`; the baseline moves only on new-phase calls |
| PhaseIdentification.FirstStableObservationIsNewPhase | src/everest/phase_identification/phase_identifier.py:66-79 | with no active phase, a stable observation is a new phase whose id is the current signature's id |
| PhaseIdentification.WithinThresholdIsUnchanged | src/everest/phase_identification/phase_identifier.py:116-126 | same idle flag and both relative changes below the threshold means no phase change |
| PhaseIdentification.SmallChangeKeepsPhase | src/everest/phase_identification/phase_identifier.py:66-85 | when the new averages stay within the threshold of the baseline with the same idle flag, the observation is not new, the baseline is kept, and a stable one reports the previous id |
| PhaseIdentification.ThreeSecondAverage | src/everest/phase_identification/phase_identifier.py:99-114 | three one-second windows average to the plain mean of their values |
| PhaseIdentification.PushWithinWindow | src/everest/phase_identification/phase_identifier.py:87-93 | a push that stays within the window drops nothing |
| PhaseIdentification.TrimDropsOne | src/everest/phase_identification/phase_identifier.py:91-93 | when dropping the oldest window is enough, exactly that window is dropped |
| PhaseIdentification.PushDropsOldest | src/everest/phase_identification/phase_identifier.py:87-93 | a push that overshoots by no more than the oldest window's duration drops exactly the oldest window |
| PhaseIdentification.WarmUpStep | src/everest/phase_identification/phase_identifier.py:46-93 | while the total stays below the window, the window is appended and the observation is not stable |
| PhaseIdentification.FillingStep | src/everest/phase_identification/phase_identifier.py:46-93 | the window that brings the total exactly to `window_seconds` is appended and makes the observation stable |
| PhaseIdentification.SlidingStep | src/everest/phase_identification/phase_identifier.py:46-93 | in a full buffer, a window as long as the oldest one slides the buffer by one and stays stable |
| PhaseIdentification.ScenarioWarmUp | tests/everest/test_phase_identifier.py:23-27 | with a 3-second window, the first two one-second windows are not stable |
| PhaseIdentification.ScenarioNewPhase | tests/everest/test_phase_identifier.py:29-32 | the third window is stable and a new phase with an id, baseline gpu 180.5/3 and mem 89.5/3, not idle |
| PhaseIdentification.ScenarioRepeat | tests/everest/test_phase_identifier.py:34-37 | the fourth window is stable, not new, and reports the same id |
| StaticOracle.TargetRatio | src/methods/reimplemented_methods/oracle_static/policy.py:43 | the target ratio lies in `[0.01, 1]`; it is `1 - pd` for pd in `[0, 0.99]`, 1 for negative pd, and 0.01 above 0.99 |
| StaticOracle.TargetRatioMatchesContext | src/methods/reimplemented_methods/oracle_static/policy.py:90 | for pd in `[0, 0.99]` the oracle's target ratio is the context's `performance_target_ratio` |
| StaticOracle.Qualifying | src/methods/reimplemented_methods/oracle_static/policy.py:44 | the filtered list holds exactly the input points whose ratio reaches the target |
| StaticOracle.MinKeyIndex | src/methods/reimplemented_methods/oracle_static/policy.py:47 | Python's `min` by `(frequency, power or infinity)`: no point has a smaller key, and every earlier point has a strictly larger one |
| StaticOracle.MaxFallbackIndex | src/methods/reimplemented_methods/oracle_static/policy.py:50 | Python's `max` by `(ratio, frequency)`: no point has a larger key, and every earlier point has a strictly smaller one |
| StaticOracle.SelectPoint | src/methods/reimplemented_methods/oracle_static/policy.py:43-51 | the chosen point is an input; it meets the target iff some point does; then no qualifying point has a smaller `(frequency, power)` key, with a missing power sorting last; otherwise no point has a better `(ratio, frequency)` key |
| StaticOracle.ChooseStaticOracleClock | src/methods/reimplemented_methods/oracle_static/policy.py:26-51 | fails iff the list is empty; the frequency is an input frequency; it meets the target iff some point's ratio reaches `1 - clamp(pd, 0, 0.99)`, and is then the lowest such frequency; otherwise it is the frequency of a best-ratio point, the highest among equal ratios |
| StaticOracle.LowestQualifyingIsUnique | src/methods/reimplemented_methods/oracle_static/policy.py:43-48 | the selection contract admits exactly one frequency when the target is met |
| StaticOracle.BestFallbackIsUnique | src/methods/reimplemented_methods/oracle_static/policy.py:50-51 | the fallback contract admits exactly one frequency |
| StaticOracle.PowerNeverChangesChoice | src/methods/reimplemented_methods/oracle_static/policy.py:47 | power readings only break ties between equal frequencies, so changing them never changes the chosen clock |
| StaticOracle.LoadProfileForWorkload | src/methods/reimplemented_methods/oracle_static/policy.py:147-164 | a present, non-null workload entry decides: `Ok` with its list if it is a list, an error otherwise; else a present, non-null `default` entry decides in the same way; else the top-level `profile` decides, and a missing one is an error |
| StaticOracle.WorkloadProfileWins | src/methods/reimplemented_methods/oracle_static/policy.py:152-154 | a workload's own list is used whatever `default` and `profile` hold |
| StaticOracle.DefaultProfileIsFallback | src/methods/reimplemented_methods/oracle_static/policy.py:152-156 | without an entry for the workload, the `default` list is used whatever `profile` holds |
| StaticOracle.TopLevelProfileIgnoredWhenMappingAnswers | src/methods/reimplemented_methods/oracle_static/policy.py:152-159 | once the mapping has a non-null entry for the workload, the top-level `profile` plays no part |
| StaticOracle.NullWorkloadEntryUsesTopLevelProfile | src/methods/reimplemented_methods/oracle_static/policy.py:152-159 | a null entry for the workload skips `default` and takes the top-level `profile` |
| StaticOracle.MalformedWorkloadEntryFails | src/methods/reimplemented_methods/oracle_static/policy.py:152-163 | a present, non-null, non-list entry for the workload is an error and does not fall through to `default` |
| StaticOracle.MissingProfileFails | src/methods/reimplemented_methods/oracle_static/policy.py:158-163 | a configuration with neither `workload_profiles` nor `profile` fails |
| StaticOracle.NullDefaultUsesTopLevelProfile | src/methods/reimplemented_methods/oracle_static/policy.py:152-159 | with no entry for the workload, a null `default` entry passes on to the top-level `profile` |
| StaticOracle.MalformedDefaultFails | src/methods/reimplemented_methods/oracle_static/policy.py:152-163 | with no entry for the workload, a present non-null non-list `default` entry is an error and does not fall through |
| StaticOracle.NonMappingWorkloadProfilesIgnored | src/methods/reimplemented_methods/oracle_static/policy.py:149-159 | a `workload_profiles` value that is not a mapping is ignored: the lookup gives the same result as without the key |
| StaticOracle.Initialize | src/methods/reimplemented_methods/oracle_static/policy.py:74-96 | fails iff no profile list is found or it is empty; otherwise the chosen clock is clamped into the platform's range: kept when inside, `min` below it, `max` above it, and `min` whenever the platform's `max < min`; the target ratio, the meets-target flag and zeroed counters are recorded, and no decision has been emitted |
| StaticOracle.IsSameClock | src/methods/reimplemented_methods/oracle_static/policy.py:222-223 | the observed clock lies strictly within half a MHz of the target |
| StaticOracle.UpdatePdViolation | src/methods/reimplemented_methods/oracle_static/policy.py:201-219 | only the two violation fields can change; a window whose ratio falls short of the target adds one violation and makes the maximum the larger of the old maximum and the shortfall; any other window, with or without a ratio, changes nothing |
| StaticOracle.OnWindow | src/methods/reimplemented_methods/oracle_static/policy.py:98-130 | counts the window and records that a decision was emitted; the first call sets the selected clock, or holds with no target when the observed clock is already within half a MHz; every later call holds with no target; the selection is kept and the violation fields follow `UpdatePdViolation` |
| StaticOracle.OnWindowDecisionIsLegal | src/methods/reimplemented_methods/oracle_static/policy.py:104-130 | with the selected clock in the platform's range, every decision `on_window` emits passes the legality gate |
| StaticOracle.FirstDecisionIsLegal | src/methods/reimplemented_methods/oracle_static/policy.py:80-123 | after a successful `initialize` on a platform with `min <= max`, the first decision is legal whatever the profile proposed |
| StaticOracle.RunCountsWindows | src/methods/reimplemented_methods/oracle_static/policy.py:103-104 | after a run, the window count grew by the number of windows, the selection and target are unchanged, and a decision was emitted iff one had been or the run was non-empty |
| StaticOracle.RunHoldsAfterFirst | src/methods/reimplemented_methods/oracle_static/policy.py:108-130 | apply once, then hold: every decision after a run's first is a hold with no target, and so is every decision of a run that starts after the first decision |
| StaticOracle.RunDecisionsAreLegal | src/methods/reimplemented_methods/oracle_static/policy.py:104-130 | every decision of a run passes the legality gate when the selected clock is in range |
| StaticOracle.RunTracksViolations | src/methods/reimplemented_methods/oracle_static/policy.py:201-219 | over a run, the violation count grows by exactly the number of short windows; the maximum is at least the starting maximum and every shortfall, and equals the starting maximum or one of the shortfalls |
| StaticOracle.ChooseLowestMeetingTarget | tests/oracle_static/test_oracle_static_policy.py:56-67 | ratios 1.0/0.95/0.88 at 1410/1260/1110 with pd 0.1 select 1260, meeting the target |
| StaticOracle.ChooseFallbackWhenUnreachable | tests/oracle_static/test_oracle_static_policy.py:69-80 | ratios 0.85/0.81/0.74 select 1410, not meeting the target |
| StaticOracle.PowerBreaksFrequencyTies | src/methods/reimplemented_methods/oracle_static/policy.py:47 | at equal frequency, a measured power beats a missing one and the lower power beats the higher |
| StaticOracle.InitializeAdoptsSelection | src/methods/reimplemented_methods/oracle_static/policy.py:79-93 | an in-range selection is stored unchanged together with its meets-target flag |
| StaticOracle.SetsOnceThenHolds | tests/oracle_static/test_oracle_static_policy.py:84-108 | first window at 1410 MHz: SET 1260; second: HOLD with no target; two windows counted; selection 1260, meeting the target |
| StaticOracle.MissingWorkloadsUseTopLevel | src/methods/reimplemented_methods/oracle_static/policy.py:150-159 | without a `workload_profiles` mapping, the top-level `profile` list is loaded |
| StaticOracle.UnknownWorkloadUsesDefault | tests/oracle_static/test_oracle_static_policy.py:110-128 | an unknown workload uses the `default` list, and the first decision targets 1200 |
| StaticOracle.TracksViolations | tests/oracle_static/test_oracle_static_policy.py:130-147 | ratios 0.89 and 0.85 against a 0.9 target give two violations, the larger 0.05 |
| StaticOracle.InitializeRequiresProfile | tests/oracle_static/test_oracle_static_policy.py:149-152 | an empty configuration makes `initialize` fail |

## Left out

- I/O and external code:
  - the `FinalSummary` assembly in `finalize`;
  - the `debug_fields` dictionaries;
  - JSON value types and `TelemetrySample`;
  - timestamps, `sample_count` and the other descriptive window fields.

  None of these affect a decision.
- Profile entry parsing: the `isinstance` checks, the multi-key aliases in
  `_parse_sweep_point`/`_extract_*` and the `int(round(...))` conversion.
  Profiles are given as typed sweep points.
- Descriptive record fields with no behaviour are not modelled:
  `PlatformSpec`'s `node_name`, `driver_version` and `runtime_version`,
  `ExperimentContext`'s `sampling_interval_ms` and `user_config`, and the
  `CharacterizationResult` record of the characterizer's types.
- `src/common/experiment/interfaces.py`, the `__init__.py` re-exports and
  the external EAR adapter placeholders: they have no behaviour.
- IEEE-754 arithmetic: rounding, NaN and infinities are not modelled.
  Floats are exact reals, so the model does not reproduce:
  - a quotient that lands just off the `1e-8` cutoff;
  - `ceil` of an inexactly computed quotient;
  - drift of the identifier's running duration total;
  - `assertAlmostEqual` tolerances. The examples prove exact values such
    as `0.05`.
- PhaseIdentification.Observe: the per-window `duration_s` is any real.
  Nothing is assumed about its sign, so the model covers more inputs than
  the source's callers produce.
- StaticOracle.Initialize: the run id, the workload name and the
  degradation target come from the context record. `ExperimentMetadata`'s
  other fields are not modelled.
- StaticOracle.RunWindows: a run is modelled by folding `on_window` over a
  sequence of windows. The caller's loop is not part of this model.
- Validation.ValidateDecision: the source's final "unsupported action" branch has no
  counterpart, because `DecisionAction` has exactly four variants and the
  `match` is exhaustive.
- PhaseIdentification: the composite four-window test scenario is stated
  as three step lemmas (warm-up, new phase, repeat). They chain through
  their hypotheses rather than through one lemma over all four calls.
  The threshold-crossing and idle-versus-busy tests are covered by the
  general lemmas `DecideStable`, `PhaseIdInjective` and `PhaseIdModePrefix`,
  not by concrete replays.
