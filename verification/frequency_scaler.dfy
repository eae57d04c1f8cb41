/** EVeREST frequency scaling: a sensitivity estimate and a performance
    degradation target become a legal clock on the platform's step grid. */
module FrequencyScaling {
  import opened Results
  import opened Numerics
  import opened ExperimentTypes
  import opened EverestTypes
  import opened Validation

  /** Default lower bound of the allowed range, as a fraction of the platform maximum. */
  const DefaultMinRatioOfMax: real := 0.55
  /** Sensitivities at or below this value are treated as zero. */
  const SensitivityEpsilon: real := 0.00000001
  /** Largest degradation target the scaler uses. */
  const MaxPdUsed: real := 0.99

  // ---------------------------------------------------------------------------
  // The clock grid `base + k * step`, k any integer.

  predicate IsGridPoint(g: int, base: int, step: int)
    requires step > 0
  {
    (g - base) % step == 0
  }

  ghost predicate LeastGridPointAtLeast(r: int, value: real, base: int, step: int)
    requires step > 0
  {
    && IsGridPoint(r, base, step)
    && value <= r as real
    && forall g :: IsGridPoint(g, base, step) && value <= g as real ==> r <= g
  }

  ghost predicate GreatestGridPointAtMost(r: int, bound: int, base: int, step: int)
    requires step > 0
  {
    && IsGridPoint(r, base, step)
    && r <= bound
    && forall g :: IsGridPoint(g, base, step) && g <= bound ==> g <= r
  }

  ghost predicate NoGridPointBetween(lo: real, hi: int, base: int, step: int)
    requires step > 0
  {
    forall g :: IsGridPoint(g, base, step) && lo <= g as real ==> hi < g
  }

  lemma MultipleIsGridPoint(base: int, k: int, step: int)
    requires step > 0
    ensures IsGridPoint(base + k * step, base, step)
  {
    var a := base + k * step - base;
    assert a == k * step;
    var q := a / step;
    var r := a % step;
    assert a == q * step + r && 0 <= r < step;
    assert (k - q) * step == r;
    MulLtCancel(k - q, 1, step);
    if k - q < 0 {
      MulLtCancel(k - q, 0, step);
    }
  }

  lemma GridPointIsMultiple(g: int, base: int, step: int)
    requires step > 0
    requires IsGridPoint(g, base, step)
    ensures g == base + ((g - base) / step) * step
  {
  }

  lemma MulLeInt(a: int, b: int, c: int)
    requires c > 0 && a <= b
    ensures a * c <= b * c
  {
  }

  lemma MulLtCancel(a: int, b: int, c: int)
    requires c > 0 && a * c < b * c
    ensures a < b
  {
    if a >= b {
      MulLeInt(b, a, c);
    }
  }

  /** Rounding `value` up onto the grid gives the least grid point not below it. */
  lemma GridUpIsLeast(value: real, base: int, step: int)
    requires step > 0
    ensures LeastGridPointAtLeast(base + Ceil((value - base as real) / step as real) * step, value, base, step)
  {
    var x := (value - base as real) / step as real;
    var k := Ceil(x);
    var q := base + k * step;
    MultipleIsGridPoint(base, k, step);
    assert x * step as real == value - base as real;
    MulMonotone(x, k as real, step as real);
    assert (k * step) as real == k as real * step as real;
    forall g | IsGridPoint(g, base, step) && value <= g as real
      ensures q <= g
    {
      var j := (g - base) / step;
      GridPointIsMultiple(g, base, step);
      assert (j * step) as real == j as real * step as real;
      assert x * step as real <= j as real * step as real;
      assert x <= j as real;
      CeilIsLeast(x, j);
      MulLeInt(k, j, step);
    }
  }

  /** Rounding `bound` down onto the grid gives the greatest grid point not
      above it, which is at least `base` when `base <= bound`. */
  lemma GridDownIsGreatest(bound: int, base: int, step: int)
    requires step > 0 && base <= bound
    ensures GreatestGridPointAtMost(base + ((bound - base) / step) * step, bound, base, step)
    ensures base <= base + ((bound - base) / step) * step
  {
    var k := (bound - base) / step;
    var q := base + k * step;
    MultipleIsGridPoint(base, k, step);
    assert 0 <= k;
    MulLeInt(0, k, step);
    var rem := (bound - base) % step;
    assert bound - base == k * step + rem && rem < step;
    assert (k + 1) * step == k * step + step;
    forall g | IsGridPoint(g, base, step) && g <= bound
      ensures g <= q
    {
      var j := (g - base) / step;
      GridPointIsMultiple(g, base, step);
      assert j * step <= bound - base;
      MulLtCancel(j, k + 1, step);
      MulLeInt(j, k, step);
    }
  }

  // ---------------------------------------------------------------------------
  // `_quantize_up_within_bounds`

  /** Rounds `valueMhz` up to the grid `minClockMhz + k * stepMhz`; when that
      overshoots `maxClockMhz`, falls back to the highest grid point not above
      `maxClockMhz`, and to `minClockMhz` when the bounds are inverted. */
  function QuantizeUpWithinBounds(valueMhz: real, minClockMhz: int, maxClockMhz: int, stepMhz: int): (r: Result<int, string>)
    ensures r.Ok? <==> stepMhz > 0
    ensures r.Ok? && maxClockMhz < minClockMhz ==> r.value == minClockMhz
    ensures r.Ok? && minClockMhz <= maxClockMhz ==>
      IsGridPoint(r.value, minClockMhz, stepMhz) && r.value <= maxClockMhz
    ensures r.Ok? && minClockMhz <= maxClockMhz && minClockMhz as real <= valueMhz ==>
      minClockMhz <= r.value
    ensures r.Ok? && minClockMhz <= maxClockMhz && valueMhz <= r.value as real ==>
      LeastGridPointAtLeast(r.value, valueMhz, minClockMhz, stepMhz)
    ensures r.Ok? && minClockMhz <= maxClockMhz && r.value as real < valueMhz ==>
      && NoGridPointBetween(valueMhz, maxClockMhz, minClockMhz, stepMhz)
      && GreatestGridPointAtMost(r.value, maxClockMhz, minClockMhz, stepMhz)
      && minClockMhz <= r.value
  {
    if stepMhz <= 0 then Err("step_mhz must be > 0.")
    else if maxClockMhz < minClockMhz then Ok(minClockMhz)
    else
      var upSteps := Ceil((valueMhz - minClockMhz as real) / stepMhz as real);
      var quantizedUp := minClockMhz + upSteps * stepMhz;
      GridUpIsLeast(valueMhz, minClockMhz, stepMhz);
      if quantizedUp <= maxClockMhz then Ok(quantizedUp)
      else
        var downSteps := (maxClockMhz - minClockMhz) / stepMhz;
        var quantizedDown := minClockMhz + downSteps * stepMhz;
        GridDownIsGreatest(maxClockMhz, minClockMhz, stepMhz);
        Ok(MaxInt(minClockMhz, quantizedDown))
  }

  /** Two greatest grid points below the same bound coincide. */
  lemma GreatestGridPointUnique(a: int, b: int, bound: int, base: int, step: int)
    requires step > 0
    requires GreatestGridPointAtMost(a, bound, base, step)
    requires GreatestGridPointAtMost(b, bound, base, step)
    ensures a == b
  {
  }

  // ---------------------------------------------------------------------------
  // `compute_target_frequency`

  /** `min(platform max, freq_high)`: never above either bound, and equal to one of them. */
  function MaxAllowedMhz(platform: PlatformSpec, freqHighMhz: int): (r: int)
    ensures r <= platform.maxGraphicsClockMhz && r <= freqHighMhz
    ensures r == platform.maxGraphicsClockMhz || r == freqHighMhz
  {
    MinInt(platform.maxGraphicsClockMhz, freqHighMhz)
  }

  /** `max(platform min, ceil(ratio * platform max))`, lowered to the upper
      bound of the allowed range when it would exceed it. */
  function MinAllowedMhz(platform: PlatformSpec, freqHighMhz: int, minRatioOfMax: real): (r: int)
    ensures r <= MaxAllowedMhz(platform, freqHighMhz)
    ensures var lower := MaxInt(platform.minGraphicsClockMhz, Ceil(minRatioOfMax * platform.maxGraphicsClockMhz as real));
      && (lower <= MaxAllowedMhz(platform, freqHighMhz) ==> r == lower)
      && (MaxAllowedMhz(platform, freqHighMhz) < lower ==> r == MaxAllowedMhz(platform, freqHighMhz))
  {
    var minFloorMhz := Ceil(minRatioOfMax * platform.maxGraphicsClockMhz as real);
    var lower := MaxInt(platform.minGraphicsClockMhz, minFloorMhz);
    var upper := MaxAllowedMhz(platform, freqHighMhz);
    if lower > upper then upper else lower
  }

  /** Equation 4: the clock at which a phase of sensitivity `fsUsed` loses
      the fraction `pdUsed` of its performance at `freqHighMhz`. */
  function RawFrequencyMhz(freqHighMhz: int, fsUsed: real, pdUsed: real, minAllowedMhz: int): real
    requires 0.0 <= fsUsed && 0.0 <= pdUsed <= MaxPdUsed
  {
    if fsUsed <= SensitivityEpsilon then minAllowedMhz as real
    else if pdUsed == 0.0 then freqHighMhz as real
    else
      assert fsUsed * (1.0 - pdUsed) > 0.0 by {
        MulMonotone(0.0, fsUsed, 1.0 - pdUsed);
        assert fsUsed * (1.0 - pdUsed) >= fsUsed * 0.01;
      }
      freqHighMhz as real / (1.0 + pdUsed / (fsUsed * (1.0 - pdUsed)))
  }

  /** The quantized clock, re-quantized from `minAllowedMhz` when the first
      quantization lands below it. */
  function QuantizedTargetMhz(clampedMhz: real, minAllowedMhz: int, maxAllowedMhz: int, platform: PlatformSpec): (r: int)
    requires platform.graphicsClockStepMhz > 0
    ensures platform.minGraphicsClockMhz <= maxAllowedMhz ==>
      IsGridPoint(r, platform.minGraphicsClockMhz, platform.graphicsClockStepMhz) && r <= maxAllowedMhz
  {
    var first := QuantizeUpWithinBounds(clampedMhz, platform.minGraphicsClockMhz, maxAllowedMhz,
                                        platform.graphicsClockStepMhz).value;
    if first < minAllowedMhz then
      QuantizeUpWithinBounds(minAllowedMhz as real, platform.minGraphicsClockMhz, maxAllowedMhz,
                             platform.graphicsClockStepMhz).value
    else first
  }

  /** `FrequencyScaler.compute_target_frequency`. */
  function ComputeTargetFrequency(freqHighMhz: int, fs: real, pd: real, platform: PlatformSpec, minRatioOfMax: real)
    : (r: Result<ScalerOutput, string>)
    ensures r.Ok? <==> freqHighMhz > 0 && platform.graphicsClockStepMhz > 0
    ensures r.Ok? ==> 0.0 <= r.value.fsUsed <= 1.0 && 0.0 <= r.value.pdUsed <= MaxPdUsed
    ensures r.Ok? ==> r.value.fsUsed == Clamp(fs, 0.0, 1.0) && r.value.pdUsed == Clamp(pd, 0.0, MaxPdUsed)
    ensures r.Ok? ==> r.value.maxAllowedMhz == MinInt(platform.maxGraphicsClockMhz, freqHighMhz)
    ensures r.Ok? ==> r.value.minAllowedMhz == MinAllowedMhz(platform, freqHighMhz, minRatioOfMax)
    ensures r.Ok? ==> r.value.minAllowedMhz <= r.value.maxAllowedMhz
    ensures r.Ok? ==>
      r.value.rawFrequencyMhz == RawFrequencyMhz(freqHighMhz, r.value.fsUsed, r.value.pdUsed, r.value.minAllowedMhz)
    ensures r.Ok? ==>
      r.value.clampedFrequencyMhz == Clamp(r.value.rawFrequencyMhz, r.value.minAllowedMhz as real, r.value.maxAllowedMhz as real)
    ensures r.Ok? ==>
      r.value.minAllowedMhz as real <= r.value.clampedFrequencyMhz <= r.value.maxAllowedMhz as real
    ensures r.Ok? && platform.minGraphicsClockMhz <= platform.maxGraphicsClockMhz ==>
      platform.minGraphicsClockMhz <= r.value.targetFrequencyMhz <= platform.maxGraphicsClockMhz
    ensures r.Ok? && platform.minGraphicsClockMhz <= r.value.maxAllowedMhz ==>
      r.value.targetFrequencyMhz <= r.value.maxAllowedMhz
    ensures r.Ok? && r.value.maxAllowedMhz < platform.minGraphicsClockMhz ==>
      r.value.targetFrequencyMhz == platform.minGraphicsClockMhz
  {
    if freqHighMhz <= 0 then Err("freq_high_mhz must be > 0.")
    else if platform.graphicsClockStepMhz <= 0 then Err("platform.graphics_clock_step_mhz must be > 0.")
    else
      var fsUsed := Clamp(fs, 0.0, 1.0);
      var pdUsed := Clamp(pd, 0.0, MaxPdUsed);
      var maxAllowed := MaxAllowedMhz(platform, freqHighMhz);
      var minAllowed := MinAllowedMhz(platform, freqHighMhz, minRatioOfMax);
      var raw := RawFrequencyMhz(freqHighMhz, fsUsed, pdUsed, minAllowed);
      var clamped := Clamp(raw, minAllowed as real, maxAllowed as real);
      var target := QuantizedTargetMhz(clamped, minAllowed, maxAllowed, platform);
      TargetWithinPlatform(clamped, minAllowed, maxAllowed, platform, freqHighMhz, minRatioOfMax);
      Ok(ScalerOutput(target, raw, clamped, fsUsed, pdUsed, minAllowed, maxAllowed))
  }

  lemma TargetWithinPlatform(clampedMhz: real, minAllowed: int, maxAllowed: int, platform: PlatformSpec,
                             freqHighMhz: int, minRatioOfMax: real)
    requires platform.graphicsClockStepMhz > 0
    requires maxAllowed == MaxAllowedMhz(platform, freqHighMhz)
    requires minAllowed == MinAllowedMhz(platform, freqHighMhz, minRatioOfMax)
    requires minAllowed as real <= clampedMhz
    ensures platform.minGraphicsClockMhz <= platform.maxGraphicsClockMhz ==>
      platform.minGraphicsClockMhz <= QuantizedTargetMhz(clampedMhz, minAllowed, maxAllowed, platform)
                                   <= platform.maxGraphicsClockMhz
    ensures platform.minGraphicsClockMhz <= maxAllowed ==>
      QuantizedTargetMhz(clampedMhz, minAllowed, maxAllowed, platform) <= maxAllowed
  {
    if platform.minGraphicsClockMhz <= maxAllowed {
      assert platform.minGraphicsClockMhz <= minAllowed;
    }
  }

  /** The re-quantization from `minAllowed` never changes the result: when
      the first quantization falls below `minAllowed` it is already the
      highest grid point under `maxAllowed`, and quantizing from `minAllowed`
      falls back to that same point. */
  lemma RequantizationIsNoOp(clampedMhz: real, minAllowed: int, maxAllowed: int, platform: PlatformSpec)
    requires platform.graphicsClockStepMhz > 0
    requires minAllowed as real <= clampedMhz
    requires minAllowed <= maxAllowed
    ensures QuantizedTargetMhz(clampedMhz, minAllowed, maxAllowed, platform)
         == QuantizeUpWithinBounds(clampedMhz, platform.minGraphicsClockMhz, maxAllowed,
                                   platform.graphicsClockStepMhz).value
  {
    var base := platform.minGraphicsClockMhz;
    var step := platform.graphicsClockStepMhz;
    var first := QuantizeUpWithinBounds(clampedMhz, base, maxAllowed, step).value;
    if first < minAllowed && base <= maxAllowed {
      assert first as real < clampedMhz;
      assert GreatestGridPointAtMost(first, maxAllowed, base, step);
      var second := QuantizeUpWithinBounds(minAllowed as real, base, maxAllowed, step).value;
      GreatestGridPointUnique(first, second, maxAllowed, base, step);
    }
  }

  /** What the scaler's target is: the clamped value rounded up onto the
      platform grid when a grid point lies in `[clamped, maxAllowed]`,
      otherwise the highest grid point not above `maxAllowed`; it falls below
      `minAllowed` exactly when no grid point lies in `[minAllowed, maxAllowed]`. */
  lemma TargetIsQuantizedClamp(freqHighMhz: int, fs: real, pd: real, platform: PlatformSpec, minRatioOfMax: real)
    requires freqHighMhz > 0 && platform.graphicsClockStepMhz > 0
    requires platform.minGraphicsClockMhz <= MinInt(platform.maxGraphicsClockMhz, freqHighMhz)
    ensures var out := ComputeTargetFrequency(freqHighMhz, fs, pd, platform, minRatioOfMax).value;
      var base := platform.minGraphicsClockMhz;
      var step := platform.graphicsClockStepMhz;
      && IsGridPoint(out.targetFrequencyMhz, base, step)
      && out.targetFrequencyMhz <= out.maxAllowedMhz
      && (out.clampedFrequencyMhz <= out.targetFrequencyMhz as real ==>
            LeastGridPointAtLeast(out.targetFrequencyMhz, out.clampedFrequencyMhz, base, step))
      && (out.targetFrequencyMhz as real < out.clampedFrequencyMhz ==>
            && NoGridPointBetween(out.clampedFrequencyMhz, out.maxAllowedMhz, base, step)
            && GreatestGridPointAtMost(out.targetFrequencyMhz, out.maxAllowedMhz, base, step))
      && (NoGridPointBetween(out.clampedFrequencyMhz, out.maxAllowedMhz, base, step) ==>
            GreatestGridPointAtMost(out.targetFrequencyMhz, out.maxAllowedMhz, base, step))
      && (out.targetFrequencyMhz < out.minAllowedMhz <==>
            NoGridPointBetween(out.minAllowedMhz as real, out.maxAllowedMhz, base, step))
  {
    var out := ComputeTargetFrequency(freqHighMhz, fs, pd, platform, minRatioOfMax).value;
    RequantizationIsNoOp(out.clampedFrequencyMhz, out.minAllowedMhz, out.maxAllowedMhz, platform);
  }

  /** An insensitive phase runs at the quantized lower end of the allowed range. */
  lemma InsensitivePhaseUsesMinAllowed(freqHighMhz: int, fs: real, pd: real, platform: PlatformSpec, minRatioOfMax: real)
    requires freqHighMhz > 0 && platform.graphicsClockStepMhz > 0
    requires fs <= SensitivityEpsilon
    ensures var out := ComputeTargetFrequency(freqHighMhz, fs, pd, platform, minRatioOfMax).value;
      && out.rawFrequencyMhz == out.minAllowedMhz as real
      && out.clampedFrequencyMhz == out.minAllowedMhz as real
      && out.targetFrequencyMhz == QuantizeUpWithinBounds(out.minAllowedMhz as real, platform.minGraphicsClockMhz,
                                                          out.maxAllowedMhz, platform.graphicsClockStepMhz).value
  {
    var out := ComputeTargetFrequency(freqHighMhz, fs, pd, platform, minRatioOfMax).value;
    RequantizationIsNoOp(out.clampedFrequencyMhz, out.minAllowedMhz, out.maxAllowedMhz, platform);
  }

  /** With no degradation tolerated the scaler asks for `freqHighMhz`, capped
      at the platform maximum, quantized. */
  lemma ZeroDegradationKeepsHighFrequency(freqHighMhz: int, fs: real, pd: real, platform: PlatformSpec, minRatioOfMax: real)
    requires freqHighMhz > 0 && platform.graphicsClockStepMhz > 0
    requires fs > SensitivityEpsilon && pd <= 0.0
    ensures var out := ComputeTargetFrequency(freqHighMhz, fs, pd, platform, minRatioOfMax).value;
      && out.rawFrequencyMhz == freqHighMhz as real
      && out.clampedFrequencyMhz == MinInt(platform.maxGraphicsClockMhz, freqHighMhz) as real
      && out.targetFrequencyMhz == QuantizeUpWithinBounds(out.maxAllowedMhz as real, platform.minGraphicsClockMhz,
                                                          out.maxAllowedMhz, platform.graphicsClockStepMhz).value
  {
    var out := ComputeTargetFrequency(freqHighMhz, fs, pd, platform, minRatioOfMax).value;
    RequantizationIsNoOp(out.clampedFrequencyMhz, out.minAllowedMhz, out.maxAllowedMhz, platform);
  }

  /** The run time at clock `f`, relative to the run time at `freqHighMhz`,
      when the fraction `fs` of the time scales with the clock period and the
      rest does not: the performance model Equation 4 is solved from. */
  function PredictedSlowdown(freqHighMhz: int, fs: real, f: real): real
    requires f > 0.0
  {
    fs * (freqHighMhz as real / f) + (1.0 - fs)
  }

  /** Equation 4 spends exactly the degradation budget: at the raw clock the
      predicted performance is the fraction `1 - pd` of that at `freqHighMhz`. */
  lemma EquationFourMeetsDegradationBudget(freqHighMhz: int, fsUsed: real, pdUsed: real, minAllowedMhz: int)
    requires freqHighMhz > 0
    requires SensitivityEpsilon < fsUsed <= 1.0 && 0.0 <= pdUsed <= MaxPdUsed
    ensures RawFrequencyMhz(freqHighMhz, fsUsed, pdUsed, minAllowedMhz) > 0.0
    ensures PredictedSlowdown(freqHighMhz, fsUsed, RawFrequencyMhz(freqHighMhz, fsUsed, pdUsed, minAllowedMhz))
            * (1.0 - pdUsed) == 1.0
  {
    var fh := freqHighMhz as real;
    var raw := RawFrequencyMhz(freqHighMhz, fsUsed, pdUsed, minAllowedMhz);
    if pdUsed == 0.0 {
      assert raw == fh;
      assert fh / raw == 1.0;
    } else {
      var a := fsUsed * (1.0 - pdUsed);
      ScaledSensitivityOrdered(fsUsed, fsUsed, 1.0 - pdUsed, a, a);
      var d := 1.0 + pdUsed / a;
      assert d > 1.0;
      assert raw == fh / d;
      QuotientOfQuotient(fh, d);
      assert fh / raw == d;
      SlowdownAtEquationFour(fsUsed, pdUsed, a, d);
    }
  }

  /** `f / (f / d) == d` for positive `f` and `d`. */
  lemma QuotientOfQuotient(f: real, d: real)
    requires f > 0.0 && d > 0.0
    ensures f / d > 0.0 && f / (f / d) == d
  {
    var q := f / d;
    assert q * d == f;
  }

  /** The algebra behind Equation 4: with `a = fs * (1 - pd)` and
      `d = 1 + pd / a`, the slowdown `fs * d + 1 - fs` is `1 / (1 - pd)`. */
  lemma SlowdownAtEquationFour(fs: real, pd: real, a: real, d: real)
    requires 0.0 < fs && 0.0 < pd < 1.0 && a == fs * (1.0 - pd) && a > 0.0 && d == 1.0 + pd / a
    ensures (fs * d + (1.0 - fs)) * (1.0 - pd) == 1.0
  {
    var t := pd / a;
    assert t * a == pd;
    assert fs * t * (1.0 - pd) == t * a;
    calc {
      (fs * d + (1.0 - fs)) * (1.0 - pd);
      (fs * (1.0 + t) + (1.0 - fs)) * (1.0 - pd);
      (1.0 + fs * t) * (1.0 - pd);
      (1.0 - pd) + fs * t * (1.0 - pd);
      (1.0 - pd) + pd;
    }
  }

  /** No other clock spends the budget exactly: the predicted slowdown falls
      strictly as the clock rises, so Equation 4's clock is the only one. */
  lemma EquationFourIsTheOnlyClockMeetingBudget(freqHighMhz: int, fsUsed: real, pdUsed: real, minAllowedMhz: int, f: real)
    requires freqHighMhz > 0
    requires SensitivityEpsilon < fsUsed <= 1.0 && 0.0 <= pdUsed <= MaxPdUsed
    requires f > 0.0 && PredictedSlowdown(freqHighMhz, fsUsed, f) * (1.0 - pdUsed) == 1.0
    ensures f == RawFrequencyMhz(freqHighMhz, fsUsed, pdUsed, minAllowedMhz)
  {
    var fh := freqHighMhz as real;
    var raw := RawFrequencyMhz(freqHighMhz, fsUsed, pdUsed, minAllowedMhz);
    EquationFourMeetsDegradationBudget(freqHighMhz, fsUsed, pdUsed, minAllowedMhz);
    var s1 := PredictedSlowdown(freqHighMhz, fsUsed, f);
    var s2 := PredictedSlowdown(freqHighMhz, fsUsed, raw);
    MulCancel(s1, s2, 1.0 - pdUsed);
    MulCancel(s2, s1, 1.0 - pdUsed);
    assert fsUsed * (fh / f) == fsUsed * (fh / raw);
    assert fh / f == fh / raw;
    QuotientOfQuotient(fh, f);
    QuotientOfQuotient(fh, raw);
  }

  /** Equation 4 lowers the clock strictly below `freqHighMhz` whenever some
      degradation is tolerated by a sensitive phase. */
  lemma DegradationLowersRawFrequency(freqHighMhz: int, fsUsed: real, pdUsed: real, minAllowedMhz: int)
    requires freqHighMhz > 0
    requires SensitivityEpsilon < fsUsed <= 1.0 && 0.0 < pdUsed <= MaxPdUsed
    ensures 0.0 < RawFrequencyMhz(freqHighMhz, fsUsed, pdUsed, minAllowedMhz) < freqHighMhz as real
  {
    var t := pdUsed / (fsUsed * (1.0 - pdUsed));
    assert fsUsed * (1.0 - pdUsed) > 0.0 by {
      MulMonotone(0.0, fsUsed, 1.0 - pdUsed);
      assert fsUsed * (1.0 - pdUsed) >= fsUsed * 0.01;
    }
    assert t > 0.0;
    var d := 1.0 + t;
    assert freqHighMhz as real / d * d == freqHighMhz as real;
  }

  /** Tolerating more degradation never raises Equation 4's clock. */
  lemma RawFrequencyAntitoneInDegradation(freqHighMhz: int, fsUsed: real, pd1: real, pd2: real, minAllowedMhz: int)
    requires freqHighMhz > 0
    requires SensitivityEpsilon < fsUsed <= 1.0 && 0.0 < pd1 <= pd2 <= MaxPdUsed
    ensures RawFrequencyMhz(freqHighMhz, fsUsed, pd2, minAllowedMhz) <= RawFrequencyMhz(freqHighMhz, fsUsed, pd1, minAllowedMhz)
  {
    // pd / (fs * (1 - pd)) grows with pd: compare over the common denominator.
    var a1 := fsUsed * (1.0 - pd1);
    var a2 := fsUsed * (1.0 - pd2);
    MulMonotone(0.01, 1.0 - pd2, fsUsed);
    MulMonotone(1.0 - pd2, 1.0 - pd1, fsUsed);
    var t1 := pd1 / a1;
    var t2 := pd2 / a2;
    DivAntitone(pd1, a2, a1);
    DivMonotone(pd1, pd2, a2);
    DivAntitone(freqHighMhz as real, 1.0 + t1, 1.0 + t2);
  }

  /** A more frequency-sensitive phase never gets a lower Equation 4 clock:
      insensitive phases are the ones pushed toward the bottom of the range. */
  lemma RawFrequencyMonotoneInSensitivity(freqHighMhz: int, fs1: real, fs2: real, pdUsed: real, minAllowedMhz: int)
    requires freqHighMhz > 0
    requires SensitivityEpsilon < fs1 <= fs2 <= 1.0 && 0.0 <= pdUsed <= MaxPdUsed
    ensures RawFrequencyMhz(freqHighMhz, fs1, pdUsed, minAllowedMhz) <= RawFrequencyMhz(freqHighMhz, fs2, pdUsed, minAllowedMhz)
  {
    if pdUsed > 0.0 {
      var a1 := fs1 * (1.0 - pdUsed);
      var a2 := fs2 * (1.0 - pdUsed);
      ScaledSensitivityOrdered(fs1, fs2, 1.0 - pdUsed, a1, a2);
      EquationFourMonotoneInDenominator(freqHighMhz as real, pdUsed, a1, a2);
    }
  }

  /** Equation 4 as a function of its `fs * (1 - pd)` term: a larger term
      gives a larger clock. */
  lemma EquationFourMonotoneInDenominator(f: real, pd: real, a1: real, a2: real)
    requires 0.0 <= f && 0.0 <= pd && 0.0 < a1 <= a2
    ensures f / (1.0 + pd / a1) <= f / (1.0 + pd / a2)
  {
    DivAntitone(pd, a1, a2);
    DivAntitone(f, 1.0 + pd / a2, 1.0 + pd / a1);
  }

  /** Scaling two ordered positive sensitivities by the same positive factor
      keeps them positive and ordered. */
  lemma ScaledSensitivityOrdered(fs1: real, fs2: real, k: real, a1: real, a2: real)
    requires 0.0 < fs1 <= fs2 && 0.0 < k && a1 == fs1 * k && a2 == fs2 * k
    ensures 0.0 < a1 <= a2
  {
    MulStrictMonotone(0.0, fs1, k);
    MulMonotone(fs1, fs2, k);
  }

  /** A clock-setting decision that carries the scaler's target is accepted
      by the legality gate on any platform with a well-formed clock range. */
  lemma ScalerTargetPassesValidation(freqHighMhz: int, fs: real, pd: real, platform: PlatformSpec,
                                     minRatioOfMax: real, reasonCode: string)
    requires platform.minGraphicsClockMhz <= platform.maxGraphicsClockMhz
    requires ComputeTargetFrequency(freqHighMhz, fs, pd, platform, minRatioOfMax).Ok?
    ensures ValidateDecision(
      Decision(SetClock, Some(ComputeTargetFrequency(freqHighMhz, fs, pd, platform, minRatioOfMax).value.targetFrequencyMhz),
               reasonCode), platform).Pass?
  {
  }

  // ---------------------------------------------------------------------------
  // Worked examples on a 210-1410 MHz platform with a 15 MHz step.

  const ExamplePlatform := PlatformSpec("nvidia", "A100", 1, 210, 1410, 15)

  /** Equation 4 at fs = 0.5, pd = 0.1: raw 1410 * 9 / 11, rounded up to 1155. */
  lemma EquationFourExample()
    ensures var out := ComputeTargetFrequency(1410, 0.5, 0.1, ExamplePlatform, DefaultMinRatioOfMax).value;
      out.rawFrequencyMhz == 12690.0 / 11.0 && out.targetFrequencyMhz == 1155
  {
    var out := ComputeTargetFrequency(1410, 0.5, 0.1, ExamplePlatform, DefaultMinRatioOfMax).value;
    assert out.minAllowedMhz == 776;
    assert out.clampedFrequencyMhz == 12690.0 / 11.0;
  }

  /** fs = 0 uses the floor ceil(0.55 * 1410) = 776, rounded up to 780. */
  lemma ZeroSensitivityExample()
    ensures var out := ComputeTargetFrequency(1410, 0.0, 0.1, ExamplePlatform, DefaultMinRatioOfMax).value;
      out.minAllowedMhz == 776 && out.targetFrequencyMhz == 780
  {
    assert Ceil(0.55 * 1410.0) == 776;
  }

  /** pd = 0 keeps `freqHighMhz` = 1200, already on the grid. */
  lemma ZeroDegradationExample()
    ensures ComputeTargetFrequency(1200, 0.8, 0.0, ExamplePlatform, DefaultMinRatioOfMax).value.targetFrequencyMhz == 1200
  {
    assert Ceil(0.55 * 1410.0) == 776;
  }

  /** A floor ratio above `freqHighMhz` collapses the range onto `freqHighMhz` = 300. */
  lemma LowHighFrequencyExample()
    ensures var out := ComputeTargetFrequency(300, 0.2, 0.9, ExamplePlatform, 0.95).value;
      out.maxAllowedMhz == 300 && out.targetFrequencyMhz == 300
  {
    assert Ceil(0.95 * 1410.0) == 1340;
  }

  /** A high-frequency sample below the platform minimum: the clamped value
      lies below the grid, the bounds handed to the quantizer are inverted,
      and the target is the platform minimum, above `max_allowed`. */
  lemma HighFrequencyBelowPlatformMinExample()
    ensures var out := ComputeTargetFrequency(100, 0.5, 0.2, ExamplePlatform, 0.95).value;
      && out.maxAllowedMhz == 100 && out.clampedFrequencyMhz < 210.0
      && out.targetFrequencyMhz == 210 && out.targetFrequencyMhz > out.maxAllowedMhz
  {
    assert Ceil(0.95 * 1410.0) == 1340;
  }
}
