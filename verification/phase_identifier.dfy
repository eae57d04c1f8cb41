/** EVeREST phase identification: a trailing, duration-weighted window of
    utilization metrics, an idle classification, bucketed phase signatures
    and a hysteresis baseline that moves only when a new phase is declared. */
module PhaseIdentification {
  import opened Results
  import opened Numerics
  import opened ExperimentTypes
  import opened EverestTypes

  /** The identifier's numeric knobs. */
  datatype IdentifierConfig = IdentifierConfig(
    windowSeconds: real,
    changeThresholdPct: real,
    idleGpuThresholdPct: real,
    idleMemThresholdPct: real)

  const DefaultConfig := IdentifierConfig(5.0, 10.0, 5.0, 3.0)

  /** The active phase and its hysteresis baseline. The source keeps the id
      and the three baseline values in four optional fields that are always
      set together; here they are one optional record. */
  datatype ActivePhase = ActivePhase(phaseId: string, gpuUtilPct: real, memUtilPct: real, isIdleLike: bool)

  datatype PhaseIdentifier = PhaseIdentifier(
    config: IdentifierConfig,
    history: seq<MetricWindow>,
    historyDurationS: real,
    active: Option<ActivePhase>)

  /** Sum of the durations of the buffered windows. */
  function TotalDuration(history: seq<MetricWindow>): real
  {
    if |history| == 0 then 0.0 else history[0].durationS + TotalDuration(history[1..])
  }

  /** The constructor's checks hold and the running total matches the buffer. */
  ghost predicate Valid(p: PhaseIdentifier)
  {
    && p.config.windowSeconds > 0.0
    && p.config.changeThresholdPct > 0.0
    && p.historyDurationS == TotalDuration(p.history)
  }

  /** `PhaseIdentifier.__init__`. */
  function NewPhaseIdentifier(windowSeconds: real, changeThresholdPct: real,
                              idleGpuThresholdPct: real, idleMemThresholdPct: real): (r: Result<PhaseIdentifier, string>)
    ensures r.Ok? <==> windowSeconds > 0.0 && changeThresholdPct > 0.0
    ensures r.Ok? ==>
      && Valid(r.value)
      && r.value.config == IdentifierConfig(windowSeconds, changeThresholdPct, idleGpuThresholdPct, idleMemThresholdPct)
      && r.value.history == []
      && r.value.active.None?
  {
    if windowSeconds <= 0.0 then Err("window_seconds must be > 0.")
    else if changeThresholdPct <= 0.0 then Err("change_threshold_pct must be > 0.")
    else Ok(PhaseIdentifier(IdentifierConfig(windowSeconds, changeThresholdPct, idleGpuThresholdPct, idleMemThresholdPct),
                            [], 0.0, None))
  }

  /** `reset`: forgets the buffer and the active phase, keeps the configuration. */
  function Reset(p: PhaseIdentifier): (r: PhaseIdentifier)
    requires Valid(p)
    ensures Valid(r) && r.config == p.config
    ensures r.history == [] && r.active.None?
  {
    PhaseIdentifier(p.config, [], 0.0, None)
  }

  // ---------------------------------------------------------------------------
  // `_push_window`

  lemma {:induction false} TotalDurationAppend(history: seq<MetricWindow>, w: MetricWindow)
    ensures TotalDuration(history + [w]) == TotalDuration(history) + w.durationS
    decreases |history|
  {
    if |history| > 0 {
      assert (history + [w])[1..] == history[1..] + [w];
      TotalDurationAppend(history[1..], w);
    }
  }

  /** Drops windows from the front while the buffered duration exceeds
      `windowSeconds` and more than one window remains. */
  function TrimHistory(history: seq<MetricWindow>, total: real, windowSeconds: real): (r: (seq<MetricWindow>, real))
    requires total == TotalDuration(history)
    ensures r.1 == TotalDuration(r.0)
    ensures |r.0| <= |history|
    ensures |history| > 0 ==> |r.0| > 0
    ensures r.1 <= windowSeconds || |r.0| <= 1
    decreases |history|
  {
    if total > windowSeconds && |history| > 1 then
      TrimHistory(history[1..], total - history[0].durationS, windowSeconds)
    else (history, total)
  }

  /** Trimming only drops windows from the front. */
  lemma {:induction false} TrimKeepsSuffix(history: seq<MetricWindow>, total: real, windowSeconds: real)
    requires total == TotalDuration(history)
    ensures var r := TrimHistory(history, total, windowSeconds);
      r.0 == history[|history| - |r.0|..]
    decreases |history|
  {
    if total > windowSeconds && |history| > 1 {
      TrimKeepsSuffix(history[1..], total - history[0].durationS, windowSeconds);
    }
  }

  /** Trimming stops as early as it can: the last window dropped was dropped
      while the buffer still exceeded `windowSeconds`. */
  lemma {:induction false} TrimStopsEarly(history: seq<MetricWindow>, total: real, windowSeconds: real)
    requires total == TotalDuration(history)
    ensures var r := TrimHistory(history, total, windowSeconds);
      |r.0| < |history| ==> TotalDuration(history[|history| - |r.0| - 1..]) > windowSeconds
    decreases |history|
  {
    if total > windowSeconds && |history| > 1 {
      var rest := total - history[0].durationS;
      TrimStopsEarly(history[1..], rest, windowSeconds);
      var r := TrimHistory(history[1..], rest, windowSeconds);
      if |r.0| < |history| - 1 {
        assert history[1..][|history| - 1 - |r.0| - 1..] == history[|history| - |r.0| - 1..];
      } else {
        assert history[|history| - |r.0| - 1..] == history;
      }
    }
  }

  /** `_push_window`: append, then trim from the front. */
  function PushWindow(p: PhaseIdentifier, w: MetricWindow): (r: PhaseIdentifier)
    requires Valid(p)
    ensures Valid(r) && r.config == p.config && r.active == p.active
    ensures |r.history| > 0 && r.history[|r.history| - 1] == w
    ensures r.historyDurationS <= p.config.windowSeconds || |r.history| == 1
    ensures |r.history| <= |p.history| + 1
    ensures exists k :: 0 <= k <= |p.history| && r.history == (p.history + [w])[k..]
  {
    TotalDurationAppend(p.history, w);
    TrimKeepsSuffix(p.history + [w], p.historyDurationS + w.durationS, p.config.windowSeconds);
    var trimmed := TrimHistory(p.history + [w], p.historyDurationS + w.durationS, p.config.windowSeconds);
    PhaseIdentifier(p.config, trimmed.0, trimmed.1, p.active)
  }

  // ---------------------------------------------------------------------------
  // `_compute_weighted_averages`

  datatype Metric = Gpu | Mem

  function MetricOf(w: MetricWindow, m: Metric): real
  {
    match m
    case Gpu => w.gpuUtilAvgPct
    case Mem => w.memUtilAvgPct
  }

  /** A window's weight: its duration, negative durations counting as 0. */
  function Weight(w: MetricWindow): real
  {
    MaxReal(w.durationS, 0.0)
  }

  function WeightSum(history: seq<MetricWindow>): (r: real)
    ensures r >= 0.0
  {
    if |history| == 0 then 0.0 else Weight(history[0]) + WeightSum(history[1..])
  }

  function WeightedSum(history: seq<MetricWindow>, m: Metric): real
  {
    if |history| == 0 then 0.0 else MetricOf(history[0], m) * Weight(history[0]) + WeightedSum(history[1..], m)
  }

  function PlainSum(history: seq<MetricWindow>, m: Metric): real
  {
    if |history| == 0 then 0.0 else MetricOf(history[0], m) + PlainSum(history[1..], m)
  }

  /** The duration-weighted average of a metric over the buffer, the plain
      mean when every weight is 0, and 0 for an empty buffer. */
  function WeightedAverage(history: seq<MetricWindow>, m: Metric): (r: real)
    ensures |history| == 0 ==> r == 0.0
  {
    if |history| == 0 then 0.0
    else if WeightSum(history) == 0.0 then PlainSum(history, m) / |history| as real
    else WeightedSum(history, m) / WeightSum(history)
  }

  ghost predicate MetricWithin(history: seq<MetricWindow>, m: Metric, lo: real, hi: real)
  {
    forall i :: 0 <= i < |history| ==> lo <= MetricOf(history[i], m) <= hi
  }

  lemma MetricWithinTail(history: seq<MetricWindow>, m: Metric, lo: real, hi: real)
    requires |history| > 0 && MetricWithin(history, m, lo, hi)
    ensures lo <= MetricOf(history[0], m) <= hi
    ensures MetricWithin(history[1..], m, lo, hi)
  {
    forall i | 0 <= i < |history[1..]| ensures lo <= MetricOf(history[1..][i], m) <= hi {
      assert history[1..][i] == history[i + 1];
    }
  }

  lemma SumsUnfold(history: seq<MetricWindow>, m: Metric)
    requires |history| > 0
    ensures WeightSum(history) == Weight(history[0]) + WeightSum(history[1..])
    ensures WeightedSum(history, m) == MetricOf(history[0], m) * Weight(history[0]) + WeightedSum(history[1..], m)
  {
  }

  lemma WeightedStepLower(lo: real, v: real, wt: real, restWeight: real, restSum: real, total: real, sum: real)
    requires lo <= v && wt >= 0.0 && lo * restWeight <= restSum
    requires total == wt + restWeight && sum == v * wt + restSum
    ensures lo * total <= sum
  {
    MulMonotone(lo, v, wt);
  }

  lemma WeightedStepUpper(hi: real, v: real, wt: real, restWeight: real, restSum: real, total: real, sum: real)
    requires v <= hi && wt >= 0.0 && restSum <= hi * restWeight
    requires total == wt + restWeight && sum == v * wt + restSum
    ensures sum <= hi * total
  {
    MulMonotone(v, hi, wt);
  }

  lemma {:induction false} WeightedSumLower(history: seq<MetricWindow>, m: Metric, lo: real, hi: real)
    requires MetricWithin(history, m, lo, hi)
    ensures lo * WeightSum(history) <= WeightedSum(history, m)
    decreases |history|
  {
    if |history| == 0 {
      assert WeightSum(history) == 0.0 && WeightedSum(history, m) == 0.0;
    } else {
      MetricWithinTail(history, m, lo, hi);
      WeightedSumLower(history[1..], m, lo, hi);
      SumsUnfold(history, m);
      WeightedStepLower(lo, MetricOf(history[0], m), Weight(history[0]), WeightSum(history[1..]),
                        WeightedSum(history[1..], m), WeightSum(history), WeightedSum(history, m));
    }
  }

  lemma {:induction false} WeightedSumUpper(history: seq<MetricWindow>, m: Metric, lo: real, hi: real)
    requires MetricWithin(history, m, lo, hi)
    ensures WeightedSum(history, m) <= hi * WeightSum(history)
    decreases |history|
  {
    if |history| == 0 {
      assert WeightSum(history) == 0.0 && WeightedSum(history, m) == 0.0;
    } else {
      MetricWithinTail(history, m, lo, hi);
      WeightedSumUpper(history[1..], m, lo, hi);
      SumsUnfold(history, m);
      WeightedStepUpper(hi, MetricOf(history[0], m), Weight(history[0]), WeightSum(history[1..]),
                        WeightedSum(history[1..], m), WeightSum(history), WeightedSum(history, m));
    }
  }

  lemma {:induction false} PlainSumBounds(history: seq<MetricWindow>, m: Metric, lo: real, hi: real)
    requires MetricWithin(history, m, lo, hi)
    ensures lo * |history| as real <= PlainSum(history, m) <= hi * |history| as real
    decreases |history|
  {
    if |history| > 0 {
      MetricWithinTail(history, m, lo, hi);
      PlainSumBounds(history[1..], m, lo, hi);
      var n := |history[1..]| as real;
      assert |history| as real == n + 1.0;
      assert lo * (n + 1.0) == lo * n + lo;
      assert hi * (n + 1.0) == hi * n + hi;
    }
  }

  /** The average lies within any bounds that hold for every buffered value,
      in both the weighted and the all-zero-weight case. */
  lemma AverageWithinBounds(history: seq<MetricWindow>, m: Metric, lo: real, hi: real)
    requires |history| > 0
    requires MetricWithin(history, m, lo, hi)
    ensures lo <= WeightedAverage(history, m) <= hi
  {
    var ws := WeightSum(history);
    if ws == 0.0 {
      PlainSumBounds(history, m, lo, hi);
      var n := |history| as real;
      DivMonotone(lo * n, PlainSum(history, m), n);
      DivMonotone(PlainSum(history, m), hi * n, n);
      MulDivCancel(lo, n);
      MulDivCancel(hi, n);
    } else {
      WeightedSumLower(history, m, lo, hi);
      WeightedSumUpper(history, m, lo, hi);
      DivMonotone(lo * ws, WeightedSum(history, m), ws);
      DivMonotone(WeightedSum(history, m), hi * ws, ws);
      MulDivCancel(lo, ws);
      MulDivCancel(hi, ws);
    }
  }

  function MinMetric(history: seq<MetricWindow>, m: Metric): (r: real)
    requires |history| > 0
    ensures forall i :: 0 <= i < |history| ==> r <= MetricOf(history[i], m)
    ensures exists i :: 0 <= i < |history| && MetricOf(history[i], m) == r
  {
    if |history| == 1 then MetricOf(history[0], m)
    else
      var rest := MinMetric(history[1..], m);
      assert forall i :: 1 <= i < |history| ==> history[i] == history[1..][i - 1];
      if MetricOf(history[0], m) <= rest then MetricOf(history[0], m) else rest
  }

  function MaxMetric(history: seq<MetricWindow>, m: Metric): (r: real)
    requires |history| > 0
    ensures forall i :: 0 <= i < |history| ==> MetricOf(history[i], m) <= r
    ensures exists i :: 0 <= i < |history| && MetricOf(history[i], m) == r
  {
    if |history| == 1 then MetricOf(history[0], m)
    else
      var rest := MaxMetric(history[1..], m);
      assert forall i :: 1 <= i < |history| ==> history[i] == history[1..][i - 1];
      if MetricOf(history[0], m) >= rest then MetricOf(history[0], m) else rest
  }

  /** A buffer of one window averages to that window's own value, whatever
      its duration. */
  lemma SingleWindowAverage(w: MetricWindow, m: Metric)
    ensures WeightedAverage([w], m) == MetricOf(w, m)
  {
    assert [w][1..] == [];
    assert WeightSum([w]) == Weight(w);
    if Weight(w) == 0.0 {
      assert PlainSum([w], m) == MetricOf(w, m);
    } else {
      assert WeightedSum([w], m) == MetricOf(w, m) * Weight(w);
      MulDivCancel(MetricOf(w, m), Weight(w));
    }
  }

  /** Each average lies between the smallest and the largest buffered value. */
  lemma AverageBetweenExtremes(history: seq<MetricWindow>, m: Metric)
    requires |history| > 0
    ensures MinMetric(history, m) <= WeightedAverage(history, m) <= MaxMetric(history, m)
  {
    AverageWithinBounds(history, m, MinMetric(history, m), MaxMetric(history, m));
  }

  // ---------------------------------------------------------------------------
  // Classification, signatures and the change test.

  /** `_is_idle_like`. */
  function IsIdleLike(config: IdentifierConfig, gpuAvgPct: real, memAvgPct: real): bool
  {
    gpuAvgPct <= config.idleGpuThresholdPct && memAvgPct <= config.idleMemThresholdPct
  }

  function BucketSize(config: IdentifierConfig): (r: real)
    ensures r >= 1.0
  {
    MaxReal(config.changeThresholdPct, 1.0)
  }

  /** `floor(value / size)`, Python's float `//`. */
  function Bucket(value: real, size: real): (k: int)
    requires size > 0.0
    ensures k as real * size <= value < (k + 1) as real * size
  {
    var q := value / size;
    var f := q.Floor;
    assert q * size == value;
    assert f as real <= q < (f + 1) as real;
    MulMonotone(f as real, q, size);
    MulStrictMonotone(q, (f + 1) as real, size);
    assert q * size < (f + 1) as real * size;
    assert value < (f + 1) as real * size;
    f
  }

  /** `_build_signature`. */
  function BuildSignature(config: IdentifierConfig, gpuAvgPct: real, memAvgPct: real, isIdleLike: bool): (sig: PhaseSignature)
    ensures sig.isIdleLike == isIdleLike
    ensures sig.gpuBucket as real * BucketSize(config) <= gpuAvgPct < (sig.gpuBucket + 1) as real * BucketSize(config)
    ensures sig.memBucket as real * BucketSize(config) <= memAvgPct < (sig.memBucket + 1) as real * BucketSize(config)
  {
    PhaseSignature(Bucket(gpuAvgPct, BucketSize(config)), Bucket(memAvgPct, BucketSize(config)), isIdleLike)
  }

  /** `_relative_change_pct`: change relative to the baseline, in percent,
      the baseline's magnitude floored at 1. */
  function RelativeChangePct(current: real, baseline: real): (r: real)
    ensures r >= 0.0
    ensures r == 0.0 <==> current == baseline
  {
    var denom := MaxReal(Abs(baseline), 1.0);
    var r := Abs(current - baseline) * 100.0 / denom;
    assert r * denom == Abs(current - baseline) * 100.0;
    r
  }

  /** `_phase_changed`: an idle flip, or a relative change at or above the
      threshold in either metric. */
  function PhaseChanged(config: IdentifierConfig, baseline: ActivePhase, gpuAvgPct: real, memAvgPct: real, isIdleLike: bool): bool
  {
    || isIdleLike != baseline.isIdleLike
    || RelativeChangePct(gpuAvgPct, baseline.gpuUtilPct) >= config.changeThresholdPct
    || RelativeChangePct(memAvgPct, baseline.memUtilPct) >= config.changeThresholdPct
  }

  /** Re-observing the baseline's own averages and idle flag never reports a
      change while the threshold is positive. */
  lemma BaselineNeverChangesPhase(config: IdentifierConfig, baseline: ActivePhase)
    requires config.changeThresholdPct > 0.0
    ensures !PhaseChanged(config, baseline, baseline.gpuUtilPct, baseline.memUtilPct, baseline.isIdleLike)
  {
  }

  /** A flip between idle-like and active is always a change, however close
      the averages stay. */
  lemma IdleFlipChangesPhase(config: IdentifierConfig, baseline: ActivePhase, gpuAvgPct: real, memAvgPct: real)
    ensures PhaseChanged(config, baseline, gpuAvgPct, memAvgPct, !baseline.isIdleLike)
  {
  }

  /** Lowering both averages keeps an idle-like window idle-like. */
  lemma IdleLikeIsDownwardClosed(config: IdentifierConfig, gpu1: real, mem1: real, gpu2: real, mem2: real)
    requires gpu2 <= gpu1 && mem2 <= mem1
    ensures IsIdleLike(config, gpu1, mem1) ==> IsIdleLike(config, gpu2, mem2)
  {
  }

  // ---------------------------------------------------------------------------
  // `observe`

  /** The stable branch of `observe`: the change test against the baseline,
      which moves only when a new phase is declared. */
  function DecideStable(config: IdentifierConfig, active: Option<ActivePhase>,
                        gpuAvgPct: real, memAvgPct: real, isIdleLike: bool): (r: (ActivePhase, bool))
    ensures r.1 <==> active.None? || PhaseChanged(config, active.value, gpuAvgPct, memAvgPct, isIdleLike)
    ensures r.1 ==>
      r.0 == ActivePhase(BuildSignature(config, gpuAvgPct, memAvgPct, isIdleLike).ToPhaseId(),
                         gpuAvgPct, memAvgPct, isIdleLike)
    ensures !r.1 ==> active == Some(r.0)
  {
    if active.None? || PhaseChanged(config, active.value, gpuAvgPct, memAvgPct, isIdleLike) then
      (ActivePhase(BuildSignature(config, gpuAvgPct, memAvgPct, isIdleLike).ToPhaseId(),
                   gpuAvgPct, memAvgPct, isIdleLike), true)
    else (active.value, false)
  }

  /** The part of `observe` after the push: given the pushed buffer and its
      averages, the stability gate and the change test. */
  function Classify(config: IdentifierConfig, active: Option<ActivePhase>, pushed: PhaseIdentifier,
                    gpuAvg: real, memAvg: real): (r: (PhaseIdentifier, PhaseObservation))
    requires Valid(pushed) && pushed.config == config
    ensures Valid(r.0) && r.0.config == config && r.0.history == pushed.history
    ensures r.1.gpuUtilAvgPct == gpuAvg && r.1.memUtilAvgPct == memAvg
    ensures r.1.isIdleLike == IsIdleLike(config, gpuAvg, memAvg)
    ensures r.1.isStable <==> pushed.historyDurationS >= config.windowSeconds
    ensures !r.1.isStable ==> r.1.phaseId.None? && !r.1.isNewPhase && r.0.active == pushed.active
    ensures r.1.isStable ==> r.0.active.Some? && r.1.phaseId == Some(r.0.active.value.phaseId)
    ensures r.1.isStable ==>
      (r.1.isNewPhase <==> active.None? || PhaseChanged(config, active.value, gpuAvg, memAvg, r.1.isIdleLike))
    ensures r.1.isNewPhase ==>
      r.0.active == Some(ActivePhase(BuildSignature(config, gpuAvg, memAvg, r.1.isIdleLike).ToPhaseId(),
                                     gpuAvg, memAvg, r.1.isIdleLike))
    ensures r.1.isStable && !r.1.isNewPhase ==> r.0.active == active
  {
    var idle := IsIdleLike(config, gpuAvg, memAvg);
    if pushed.historyDurationS < config.windowSeconds then
      (pushed, PhaseObservation(None, false, false, gpuAvg, memAvg, idle))
    else
      var (next, isNewPhase) := DecideStable(config, active, gpuAvg, memAvg, idle);
      (PhaseIdentifier(config, pushed.history, pushed.historyDurationS, Some(next)),
       PhaseObservation(Some(next.phaseId), true, isNewPhase, gpuAvg, memAvg, idle))
  }

  /** `observe`: push the window, average, classify, and once the buffer
      spans `windowSeconds`, run the change test. */
  function Observe(p: PhaseIdentifier, w: MetricWindow): (r: (PhaseIdentifier, PhaseObservation))
    requires Valid(p)
    ensures Valid(r.0) && r.0.config == p.config
    ensures r.0.history == PushWindow(p, w).history
    ensures r.1.gpuUtilAvgPct == WeightedAverage(r.0.history, Gpu)
    ensures r.1.memUtilAvgPct == WeightedAverage(r.0.history, Mem)
    ensures r.1.isIdleLike == IsIdleLike(p.config, r.1.gpuUtilAvgPct, r.1.memUtilAvgPct)
    ensures r.1.isStable <==> r.0.historyDurationS >= p.config.windowSeconds
    ensures !r.1.isStable ==> r.1.phaseId.None? && !r.1.isNewPhase && r.0.active == p.active
    ensures r.1.isStable ==> r.0.active.Some? && r.1.phaseId == Some(r.0.active.value.phaseId)
    ensures r.1.isStable ==>
      (r.1.isNewPhase <==>
        p.active.None? || PhaseChanged(p.config, p.active.value, r.1.gpuUtilAvgPct, r.1.memUtilAvgPct, r.1.isIdleLike))
    ensures r.1.isNewPhase ==>
      r.0.active == Some(ActivePhase(
        BuildSignature(p.config, r.1.gpuUtilAvgPct, r.1.memUtilAvgPct, r.1.isIdleLike).ToPhaseId(),
        r.1.gpuUtilAvgPct, r.1.memUtilAvgPct, r.1.isIdleLike))
    ensures !r.1.isNewPhase ==> r.0.active == p.active
  {
    var pushed := PushWindow(p, w);
    Classify(p.config, p.active, pushed, WeightedAverage(pushed.history, Gpu), WeightedAverage(pushed.history, Mem))
  }

  /** The first stable observation after construction or `reset` declares a
      new phase whose id is the current signature's id. */
  lemma FirstStableObservationIsNewPhase(p: PhaseIdentifier, w: MetricWindow)
    requires Valid(p) && p.active.None?
    ensures var (p', obs) := Observe(p, w);
      obs.isStable ==>
        && obs.isNewPhase
        && obs.phaseId == Some(BuildSignature(p.config, obs.gpuUtilAvgPct, obs.memUtilAvgPct, obs.isIdleLike).ToPhaseId())
  {
  }

  lemma WithinThresholdIsUnchanged(config: IdentifierConfig, baseline: ActivePhase,
                                   gpuAvgPct: real, memAvgPct: real, isIdleLike: bool)
    requires isIdleLike == baseline.isIdleLike
    requires RelativeChangePct(gpuAvgPct, baseline.gpuUtilPct) < config.changeThresholdPct
    requires RelativeChangePct(memAvgPct, baseline.memUtilPct) < config.changeThresholdPct
    ensures !PhaseChanged(config, baseline, gpuAvgPct, memAvgPct, isIdleLike)
  {
  }

  /** Hysteresis: while the averages stay within the threshold of the
      baseline and the idle flag holds, the active id is reported unchanged. */
  lemma SmallChangeKeepsPhase(p: PhaseIdentifier, w: MetricWindow)
    requires Valid(p) && p.active.Some?
    ensures var (p', obs) := Observe(p, w);
      (obs.isIdleLike == p.active.value.isIdleLike
       && RelativeChangePct(obs.gpuUtilAvgPct, p.active.value.gpuUtilPct) < p.config.changeThresholdPct
       && RelativeChangePct(obs.memUtilAvgPct, p.active.value.memUtilPct) < p.config.changeThresholdPct)
      ==> !obs.isNewPhase && p'.active == p.active
          && (obs.isStable ==> obs.phaseId == Some(p.active.value.phaseId))
  {
    var (p', obs) := Observe(p, w);
    if obs.isIdleLike == p.active.value.isIdleLike
       && RelativeChangePct(obs.gpuUtilAvgPct, p.active.value.gpuUtilPct) < p.config.changeThresholdPct
       && RelativeChangePct(obs.memUtilAvgPct, p.active.value.memUtilPct) < p.config.changeThresholdPct
    {
      WithinThresholdIsUnchanged(p.config, p.active.value, obs.gpuUtilAvgPct, obs.memUtilAvgPct, obs.isIdleLike);
    }
  }

  // ---------------------------------------------------------------------------
  // Worked scenarios with one-second windows.

  /** The weighted average of three one-second windows is their mean. */
  lemma ThreeSecondAverage(a: MetricWindow, b: MetricWindow, c: MetricWindow, m: Metric)
    requires a.durationS == 1.0 && b.durationS == 1.0 && c.durationS == 1.0
    ensures WeightedAverage([a, b, c], m) == (MetricOf(a, m) + MetricOf(b, m) + MetricOf(c, m)) / 3.0
  {
    assert [a, b, c][1..] == [b, c] && [b, c][1..] == [c] && [c][1..] == [];
    assert Weight(a) == 1.0 && Weight(b) == 1.0 && Weight(c) == 1.0;
    assert WeightSum([c]) == 1.0;
    assert WeightSum([b, c]) == 2.0;
    assert WeightSum([a, b, c]) == 3.0;
    assert WeightedSum([c], m) == MetricOf(c, m);
    assert WeightedSum([b, c], m) == MetricOf(b, m) + MetricOf(c, m);
    assert WeightedSum([a, b, c], m) == MetricOf(a, m) + MetricOf(b, m) + MetricOf(c, m);
  }

  /** A push that keeps the buffer within `windowSeconds` drops nothing. */
  lemma PushWithinWindow(p: PhaseIdentifier, w: MetricWindow)
    requires Valid(p) && p.historyDurationS + w.durationS <= p.config.windowSeconds
    ensures PushWindow(p, w).history == p.history + [w]
    ensures PushWindow(p, w).historyDurationS == p.historyDurationS + w.durationS
  {
    TotalDurationAppend(p.history, w);
    var total := p.historyDurationS + w.durationS;
    assert TrimHistory(p.history + [w], total, p.config.windowSeconds) == (p.history + [w], total);
  }

  /** Trimming that needs exactly one drop. */
  lemma TrimDropsOne(history: seq<MetricWindow>, total: real, windowSeconds: real)
    requires |history| > 1 && total == TotalDuration(history)
    requires total > windowSeconds && total - history[0].durationS <= windowSeconds
    ensures TrimHistory(history, total, windowSeconds) == (history[1..], total - history[0].durationS)
  {
    var rest := total - history[0].durationS;
    assert rest == TotalDuration(history[1..]);
    assert TrimHistory(history[1..], rest, windowSeconds) == (history[1..], rest);
  }

  /** A push that overshoots by no more than the oldest window drops exactly it. */
  lemma PushDropsOldest(p: PhaseIdentifier, w: MetricWindow)
    requires Valid(p) && |p.history| >= 1
    requires p.historyDurationS + w.durationS > p.config.windowSeconds
    requires p.historyDurationS + w.durationS - p.history[0].durationS <= p.config.windowSeconds
    ensures PushWindow(p, w).history == p.history[1..] + [w]
    ensures PushWindow(p, w).historyDurationS == p.historyDurationS + w.durationS - p.history[0].durationS
  {
    TotalDurationAppend(p.history, w);
    var all := p.history + [w];
    assert all[1..] == p.history[1..] + [w];
    assert all[0] == p.history[0];
    TrimDropsOne(all, p.historyDurationS + w.durationS, p.config.windowSeconds);
  }

  /** An observation that leaves the buffer short of `windowSeconds` is a
      warm-up step: it only appends. */
  lemma WarmUpStep(p: PhaseIdentifier, w: MetricWindow)
    requires Valid(p) && p.historyDurationS + w.durationS < p.config.windowSeconds
    ensures Observe(p, w).0 == PhaseIdentifier(p.config, p.history + [w], p.historyDurationS + w.durationS, p.active)
    ensures !Observe(p, w).1.isStable
  {
    PushWithinWindow(p, w);
  }

  /** An observation that fills the buffer exactly to `windowSeconds` is
      stable and keeps every window. */
  lemma FillingStep(p: PhaseIdentifier, w: MetricWindow)
    requires Valid(p) && p.historyDurationS + w.durationS == p.config.windowSeconds
    ensures Observe(p, w).0.history == p.history + [w]
    ensures Observe(p, w).1.isStable
  {
    PushWithinWindow(p, w);
  }

  /** An observation that overshoots by the oldest window is stable and
      slides the buffer by one. */
  lemma SlidingStep(p: PhaseIdentifier, w: MetricWindow)
    requires Valid(p) && |p.history| >= 1
    requires p.historyDurationS + w.durationS - p.history[0].durationS == p.config.windowSeconds
    requires p.history[0].durationS > 0.0
    ensures Observe(p, w).0.history == p.history[1..] + [w]
    ensures Observe(p, w).1.isStable
  {
    PushDropsOldest(p, w);
  }

  const ScenarioConfig := IdentifierConfig(3.0, 10.0, 5.0, 3.0)

  /** Windows 1 and 2 of the scenario below: warm-up only. */
  lemma ScenarioWarmUp(p0: PhaseIdentifier, w1: MetricWindow, w2: MetricWindow)
    requires p0 == PhaseIdentifier(ScenarioConfig, [], 0.0, None)
    requires w1.durationS == 1.0 && w2.durationS == 1.0
    ensures var (p1, o1) := Observe(p0, w1);
      && p1 == PhaseIdentifier(ScenarioConfig, [w1], 1.0, None) && !o1.isStable
      && var (p2, o2) := Observe(p1, w2);
         p2 == PhaseIdentifier(ScenarioConfig, [w1, w2], 2.0, None) && !o2.isStable
  {
    WarmUpStep(p0, w1);
    assert [] + [w1] == [w1];
    var p1 := Observe(p0, w1).0;
    WarmUpStep(p1, w2);
  }

  /** Window 3 of the scenario below: the buffer fills and a phase is declared. */
  lemma ScenarioNewPhase(p2: PhaseIdentifier, w1: MetricWindow, w2: MetricWindow, w3: MetricWindow)
    requires Valid(p2) && p2 == PhaseIdentifier(ScenarioConfig, [w1, w2], 2.0, None)
    requires w1.durationS == 1.0 && w1.gpuUtilAvgPct == 60.0 && w1.memUtilAvgPct == 30.0
    requires w2.durationS == 1.0 && w2.gpuUtilAvgPct == 61.0 && w2.memUtilAvgPct == 29.0
    requires w3.durationS == 1.0 && w3.gpuUtilAvgPct == 59.5 && w3.memUtilAvgPct == 30.5
    ensures var (p3, o3) := Observe(p2, w3);
      && o3.isStable && o3.isNewPhase && o3.phaseId.Some?
      && p3.history == [w1, w2, w3] && p3.historyDurationS == 3.0
      && p3.active.Some? && p3.active.value.gpuUtilPct == 180.5 / 3.0 && p3.active.value.memUtilPct == 89.5 / 3.0
      && !p3.active.value.isIdleLike
  {
    FillingStep(p2, w3);
    ThreeSecondAverage(w1, w2, w3, Gpu);
    ThreeSecondAverage(w1, w2, w3, Mem);
  }

  /** Window 4 of the scenario below: the buffer slides, the averages are
      unchanged, and the phase is kept. */
  lemma ScenarioRepeat(p3: PhaseIdentifier, w1: MetricWindow, w2: MetricWindow, w3: MetricWindow, w4: MetricWindow)
    requires Valid(p3) && p3.config == ScenarioConfig && p3.history == [w1, w2, w3]
    requires p3.active.Some? && p3.active.value.gpuUtilPct == 180.5 / 3.0 && p3.active.value.memUtilPct == 89.5 / 3.0
    requires !p3.active.value.isIdleLike
    requires w1.durationS == 1.0
    requires w2.durationS == 1.0 && w2.gpuUtilAvgPct == 61.0 && w2.memUtilAvgPct == 29.0
    requires w3.durationS == 1.0 && w3.gpuUtilAvgPct == 59.5 && w3.memUtilAvgPct == 30.5
    requires w4.durationS == 1.0 && w4.gpuUtilAvgPct == 60.0 && w4.memUtilAvgPct == 30.0
    ensures var (p4, o4) := Observe(p3, w4);
      o4.isStable && !o4.isNewPhase && p4.active == p3.active && o4.phaseId == Some(p3.active.value.phaseId)
  {
    assert [w1, w2, w3][1..] == [w2, w3] && [w2, w3][1..] == [w3] && [w3][1..] == [];
    assert TotalDuration([w3]) == 1.0;
    assert TotalDuration([w2, w3]) == 2.0;
    assert p3.historyDurationS == 3.0;
    SlidingStep(p3, w4);
    var (p4, o4) := Observe(p3, w4);
    assert [w1, w2, w3][1..] == [w2, w3];
    assert p4.history == [w2, w3, w4];
    ThreeSecondAverage(w2, w3, w4, Gpu);
    ThreeSecondAverage(w2, w3, w4, Mem);
    WithinThresholdIsUnchanged(p3.config, p3.active.value, o4.gpuUtilAvgPct, o4.memUtilAvgPct, o4.isIdleLike);
  }
}
