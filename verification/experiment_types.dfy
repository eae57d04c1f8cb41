/** The shared experiment vocabulary: platform description, metric windows,
    decisions and the per-algorithm state bag. */
module ExperimentTypes {
  import opened Results

  /** The control intent an algorithm emits; exactly these four variants. */
  datatype DecisionAction = SetClock | HoldClock | ResetToMax | NoOp

  /** Hardware description of the target GPU; clocks and step in MHz. */
  datatype PlatformSpec = PlatformSpec(
    vendor: string,
    gpuModel: string,
    gpuCount: int,
    minGraphicsClockMhz: int,
    maxGraphicsClockMhz: int,
    graphicsClockStepMhz: int)

  /** The optional relative-performance entry of a window's custom metrics.
      A dedicated type rather than `Option<real>`: a window sequence with a
      generic field makes the solver's work on window buffers erratic. */
  datatype RatioReading = NoRatio | Ratio(value: real)

  /** One window of aggregated telemetry. */
  datatype MetricWindow = MetricWindow(
    sequenceId: int,
    durationS: real,
    gpuUtilAvgPct: real,
    memUtilAvgPct: real,
    graphicsClockAvgMhz: real,
    performanceRatio: RatioReading)

  /** Inputs visible to every algorithm at initialization time. */
  datatype ExperimentContext = ExperimentContext(
    platform: PlatformSpec,
    runId: string,
    workloadName: string,
    pdTarget: real,
    windowSeconds: real)
  {
    /** Expected minimum relative performance, `1 - pd_target`: a fraction
        in `[0, 1]` whenever the degradation target is one. */
    function PerformanceTargetRatio(): (r: real)
      ensures 0.0 <= pdTarget <= 1.0 ==> 0.0 <= r <= 1.0
      ensures r + pdTarget == 1.0
    {
      1.0 - pdTarget
    }
  }

  /** A control decision for the next window. */
  datatype Decision = Decision(
    action: DecisionAction,
    targetGraphicsClockMhz: Option<int>,
    reasonCode: string)
  {
    /** The decision asks the hardware to change its clock. */
    predicate RequiresClockChange()
    {
      action == SetClock || action == ResetToMax
    }
  }

  /** The mutable key/value bag an algorithm instance owns, as a value. */
  datatype AlgorithmState<V> = AlgorithmState(data: map<string, V>)
  {
    /** The stored value for `key`, or `default` when the key is absent. */
    function Get(key: string, default: V): (r: V)
      ensures key in data ==> r == data[key]
      ensures key !in data ==> r == default
    {
      if key in data then data[key] else default
    }

    /** Stores `value` under `key`; every other entry is kept. */
    function Set(key: string, value: V): (s: AlgorithmState<V>)
      ensures s.data.Keys == data.Keys + {key}
      ensures s.data[key] == value
      ensures forall k :: k in data && k != key ==> s.data[k] == data[k]
    {
      AlgorithmState(data[key := value])
    }
  }

  /** A read after a write: the written key yields the written value and
      every other key reads as before, whatever default is supplied. */
  lemma GetAfterSet<V>(s: AlgorithmState<V>, key: string, value: V, other: string, default: V)
    ensures s.Set(key, value).Get(key, default) == value
    ensures other != key ==> s.Set(key, value).Get(other, default) == s.Get(other, default)
  {
  }
}
