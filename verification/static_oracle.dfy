/** The static-oracle baseline: pick one fixed clock from an offline
    frequency sweep for the configured performance-degradation target, apply
    it on the first window, then hold it for the rest of the run, while
    counting the windows whose measured performance falls short of the
    target. */
module StaticOracle {
  import opened Results
  import opened Numerics
  import opened ExperimentTypes
  import opened Validation

  // ---------------------------------------------------------------------
  // Sweep points and the selection keys

  /** A sweep point's optional average power; a missing reading sorts as
      positive infinity (`_power_or_inf`). */
  datatype PowerReading = NoPower | Power(watts: real)

  /** One offline sweep measurement. */
  datatype SweepPoint = SweepPoint(frequencyMhz: int, performanceRatio: real, power: PowerReading)

  /** `<` on `_power_or_inf` values: infinity is below nothing, every finite
      reading is below infinity. */
  predicate PowerLess(a: PowerReading, b: PowerReading)
  {
    a.Power? && (b.NoPower? || a.watts < b.watts)
  }

  /** `<` on the selection key `(frequency_mhz, power_or_inf)`, compared as a tuple. */
  predicate KeyLess(a: SweepPoint, b: SweepPoint)
  {
    a.frequencyMhz < b.frequencyMhz || (a.frequencyMhz == b.frequencyMhz && PowerLess(a.power, b.power))
  }

  /** `<` on the fallback key `(performance_ratio, frequency_mhz)`. */
  predicate FallbackLess(a: SweepPoint, b: SweepPoint)
  {
    a.performanceRatio < b.performanceRatio
    || (a.performanceRatio == b.performanceRatio && a.frequencyMhz < b.frequencyMhz)
  }

  /** `1 - clamp(pd_target, 0, 0.99)`: the relative performance a point must reach. */
  function TargetRatio(pdTarget: real): (t: real)
    ensures 0.01 <= t <= 1.0
    ensures 0.0 <= pdTarget <= 0.99 ==> t == 1.0 - pdTarget
    ensures pdTarget < 0.0 ==> t == 1.0
    ensures pdTarget > 0.99 ==> t == 0.01
  {
    1.0 - Clamp(pdTarget, 0.0, 0.99)
  }

  /** Within the clamp range the oracle's target ratio is the context's own
      `performance_target_ratio`. */
  lemma TargetRatioMatchesContext(ctx: ExperimentContext)
    requires 0.0 <= ctx.pdTarget <= 0.99
    ensures TargetRatio(ctx.pdTarget) == ctx.PerformanceTargetRatio()
  {
  }

  predicate Qualifies(p: SweepPoint, target: real)
  {
    p.performanceRatio >= target
  }

  /** The `valid_points` comprehension: the qualifying points, in input order. */
  function Qualifying(points: seq<SweepPoint>, target: real): (r: seq<SweepPoint>)
    ensures forall p :: p in r <==> p in points && Qualifies(p, target)
    ensures |r| <= |points|
  {
    if |points| == 0 then []
    else (if Qualifies(points[0], target) then [points[0]] else []) + Qualifying(points[1..], target)
  }

  /** Python's `min(s, key=...)`: the index of the first point whose key no
      other point's key is below. */
  function MinKeyIndex(s: seq<SweepPoint>): (i: nat)
    requires |s| > 0
    ensures i < |s|
    ensures forall j :: 0 <= j < |s| ==> !KeyLess(s[j], s[i])
    ensures forall j :: 0 <= j < i ==> KeyLess(s[i], s[j])
  {
    if |s| == 1 then 0
    else
      var m := MinKeyIndex(s[..|s| - 1]);
      assert forall j :: 0 <= j < |s| - 1 ==> s[..|s| - 1][j] == s[j];
      if KeyLess(s[|s| - 1], s[m]) then |s| - 1 else m
  }

  /** Python's `max(s, key=...)`: the index of the first point whose
      fallback key no other point's key exceeds. */
  function MaxFallbackIndex(s: seq<SweepPoint>): (i: nat)
    requires |s| > 0
    ensures i < |s|
    ensures forall j :: 0 <= j < |s| ==> !FallbackLess(s[i], s[j])
    ensures forall j :: 0 <= j < i ==> FallbackLess(s[j], s[i])
  {
    if |s| == 1 then 0
    else
      var m := MaxFallbackIndex(s[..|s| - 1]);
      assert forall j :: 0 <= j < |s| - 1 ==> s[..|s| - 1][j] == s[j];
      if FallbackLess(s[m], s[|s| - 1]) then |s| - 1 else m
  }

  /** The point the selector settles on and whether it meets the target:
      the least-key qualifying point when there is one, otherwise the point
      with the best fallback key. */
  function SelectPoint(points: seq<SweepPoint>, target: real): (r: (SweepPoint, bool))
    requires |points| > 0
    ensures r.0 in points
    ensures r.1 <==> exists p :: p in points && Qualifies(p, target)
    ensures r.1 ==> Qualifies(r.0, target)
    ensures r.1 ==> forall q :: q in points && Qualifies(q, target) ==> !KeyLess(q, r.0)
    ensures !r.1 ==> forall q :: q in points ==> !FallbackLess(r.0, q)
  {
    var valid := Qualifying(points, target);
    if |valid| > 0 then
      var i := MinKeyIndex(valid);
      assert forall q :: q in valid ==> exists j :: 0 <= j < |valid| && valid[j] == q;
      (valid[i], true)
    else
      var i := MaxFallbackIndex(points);
      assert forall q :: q in points ==> exists j :: 0 <= j < |points| && points[j] == q;
      (points[i], false)
  }

  // ---------------------------------------------------------------------
  // Clock selection

  datatype Selection = Selection(frequencyMhz: int, meetsTarget: bool)

  datatype SelectionError = EmptySweep

  /** `f` is the frequency of a qualifying point and no qualifying point is slower. */
  ghost predicate IsLowestQualifying(points: seq<SweepPoint>, target: real, f: int)
  {
    (exists p :: p in points && Qualifies(p, target) && p.frequencyMhz == f)
    && forall p :: p in points && Qualifies(p, target) ==> f <= p.frequencyMhz
  }

  /** `f` is the frequency of a point with the best ratio, and no point with
      that same ratio runs faster. */
  ghost predicate IsBestFallback(points: seq<SweepPoint>, f: int)
  {
    exists p :: p in points && p.frequencyMhz == f
      && forall q :: q in points ==> (q.performanceRatio < p.performanceRatio
                                      || (q.performanceRatio == p.performanceRatio && q.frequencyMhz <= f))
  }

  /** `choose_static_oracle_clock`. */
  function ChooseStaticOracleClock(points: seq<SweepPoint>, pdTarget: real): (r: Result<Selection, SelectionError>)
    ensures r.Err? <==> |points| == 0
    ensures r.Ok? ==> exists p :: p in points && p.frequencyMhz == r.value.frequencyMhz
    ensures r.Ok? ==> (r.value.meetsTarget <==> exists p :: p in points && Qualifies(p, TargetRatio(pdTarget)))
    ensures r.Ok? && r.value.meetsTarget ==> IsLowestQualifying(points, TargetRatio(pdTarget), r.value.frequencyMhz)
    ensures r.Ok? && !r.value.meetsTarget ==> IsBestFallback(points, r.value.frequencyMhz)
  {
    if |points| == 0 then Err(EmptySweep)
    else
      var (p, meets) := SelectPoint(points, TargetRatio(pdTarget));
      Ok(Selection(p.frequencyMhz, meets))
  }

  /** The lowest qualifying frequency is determined by the points alone, so
      the selection is the only frequency the contract admits. */
  lemma LowestQualifyingIsUnique(points: seq<SweepPoint>, target: real, f: int, g: int)
    requires IsLowestQualifying(points, target, f) && IsLowestQualifying(points, target, g)
    ensures f == g
  {
  }

  lemma BestFallbackIsUnique(points: seq<SweepPoint>, f: int, g: int)
    requires IsBestFallback(points, f) && IsBestFallback(points, g)
    ensures f == g
  {
  }

  /** `other` lists the same frequencies and ratios as `points`, position
      by position, whatever its power readings. */
  ghost predicate SameShape(points: seq<SweepPoint>, other: seq<SweepPoint>)
  {
    |points| == |other|
    && forall i :: 0 <= i < |points| ==>
         other[i].frequencyMhz == points[i].frequencyMhz && other[i].performanceRatio == points[i].performanceRatio
  }

  /** Power readings only order points of equal frequency: rewriting every
      point's power leaves the chosen clock unchanged. */
  lemma PowerNeverChangesChoice(points: seq<SweepPoint>, repowered: seq<SweepPoint>, pdTarget: real)
    requires SameShape(points, repowered)
    ensures ChooseStaticOracleClock(points, pdTarget) == ChooseStaticOracleClock(repowered, pdTarget)
  {
    var a := ChooseStaticOracleClock(points, pdTarget);
    var b := ChooseStaticOracleClock(repowered, pdTarget);
    var t := TargetRatio(pdTarget);
    if |points| > 0 {
      QualifyingTransfers(points, repowered, t);
      QualifyingTransfers(repowered, points, t);
      if a.value.meetsTarget {
        LowestQualifyingTransfers(points, repowered, t, a.value.frequencyMhz);
        LowestQualifyingIsUnique(repowered, t, a.value.frequencyMhz, b.value.frequencyMhz);
      } else {
        BestFallbackTransfers(points, repowered, a.value.frequencyMhz);
        BestFallbackIsUnique(repowered, a.value.frequencyMhz, b.value.frequencyMhz);
      }
    }
  }

  lemma QualifyingTransfers(points: seq<SweepPoint>, other: seq<SweepPoint>, target: real)
    requires SameShape(points, other) || SameShape(other, points)
    ensures (exists p :: p in points && Qualifies(p, target)) ==> (exists q :: q in other && Qualifies(q, target))
  {
    if p :| p in points && Qualifies(p, target) {
      var i :| 0 <= i < |points| && points[i] == p;
      assert other[i] in other && Qualifies(other[i], target);
    }
  }

  lemma LowestQualifyingTransfers(points: seq<SweepPoint>, other: seq<SweepPoint>, target: real, f: int)
    requires SameShape(points, other)
    requires IsLowestQualifying(points, target, f)
    ensures IsLowestQualifying(other, target, f)
  {
    var p :| p in points && Qualifies(p, target) && p.frequencyMhz == f;
    var i :| 0 <= i < |points| && points[i] == p;
    assert other[i] in other && Qualifies(other[i], target) && other[i].frequencyMhz == f;
    forall q | q in other && Qualifies(q, target)
      ensures f <= q.frequencyMhz
    {
      var j :| 0 <= j < |other| && other[j] == q;
      assert points[j] in points && Qualifies(points[j], target);
    }
  }

  lemma BestFallbackTransfers(points: seq<SweepPoint>, other: seq<SweepPoint>, f: int)
    requires SameShape(points, other)
    requires IsBestFallback(points, f)
    ensures IsBestFallback(other, f)
  {
    var p :| p in points && p.frequencyMhz == f
      && forall q :: q in points ==> (q.performanceRatio < p.performanceRatio
                                      || (q.performanceRatio == p.performanceRatio && q.frequencyMhz <= f));
    var i :| 0 <= i < |points| && points[i] == p;
    var best := other[i];
    assert best in other && best.frequencyMhz == f;
    forall r | r in other
      ensures r.performanceRatio < best.performanceRatio
              || (r.performanceRatio == best.performanceRatio && r.frequencyMhz <= f)
    {
      var j :| 0 <= j < |other| && other[j] == r;
      assert points[j] in points;
    }
  }

  // ---------------------------------------------------------------------
  // Profile lookup

  /** A configuration value as far as profile lookup inspects it: a list of
      sweep points, a nested mapping, an explicit null, or anything else. */
  datatype ConfigValue =
    | PointList(points: seq<SweepPoint>)
    | Mapping(entries: map<string, ConfigValue>)
    | NullValue
    | OtherValue

  datatype ProfileError = NoProfileList

  /** The object `_load_profile_for_workload` settles on before its type
      check; `NullValue` stands for Python's `None`. */
  function ProfileObject(config: map<string, ConfigValue>, workloadName: string): ConfigValue
  {
    var fromWorkloads :=
      if "workload_profiles" in config && config["workload_profiles"].Mapping? then
        var profiles := config["workload_profiles"].entries;
        if workloadName in profiles then profiles[workloadName]
        else if "default" in profiles then profiles["default"]
        else NullValue
      else NullValue;
    if fromWorkloads.NullValue? then (if "profile" in config then config["profile"] else NullValue)
    else fromWorkloads
  }

  /** Whether `config` has a `workload_profiles` mapping with an entry for
      `key`, whether that entry is null or not. */
  predicate HasWorkloadEntry(config: map<string, ConfigValue>, key: string)
  {
    "workload_profiles" in config && config["workload_profiles"].Mapping?
    && key in config["workload_profiles"].entries
  }

  /** The entry of the `workload_profiles` mapping for `key`. */
  function WorkloadEntry(config: map<string, ConfigValue>, key: string): ConfigValue
    requires HasWorkloadEntry(config, key)
  {
    config["workload_profiles"].entries[key]
  }

  /** The `workload_profiles` mapping settles the lookup: the workload's own
      entry, or failing that the `default` entry, is present and not null. */
  predicate MappingAnswers(config: map<string, ConfigValue>, workloadName: string)
  {
    if HasWorkloadEntry(config, workloadName) then WorkloadEntry(config, workloadName) != NullValue
    else HasWorkloadEntry(config, "default") && WorkloadEntry(config, "default") != NullValue
  }

  /** `_load_profile_for_workload`, with entries already typed. The lookup
      order is the workload's own entry, then `default`, then the top-level
      `profile`; a null answer passes to the next source, and an answer that
      is not a list is an error. */
  function LoadProfileForWorkload(config: map<string, ConfigValue>, workloadName: string): (r: Result<seq<SweepPoint>, ProfileError>)
    ensures HasWorkloadEntry(config, workloadName) && WorkloadEntry(config, workloadName) != NullValue ==>
      && (r.Ok? <==> WorkloadEntry(config, workloadName).PointList?)
      && (r.Ok? ==> r.value == WorkloadEntry(config, workloadName).points)
    ensures !HasWorkloadEntry(config, workloadName) && HasWorkloadEntry(config, "default")
            && WorkloadEntry(config, "default") != NullValue ==>
      && (r.Ok? <==> WorkloadEntry(config, "default").PointList?)
      && (r.Ok? ==> r.value == WorkloadEntry(config, "default").points)
    ensures !MappingAnswers(config, workloadName) ==>
      && (r.Ok? <==> "profile" in config && config["profile"].PointList?)
      && (r.Ok? ==> r.value == config["profile"].points)
  {
    match ProfileObject(config, workloadName)
    case PointList(points) => Ok(points)
    case _ => Err(NoProfileList)
  }

  /** A workload's own list wins over the `default` entry and over the
      top-level profile. */
  lemma WorkloadProfileWins(config: map<string, ConfigValue>, workloadName: string, points: seq<SweepPoint>)
    requires HasWorkloadEntry(config, workloadName)
    requires WorkloadEntry(config, workloadName) == PointList(points)
    ensures LoadProfileForWorkload(config, workloadName) == Ok(points)
  {
  }

  /** Without an entry for the workload, the `default` entry is used,
      whatever the top-level profile holds. */
  lemma DefaultProfileIsFallback(config: map<string, ConfigValue>, workloadName: string, points: seq<SweepPoint>)
    requires !HasWorkloadEntry(config, workloadName) && HasWorkloadEntry(config, "default")
    requires WorkloadEntry(config, "default") == PointList(points)
    ensures LoadProfileForWorkload(config, workloadName) == Ok(points)
  {
  }

  /** Once the workload mapping answers with a non-null entry, the
      top-level profile plays no part, whatever it holds. */
  lemma TopLevelProfileIgnoredWhenMappingAnswers(config: map<string, ConfigValue>, workloadName: string, other: ConfigValue)
    requires HasWorkloadEntry(config, workloadName)
    requires WorkloadEntry(config, workloadName) != NullValue
    ensures LoadProfileForWorkload(config["profile" := other], workloadName) == LoadProfileForWorkload(config, workloadName)
  {
    var c2 := config["profile" := other];
    assert c2["workload_profiles"] == config["workload_profiles"];
  }

  /** An explicit null entry for the workload skips the `default` entry and
      goes straight to the top-level profile. */
  lemma NullWorkloadEntryUsesTopLevelProfile(config: map<string, ConfigValue>, workloadName: string, points: seq<SweepPoint>)
    requires HasWorkloadEntry(config, workloadName)
    requires WorkloadEntry(config, workloadName) == NullValue
    requires "profile" in config && config["profile"] == PointList(points)
    ensures LoadProfileForWorkload(config, workloadName) == Ok(points)
  {
  }

  /** A present but non-list entry for the workload is an error: it does
      not fall through to `default`. */
  lemma MalformedWorkloadEntryFails(config: map<string, ConfigValue>, workloadName: string)
    requires HasWorkloadEntry(config, workloadName)
    requires !WorkloadEntry(config, workloadName).PointList?
    requires WorkloadEntry(config, workloadName) != NullValue
    ensures LoadProfileForWorkload(config, workloadName).Err?
  {
  }

  /** An explicit null `default` entry passes the lookup on to the top-level
      profile. */
  lemma NullDefaultUsesTopLevelProfile(config: map<string, ConfigValue>, workloadName: string, points: seq<SweepPoint>)
    requires !HasWorkloadEntry(config, workloadName) && HasWorkloadEntry(config, "default")
    requires WorkloadEntry(config, "default") == NullValue
    requires "profile" in config && config["profile"] == PointList(points)
    ensures LoadProfileForWorkload(config, workloadName) == Ok(points)
  {
  }

  /** A present but non-list `default` entry is an error: it does not fall
      through to the top-level profile. */
  lemma MalformedDefaultFails(config: map<string, ConfigValue>, workloadName: string)
    requires !HasWorkloadEntry(config, workloadName) && HasWorkloadEntry(config, "default")
    requires !WorkloadEntry(config, "default").PointList? && WorkloadEntry(config, "default") != NullValue
    ensures LoadProfileForWorkload(config, workloadName).Err?
  {
  }

  /** A `workload_profiles` value that is not a mapping is ignored: the
      lookup behaves as if the key were absent. */
  lemma NonMappingWorkloadProfilesIgnored(config: map<string, ConfigValue>, workloadName: string)
    requires "workload_profiles" in config && !config["workload_profiles"].Mapping?
    ensures LoadProfileForWorkload(config, workloadName)
         == LoadProfileForWorkload(config - {"workload_profiles"}, workloadName)
  {
    var c2 := config - {"workload_profiles"};
    assert "profile" in config ==> "profile" in c2 && c2["profile"] == config["profile"];
  }

  /** A configuration with neither key cannot be loaded. */
  lemma MissingProfileFails(config: map<string, ConfigValue>, workloadName: string)
    requires "workload_profiles" !in config && "profile" !in config
    ensures LoadProfileForWorkload(config, workloadName).Err?
  {
  }

  // ---------------------------------------------------------------------
  // Policy state and decisions

  /** The entries `initialize` stores in the policy's state bag, as a record. */
  datatype OracleState = OracleState(
    runId: string,
    pdTarget: real,
    targetRatio: real,
    selectedClockMhz: int,
    selectionMeetsTarget: bool,
    decisionEmitted: bool,
    totalWindows: int,
    pdViolationCount: int,
    maxPdViolation: real)

  /** Why `initialize` raises: no profile list could be found, or the list is empty. */
  datatype OracleError = MissingProfile | EmptyProfile

  const AlreadyAtTargetReason := "oracle_static_already_at_target"
  const ApplySelectedReason := "oracle_static_apply_selected_clock"
  const HoldSelectedReason := "oracle_static_hold_selected_clock"

  /** `StaticOraclePolicy.initialize`: load the workload's profile, choose
      the clock, clamp it into the platform's range and zero the counters. */
  function Initialize(ctx: ExperimentContext, config: map<string, ConfigValue>): (r: Result<OracleState, OracleError>)
    ensures r.Err? <==> LoadProfileForWorkload(config, ctx.workloadName).Err?
                        || LoadProfileForWorkload(config, ctx.workloadName).value == []
    ensures r.Ok? ==>
      var sel := ChooseStaticOracleClock(LoadProfileForWorkload(config, ctx.workloadName).value, ctx.pdTarget).value;
      var lo := ctx.platform.minGraphicsClockMhz;
      var hi := ctx.platform.maxGraphicsClockMhz;
      && (lo <= hi ==> lo <= r.value.selectedClockMhz <= hi)
      && (lo <= sel.frequencyMhz <= hi ==> r.value.selectedClockMhz == sel.frequencyMhz)
      && (sel.frequencyMhz < lo ==> r.value.selectedClockMhz == lo)
      && (lo <= hi < sel.frequencyMhz ==> r.value.selectedClockMhz == hi)
      && (hi < lo ==> r.value.selectedClockMhz == lo)
      && r.value.selectionMeetsTarget == sel.meetsTarget
    ensures r.Ok? ==>
      && r.value.runId == ctx.runId
      && r.value.pdTarget == ctx.pdTarget
      && r.value.targetRatio == TargetRatio(ctx.pdTarget)
      && !r.value.decisionEmitted
      && r.value.totalWindows == 0
      && r.value.pdViolationCount == 0
      && r.value.maxPdViolation == 0.0
  {
    match LoadProfileForWorkload(config, ctx.workloadName)
    case Err(_) => Err(MissingProfile)
    case Ok(points) =>
      match ChooseStaticOracleClock(points, ctx.pdTarget)
      case Err(_) => Err(EmptyProfile)
      case Ok(sel) =>
        var clock := ClampInt(sel.frequencyMhz, ctx.platform.minGraphicsClockMhz, ctx.platform.maxGraphicsClockMhz);
        Ok(OracleState(ctx.runId, ctx.pdTarget, TargetRatio(ctx.pdTarget), clock, sel.meetsTarget,
                       false, 0, 0, 0.0))
  }

  /** `_is_same_clock`: the observed average is within half a MHz of the target. */
  function IsSameClock(observedMhz: real, targetMhz: int): (b: bool)
    ensures b <==> targetMhz as real - 0.5 < observedMhz < targetMhz as real + 0.5
  {
    Abs(observedMhz - targetMhz as real) < 0.5
  }

  /** The window's measured performance falls short of the target ratio. */
  predicate FallsShort(ratio: RatioReading, targetRatio: real)
  {
    ratio.Ratio? && ratio.value < targetRatio
  }

  /** `_update_pd_violation_if_present`. */
  function UpdatePdViolation(ratio: RatioReading, s: OracleState): (r: OracleState)
    ensures r == s.(pdViolationCount := r.pdViolationCount, maxPdViolation := r.maxPdViolation)
    ensures FallsShort(ratio, s.targetRatio) ==>
      r.pdViolationCount == s.pdViolationCount + 1
      && r.maxPdViolation == MaxReal(s.maxPdViolation, s.targetRatio - ratio.value)
    ensures !FallsShort(ratio, s.targetRatio) ==> r == s
  {
    match ratio
    case NoRatio => s
    case Ratio(value) =>
      var violation := MaxReal(0.0, s.targetRatio - value);
      if violation <= 0.0 then s
      else s.(pdViolationCount := s.pdViolationCount + 1,
              maxPdViolation := MaxReal(s.maxPdViolation, violation))
  }

  /** The decision every window after the first receives. */
  const HoldDecision := Decision(HoldClock, None, HoldSelectedReason)

  /** `StaticOraclePolicy.on_window`. */
  function OnWindow(s: OracleState, w: MetricWindow): (r: (OracleState, Decision))
    ensures r.0.totalWindows == s.totalWindows + 1
    ensures r.0.decisionEmitted
    ensures r.0.runId == s.runId && r.0.pdTarget == s.pdTarget && r.0.targetRatio == s.targetRatio
    ensures r.0.selectedClockMhz == s.selectedClockMhz && r.0.selectionMeetsTarget == s.selectionMeetsTarget
    ensures r.0.pdViolationCount == UpdatePdViolation(w.performanceRatio, s).pdViolationCount
    ensures r.0.maxPdViolation == UpdatePdViolation(w.performanceRatio, s).maxPdViolation
    ensures s.decisionEmitted ==> r.1 == HoldDecision
    ensures !s.decisionEmitted && !IsSameClock(w.graphicsClockAvgMhz, s.selectedClockMhz) ==>
      r.1 == Decision(SetClock, Some(s.selectedClockMhz), ApplySelectedReason)
    ensures !s.decisionEmitted && IsSameClock(w.graphicsClockAvgMhz, s.selectedClockMhz) ==>
      r.1 == Decision(HoldClock, None, AlreadyAtTargetReason)
  {
    var counted := s.(totalWindows := s.totalWindows + 1);
    var updated := UpdatePdViolation(w.performanceRatio, counted);
    if !s.decisionEmitted then
      var emitted := updated.(decisionEmitted := true);
      if IsSameClock(w.graphicsClockAvgMhz, s.selectedClockMhz) then
        (emitted, Decision(HoldClock, None, AlreadyAtTargetReason))
      else
        (emitted, Decision(SetClock, Some(s.selectedClockMhz), ApplySelectedReason))
    else
      (updated, HoldDecision)
  }

  /** Every decision `on_window` emits passes the legality gate once the
      selected clock lies in the platform's range. */
  lemma OnWindowDecisionIsLegal(s: OracleState, w: MetricWindow, platform: PlatformSpec)
    requires platform.minGraphicsClockMhz <= s.selectedClockMhz <= platform.maxGraphicsClockMhz
    ensures ValidateDecision(OnWindow(s, w).1, platform).Pass?
  {
  }

  /** After a successful `initialize` on a platform with a well-formed clock
      range, the first window's decision is legal, whatever the profile
      proposed. */
  lemma FirstDecisionIsLegal(ctx: ExperimentContext, config: map<string, ConfigValue>, w: MetricWindow)
    requires ctx.platform.minGraphicsClockMhz <= ctx.platform.maxGraphicsClockMhz
    requires Initialize(ctx, config).Ok?
    ensures ValidateDecision(OnWindow(Initialize(ctx, config).value, w).1, ctx.platform).Pass?
  {
    OnWindowDecisionIsLegal(Initialize(ctx, config).value, w, ctx.platform);
  }

  // ---------------------------------------------------------------------
  // A run of windows

  /** Feeds the windows to `on_window` in order, collecting the decisions. */
  function RunWindows(s: OracleState, ws: seq<MetricWindow>): (r: (OracleState, seq<Decision>))
    ensures |r.1| == |ws|
    decreases |ws|
  {
    if |ws| == 0 then (s, [])
    else
      var step := OnWindow(s, ws[0]);
      var rest := RunWindows(step.0, ws[1..]);
      (rest.0, [step.1] + rest.1)
  }

  /** The number of windows whose measured performance falls short. */
  function CountShort(ws: seq<MetricWindow>, targetRatio: real): nat
  {
    if |ws| == 0 then 0
    else (if FallsShort(ws[0].performanceRatio, targetRatio) then 1 else 0) + CountShort(ws[1..], targetRatio)
  }

  /** A run counts every window and never touches the selection. */
  lemma {:induction false} RunCountsWindows(s: OracleState, ws: seq<MetricWindow>)
    ensures RunWindows(s, ws).0.totalWindows == s.totalWindows + |ws|
    ensures RunWindows(s, ws).0.selectedClockMhz == s.selectedClockMhz
    ensures RunWindows(s, ws).0.targetRatio == s.targetRatio
    ensures RunWindows(s, ws).0.decisionEmitted <==> s.decisionEmitted || |ws| > 0
    decreases |ws|
  {
    if |ws| > 0 {
      RunCountsWindows(OnWindow(s, ws[0]).0, ws[1..]);
    }
  }

  /** Apply once, then hold: after the first decision of a run every
      decision holds the clock with no target, and a run that starts after
      the first decision only holds. */
  lemma {:induction false} RunHoldsAfterFirst(s: OracleState, ws: seq<MetricWindow>)
    ensures forall i :: 0 < i < |ws| ==> RunWindows(s, ws).1[i] == HoldDecision
    ensures s.decisionEmitted ==> forall i :: 0 <= i < |ws| ==> RunWindows(s, ws).1[i] == HoldDecision
    decreases |ws|
  {
    if |ws| > 0 {
      var s1 := OnWindow(s, ws[0]).0;
      RunHoldsAfterFirst(s1, ws[1..]);
      var ds := RunWindows(s, ws).1;
      assert ds == [OnWindow(s, ws[0]).1] + RunWindows(s1, ws[1..]).1;
      assert forall i :: 0 < i < |ws| ==> ds[i] == RunWindows(s1, ws[1..]).1[i - 1];
    }
  }

  /** Every decision of a run passes the legality gate once the selected
      clock lies in the platform's range. */
  lemma {:induction false} RunDecisionsAreLegal(s: OracleState, ws: seq<MetricWindow>, platform: PlatformSpec)
    requires platform.minGraphicsClockMhz <= s.selectedClockMhz <= platform.maxGraphicsClockMhz
    ensures forall i :: 0 <= i < |ws| ==> ValidateDecision(RunWindows(s, ws).1[i], platform).Pass?
    decreases |ws|
  {
    if |ws| > 0 {
      var s1 := OnWindow(s, ws[0]).0;
      OnWindowDecisionIsLegal(s, ws[0], platform);
      RunDecisionsAreLegal(s1, ws[1..], platform);
      var ds := RunWindows(s, ws).1;
      assert ds == [OnWindow(s, ws[0]).1] + RunWindows(s1, ws[1..]).1;
      assert forall i :: 0 < i < |ws| ==> ds[i] == RunWindows(s1, ws[1..]).1[i - 1];
    }
  }

  /** PD-violation tracking over a run: the count grows by exactly the
      number of short windows, and the recorded maximum is the running
      maximum of the shortfalls, starting from the stored one. */
  lemma {:induction false} RunTracksViolations(s: OracleState, ws: seq<MetricWindow>)
    ensures RunWindows(s, ws).0.pdViolationCount == s.pdViolationCount + CountShort(ws, s.targetRatio)
    ensures RunWindows(s, ws).0.maxPdViolation >= s.maxPdViolation
    ensures forall i :: 0 <= i < |ws| && FallsShort(ws[i].performanceRatio, s.targetRatio) ==>
      RunWindows(s, ws).0.maxPdViolation >= s.targetRatio - ws[i].performanceRatio.value
    ensures RunWindows(s, ws).0.maxPdViolation == s.maxPdViolation
      || exists i :: 0 <= i < |ws| && FallsShort(ws[i].performanceRatio, s.targetRatio)
                     && RunWindows(s, ws).0.maxPdViolation == s.targetRatio - ws[i].performanceRatio.value
    decreases |ws|
  {
    if |ws| > 0 {
      var s1 := OnWindow(s, ws[0]).0;
      RunTracksViolations(s1, ws[1..]);
      var final := RunWindows(s, ws).0;
      assert final == RunWindows(s1, ws[1..]).0;
      assert forall i :: 0 < i < |ws| ==> ws[i] == ws[1..][i - 1];
      if final.maxPdViolation != s.maxPdViolation {
        if final.maxPdViolation == s1.maxPdViolation {
          assert FallsShort(ws[0].performanceRatio, s.targetRatio);
        } else {
          var j :| 0 <= j < |ws| - 1 && FallsShort(ws[1..][j].performanceRatio, s.targetRatio)
                   && final.maxPdViolation == s.targetRatio - ws[1..][j].performanceRatio.value;
          assert ws[j + 1] == ws[1..][j];
        }
      }
    }
  }

  // ---------------------------------------------------------------------
  // Worked examples on an A100-like platform (210-1410 MHz in 15 MHz steps)

  const ExamplePlatform := PlatformSpec("nvidia", "A100", 1, 210, 1410, 15)

  function ExampleContext(workloadName: string, pdTarget: real): ExperimentContext
  {
    ExperimentContext(ExamplePlatform, "run-001", workloadName, pdTarget, 5.0)
  }

  /** A one-second window at the given clock, with an optional performance ratio. */
  function ExampleWindow(sequenceId: int, clockMhz: real, ratio: RatioReading): MetricWindow
  {
    MetricWindow(sequenceId, 1.0, 50.0, 30.0, clockMhz, ratio)
  }

  /** With a 10% budget the slowest point reaching 0.9 is 1260 MHz. */
  lemma ChooseLowestMeetingTarget()
    ensures ChooseStaticOracleClock(
      [SweepPoint(1410, 1.0, NoPower), SweepPoint(1260, 0.95, NoPower), SweepPoint(1110, 0.88, NoPower)], 0.1)
      == Ok(Selection(1260, true))
  {
    var pts := [SweepPoint(1410, 1.0, NoPower), SweepPoint(1260, 0.95, NoPower), SweepPoint(1110, 0.88, NoPower)];
    assert pts[1] in pts && Qualifies(pts[1], TargetRatio(0.1));
  }

  /** When no point reaches 0.9, the best-performing point is chosen and
      the selection is marked as missing the target. */
  lemma ChooseFallbackWhenUnreachable()
    ensures ChooseStaticOracleClock(
      [SweepPoint(1410, 0.85, NoPower), SweepPoint(1260, 0.81, NoPower), SweepPoint(1110, 0.74, NoPower)], 0.1)
      == Ok(Selection(1410, false))
  {
    var pts := [SweepPoint(1410, 0.85, NoPower), SweepPoint(1260, 0.81, NoPower), SweepPoint(1110, 0.74, NoPower)];
    assert pts[0] in pts;
  }

  /** Two points at the same frequency: the one with a power reading beats
      the one without, and the lower reading beats the higher. */
  lemma PowerBreaksFrequencyTies()
    ensures SelectPoint([SweepPoint(1260, 0.95, NoPower), SweepPoint(1260, 0.95, Power(180.0))], 0.9).0.power == Power(180.0)
    ensures SelectPoint([SweepPoint(1260, 0.95, Power(200.0)), SweepPoint(1260, 0.95, Power(180.0))], 0.9).0.power == Power(180.0)
  {
    var a := [SweepPoint(1260, 0.95, NoPower), SweepPoint(1260, 0.95, Power(180.0))];
    var b := [SweepPoint(1260, 0.95, Power(200.0)), SweepPoint(1260, 0.95, Power(180.0))];
    assert a[1] in a && b[1] in b;
  }

  /** `initialize` adopts an in-range selection unchanged. */
  lemma InitializeAdoptsSelection(ctx: ExperimentContext, config: map<string, ConfigValue>,
                                  points: seq<SweepPoint>, sel: Selection, s0: OracleState)
    requires LoadProfileForWorkload(config, ctx.workloadName) == Ok(points)
    requires ChooseStaticOracleClock(points, ctx.pdTarget) == Ok(sel)
    requires ctx.platform.minGraphicsClockMhz <= sel.frequencyMhz <= ctx.platform.maxGraphicsClockMhz
    requires Initialize(ctx, config) == Ok(s0)
    ensures s0.selectedClockMhz == sel.frequencyMhz && s0.selectionMeetsTarget == sel.meetsTarget
    ensures !s0.decisionEmitted && s0.totalWindows == 0
  {
  }

  /** Set once, then hold: the first window at 1410 MHz receives SET 1260,
      the second HOLD with no target, after two windows. */
  lemma SetsOnceThenHolds(points: seq<SweepPoint>, s0: OracleState)
    requires points == [SweepPoint(1410, 1.0, NoPower), SweepPoint(1260, 0.93, NoPower), SweepPoint(1110, 0.85, NoPower)]
    requires Initialize(ExampleContext("lammps-reaxff", 0.1), map["profile" := PointList(points)]) == Ok(s0)
    ensures s0.selectedClockMhz == 1260 && s0.selectionMeetsTarget
    ensures OnWindow(s0, ExampleWindow(1, 1410.0, NoRatio)).1 == Decision(SetClock, Some(1260), ApplySelectedReason)
    ensures OnWindow(OnWindow(s0, ExampleWindow(1, 1410.0, NoRatio)).0, ExampleWindow(2, 1260.0, NoRatio)).1 == HoldDecision
    ensures OnWindow(OnWindow(s0, ExampleWindow(1, 1410.0, NoRatio)).0, ExampleWindow(2, 1260.0, NoRatio)).0.totalWindows == 2
  {
    var ctx := ExampleContext("lammps-reaxff", 0.1);
    var config := map["profile" := PointList(points)];
    MissingWorkloadsUseTopLevel(config, ctx.workloadName, points);
    assert points[1] in points && Qualifies(points[1], TargetRatio(0.1));
    InitializeAdoptsSelection(ctx, config, points, Selection(1260, true), s0);
  }

  /** Without a `workload_profiles` mapping the top-level profile is loaded. */
  lemma MissingWorkloadsUseTopLevel(config: map<string, ConfigValue>, workloadName: string, points: seq<SweepPoint>)
    requires "workload_profiles" !in config
    requires "profile" in config && config["profile"] == PointList(points)
    ensures LoadProfileForWorkload(config, workloadName) == Ok(points)
  {
  }

  /** An unknown workload takes the `default` entry: the first decision sets 1200 MHz. */
  lemma UnknownWorkloadUsesDefault(dflt: seq<SweepPoint>, profiles: map<string, ConfigValue>, s0: OracleState)
    requires dflt == [SweepPoint(1410, 1.0, NoPower), SweepPoint(1200, 0.91, NoPower)]
    requires profiles == map[
        "lammps-reaxff" := PointList([SweepPoint(1410, 1.0, NoPower), SweepPoint(1260, 0.92, NoPower)]),
        "default" := PointList(dflt)]
    requires Initialize(ExampleContext("unknown-workload", 0.1), map["workload_profiles" := Mapping(profiles)]) == Ok(s0)
    ensures OnWindow(s0, ExampleWindow(1, 1410.0, NoRatio)).1.targetGraphicsClockMhz == Some(1200)
  {
    var ctx := ExampleContext("unknown-workload", 0.1);
    var config := map["workload_profiles" := Mapping(profiles)];
    assert "unknown-workload" !in profiles;
    DefaultProfileIsFallback(config, ctx.workloadName, dflt);
    assert dflt[1] in dflt && Qualifies(dflt[1], TargetRatio(0.1));
    InitializeAdoptsSelection(ctx, config, dflt, Selection(1200, true), s0);
  }

  /** Two windows at ratios 0.89 and 0.85 against a 0.9 target: two
      violations, the larger 0.05. */
  lemma TracksViolations(s0: OracleState)
    requires Initialize(ExampleContext("lammps-reaxff", 0.1),
      map["profile" := PointList([SweepPoint(1410, 1.0, NoPower), SweepPoint(1260, 0.92, NoPower)])]) == Ok(s0)
    ensures OnWindow(OnWindow(s0, ExampleWindow(1, 1410.0, Ratio(0.89))).0, ExampleWindow(2, 1260.0, Ratio(0.85))).0.pdViolationCount == 2
    ensures OnWindow(OnWindow(s0, ExampleWindow(1, 1410.0, Ratio(0.89))).0, ExampleWindow(2, 1260.0, Ratio(0.85))).0.maxPdViolation == 0.05
  {
  }

  /** A configuration with no profile at all makes `initialize` fail. */
  lemma InitializeRequiresProfile()
    ensures Initialize(ExampleContext("lammps-reaxff", 0.1), map[]) == Err(MissingProfile)
  {
  }
}
