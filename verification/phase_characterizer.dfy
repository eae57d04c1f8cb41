/** EVeREST phase characterization: a frequency-sensitivity estimate from two
    memory-pressure samples taken at two clocks, and a per-phase cache of
    those estimates. */
module PhaseCharacterization {
  import opened Results
  import opened Numerics
  import opened EverestTypes

  /** `_validate_inputs`: both memory samples positive, the low clock
      positive, the high clock above the low one. */
  function ValidateInputs(memHigh: real, memLow: real, freqHighMhz: int, freqLowMhz: int): (r: Outcome<string>)
    ensures r.Pass? <==> memHigh > 0.0 && memLow > 0.0 && freqLowMhz > 0 && freqHighMhz > freqLowMhz
  {
    if memHigh <= 0.0 || memLow <= 0.0 then Fail("mem_high and mem_low must both be > 0.")
    else if freqLowMhz <= 0 then Fail("freq_low_mhz must be > 0.")
    else if freqHighMhz <= freqLowMhz then Fail("freq_high_mhz must be > freq_low_mhz.")
    else Pass
  }

  /** Relative growth of memory pressure per relative growth of the clock,
      before clamping. */
  function RawSensitivity(memHigh: real, memLow: real, freqHighMhz: int, freqLowMhz: int): real
    requires memLow > 0.0 && freqLowMhz > 0 && freqHighMhz > freqLowMhz
  {
    var freqRatio := freqHighMhz as real / freqLowMhz as real;
    assert freqRatio > 1.0 by {
      assert freqRatio * freqLowMhz as real == freqHighMhz as real;
    }
    (memHigh / memLow - 1.0) / (freqRatio - 1.0)
  }

  /** `estimate_frequency_sensitivity`: the raw sensitivity clamped to [0, 1]. */
  function EstimateFrequencySensitivity(memHigh: real, memLow: real, freqHighMhz: int, freqLowMhz: int)
    : (r: Result<real, string>)
    ensures r.Ok? <==> ValidateInputs(memHigh, memLow, freqHighMhz, freqLowMhz).Pass?
    ensures r.Ok? ==> 0.0 <= r.value <= 1.0
    ensures r.Ok? ==> r.value == Clamp(RawSensitivity(memHigh, memLow, freqHighMhz, freqLowMhz), 0.0, 1.0)
  {
    match ValidateInputs(memHigh, memLow, freqHighMhz, freqLowMhz)
    case Fail(e) => Err(e)
    case Pass => Ok(Clamp(RawSensitivity(memHigh, memLow, freqHighMhz, freqLowMhz), 0.0, 1.0))
  }

  lemma FreqRatioAboveOne(freqHighMhz: int, freqLowMhz: int)
    requires freqLowMhz > 0 && freqHighMhz > freqLowMhz
    ensures freqHighMhz as real / freqLowMhz as real > 1.0
  {
    assert (freqHighMhz as real / freqLowMhz as real) * freqLowMhz as real == freqHighMhz as real;
  }

  /** The estimate is 0 exactly when memory pressure does not grow with the
      clock, and 1 exactly when it grows at least as fast as the clock. */
  lemma SensitivityExtremes(memHigh: real, memLow: real, freqHighMhz: int, freqLowMhz: int)
    requires ValidateInputs(memHigh, memLow, freqHighMhz, freqLowMhz).Pass?
    ensures EstimateFrequencySensitivity(memHigh, memLow, freqHighMhz, freqLowMhz).value == 0.0
            <==> memHigh <= memLow
    ensures EstimateFrequencySensitivity(memHigh, memLow, freqHighMhz, freqLowMhz).value == 1.0
            <==> memHigh / memLow >= freqHighMhz as real / freqLowMhz as real
  {
    var fr := freqHighMhz as real / freqLowMhz as real;
    FreqRatioAboveOne(freqHighMhz, freqLowMhz);
    var num := memHigh / memLow - 1.0;
    var raw := num / (fr - 1.0);
    assert raw * (fr - 1.0) == num;
    assert memHigh / memLow * memLow == memHigh;
    if memHigh <= memLow {
      DivMonotone(memHigh, memLow, memLow);
      assert memLow / memLow == 1.0;
    } else {
      DivMonotone(memLow, memHigh, memLow);
      assert memLow / memLow == 1.0;
      assert memHigh / memLow != 1.0;
    }
    if raw >= 1.0 {
      MulMonotone(1.0, raw, fr - 1.0);
    }
    if num >= fr - 1.0 {
      DivMonotone(fr - 1.0, num, fr - 1.0);
      assert (fr - 1.0) / (fr - 1.0) == 1.0;
    }
    assert memHigh / memLow - 1.0 >= fr - 1.0 <==> memHigh / memLow >= fr;
  }

  /** For fixed clocks and low sample, more memory pressure at the high clock
      never lowers the estimate. */
  lemma SensitivityMonotoneInMemHigh(memHigh1: real, memHigh2: real, memLow: real, freqHighMhz: int, freqLowMhz: int)
    requires ValidateInputs(memHigh1, memLow, freqHighMhz, freqLowMhz).Pass?
    requires memHigh1 <= memHigh2
    ensures EstimateFrequencySensitivity(memHigh2, memLow, freqHighMhz, freqLowMhz).Ok?
    ensures EstimateFrequencySensitivity(memHigh1, memLow, freqHighMhz, freqLowMhz).value
         <= EstimateFrequencySensitivity(memHigh2, memLow, freqHighMhz, freqLowMhz).value
  {
    FreqRatioAboveOne(freqHighMhz, freqLowMhz);
    var fr := freqHighMhz as real / freqLowMhz as real;
    DivMonotone(memHigh1, memHigh2, memLow);
    DivMonotone(memHigh1 / memLow - 1.0, memHigh2 / memLow - 1.0, fr - 1.0);
  }

  /** 1.25 / 1.0 at 1500 / 1000 MHz gives 0.5; 0.5 / 1.0 clamps to 0 and
      4.0 / 1.0 at 2000 / 1000 MHz clamps to 1; a zero low sample or equal
      clocks are rejected. */
  lemma SensitivityExamples()
    ensures EstimateFrequencySensitivity(1.25, 1.0, 1500, 1000) == Ok(0.5)
    ensures EstimateFrequencySensitivity(0.5, 1.0, 2000, 1000) == Ok(0.0)
    ensures EstimateFrequencySensitivity(4.0, 1.0, 2000, 1000) == Ok(1.0)
    ensures EstimateFrequencySensitivity(1.0, 0.0, 1500, 1000).Err?
    ensures EstimateFrequencySensitivity(1.0, 1.0, 1000, 1000).Err?
  {
  }

  // ---------------------------------------------------------------------------
  // The per-phase cache.

  /** The characterizer's record map, keyed by phase id. */
  datatype PhaseCharacterizer = PhaseCharacterizer(records: map<string, CharacterizationRecord>)

  const EmptyCharacterizer := PhaseCharacterizer(map[])

  /** Every cached record sits under its own phase id and has a clamped sensitivity. */
  ghost predicate WellFormed(c: PhaseCharacterizer)
  {
    forall id :: id in c.records ==>
      c.records[id].phaseId == id && |id| > 0 && 0.0 <= c.records[id].fs <= 1.0
  }

  /** `get_phase_characterization`: the cached record for `phaseId`, if any.
      In a well-formed cache it is the record of that very phase, with a
      sensitivity in `[0, 1]`. */
  function GetPhaseCharacterization(c: PhaseCharacterizer, phaseId: string): (r: Option<CharacterizationRecord>)
    ensures r.None? <==> phaseId !in c.records
    ensures WellFormed(c) && r.Some? ==> r.value.phaseId == phaseId && 0.0 <= r.value.fs <= 1.0
  {
    if phaseId in c.records then Some(c.records[phaseId]) else None
  }

  /** `has_phase_characterization`: whether `get` would return a record. */
  function HasPhaseCharacterization(c: PhaseCharacterizer, phaseId: string): (r: bool)
    ensures r <==> GetPhaseCharacterization(c, phaseId).Some?
  {
    phaseId in c.records
  }

  /** The two lookups agree. */
  lemma HasIffGet(c: PhaseCharacterizer, phaseId: string)
    ensures HasPhaseCharacterization(c, phaseId) <==> GetPhaseCharacterization(c, phaseId).Some?
  {
  }

  /** `upsert_phase_characterization`: returns the updated cache and the
      stored record, or the unchanged cache and the error. */
  function UpsertPhaseCharacterization(c: PhaseCharacterizer, phaseId: string, fs: real, memHigh: real, memLow: real,
                                       freqHighMhz: int, freqLowMhz: int)
    : (r: (PhaseCharacterizer, Result<CharacterizationRecord, string>))
    ensures r.1.Ok? <==> |phaseId| > 0 && ValidateInputs(memHigh, memLow, freqHighMhz, freqLowMhz).Pass?
    ensures r.1.Err? ==> r.0 == c
    ensures r.1.Ok? ==>
      && r.1.value == CharacterizationRecord(phaseId, Clamp(fs, 0.0, 1.0), memHigh, memLow, freqHighMhz, freqLowMhz)
      && GetPhaseCharacterization(r.0, phaseId) == Some(r.1.value)
      && 0.0 <= r.1.value.fs <= 1.0
    ensures r.1.Ok? ==> forall id :: id != phaseId ==>
      GetPhaseCharacterization(r.0, id) == GetPhaseCharacterization(c, id)
  {
    if |phaseId| == 0 then (c, Err("phase_id must be non-empty."))
    else match ValidateInputs(memHigh, memLow, freqHighMhz, freqLowMhz)
      case Fail(e) => (c, Err(e))
      case Pass =>
        var record := CharacterizationRecord(phaseId, Clamp(fs, 0.0, 1.0), memHigh, memLow, freqHighMhz, freqLowMhz);
        (PhaseCharacterizer(c.records[phaseId := record]), Ok(record))
  }

  /** Upserts keep the cache well formed. */
  lemma UpsertPreservesWellFormed(c: PhaseCharacterizer, phaseId: string, fs: real, memHigh: real, memLow: real,
                                  freqHighMhz: int, freqLowMhz: int)
    requires WellFormed(c)
    ensures WellFormed(UpsertPhaseCharacterization(c, phaseId, fs, memHigh, memLow, freqHighMhz, freqLowMhz).0)
  {
  }

  /** A second upsert of the same phase replaces the first: the last write wins. */
  lemma LastWriteWins(c: PhaseCharacterizer, phaseId: string, fs1: real, fs2: real,
                      memHigh1: real, memLow1: real, memHigh2: real, memLow2: real,
                      freqHigh1: int, freqLow1: int, freqHigh2: int, freqLow2: int)
    requires UpsertPhaseCharacterization(c, phaseId, fs1, memHigh1, memLow1, freqHigh1, freqLow1).1.Ok?
    requires ValidateInputs(memHigh2, memLow2, freqHigh2, freqLow2).Pass?
    ensures
      var c1 := UpsertPhaseCharacterization(c, phaseId, fs1, memHigh1, memLow1, freqHigh1, freqLow1).0;
      var c2 := UpsertPhaseCharacterization(c1, phaseId, fs2, memHigh2, memLow2, freqHigh2, freqLow2).0;
      GetPhaseCharacterization(c2, phaseId)
        == Some(CharacterizationRecord(phaseId, Clamp(fs2, 0.0, 1.0), memHigh2, memLow2, freqHigh2, freqLow2))
  {
  }

  /** Upsert 0.4 then 0.7 under "active-g4-m2": the cache answers 0.7. */
  lemma CacheOverrideExample()
    ensures
      var c1 := UpsertPhaseCharacterization(EmptyCharacterizer, "active-g4-m2", 0.4, 1.2, 1.0, 1400, 1000).0;
      var c2 := UpsertPhaseCharacterization(c1, "active-g4-m2", 0.7, 1.3, 1.0, 1400, 1000).0;
      && HasPhaseCharacterization(c1, "active-g4-m2")
      && GetPhaseCharacterization(c2, "active-g4-m2").Some?
      && GetPhaseCharacterization(c2, "active-g4-m2").value.fs == 0.7
    ensures UpsertPhaseCharacterization(EmptyCharacterizer, "", 0.5, 1.0, 1.0, 1500, 1000).1.Err?
  {
  }
}
