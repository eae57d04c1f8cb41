/** Value types of the EVeREST reimplementation: the phase signature and
    its string key, the identifier's per-window observation, the cached
    characterization record and the scaler's output. */
module EverestTypes {
  import opened Results

  /** Coarse fingerprint of a phase: two utilization buckets and the idle flag. */
  datatype PhaseSignature = PhaseSignature(gpuBucket: int, memBucket: int, isIdleLike: bool)
  {
    /** `to_phase_id`: `"<mode>-g<gpu bucket>-m<mem bucket>"` with mode
        `idle` or `active`, integers rendered in decimal. */
    function ToPhaseId(): (id: string)
      ensures isIdleLike ==> |id| >= 6 && id[..6] == "idle-g"
      ensures !isIdleLike ==> |id| >= 8 && id[..8] == "active-g"
    {
      Mode(isIdleLike) + "-g" + IntToString(gpuBucket) + "-m" + IntToString(memBucket)
    }
  }

  function Mode(isIdleLike: bool): string
  {
    if isIdleLike then "idle" else "active"
  }

  /** Output of phase identification for one window. */
  datatype PhaseObservation = PhaseObservation(
    phaseId: Option<string>,
    isStable: bool,
    isNewPhase: bool,
    gpuUtilAvgPct: real,
    memUtilAvgPct: real,
    isIdleLike: bool)

  /** Cached characterization of one phase. */
  datatype CharacterizationRecord = CharacterizationRecord(
    phaseId: string,
    fs: real,
    memHigh: real,
    memLow: real,
    freqHighMhz: int,
    freqLowMhz: int)

  /** Frequency scaling result with its intermediate values. */
  datatype ScalerOutput = ScalerOutput(
    targetFrequencyMhz: int,
    rawFrequencyMhz: real,
    clampedFrequencyMhz: real,
    fsUsed: real,
    pdUsed: real,
    minAllowedMhz: int,
    maxAllowedMhz: int)

  // Decimal rendering of integers, as Python's f-string formatting does it:
  // no leading zeros, a leading '-' for negative values.

  predicate IsDigit(c: char) { '0' <= c <= '9' }

  function DigitChar(d: int): (c: char)
    requires 0 <= d < 10
    ensures IsDigit(c)
  {
    ('0' as int + d) as char
  }

  function DigitValue(c: char): int
  {
    c as int - '0' as int
  }

  function NatToString(n: nat): (s: string)
    ensures |s| > 0
    ensures forall i :: 0 <= i < |s| ==> IsDigit(s[i])
    decreases n
  {
    if n < 10 then [DigitChar(n)] else NatToString(n / 10) + [DigitChar(n % 10)]
  }

  function IntToString(n: int): (s: string)
    ensures |s| > 0
    ensures forall i :: 0 <= i < |s| ==> IsDigit(s[i]) || (i == 0 && s[i] == '-')
  {
    if n < 0 then "-" + NatToString(-n) else NatToString(n)
  }

  function ParseNat(s: string): int
  {
    if |s| == 0 then 0 else 10 * ParseNat(s[..|s| - 1]) + DigitValue(s[|s| - 1])
  }

  function ParseInt(s: string): int
  {
    if |s| > 0 && s[0] == '-' then -ParseNat(s[1..]) else ParseNat(s)
  }

  lemma {:induction false} ParseNatToString(n: nat)
    ensures ParseNat(NatToString(n)) == n
    decreases n
  {
    var s := NatToString(n);
    if n >= 10 {
      ParseNatToString(n / 10);
      assert s[..|s| - 1] == NatToString(n / 10);
    }
  }

  lemma ParseIntToString(n: int)
    ensures ParseInt(IntToString(n)) == n
  {
    if n < 0 {
      ParseNatToString(-n);
      assert IntToString(n)[1..] == NatToString(-n);
    } else {
      ParseNatToString(n);
      assert IsDigit(NatToString(n)[0]);
    }
  }

  // Reading a phase id back into its signature.

  /** Position of the first occurrence of `c` in `s`. */
  function IndexOf(s: string, c: char): (r: Option<nat>)
    ensures r.Some? ==> r.value < |s| && s[r.value] == c
  {
    if |s| == 0 then None
    else if s[0] == c then Some(0)
    else match IndexOf(s[1..], c)
      case None => None
      case Some(i) => Some(i + 1)
  }

  lemma {:induction false} IndexOfAfterPrefix(p: string, q: string, c: char)
    requires forall i :: 0 <= i < |p| ==> p[i] != c
    requires |q| > 0 && q[0] == c
    ensures IndexOf(p + q, c) == Some(|p|)
    decreases |p|
  {
    if |p| > 0 {
      assert (p + q)[1..] == p[1..] + q;
      IndexOfAfterPrefix(p[1..], q, c);
    }
  }

  /** The inverse of `ToPhaseId` on well-formed keys. */
  function ParsePhaseId(id: string): Option<PhaseSignature>
  {
    if |id| >= 6 && id[..6] == "idle-g" then ParseBuckets(id[6..], true)
    else if |id| >= 8 && id[..8] == "active-g" then ParseBuckets(id[8..], false)
    else None
  }

  /** Reads `"<gpu bucket>-m<mem bucket>"`. */
  function ParseBuckets(rest: string, isIdleLike: bool): Option<PhaseSignature>
  {
    match IndexOf(rest, 'm')
    case None => None
    case Some(i) =>
      if i == 0 then None
      else Some(PhaseSignature(ParseInt(rest[..i - 1]), ParseInt(rest[i + 1..]), isIdleLike))
  }

  lemma BucketsRoundTrip(gpuBucket: int, memBucket: int, isIdleLike: bool)
    ensures ParseBuckets(IntToString(gpuBucket) + "-m" + IntToString(memBucket), isIdleLike)
         == Some(PhaseSignature(gpuBucket, memBucket, isIdleLike))
  {
    var g := IntToString(gpuBucket);
    var m := IntToString(memBucket);
    var rest := g + "-m" + m;
    assert rest == (g + "-") + ("m" + m);
    IndexOfAfterPrefix(g + "-", "m" + m, 'm');
    assert rest[..|g|] == g;
    assert rest[|g| + 2..] == m;
    ParseIntToString(gpuBucket);
    ParseIntToString(memBucket);
  }

  /** A phase id is its mode prefix followed by the two buckets. */
  lemma PhaseIdSplits(sig: PhaseSignature)
    ensures sig.ToPhaseId() == Mode(sig.isIdleLike) + "-g" + (IntToString(sig.gpuBucket) + "-m" + IntToString(sig.memBucket))
  {
    var g := IntToString(sig.gpuBucket);
    var m := IntToString(sig.memBucket);
    var p := Mode(sig.isIdleLike) + "-g";
    assert p + g + "-m" + m == p + (g + "-m" + m);
  }

  lemma ParseIdlePrefix(rest: string)
    ensures ParsePhaseId("idle-g" + rest) == ParseBuckets(rest, true)
  {
    var id := "idle-g" + rest;
    assert id[..6] == "idle-g" && id[6..] == rest;
  }

  lemma ParseActivePrefix(rest: string)
    ensures ParsePhaseId("active-g" + rest) == ParseBuckets(rest, false)
  {
    var id := "active-g" + rest;
    assert id[..6] != "idle-g" by { assert id[0] == 'a'; }
    assert id[..8] == "active-g" && id[8..] == rest;
  }

  /** Every phase id reads back as the signature it was rendered from. */
  lemma PhaseIdRoundTrip(sig: PhaseSignature)
    ensures ParsePhaseId(sig.ToPhaseId()) == Some(sig)
  {
    var rest := IntToString(sig.gpuBucket) + "-m" + IntToString(sig.memBucket);
    PhaseIdSplits(sig);
    BucketsRoundTrip(sig.gpuBucket, sig.memBucket, sig.isIdleLike);
    if sig.isIdleLike {
      ParseIdlePrefix(rest);
    } else {
      ParseActivePrefix(rest);
    }
  }

  /** Distinct signatures never share a phase id. */
  lemma PhaseIdInjective(a: PhaseSignature, b: PhaseSignature)
    ensures a.ToPhaseId() == b.ToPhaseId() <==> a == b
  {
    if a.ToPhaseId() == b.ToPhaseId() {
      PhaseIdRoundTrip(a);
      PhaseIdRoundTrip(b);
    }
  }

  /** The mode prefix tells idle from active phases, whatever the buckets. */
  lemma PhaseIdModePrefix(sig: PhaseSignature)
    ensures sig.ToPhaseId()[..4] == "idle" <==> sig.isIdleLike
    ensures sig.ToPhaseId()[..6] == "active" <==> !sig.isIdleLike
  {
    var id := sig.ToPhaseId();
    if sig.isIdleLike {
      assert id[..6] != "active" by { assert id[0] == 'i'; }
    } else {
      assert id[..4] != "idle" by { assert id[0] == 'a'; }
    }
  }
}
