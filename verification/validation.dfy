/** The decision-legality gate applied to every decision before it reaches
    the hardware. It is stateless and depends only on the action, the target
    clock and the platform's clock range. */
module Validation {
  import opened Results
  import opened ExperimentTypes

  datatype ValidationError =
    | MissingTarget
    | ClockOutOfRange(clockMhz: int, minMhz: int, maxMhz: int)
    | ResetTargetNotMax(clockMhz: int)
    | UnexpectedTarget(action: DecisionAction)

  /** `_validate_clock_range`: passes exactly for clocks in `[minMhz, maxMhz]`. */
  function ValidateClockRange(clockMhz: int, minMhz: int, maxMhz: int): (r: Outcome<ValidationError>)
    ensures r.Pass? <==> minMhz <= clockMhz <= maxMhz
    ensures r.Fail? ==> r.error == ClockOutOfRange(clockMhz, minMhz, maxMhz)
  {
    if minMhz <= clockMhz <= maxMhz then Pass
    else Fail(ClockOutOfRange(clockMhz, minMhz, maxMhz))
  }

  /** `validate_decision`. The source's final "unsupported action" branch
      has no counterpart: `DecisionAction` is closed over its four variants. */
  function ValidateDecision(decision: Decision, platform: PlatformSpec): (r: Outcome<ValidationError>)
    ensures decision.action == SetClock ==>
      (r.Pass? <==> decision.targetGraphicsClockMhz.Some?
                    && platform.minGraphicsClockMhz <= decision.targetGraphicsClockMhz.value <= platform.maxGraphicsClockMhz)
    ensures decision.action == SetClock && decision.targetGraphicsClockMhz.None? ==> r == Fail(MissingTarget)
    ensures decision.action == ResetToMax ==>
      (r.Pass? <==> decision.targetGraphicsClockMhz.None?
                    || decision.targetGraphicsClockMhz.value == platform.maxGraphicsClockMhz)
    ensures decision.action in {HoldClock, NoOp} ==>
      (r.Pass? <==> decision.targetGraphicsClockMhz.None?)
  {
    match decision.action
    case SetClock =>
      (match decision.targetGraphicsClockMhz
       case None => Fail(MissingTarget)
       case Some(clock) =>
         ValidateClockRange(clock, platform.minGraphicsClockMhz, platform.maxGraphicsClockMhz))
    case ResetToMax =>
      (match decision.targetGraphicsClockMhz
       case None => Pass
       case Some(clock) =>
         if clock == platform.maxGraphicsClockMhz then Pass else Fail(ResetTargetNotMax(clock)))
    case _ =>
      if decision.targetGraphicsClockMhz.None? then Pass else Fail(UnexpectedTarget(decision.action))
  }

  /** The verdict never depends on the reason code, nor on the descriptive
      fields of the platform. */
  lemma VerdictIgnoresReasonAndDescription(d1: Decision, d2: Decision, p1: PlatformSpec, p2: PlatformSpec)
    requires d1.action == d2.action && d1.targetGraphicsClockMhz == d2.targetGraphicsClockMhz
    requires p1.minGraphicsClockMhz == p2.minGraphicsClockMhz
    requires p1.maxGraphicsClockMhz == p2.maxGraphicsClockMhz
    ensures ValidateDecision(d1, p1).Pass? <==> ValidateDecision(d2, p2).Pass?
  {
  }

  /** The legality invariant: any clock carried by an accepted decision is a
      clock the platform supports, and only clock-changing actions carry one. */
  lemma AcceptedTargetIsLegal(decision: Decision, platform: PlatformSpec)
    requires platform.minGraphicsClockMhz <= platform.maxGraphicsClockMhz
    requires ValidateDecision(decision, platform).Pass?
    requires decision.targetGraphicsClockMhz.Some?
    ensures platform.minGraphicsClockMhz <= decision.targetGraphicsClockMhz.value <= platform.maxGraphicsClockMhz
    ensures decision.RequiresClockChange()
  {
  }

  /** Accepted decisions that ask for no clock change carry no target, and
      an accepted clock-setting decision always carries one. */
  lemma ClockChangeMatchesTarget(decision: Decision, platform: PlatformSpec)
    requires ValidateDecision(decision, platform).Pass?
    ensures !decision.RequiresClockChange() ==> decision.targetGraphicsClockMhz.None?
    ensures decision.action == SetClock ==> decision.targetGraphicsClockMhz.Some?
  {
  }
}
