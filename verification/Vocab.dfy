/** The words artifacts, policy, replay and sessions share: names, risk classes and outcome codes. */
module Vocab {

  datatype Option<+T> = None | Some(value: T)

  /** Identifiers are compared and never taken apart. */
  datatype StepId = StepId(text: string)
  datatype DetectorId = DetectorId(text: string)
  datatype CheckpointId = CheckpointId(text: string)
  datatype ParamName = ParamName(text: string)

  datatype RiskClass = Safe | Reversible | Irreversible

  function RiskRank(r: RiskClass): nat {
    match r
    case Safe => 0
    case Reversible => 1
    case Irreversible => 2
  }

  function MaxRisk(a: RiskClass, b: RiskClass): (r: RiskClass)
    ensures RiskRank(a) <= RiskRank(r) && RiskRank(b) <= RiskRank(r)
    ensures r == a || r == b
  {
    if RiskRank(a) >= RiskRank(b) then a else b
  }

  /**
   * Outcome codes. The engine's own codes are the constructors up to InterventionExpired; the
   * hand-off failure is raised by the engine but is not in the engine's code table, so like any App
   * code it fits a capability only if one of its detectors declares it.
   */
  datatype Code =
    | InputInvalid | DraftNotApproved | CapabilityDeprecated | TenantUnknown | SecretMissing | PolicyMismatch
    | TargetNotFound | TargetAmbiguous | TargetChanged | ActionFailed | CheckpointTimeout
    | PolicyBlocked | UnexpectedDialog | OutputExtractionFailed | ConfirmationRequired
    | OperatorAborted | InterventionExpired
    | PostHandoffCheckpointFailed
    | App(text: string)

  predicate IsPreRunCode(c: Code) {
    c.InputInvalid? || c.DraftNotApproved? || c.CapabilityDeprecated? || c.TenantUnknown?
    || c.SecretMissing? || c.PolicyMismatch?
  }

  predicate IsEngineCode(c: Code) {
    !c.PostHandoffCheckpointFailed? && !c.App?
  }

  /** No element of a sequence of names occurs twice. */
  ghost predicate Distinct<T(!new)>(names: seq<T>) {
    forall i, j :: 0 <= i < j < |names| ==> names[i] != names[j]
  }
}
