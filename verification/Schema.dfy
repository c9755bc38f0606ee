/** The capability artifact: typed steps, detectors and outputs, and the cross-reference rules. */
module Schema {
  import opened Vocab

  const POLL_MS := 250

  datatype DialogType = Confirm | Alert
  datatype DialogResponse = Accept | Dismiss
  datatype DialogExpectation = DialogExpectation(dialogType: DialogType, response: DialogResponse)

  datatype Wait =
    | CheckpointWait(checkpoint: CheckpointId, timeoutMs: nat)
    | SettleWait(quietMs: nat, timeoutMs: nat)
    | UrlChangeWait(timeoutMs: nat)

  datatype StepAction =
    | Navigate
    | Click(dialog: Option<DialogExpectation>)
    | TypeText
    | SelectOption
    | PressKey(targeted: bool)

  datatype OnFail = FailHard | FailEscalate

  datatype Step = Step(
    id: StepId, action: StepAction, description: string, risk: RiskClass, waitFor: Wait, onFail: OnFail)

  datatype Recovery =
    | ClickRecovery(maxAttempts: nat)
    | WaitRetryRecovery(maxTotalMs: nat, pollMs: nat)
    | RunStepsRecovery(stepIds: seq<StepId>, maxAttempts: nat)

  datatype Outcome =
    | BusinessOutcome(code: Code, field: Option<ParamName>)
    | Recoverable(code: Code, recovery: Recovery, onExhausted: OnFail)
    | HardFailure(code: Code, escalate: bool)

  datatype OutcomeKind = BusinessKind | RecoverableKind | HardFailureKind

  /** timeouts lists the checkpoint_timeout leaves of the trigger; the rest of it is the surface's answer. */
  datatype Detector = Detector(
    id: DetectorId, description: string, timeouts: seq<CheckpointId>, scope: Option<seq<StepId>>, outcome: Outcome)

  datatype ParseKind = MoneyUsd | Text | Integer | DateIso

  /** An output's type and its parse determine each other, so one field stands for both. */
  datatype OutputSpec = OutputSpec(name: ParamName, parse: ParseKind)

  datatype Capability = Capability(
    id: string, version: string,
    inputs: seq<ParamName>, secrets: seq<ParamName>, outputs: seq<OutputSpec>, steps: seq<Step>,
    checkpoints: map<CheckpointId, string>, detectors: seq<Detector>,
    successCheckpoint: CheckpointId, requiresOutputs: seq<ParamName>)

  function KindOf(o: Outcome): OutcomeKind {
    match o
    case BusinessOutcome(_, _) => BusinessKind
    case Recoverable(_, _, _) => RecoverableKind
    case HardFailure(_, _) => HardFailureKind
  }

  predicate AnswersDialog(s: Step) {
    s.action.Click? && s.action.dialog.Some?
  }

  /** A step replay may never perform twice. */
  predicate Guarded(s: Step) {
    s.risk == Irreversible || AnswersDialog(s)
  }

  function HasTarget(a: StepAction): bool {
    match a
    case Navigate => false
    case PressKey(targeted) => targeted
    case _ => true
  }

  /** The codes the detectors declare, each with the kind of the last detector that declares it. */
  function OutcomeCodes(ds: seq<Detector>): map<Code, OutcomeKind> {
    if ds == [] then map[]
    else
      var last := ds[|ds| - 1].outcome;
      OutcomeCodes(ds[..|ds| - 1])[last.code := KindOf(last)]
  }

  predicate HasStep(steps: seq<Step>, id: StepId) {
    exists i :: 0 <= i < |steps| && steps[i].id == id
  }

  /** The dictionary {step.id: index}: on a repeated id the last one wins. */
  function Position(steps: seq<Step>, id: StepId): (p: nat)
    requires HasStep(steps, id)
    ensures p < |steps| && steps[p].id == id
    ensures forall j :: p < j < |steps| ==> steps[j].id != id
  {
    var n := |steps| - 1;
    if steps[n].id == id then n else Position(steps[..n], id)
  }

  // ---- what the field types alone guarantee ------------------------------------------------------

  ghost predicate StepTyped(s: Step) {
    && s.description != ""
    && s.waitFor.timeoutMs >= 100
    && (AnswersDialog(s) && s.action.dialog.value == DialogExpectation(Confirm, Accept) ==> s.risk == Irreversible)
  }

  ghost predicate RecoveryTyped(r: Recovery) {
    match r
    case ClickRecovery(n) => 1 <= n <= 5
    case WaitRetryRecovery(total, poll) => total >= 100 && poll >= 50
    case RunStepsRecovery(ids, n) => |ids| > 0 && 1 <= n <= 3
  }

  ghost predicate DetectorTyped(d: Detector) {
    d.description != "" && (d.outcome.Recoverable? ==> RecoveryTyped(d.outcome.recovery))
  }

  ghost predicate WellTyped(cap: Capability) {
    && |cap.steps| > 0
    && (forall s :: s in cap.steps ==> StepTyped(s))
    && (forall d :: d in cap.detectors ==> DetectorTyped(d))
    && (forall c :: c in cap.checkpoints ==> cap.checkpoints[c] != "")
  }

  // ---- cross references --------------------------------------------------------------------------

  function StepIds(steps: seq<Step>): (ids: seq<StepId>)
    ensures |ids| == |steps| && forall i :: 0 <= i < |steps| ==> ids[i] == steps[i].id
  {
    seq(|steps|, i requires 0 <= i < |steps| => steps[i].id)
  }

  function DetectorIds(ds: seq<Detector>): (ids: seq<DetectorId>)
    ensures |ids| == |ds| && forall i :: 0 <= i < |ds| ==> ids[i] == ds[i].id
  {
    seq(|ds|, i requires 0 <= i < |ds| => ds[i].id)
  }

  function OutputNames(os: seq<OutputSpec>): (names: seq<ParamName>)
    ensures |names| == |os| && forall i :: 0 <= i < |os| ==> names[i] == os[i].name
  {
    seq(|os|, i requires 0 <= i < |os| => os[i].name)
  }

  ghost predicate WaitKnown(cap: Capability, s: Step) {
    s.waitFor.CheckpointWait? ==> s.waitFor.checkpoint in cap.checkpoints
  }

  /** Every step of the scope exists and waits on the checkpoint whose timeout the detector watches. */
  ghost predicate TimeoutScoped(cap: Capability, d: Detector, cp: CheckpointId) {
    && d.scope.Some?
    && forall id :: id in d.scope.value ==>
         && HasStep(cap.steps, id)
         && var w := cap.steps[Position(cap.steps, id)].waitFor; w.CheckpointWait? && w.checkpoint == cp
  }

  /** The steps a recovery re-runs: in flow order, before everything in scope, and repeatable. */
  ghost predicate RunStepsScoped(cap: Capability, d: Detector, ids: seq<StepId>)
    requires forall id :: id in ids ==> HasStep(cap.steps, id)
    requires d.scope.Some? ==> forall id :: id in d.scope.value ==> HasStep(cap.steps, id)
  {
    && d.scope.Some? && d.scope.value != []
    && (forall i, j :: 0 <= i < j < |ids| ==> Position(cap.steps, ids[i]) < Position(cap.steps, ids[j]))
    && (forall id, scoped :: id in ids && scoped in d.scope.value ==>
          Position(cap.steps, id) < Position(cap.steps, scoped))
    && (forall id :: id in ids ==> !Guarded(cap.steps[Position(cap.steps, id)]))
    && (forall scoped :: scoped in d.scope.value ==> cap.steps[Position(cap.steps, scoped)].waitFor.CheckpointWait?)
  }

  ghost predicate ScopeKnown(cap: Capability, d: Detector) {
    d.scope.Some? ==> forall id :: id in d.scope.value ==> HasStep(cap.steps, id)
  }

  ghost predicate DetectorSound(cap: Capability, d: Detector) {
    && ScopeKnown(cap, d)
    && (forall cp :: cp in d.timeouts ==> cp in cap.checkpoints && TimeoutScoped(cap, d, cp))
    && !IsEngineCode(d.outcome.code)
    && (d.outcome.BusinessOutcome? && d.outcome.field.Some? ==> d.outcome.field.value in cap.inputs)
    && (d.outcome.Recoverable? && d.outcome.recovery.RunStepsRecovery? ==>
          && (forall id :: id in d.outcome.recovery.stepIds ==> HasStep(cap.steps, id))
          && RunStepsScoped(cap, d, d.outcome.recovery.stepIds))
  }

  ghost predicate CodesAgree(ds: seq<Detector>) {
    forall i, j :: 0 <= i < |ds| && 0 <= j < |ds| && ds[i].outcome.code == ds[j].outcome.code ==>
      KindOf(ds[i].outcome) == KindOf(ds[j].outcome)
  }

  ghost predicate CrossReferencesHold(cap: Capability) {
    && Distinct(StepIds(cap.steps))
    && Distinct(cap.inputs)
    && Distinct(cap.secrets)
    && Distinct(OutputNames(cap.outputs))
    && Distinct(DetectorIds(cap.detectors))
    && (forall s :: s in cap.steps ==> WaitKnown(cap, s))
    && cap.successCheckpoint in cap.checkpoints
    && (forall n :: n in cap.requiresOutputs ==> n in OutputNames(cap.outputs))
    && (forall d :: d in cap.detectors ==> DetectorSound(cap, d))
    && CodesAgree(cap.detectors)
  }

  ghost predicate ValidCapability(cap: Capability) {
    WellTyped(cap) && CrossReferencesHold(cap)
  }

  // ---- consequences the engine relies on ---------------------------------------------------------

  /** In a valid capability the code table gives every detector's code that detector's own kind. */
  lemma {:induction false} CodeTableAgrees(ds: seq<Detector>, i: nat)
    requires CodesAgree(ds) && i < |ds|
    ensures ds[i].outcome.code in OutcomeCodes(ds)
    ensures OutcomeCodes(ds)[ds[i].outcome.code] == KindOf(ds[i].outcome)
  {
    var n := |ds| - 1;
    if ds[n].outcome.code != ds[i].outcome.code {
      assert CodesAgree(ds[..n]);
      CodeTableAgrees(ds[..n], i);
    }
  }

  /** Every code of the table is some detector's, with that detector's kind. */
  lemma {:induction false} DeclaredBy(ds: seq<Detector>, code: Code) returns (i: nat)
    requires code in OutcomeCodes(ds)
    ensures i < |ds| && ds[i].outcome.code == code && OutcomeCodes(ds)[code] == KindOf(ds[i].outcome)
  {
    i := |ds| - 1;
    if ds[i].outcome.code != code { i := DeclaredBy(ds[..i], code); }
  }

  lemma {:induction false} PositionOfIndex(steps: seq<Step>, i: nat)
    requires Distinct(StepIds(steps)) && i < |steps|
    ensures HasStep(steps, steps[i].id) && Position(steps, steps[i].id) == i
  {
    var p := Position(steps, steps[i].id);
    assert StepIds(steps)[p] == StepIds(steps)[i];
  }

  predicate InScope(d: Detector, id: StepId) {
    d.scope.Some? ==> id in d.scope.value
  }

  /** Re-running a step from a recovery always goes back in the flow, and never to a guarded step. */
  lemma {:induction false} RerunGoesBack(cap: Capability, p: nat, d: nat, k: nat)
    requires ValidCapability(cap) && p < |cap.steps| && d < |cap.detectors|
    requires InScope(cap.detectors[d], cap.steps[p].id)
    requires cap.detectors[d].outcome.Recoverable? && cap.detectors[d].outcome.recovery.RunStepsRecovery?
    requires k < |cap.detectors[d].outcome.recovery.stepIds|
    ensures var id := cap.detectors[d].outcome.recovery.stepIds[k];
            && HasStep(cap.steps, id)
            && Position(cap.steps, id) < p
            && !Guarded(cap.steps[Position(cap.steps, id)])
  {
    var det := cap.detectors[d];
    assert DetectorSound(cap, det);
    PositionOfIndex(cap.steps, p);
    var id := det.outcome.recovery.stepIds[k];
    assert id in det.outcome.recovery.stepIds && cap.steps[p].id in det.scope.value;
  }
}
