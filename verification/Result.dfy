/** Results: their own rules, and what makes one fit a capability. */
module Result {
  import opened Vocab
  import opened Schema

  datatype Status = Success | BusinessAnswer | RecoveredThenSuccess | HardFailed | Escalated

  datatype OutputValue =
    | MoneyValue(cents: int)
    | DateValue(iso: string)
    | IntegerValue(number: int)
    | TextValue(text: string)

  datatype ReasonCode =
    | HardFailureEscalate | IrreversibleNeedsHuman | RecoveryExhausted | PostHandoffFailed

  datatype PauseOutcome = WasHandedBack | WasAborted | WasExpired

  datatype RecoveryKind = ByClick | ByWaiting | BySteps

  datatype RecoveryRecord =
    | Automatic(stepId: StepId, detectorId: DetectorId, code: Code, kind: RecoveryKind, attempts: nat, succeeded: bool)
    | Human(
        pausedAt: Option<StepId>, reason: ReasonCode, outcome: PauseOutcome, operatorId: Option<string>,
        reverified: bool, takenAt: Option<int>, handedBackAt: Option<int>)

  datatype StepRecord = StepRecord(stepId: StepId, passed: bool, attempts: nat)

  datatype FieldError = FieldError(field: ParamName, message: string)

  datatype ReplayResult = ReplayResult(
    status: Status, capabilityId: string, capabilityVersion: string,
    outputs: map<ParamName, OutputValue>, outcomeCode: Option<Code>, fieldErrors: seq<FieldError>,
    stepReached: Option<StepId>, expected: string, observed: string,
    steps: seq<StepRecord>, recoveries: seq<RecoveryRecord>, interventionPath: Option<string>)

  predicate Succeeded(s: Status) {
    s.Success? || s.RecoveredThenSuccess?
  }

  /** What the record of a pause must look like, whoever ended it. */
  predicate OutcomeShape(r: RecoveryRecord)
    requires r.Human?
  {
    var handedBack := r.outcome.WasHandedBack?;
    && handedBack == r.handedBackAt.Some?
    && (handedBack ==> r.takenAt.Some? && r.operatorId.Some?)
    && (r.takenAt.None? <==> r.operatorId.None?)
    && (r.reverified ==> handedBack)
    && (r.takenAt.Some? && r.handedBackAt.Some? ==> r.takenAt.value <= r.handedBackAt.value)
  }

  predicate Vouches(r: RecoveryRecord) {
    if r.Automatic? then r.succeeded else r.outcome.WasHandedBack?
  }

  /** The model validator of a result. */
  predicate StatusInvariants(r: ReplayResult) {
    var succeeded := Succeeded(r.status);
    var preRun := r.outcomeCode.Some? && IsPreRunCode(r.outcomeCode.value);
    && (succeeded <==> r.outcomeCode.None?)
    && (!succeeded ==> r.outputs == map[])
    && (r.fieldErrors != [] ==> r.status.BusinessAnswer?)
    && (preRun ==> r.stepReached.None? && r.status.HardFailed?)
    && (r.stepReached.None? ==> preRun)
    && (r.status.Success? ==> r.recoveries == [])
    && (r.status.RecoveredThenSuccess? ==> exists i :: 0 <= i < |r.recoveries| && Vouches(r.recoveries[i]))
    && (r.status.HardFailed? || r.status.Escalated? ==> r.expected != "" && r.observed != "")
    && (r.status.Escalated? <==> r.interventionPath.Some?)
  }

  predicate HasParse(v: OutputValue, parse: ParseKind) {
    match parse
    case MoneyUsd => v.MoneyValue?
    case DateIso => v.DateValue?
    case Integer => v.IntegerValue?
    case Text => v.TextValue?
  }

  /** A non-success code is an engine code, or declared by the capability with a kind that fits the status. */
  predicate CodeFits(status: Status, code: Code, declared: map<Code, OutcomeKind>) {
    if IsEngineCode(code) then !status.BusinessAnswer?
    else code in declared && (status.BusinessAnswer? <==> declared[code] == BusinessKind)
  }

  predicate OutputFits(outputs: seq<OutputSpec>, name: ParamName, v: OutputValue) {
    exists i :: 0 <= i < |outputs| && outputs[i].name == name && HasParse(v, outputs[i].parse)
  }

  /** Identity, code, outputs, fields and detectors of a result are the capability's own. */
  predicate FitsCapability(r: ReplayResult, cap: Capability) {
    && r.capabilityId == cap.id && r.capabilityVersion == cap.version
    && (r.outcomeCode.Some? ==> CodeFits(r.status, r.outcomeCode.value, OutcomeCodes(cap.detectors)))
    && (forall n :: n in r.outputs ==> OutputFits(cap.outputs, n, r.outputs[n]))
    && (Succeeded(r.status) ==> forall n :: n in cap.requiresOutputs ==> n in r.outputs)
    && (forall e :: e in r.fieldErrors ==> e.field in cap.inputs)
    && (forall rec :: rec in r.recoveries && rec.Automatic? ==> rec.detectorId in DetectorIds(cap.detectors))
  }

  /** Some detector declares the hand-off code, with a kind that fits the status. */
  ghost predicate DeclaresHandoff(cap: Capability, status: Status) {
    exists d :: 0 <= d < |cap.detectors| && cap.detectors[d].outcome.code.PostHandoffCheckpointFailed?
                && (cap.detectors[d].outcome.BusinessOutcome? <==> status.BusinessAnswer?)
  }

  /** Whether the code of a result can only be the hand-off code if the capability declares it. */
  ghost predicate FitsIfHandoff(r: ReplayResult, cap: Capability) {
    r.outcomeCode == Some(PostHandoffCheckpointFailed) ==> DeclaresHandoff(cap, r.status)
  }

  /** The hand-off code fits a status exactly when a detector declares it with a fitting kind. */
  lemma HandoffCodeFits(cap: Capability, status: Status)
    requires CodesAgree(cap.detectors)
    ensures CodeFits(status, PostHandoffCheckpointFailed, OutcomeCodes(cap.detectors)) <==> DeclaresHandoff(cap, status)
  {
    if PostHandoffCheckpointFailed in OutcomeCodes(cap.detectors) {
      var d := DeclaredBy(cap.detectors, PostHandoffCheckpointFailed);
    }
    if DeclaresHandoff(cap, status) {
      var d :| 0 <= d < |cap.detectors| && cap.detectors[d].outcome.code.PostHandoffCheckpointFailed?
               && (cap.detectors[d].outcome.BusinessOutcome? <==> status.BusinessAnswer?);
      CodeTableAgrees(cap.detectors, d);
    }
  }

  /** The same hand-off result misfits a capability without detectors and fits it once one declares the code. */
  lemma HandoffFitsOnlyIfDeclared() returns (cap: Capability, r: ReplayResult, d: Detector)
    ensures r.outcomeCode == Some(PostHandoffCheckpointFailed)
    ensures
      && ValidCapability(cap) && StatusInvariants(r) && !FitsCapability(r, cap)
      && ValidCapability(cap.(detectors := [d])) && FitsCapability(r, cap.(detectors := [d]))
  {
    var cp := CheckpointId("done");
    var step := Step(StepId("save"), TypeText, "types the name", Safe, CheckpointWait(cp, 1000), FailHard);
    cap := Capability("rename", "1.0.0", [], [], [], [step], map[cp := "the name is saved"], [], cp, []);
    d := Detector(DetectorId("handoff"), "still broken", [], None, HardFailure(PostHandoffCheckpointFailed, false));
    r := ReplayResult(HardFailed, "rename", "1.0.0", map[], Some(PostHandoffCheckpointFailed), [], Some(step.id),
                          "the name is saved", "at home", [], [], None);
    var with := cap.(detectors := [d]);
    assert ValidCapability(cap);
    assert DetectorSound(with, d);
    assert ValidCapability(with);
    assert OutcomeCodes([d][..0]) == map[];
    assert FitsCapability(r, with);
  }

  /** One disagreement between a result and its capability. */
  datatype Problem =
    | WrongCapability
    | UnknownCode(code: Code)
    | KindMismatch(code: Code)
    | EngineCodeAsBusiness(code: Code)
    | UndeclaredOutput(name: ParamName)
    | WrongOutputType(name: ParamName)
    | MissingOutputs(missing: set<ParamName>)
    | UndeclaredField(name: ParamName)
    | UnknownDetector(detector: DetectorId)

  ghost predicate Declares(outputs: seq<OutputSpec>, name: ParamName) {
    name in OutputNames(outputs)
  }

  function Missing(r: ReplayResult, cap: Capability): set<ParamName> {
    set n | n in cap.requiresOutputs && n !in r.outputs
  }

  /** Which problems a result has, said problem by problem. */
  ghost predicate IsProblem(r: ReplayResult, cap: Capability, p: Problem) {
    var declared := OutcomeCodes(cap.detectors);
    match p
    case WrongCapability => r.capabilityId != cap.id || r.capabilityVersion != cap.version
    case UnknownCode(code) => r.outcomeCode == Some(code) && !IsEngineCode(code) && code !in declared
    case KindMismatch(code) =>
      && r.outcomeCode == Some(code) && !IsEngineCode(code) && code in declared
      && r.status.BusinessAnswer? != (declared[code] == BusinessKind)
    case EngineCodeAsBusiness(code) => r.outcomeCode == Some(code) && r.status.BusinessAnswer? && IsEngineCode(code)
    case UndeclaredOutput(n) => n in r.outputs && !Declares(cap.outputs, n)
    case WrongOutputType(n) => n in r.outputs && Declares(cap.outputs, n) && !OutputFits(cap.outputs, n, r.outputs[n])
    case MissingOutputs(ns) => Succeeded(r.status) && ns == Missing(r, cap) && ns != {}
    case UndeclaredField(f) => (exists e :: e in r.fieldErrors && e.field == f) && f !in cap.inputs
    case UnknownDetector(d) =>
      (exists rec :: rec in r.recoveries && rec.Automatic? && rec.detectorId == d) && d !in DetectorIds(cap.detectors)
  }

  /** A result fits its capability exactly when nothing counts as a problem. */
  lemma NoProblemsMeansFit(r: ReplayResult, cap: Capability)
    ensures FitsCapability(r, cap) <==> forall p :: !IsProblem(r, cap, p)
  {
    if forall p :: !IsProblem(r, cap, p) {
      assert !IsProblem(r, cap, WrongCapability);
      if r.outcomeCode.Some? {
        assert !IsProblem(r, cap, UnknownCode(r.outcomeCode.value));
        assert !IsProblem(r, cap, KindMismatch(r.outcomeCode.value));
        assert !IsProblem(r, cap, EngineCodeAsBusiness(r.outcomeCode.value));
      }
      forall n | n in r.outputs ensures OutputFits(cap.outputs, n, r.outputs[n]) {
        assert !IsProblem(r, cap, UndeclaredOutput(n)) && !IsProblem(r, cap, WrongOutputType(n));
      }
      assert !IsProblem(r, cap, MissingOutputs(Missing(r, cap)));
      assert Succeeded(r.status) ==> forall n :: n in cap.requiresOutputs && n !in r.outputs ==> n in Missing(r, cap);
      forall e | e in r.fieldErrors ensures e.field in cap.inputs {
        assert !IsProblem(r, cap, UndeclaredField(e.field));
      }
      forall rec | rec in r.recoveries && rec.Automatic? ensures rec.detectorId in DetectorIds(cap.detectors) {
        assert !IsProblem(r, cap, UnknownDetector(rec.detectorId));
      }
    } else {
      var p :| IsProblem(r, cap, p);
      if p.UndeclaredOutput? {
        forall i | 0 <= i < |cap.outputs| ensures cap.outputs[i].name != p.name {
          assert OutputNames(cap.outputs)[i] == cap.outputs[i].name;
        }
      } else if p.MissingOutputs? {
        var n :| n in p.missing;
        assert n in cap.requiresOutputs && n !in r.outputs;
      }
    }
  }

  /** The specification an output name stands for, if the capability declares it. */
  method SpecFor(outputs: seq<OutputSpec>, name: ParamName) returns (spec: Option<OutputSpec>)
    ensures spec.None? ==> !Declares(outputs, name)
    ensures spec.Some? ==> spec.value in outputs && spec.value.name == name
  {
    spec := None;
    for i := 0 to |outputs|
      invariant spec.None? ==> forall j :: 0 <= j < i ==> outputs[j].name != name
      invariant spec.Some? ==> spec.value in outputs && spec.value.name == name
    {
      if outputs[i].name == name { spec := Some(outputs[i]); }
    }
  }

  /** Lists every problem of a result, and nothing else. */
  method ContractProblems(r: ReplayResult, cap: Capability) returns (problems: seq<Problem>)
    requires Distinct(OutputNames(cap.outputs))
    ensures forall p :: p in problems <==> IsProblem(r, cap, p)
    ensures problems == [] <==> FitsCapability(r, cap)
  {
    problems := [];
    if r.capabilityId != cap.id || r.capabilityVersion != cap.version { problems := [WrongCapability]; }
    var declared := OutcomeCodes(cap.detectors);
    if r.outcomeCode.Some? {
      var code := r.outcomeCode.value;
      if !IsEngineCode(code) {
        if code !in declared {
          problems := problems + [UnknownCode(code)];
        } else if r.status.BusinessAnswer? != (declared[code] == BusinessKind) {
          problems := problems + [KindMismatch(code)];
        }
      }
      if r.status.BusinessAnswer? && IsEngineCode(code) {
        problems := problems + [EngineCodeAsBusiness(code)];
      }
    }
    ghost var early := problems;
    assert forall p :: p in early <==>
      IsProblem(r, cap, p) && (p.WrongCapability? || p.UnknownCode? || p.KindMismatch? || p.EngineCodeAsBusiness?);

    var outs := OutputProblems(r, cap);
    problems := problems + outs;

    if Succeeded(r.status) {
      var missing := Missing(r, cap);
      if missing != {} { problems := problems + [MissingOutputs(missing)]; }
    }

    var rest := ReferenceProblems(r, cap);
    problems := problems + rest;
    NoProblemsMeansFit(r, cap);
    assert problems == [] <==> forall p :: p !in problems by {
      if problems != [] { assert problems[0] in problems; }
    }
  }

  method OutputProblems(r: ReplayResult, cap: Capability) returns (problems: seq<Problem>)
    requires Distinct(OutputNames(cap.outputs))
    ensures forall p :: p in problems <==> IsProblem(r, cap, p) && (p.UndeclaredOutput? || p.WrongOutputType?)
  {
    problems := [];
    var todo := r.outputs.Keys;
    while todo != {}
      invariant todo <= r.outputs.Keys
      invariant forall p :: p in problems <==>
        IsProblem(r, cap, p) && (p.UndeclaredOutput? || p.WrongOutputType?) && p.name !in todo
    {
      var name :| name in todo;
      var spec := SpecFor(cap.outputs, name);
      if spec.None? {
        problems := problems + [UndeclaredOutput(name)];
      } else if !HasParse(r.outputs[name], spec.value.parse) {
        OnlySpec(cap.outputs, spec.value, r.outputs[name]);
        problems := problems + [WrongOutputType(name)];
      } else {
        OnlySpec(cap.outputs, spec.value, r.outputs[name]);
      }
      todo := todo - {name};
    }
  }

  lemma OnlySpec(outputs: seq<OutputSpec>, spec: OutputSpec, v: OutputValue)
    requires Distinct(OutputNames(outputs)) && spec in outputs
    ensures Declares(outputs, spec.name)
    ensures OutputFits(outputs, spec.name, v) <==> HasParse(v, spec.parse)
  {
    var i :| 0 <= i < |outputs| && outputs[i] == spec;
    assert OutputNames(outputs)[i] == spec.name;
    forall j | 0 <= j < |outputs| && outputs[j].name == spec.name ensures j == i {
      assert OutputNames(outputs)[j] == OutputNames(outputs)[i];
    }
  }

  method ReferenceProblems(r: ReplayResult, cap: Capability) returns (problems: seq<Problem>)
    ensures forall p :: p in problems <==> IsProblem(r, cap, p) && (p.UndeclaredField? || p.UnknownDetector?)
  {
    problems := [];
    for i := 0 to |r.fieldErrors|
      invariant forall p :: p in problems <==>
        p.UndeclaredField? && p.name !in cap.inputs && exists e :: e in r.fieldErrors[..i] && e.field == p.name
    {
      assert r.fieldErrors[..i + 1] == r.fieldErrors[..i] + [r.fieldErrors[i]];
      if r.fieldErrors[i].field !in cap.inputs { problems := problems + [UndeclaredField(r.fieldErrors[i].field)]; }
    }
    assert r.fieldErrors[..|r.fieldErrors|] == r.fieldErrors;
    ghost var fields := problems;
    for i := 0 to |r.recoveries|
      invariant forall p :: p in problems <==>
        p in fields || (p.UnknownDetector? && p.detector !in DetectorIds(cap.detectors)
          && exists rec :: rec in r.recoveries[..i] && rec.Automatic? && rec.detectorId == p.detector)
    {
      assert r.recoveries[..i + 1] == r.recoveries[..i] + [r.recoveries[i]];
      var rec := r.recoveries[i];
      if rec.Automatic? && rec.detectorId !in DetectorIds(cap.detectors) {
        problems := problems + [UnknownDetector(rec.detectorId)];
      }
    }
    assert r.recoveries[..|r.recoveries|] == r.recoveries;
  }
}
