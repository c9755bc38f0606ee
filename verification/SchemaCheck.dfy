/** The artifact's cross-reference check: every problem is collected, and none means the rules hold. */
module SchemaCheck {
  import opened Vocab
  import opened Schema

  datatype Label = StepIdLabel | InputLabel | OutputLabel | SecretLabel | DetectorLabel

  datatype Problem =
    | Duplicate(what: Label)
    | UnknownCheckpoint(checkpoint: CheckpointId)
    | UnknownStep(step: StepId)
    | UndeclaredOutputs
    | NeedsScope(detector: DetectorId)
    | WrongWait(detector: DetectorId, step: StepId)
    | EngineCode(code: Code)
    | MixedCode(code: Code)
    | UndeclaredField(field: ParamName)
    | OutOfFlowOrder(detector: DetectorId)
    | NotBeforeScope(detector: DetectorId)
    | MayNotRerun(detector: DetectorId, step: StepId)
    | NeedsCheckpointWait(detector: DetectorId, step: StepId)

  method HasDuplicates<T(==, !new)>(names: seq<T>) returns (found: bool)
    ensures found <==> !Distinct(names)
  {
    for i := 0 to |names|
      invariant Distinct(names[..i])
    {
      if names[i] in names[..i] {
        var j :| 0 <= j < i && names[j] == names[i];
        return true;
      }
    }
    assert names[..|names|] == names;
    return false;
  }

  method DuplicateProblems(cap: Capability) returns (problems: seq<Problem>)
    ensures problems == [] <==>
      Distinct(StepIds(cap.steps)) && Distinct(cap.inputs) && Distinct(OutputNames(cap.outputs))
      && Distinct(cap.secrets) && Distinct(DetectorIds(cap.detectors))
  {
    hide Distinct;
    problems := [];
    var found := HasDuplicates(StepIds(cap.steps));
    if found { problems := problems + [Duplicate(StepIdLabel)]; }
    found := HasDuplicates(cap.inputs);
    if found { problems := problems + [Duplicate(InputLabel)]; }
    found := HasDuplicates(OutputNames(cap.outputs));
    if found { problems := problems + [Duplicate(OutputLabel)]; }
    found := HasDuplicates(cap.secrets);
    if found { problems := problems + [Duplicate(SecretLabel)]; }
    found := HasDuplicates(DetectorIds(cap.detectors));
    if found { problems := problems + [Duplicate(DetectorLabel)]; }
  }

  method StepProblems(cap: Capability) returns (problems: seq<Problem>)
    ensures problems == [] <==> forall s :: s in cap.steps ==> WaitKnown(cap, s)
  {
    problems := [];
    for i := 0 to |cap.steps|
      invariant problems == [] <==> forall s :: s in cap.steps[..i] ==> WaitKnown(cap, s)
    {
      assert cap.steps[..i + 1] == cap.steps[..i] + [cap.steps[i]];
      assert cap.steps[i] in cap.steps[..i + 1];
      var wait := cap.steps[i].waitFor;
      assert WaitKnown(cap, cap.steps[i]) <==> !(wait.CheckpointWait? && wait.checkpoint !in cap.checkpoints);
      if wait.CheckpointWait? && wait.checkpoint !in cap.checkpoints {
        problems := problems + [UnknownCheckpoint(wait.checkpoint)];
      }
    }
    assert cap.steps[..|cap.steps|] == cap.steps;
  }

  /** Every name must be that of a step. */
  method NeedSteps(cap: Capability, ids: seq<StepId>) returns (problems: seq<Problem>)
    ensures problems == [] <==> forall id :: id in ids ==> HasStep(cap.steps, id)
  {
    hide HasStep;
    problems := [];
    for i := 0 to |ids|
      invariant problems == [] <==> forall id :: id in ids[..i] ==> HasStep(cap.steps, id)
    {
      assert ids[..i + 1] == ids[..i] + [ids[i]];
      if !HasStep(cap.steps, ids[i]) {
        problems := problems + [UnknownStep(ids[i])];
      }
    }
    assert ids[..|ids|] == ids;
  }

  /** The step waits on the checkpoint. */
  predicate WaitsOn(cap: Capability, id: StepId, cp: CheckpointId) {
    && HasStep(cap.steps, id)
    && var w := cap.steps[Position(cap.steps, id)].waitFor; w.CheckpointWait? && w.checkpoint == cp
  }

  method TimeoutScopeProblems(cap: Capability, d: Detector, cp: CheckpointId) returns (problems: seq<Problem>)
    ensures problems == [] <==> TimeoutScoped(cap, d, cp)
  {
    hide HasStep, Position;
    if d.scope.None? {
      return [NeedsScope(d.id)];
    }
    var scope := d.scope.value;
    problems := [];
    for i := 0 to |scope|
      invariant problems == [] <==> forall id :: id in scope[..i] ==> WaitsOn(cap, id, cp)
    {
      assert scope[..i + 1] == scope[..i] + [scope[i]];
      if !WaitsOn(cap, scope[i], cp) {
        problems := problems + [WrongWait(d.id, scope[i])];
      }
    }
    assert scope[..|scope|] == scope;
    assert TimeoutScoped(cap, d, cp) <==> forall id :: id in scope ==> WaitsOn(cap, id, cp);
  }

  method TimeoutProblems(cap: Capability, d: Detector) returns (problems: seq<Problem>)
    ensures problems == [] <==> forall cp :: cp in d.timeouts ==> cp in cap.checkpoints && TimeoutScoped(cap, d, cp)
  {
    hide TimeoutScoped;
    problems := [];
    for i := 0 to |d.timeouts|
      invariant problems == [] <==>
        forall cp :: cp in d.timeouts[..i] ==> cp in cap.checkpoints && TimeoutScoped(cap, d, cp)
    {
      var cp := d.timeouts[i];
      assert d.timeouts[..i + 1] == d.timeouts[..i] + [cp];
      if cp !in cap.checkpoints {
        problems := problems + [UnknownCheckpoint(cp)];
      }
      var more := TimeoutScopeProblems(cap, d, cp);
      problems := problems + more;
    }
    assert d.timeouts[..|d.timeouts|] == d.timeouts;
  }

  function Positions(cap: Capability, ids: seq<StepId>): (ps: seq<nat>)
    requires forall id :: id in ids ==> HasStep(cap.steps, id)
    ensures |ps| == |ids| && forall i :: 0 <= i < |ids| ==> ps[i] == Position(cap.steps, ids[i]) && ps[i] < |cap.steps|
  {
    seq(|ids|, i requires 0 <= i < |ids| => Position(cap.steps, ids[i]))
  }

  predicate Increasing(ps: seq<nat>) {
    forall i, j :: 0 <= i < j < |ps| ==> ps[i] < ps[j]
  }

  method Smallest(ps: seq<nat>) returns (least: nat)
    requires ps != []
    ensures least in ps && forall p :: p in ps ==> least <= p
  {
    least := ps[0];
    for i := 1 to |ps|
      invariant least in ps[..i] && forall p :: p in ps[..i] ==> least <= p
    {
      assert ps[..i + 1] == ps[..i] + [ps[i]];
      if ps[i] < least { least := ps[i]; }
    }
    assert ps[..|ps|] == ps;
  }

  method RerunProblems(cap: Capability, d: Detector, ids: seq<StepId>, indexes: seq<nat>)
    returns (problems: seq<Problem>)
    requires |ids| == |indexes| && forall i :: 0 <= i < |ids| ==> indexes[i] < |cap.steps|
    ensures problems == [] <==> forall i :: 0 <= i < |ids| ==> !Guarded(cap.steps[indexes[i]])
  {
    hide Guarded;
    problems := [];
    for i := 0 to |ids|
      invariant problems == [] <==> forall j :: 0 <= j < i ==> !Guarded(cap.steps[indexes[j]])
    {
      if Guarded(cap.steps[indexes[i]]) {
        problems := problems + [MayNotRerun(d.id, ids[i])];
      }
    }
  }

  method ScopeWaitProblems(cap: Capability, d: Detector, ids: seq<StepId>, indexes: seq<nat>)
    returns (problems: seq<Problem>)
    requires |ids| == |indexes| && forall i :: 0 <= i < |ids| ==> indexes[i] < |cap.steps|
    ensures problems == [] <==> forall i :: 0 <= i < |ids| ==> cap.steps[indexes[i]].waitFor.CheckpointWait?
  {
    problems := [];
    for i := 0 to |ids|
      invariant problems == [] <==> forall j :: 0 <= j < i ==> cap.steps[indexes[j]].waitFor.CheckpointWait?
    {
      if !cap.steps[indexes[i]].waitFor.CheckpointWait? {
        problems := problems + [NeedsCheckpointWait(d.id, ids[i])];
      }
    }
  }

  method RunStepsProblems(cap: Capability, d: Detector, ids: seq<StepId>) returns (problems: seq<Problem>)
    requires forall id :: id in ids ==> HasStep(cap.steps, id)
    requires ScopeKnown(cap, d)
    ensures problems == [] <==> RunStepsScoped(cap, d, ids)
  {
    hide HasStep, Position, Guarded;
    if d.scope.None? || d.scope.value == [] {
      return [NeedsScope(d.id)];
    }
    var scope := d.scope.value;
    var indexes, scoped := Positions(cap, ids), Positions(cap, scope);
    var first := Smallest(scoped);
    problems := [];
    if !Increasing(indexes) {
      problems := problems + [OutOfFlowOrder(d.id)];
    }
    if exists i :: 0 <= i < |indexes| && indexes[i] >= first {
      problems := problems + [NotBeforeScope(d.id)];
    }
    var more := RerunProblems(cap, d, ids, indexes);
    problems := problems + more;
    more := ScopeWaitProblems(cap, d, scope, scoped);
    problems := problems + more;
    RunStepsByIndex(cap, d, ids, indexes, scoped, first);
  }

  /** The rules on a run_steps recovery, over positions. */
  lemma RunStepsByIndex(cap: Capability, d: Detector, ids: seq<StepId>, indexes: seq<nat>, scoped: seq<nat>, first: nat)
    requires (forall id :: id in ids ==> HasStep(cap.steps, id)) && ScopeKnown(cap, d)
    requires d.scope.Some? && d.scope.value != []
    requires indexes == Positions(cap, ids) && scoped == Positions(cap, d.scope.value)
    requires first in scoped && forall p :: p in scoped ==> first <= p
    ensures RunStepsScoped(cap, d, ids) <==>
      && Increasing(indexes)
      && (forall i :: 0 <= i < |indexes| ==> indexes[i] < first)
      && (forall i :: 0 <= i < |ids| ==> !Guarded(cap.steps[indexes[i]]))
      && (forall i :: 0 <= i < |scoped| ==> cap.steps[scoped[i]].waitFor.CheckpointWait?)
  {
    hide HasStep, Position, Guarded;
    var scope := d.scope.value;
    var least :| 0 <= least < |scoped| && scoped[least] == first;
    assert scope[least] in scope;
    if RunStepsScoped(cap, d, ids) {
      forall i | 0 <= i < |indexes| ensures indexes[i] < first { assert ids[i] in ids; }
      forall i | 0 <= i < |ids| ensures !Guarded(cap.steps[indexes[i]]) { assert ids[i] in ids; }
      forall i | 0 <= i < |scoped| ensures cap.steps[scoped[i]].waitFor.CheckpointWait? { assert scope[i] in scope; }
    }
    if forall i :: 0 <= i < |indexes| ==> indexes[i] < first {
      forall id, other | id in ids && other in scope ensures Position(cap.steps, id) < Position(cap.steps, other) {
        var i :| 0 <= i < |ids| && ids[i] == id;
        var j :| 0 <= j < |scope| && scope[j] == other;
        assert indexes[i] < first && scoped[j] in scoped;
      }
    }
  }

  method DetectorProblems(cap: Capability, d: Detector) returns (problems: seq<Problem>)
    ensures problems == [] <==> DetectorSound(cap, d)
  {
    hide HasStep, TimeoutScoped, RunStepsScoped;
    var unscoped := NeedSteps(cap, if d.scope.Some? then d.scope.value else []);
    problems := unscoped;
    assert problems == [] <==> ScopeKnown(cap, d);
    var more := TimeoutProblems(cap, d);
    problems := problems + more;
    if IsEngineCode(d.outcome.code) {
      problems := problems + [EngineCode(d.outcome.code)];
    }
    if d.outcome.BusinessOutcome? && d.outcome.field.Some? && d.outcome.field.value !in cap.inputs {
      problems := problems + [UndeclaredField(d.outcome.field.value)];
    }
    if d.outcome.Recoverable? && d.outcome.recovery.RunStepsRecovery? {
      var ids := d.outcome.recovery.stepIds;
      var unknown := NeedSteps(cap, ids);
      problems := problems + unknown;
      if unknown == [] && unscoped == [] {
        more := RunStepsProblems(cap, d, ids);
        problems := problems + more;
      }
    }
  }

  /** The kind each code was first declared with. */
  ghost predicate FirstKinds(ds: seq<Detector>, codes: map<Code, OutcomeKind>) {
    && (forall i :: 0 <= i < |ds| ==> ds[i].outcome.code in codes)
    && (forall c :: c in codes ==>
          exists i :: 0 <= i < |ds| && ds[i].outcome.code == c && KindOf(ds[i].outcome) == codes[c])
  }

  lemma NextCode(before: seq<Detector>, d: Detector, codes: map<Code, OutcomeKind>)
    requires FirstKinds(before, codes)
    ensures var code, kind := d.outcome.code, KindOf(d.outcome);
      if code in codes then
        FirstKinds(before + [d], codes) && (CodesAgree(before + [d]) <==> CodesAgree(before) && codes[code] == kind)
      else
        FirstKinds(before + [d], codes[code := kind]) && (CodesAgree(before + [d]) <==> CodesAgree(before))
  {
    hide KindOf;
    var code, kind := d.outcome.code, KindOf(d.outcome);
    var after := before + [d];
    var n := |before|;
    assert after[n] == d && forall i :: 0 <= i < n ==> after[i] == before[i];
    KindsGrow(before, d, codes);
    if CodesAgree(after) {
      forall i, j | 0 <= i < n && 0 <= j < n && before[i].outcome.code == before[j].outcome.code
        ensures KindOf(before[i].outcome) == KindOf(before[j].outcome)
      {
        assert after[i].outcome.code == after[j].outcome.code;
      }
    }
    if code in codes {
      var k :| 0 <= k < n && before[k].outcome.code == code && KindOf(before[k].outcome) == codes[code];
      assert after[k].outcome.code == after[n].outcome.code;
    }
  }

  lemma KindsGrow(before: seq<Detector>, d: Detector, codes: map<Code, OutcomeKind>)
    requires FirstKinds(before, codes)
    ensures FirstKinds(before + [d],
      if d.outcome.code in codes then codes else codes[d.outcome.code := KindOf(d.outcome)])
  {
    hide KindOf;
    var code := d.outcome.code;
    var after, now := before + [d], if code in codes then codes else codes[code := KindOf(d.outcome)];
    assert after[|before|] == d && forall i :: 0 <= i < |before| ==> after[i] == before[i];
    forall c | c in now
      ensures exists i :: 0 <= i < |after| && after[i].outcome.code == c && KindOf(after[i].outcome) == now[c]
    {
      if c in codes {
        var i :| 0 <= i < |before| && before[i].outcome.code == c && KindOf(before[i].outcome) == codes[c];
        assert after[i] == before[i];
      }
    }
  }

  method CodeProblems(ds: seq<Detector>) returns (problems: seq<Problem>)
    ensures problems == [] <==> CodesAgree(ds)
  {
    hide KindOf, FirstKinds, CodesAgree;
    problems := [];
    var codes: map<Code, OutcomeKind> := map[];
    NoCodesYet();
    assert ds[..0] == [];
    for i := 0 to |ds|
      invariant FirstKinds(ds[..i], codes)
      invariant problems == [] <==> CodesAgree(ds[..i])
    {
      var code, kind := ds[i].outcome.code, KindOf(ds[i].outcome);
      NextCode(ds[..i], ds[i], codes);
      assert ds[..i + 1] == ds[..i] + [ds[i]];
      if code !in codes {
        codes := codes[code := kind];
      } else if codes[code] != kind {
        problems := problems + [MixedCode(code)];
      }
    }
    assert ds[..|ds|] == ds;
  }

  lemma NoCodesYet()
    ensures FirstKinds([], map[]) && CodesAgree([])
  {
  }

  /** The whole check: it finds nothing exactly when every cross-reference rule holds. */
  method CrossReferences(cap: Capability) returns (problems: seq<Problem>)
    ensures problems == [] <==> CrossReferencesHold(cap)
  {
    hide Distinct, WaitKnown, DetectorSound, CodesAgree;
    problems := DuplicateProblems(cap);
    var more := StepProblems(cap);
    problems := problems + more;
    if cap.successCheckpoint !in cap.checkpoints {
      problems := problems + [UnknownCheckpoint(cap.successCheckpoint)];
    }
    if exists i :: 0 <= i < |cap.requiresOutputs| && cap.requiresOutputs[i] !in OutputNames(cap.outputs) {
      problems := problems + [UndeclaredOutputs];
    }
    ghost var others := problems;
    for i := 0 to |cap.detectors|
      invariant problems == [] <==> others == [] && forall d :: d in cap.detectors[..i] ==> DetectorSound(cap, d)
    {
      assert cap.detectors[..i + 1] == cap.detectors[..i] + [cap.detectors[i]];
      more := DetectorProblems(cap, cap.detectors[i]);
      problems := problems + more;
    }
    assert cap.detectors[..|cap.detectors|] == cap.detectors;
    more := CodeProblems(cap.detectors);
    problems := problems + more;
  }
}
