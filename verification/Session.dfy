/** The session file as a state machine, and the compare-and-swap through which the run and operators write it. */
module Session {
  import opened Vocab

  datatype Phase = Running | PausedForHuman | HumanActive | Resuming | Finished
  datatype Event =
    | StuckDetected | TakeControl | HandBack | CheckpointReverified | ReverifyFailed | Finish | Abort | Expire
  datatype Actor = Automation | Operator | System
  datatype Controller = ByAutomation | ByHuman | ByNobody

  datatype TransitionRecord = TransitionRecord(
    fromPhase: Phase, toPhase: Phase, event: Event, actor: Actor, operatorId: Option<string>, at: int)

  datatype SessionState = SessionState(
    phase: Phase, controller: Controller, version: nat, updatedAt: int,
    operatorId: Option<string>, interventionId: Option<string>, history: seq<TransitionRecord>)

  datatype SessionError = IllegalTransition | NotInControl | StaleState | Missing | Exists
  datatype Outcome = Ok(state: SessionState) | Err(error: SessionError)

  function ControllerFor(p: Phase): Controller {
    match p
    case Running => ByAutomation
    case Resuming => ByAutomation
    case HumanActive => ByHuman
    case _ => ByNobody
  }

  function Target(p: Phase, e: Event): Option<Phase> {
    match (p, e)
    case (Running, StuckDetected) => Some(PausedForHuman)
    case (Running, Finish) => Some(Finished)
    case (Running, Abort) => Some(Finished)
    case (PausedForHuman, TakeControl) => Some(HumanActive)
    case (PausedForHuman, Abort) => Some(Finished)
    case (PausedForHuman, Expire) => Some(Finished)
    case (HumanActive, HandBack) => Some(Resuming)
    case (HumanActive, Abort) => Some(Finished)
    case (HumanActive, Expire) => Some(Finished)
    case (Resuming, CheckpointReverified) => Some(Running)
    case (Resuming, ReverifyFailed) => Some(PausedForHuman)
    case (Resuming, Abort) => Some(Finished)
    case (PausedForHuman, Finish) => Some(Finished)
    case (Resuming, Finish) => Some(Finished)
    case (HumanActive, Finish) => Some(Finished)
    case _ => None
  }

  predicate MayFire(a: Actor, e: Event) {
    match e
    case TakeControl => a.Operator?
    case HandBack => a.Operator?
    case Abort => a.Operator?
    case Expire => a.System? || a.Automation?
    case _ => a.Automation?
  }

  function Start(now: int): SessionState {
    SessionState(Running, ByAutomation, 0, now, None, None, [])
  }

  /** The pure transition function. */
  function Advance(
    s: SessionState, e: Event, a: Actor, interventionId: Option<string>, operatorId: Option<string>, now: int): Outcome
  {
    var target := Target(s.phase, e);
    if target.None? then Err(IllegalTransition)
    else if !MayFire(a, e) then Err(IllegalTransition)
    else if a.Operator? && operatorId.None? then Err(IllegalTransition)
    else if e.StuckDetected? && interventionId.None? then Err(IllegalTransition)
    else if s.phase.HumanActive? && a.Operator? && operatorId != s.operatorId then Err(NotInControl)
    else
      var record := TransitionRecord(s.phase, target.value, e, a, operatorId, now);
      var open :=
        if target.value.Running? then None else if interventionId.Some? then interventionId else s.interventionId;
      var holder :=
        if target.value.Running? then None else if e.TakeControl? then operatorId else s.operatorId;
      Ok(SessionState(
        target.value, ControllerFor(target.value), s.version + 1, now, holder, open, s.history + [record]))
  }

  /** One locked read-modify-write of the file. */
  function Swap(
    file: Option<SessionState>, expected: Option<nat>, e: Event, a: Actor,
    interventionId: Option<string>, operatorId: Option<string>, now: int): Outcome
  {
    if file.None? then Err(Missing)
    else if expected.Some? && file.value.version != expected.value then Err(StaleState)
    else Advance(file.value, e, a, interventionId, operatorId, now)
  }

  // ---- what every file satisfies -----------------------------------------------------------------

  /** The operator of the latest take_control. */
  function LatestTaker(h: seq<TransitionRecord>): Option<string> {
    if h == [] then None
    else if h[|h| - 1].event.TakeControl? then h[|h| - 1].operatorId
    else LatestTaker(h[..|h| - 1])
  }

  ghost predicate LegalRecord(r: TransitionRecord) {
    && Target(r.fromPhase, r.event) == Some(r.toPhase)
    && MayFire(r.actor, r.event)
    && (r.actor.Operator? ==> r.operatorId.Some?)
  }

  /** The phase a history leads to from a fresh session. */
  function PhaseAfter(h: seq<TransitionRecord>): Phase {
    if h == [] then Running else h[|h| - 1].toPhase
  }

  ghost predicate Chained(h: seq<TransitionRecord>) {
    && (forall i :: 0 <= i < |h| ==> LegalRecord(h[i]))
    && (|h| > 0 ==> h[0].fromPhase == Running)
    && (forall i :: 0 < i < |h| ==> h[i].fromPhase == h[i - 1].toPhase)
  }

  /** Every hand-back is by the operator who took control last. */
  ghost predicate HandedBackByTaker(h: seq<TransitionRecord>) {
    forall i :: 0 <= i < |h| && h[i].event.HandBack? ==>
      h[i].operatorId.Some? && h[i].operatorId == LatestTaker(h[..i])
  }

  /** Control comes back to automation only through a hand-back and a verified checkpoint after it. */
  ghost predicate ResumedByHandBack(h: seq<TransitionRecord>) {
    forall i :: 0 <= i < |h| && h[i].toPhase.Running? ==>
      h[i].event.CheckpointReverified? && i > 0 && h[i - 1].event.HandBack?
  }

  /** A finished session has no successor. */
  ghost predicate EndsAtFinish(h: seq<TransitionRecord>) {
    forall i :: 0 <= i < |h| - 1 ==> !h[i].toPhase.Finished?
  }

  ghost predicate SessionInvariant(s: SessionState) {
    && s.version == |s.history|
    && s.controller == ControllerFor(s.phase)
    && s.phase == PhaseAfter(s.history)
    && Chained(s.history)
    && HandedBackByTaker(s.history)
    && ResumedByHandBack(s.history)
    && EndsAtFinish(s.history)
    && (s.phase.HumanActive? ==> s.operatorId.Some? && s.operatorId == LatestTaker(s.history))
  }

  lemma StartIsSound(now: int)
    ensures SessionInvariant(Start(now))
  {
  }

  lemma AppendChained(h: seq<TransitionRecord>, r: TransitionRecord)
    requires Chained(h) && LegalRecord(r) && r.fromPhase == PhaseAfter(h)
    ensures Chained(h + [r])
  {
    var t := h + [r];
    forall i | 0 <= i < |t| ensures LegalRecord(t[i]) {
      assert t[i] == if i < |h| then h[i] else r;
    }
  }

  lemma AppendHandedBack(h: seq<TransitionRecord>, r: TransitionRecord)
    requires HandedBackByTaker(h)
    requires r.event.HandBack? ==> r.operatorId.Some? && r.operatorId == LatestTaker(h)
    ensures HandedBackByTaker(h + [r])
  {
    var t := h + [r];
    forall i | 0 <= i < |t| && t[i].event.HandBack?
      ensures t[i].operatorId.Some? && t[i].operatorId == LatestTaker(t[..i])
    {
      assert t[..i] == h[..i];
      if i == |h| { assert h[..i] == h; }
    }
  }

  lemma AppendResumed(h: seq<TransitionRecord>, r: TransitionRecord)
    requires ResumedByHandBack(h)
    requires r.toPhase.Running? ==> r.event.CheckpointReverified? && h != [] && h[|h| - 1].event.HandBack?
    ensures ResumedByHandBack(h + [r])
  {
  }

  /** Only a hand-back leads to resuming. */
  lemma ResumingAfterHandBack(h: seq<TransitionRecord>)
    requires Chained(h) && PhaseAfter(h).Resuming?
    ensures h != [] && h[|h| - 1].event.HandBack?
  {
    assert LegalRecord(h[|h| - 1]);
  }

  /** Every accepted transition keeps the invariant, appends one record and moves the version by one. */
  lemma AdvanceKeepsInvariant(
    s: SessionState, e: Event, a: Actor, interventionId: Option<string>, operatorId: Option<string>, now: int)
    requires SessionInvariant(s)
    requires Advance(s, e, a, interventionId, operatorId, now).Ok?
    ensures var t := Advance(s, e, a, interventionId, operatorId, now).state;
      && SessionInvariant(t)
      && s.history <= t.history && |t.history| == |s.history| + 1
      && t.version == s.version + 1
      && !s.phase.Finished?
  {
    hide Chained, HandedBackByTaker, ResumedByHandBack;
    var t := Advance(s, e, a, interventionId, operatorId, now).state;
    var r := t.history[|s.history|];
    assert t.history == s.history + [r];
    AppendChained(s.history, r);
    AppendHandedBack(s.history, r);
    if t.phase.Running? { ResumingAfterHandBack(s.history); }
    AppendResumed(s.history, r);
    assert LatestTaker(t.history) == if e.TakeControl? then operatorId else LatestTaker(s.history) by {
      assert t.history[..|s.history|] == s.history;
    }
  }

  /** After a pause, a session is resuming again only if somebody took control since. */
  lemma ResumingMeansTaken(h: seq<TransitionRecord>, k: nat)
    requires Chained(h) && k < |h|
    requires h[k].toPhase.PausedForHuman? && PhaseAfter(h).Resuming?
    ensures exists j :: k < j < |h| && h[j].event.TakeControl?
  {
    var n := |h| - 1;
    assert LegalRecord(h[n]);
    assert h[n].fromPhase.HumanActive? && n > k;
    assert LegalRecord(h[n - 1]);
    assert h[n - 1].event.TakeControl?;
  }

  // ---- the file ----------------------------------------------------------------------------------

  class StateStore {
    var file: Option<SessionState>

    constructor ()
      ensures file.None?
    {
      file := None;
    }

    ghost predicate Valid()
      reads this
    {
      file.Some? ==> SessionInvariant(file.value)
    }

    method Create(state: SessionState) returns (r: Outcome)
      requires Valid() && SessionInvariant(state)
      modifies this
      ensures Valid()
      ensures old(file).None? ==> r == Ok(state) && file == Some(state)
      ensures old(file).Some? ==> r == Err(Exists) && file == old(file)
    {
      if file.Some? { return Err(Exists); }
      file := Some(state);
      r := Ok(state);
    }

    /** A write happens only at the expected version, and then history grows by exactly one record. */
    method Transition(
      e: Event, a: Actor, expected: Option<nat>, interventionId: Option<string>, operatorId: Option<string>, now: int)
      returns (r: Outcome)
      requires Valid()
      modifies this
      ensures Valid()
      ensures r == Swap(old(file), expected, e, a, interventionId, operatorId, now)
      ensures r.Err? ==> file == old(file)
      ensures r.Ok? ==>
        && old(file).Some? && file == Some(r.state)
        && (expected.Some? ==> old(file).value.version == expected.value)
        && r.state.version == old(file).value.version + 1
        && old(file).value.history <= r.state.history
        && !old(file).value.phase.Finished?
    {
      if file.None? { return Err(Missing); }
      var current := file.value;
      if expected.Some? && current.version != expected.value { return Err(StaleState); }
      r := Advance(current, e, a, interventionId, operatorId, now);
      if r.Ok? {
        AdvanceKeepsInvariant(current, e, a, interventionId, operatorId, now);
        file := Some(r.state);
      }
    }
  }

  /** The control hook: no file means no human was ever involved; otherwise the file decides. */
  predicate AutomationMayAct(file: Option<SessionState>) {
    file.None? || file.value.controller.ByAutomation?
  }

  predicate HumanSide(file: Option<SessionState>) {
    file.Some? && (file.value.phase.PausedForHuman? || file.value.phase.HumanActive?)
  }
}
