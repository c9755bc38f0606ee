/**
 * The run and the operator command lines as one transition system over the shared file.
 *
 * The run is one thread: its own program counter says where it stands, and checking control and
 * acting are separate steps. Operators write whenever they like, at whatever version they last read.
 */
module Interleaving {
  import opened Vocab
  import opened Session

  datatype RunPc =
    | Between
    | Acting
    | Creating
    | Opening
    | Pausing(seen: nat, event: Event)
    | Waiting
    | Expiring(seen: nat)

  datatype World = World(file: Option<SessionState>, pc: RunPc)

  datatype Step =
    | CheckControl
    | EndAct
    | StartPause
    | CreateFile(now: int)
    | ReadForPause
    | WritePause(interventionId: Option<string>, now: int)
    | SeeEnd
    | DecideToExpire
    | WriteExpire(now: int)
    | WindowClosed(now: int)
    | ConfirmVerified(now: int)
    | CloseRun(now: int)
    | OperatorWrite(event: Event, operatorId: Option<string>, seen: nat, now: int)

  /** The write a step attempts, if it attempts one. */
  function Attempt(s: World, step: Step): Option<Outcome> {
    match step
    case WritePause(iv, now) =>
      if s.pc.Pausing? then Some(Swap(s.file, Some(s.pc.seen), s.pc.event, Automation, iv, None, now)) else None
    case WriteExpire(now) =>
      if s.pc.Expiring? then Some(Swap(s.file, Some(s.pc.seen), Expire, Actor.System, None, None, now)) else None
    case WindowClosed(now) => Some(Swap(s.file, None, Finish, Automation, None, None, now))
    case ConfirmVerified(now) => Some(Swap(s.file, None, CheckpointReverified, Automation, None, None, now))
    case CloseRun(now) => Some(Swap(s.file, None, Finish, Automation, None, None, now))
    case OperatorWrite(e, op, seen, now) => Some(Swap(s.file, Some(seen), e, Operator, None, op, now))
    case _ => None
  }

  /** The version a compare-and-swap step insists on. */
  function Expected(s: World, step: Step): Option<nat> {
    match step
    case WritePause(_, _) => if s.pc.Pausing? then Some(s.pc.seen) else None
    case WriteExpire(_) => if s.pc.Expiring? then Some(s.pc.seen) else None
    case OperatorWrite(_, _, seen, _) => Some(seen)
    case _ => None
  }

  predicate Writes(s: World, step: Step) {
    Attempt(s, step).Some? && Attempt(s, step).value.Ok?
  }

  function FileAfter(s: World, step: Step): Option<SessionState> {
    if Writes(s, step) then Some(Attempt(s, step).value.state) else s.file
  }

  /** A failed write is skipped, never a crash, so the program counter moves on either way. */
  ghost predicate Next(s: World, step: Step, t: World) {
    match step
    case CheckControl => s.pc.Between? && AutomationMayAct(s.file) && t == s.(pc := Acting)
    case EndAct => s.pc.Acting? && t == s.(pc := Between)
    case StartPause => s.pc.Between? && t == s.(pc := if s.file.None? then Creating else Opening)
    case CreateFile(now) => s.pc.Creating? && s.file.None? && t == World(Some(Start(now)), Opening)
    case ReadForPause =>
      && s.pc.Opening? && s.file.Some?
      && t == s.(pc := Pausing(s.file.value.version,
           if s.file.value.phase.Resuming? then ReverifyFailed else StuckDetected))
    case WritePause(_, _) => s.pc.Pausing? && t == World(FileAfter(s, step), Waiting)
    case SeeEnd =>
      && s.pc.Waiting? && s.file.Some? && (s.file.value.phase.Resuming? || s.file.value.phase.Finished?)
      && t == s.(pc := Between)
    case DecideToExpire => s.pc.Waiting? && s.file.Some? && t == s.(pc := Expiring(s.file.value.version))
    case WriteExpire(_) => s.pc.Expiring? && t == World(FileAfter(s, step), Between)
    case WindowClosed(_) => s.pc.Waiting? && t == World(FileAfter(s, step), Between)
    case ConfirmVerified(_) => s.pc.Between? && t == World(FileAfter(s, step), Between)
    case CloseRun(_) => s.pc.Between? && t == World(FileAfter(s, step), Between)
    case OperatorWrite(_, _, _, _) => t == World(FileAfter(s, step), s.pc)
  }

  ghost predicate Behavior(states: seq<World>, steps: seq<Step>) {
    && |states| == |steps| + 1
    && states[0] == World(None, Between)
    && forall i :: 0 <= i < |steps| ==> Next(states[i], steps[i], states[i + 1])
  }

  ghost predicate Inductive(s: World) {
    && (s.file.Some? ==> SessionInvariant(s.file.value))
    && (s.pc.Acting? ==> !HumanSide(s.file))
    && (s.pc.Creating? ==> s.file.None?)
    && (s.pc.Pausing? ==> s.pc.event.StuckDetected? || s.pc.event.ReverifyFailed?)
  }

  function HistoryOf(file: Option<SessionState>): seq<TransitionRecord> {
    if file.Some? then file.value.history else []
  }

  /** What one step does to the file: nothing, its creation, or one record more. */
  ghost predicate Grows(before: Option<SessionState>, after: Option<SessionState>) {
    && HistoryOf(before) <= HistoryOf(after)
    && (before.Some? ==> after.Some?)
    && (before.Some? && before.value.phase.Finished? ==> after == before)
  }

  /** A write that went through keeps the file's invariant and adds one record. */
  lemma WriteKeepsInvariant(s: World, step: Step)
    requires Inductive(s) && Writes(s, step)
    ensures s.file.Some? && !s.file.value.phase.Finished? && SessionInvariant(FileAfter(s, step).value)
    ensures s.file.value.history <= FileAfter(s, step).value.history
    ensures |FileAfter(s, step).value.history| == |s.file.value.history| + 1
  {
    hide SessionInvariant, Advance;
    var f := s.file.value;
    match step
    case WritePause(iv, now) => AdvanceKeepsInvariant(f, s.pc.event, Automation, iv, None, now);
    case WriteExpire(now) => AdvanceKeepsInvariant(f, Expire, Actor.System, None, None, now);
    case WindowClosed(now) => AdvanceKeepsInvariant(f, Finish, Automation, None, None, now);
    case ConfirmVerified(now) => AdvanceKeepsInvariant(f, CheckpointReverified, Automation, None, None, now);
    case CloseRun(now) => AdvanceKeepsInvariant(f, Finish, Automation, None, None, now);
    case OperatorWrite(e, op, seen, now) => AdvanceKeepsInvariant(f, e, Operator, None, op, now);
  }

  /** An operator who writes during an act leaves no human side: only aborting is possible from there. */
  lemma WriteDuringAct(s: World, step: Step)
    requires Inductive(s) && s.pc.Acting? && step.OperatorWrite? && Writes(s, step)
    ensures !HumanSide(FileAfter(s, step))
  {
    hide SessionInvariant;
  }

  lemma {:induction false} StepKeepsInvariant(s: World, step: Step, t: World)
    requires Inductive(s) && Next(s, step, t)
    ensures Inductive(t) && Grows(s.file, t.file)
    ensures Writes(s, step) ==> s.file.Some? && |HistoryOf(t.file)| == |HistoryOf(s.file)| + 1
  {
    if Writes(s, step) {
      hide SessionInvariant, Advance, Attempt, HumanSide;
      WriteKeepsInvariant(s, step);
      if s.pc.Acting? { WriteDuringAct(s, step); }
    } else {
      FileStarts(s, step, t);
    }
  }

  /** A step that writes nothing leaves the file, or creates it. */
  lemma FileStarts(s: World, step: Step, t: World)
    requires Inductive(s) && Next(s, step, t) && !Writes(s, step)
    ensures Inductive(t) && (t.file == s.file || s.file.None?)
  {
    hide Advance;
  }

  /** The invariant holds at every point of every interleaving, and history only grows. */
  lemma {:induction false} Safe(states: seq<World>, steps: seq<Step>, i: nat, j: nat)
    requires Behavior(states, steps) && i <= j < |states|
    ensures Inductive(states[i]) && Inductive(states[j]) && Grows(states[i].file, states[j].file)
    decreases j
  {
    if i < j {
      Safe(states, steps, i, j - 1);
      StepKeepsInvariant(states[j - 1], steps[j - 1], states[j]);
    } else if j > 0 {
      Safe(states, steps, j - 1, j - 1);
      StepKeepsInvariant(states[j - 1], steps[j - 1], states[j]);
    }
  }

  /**
   * Mutual exclusion: from the control check that admits an act to the end of that act, no human
   * side of the session exists, although nothing is locked in between.
   */
  lemma MutualExclusion(states: seq<World>, steps: seq<Step>, i: nat)
    requires Behavior(states, steps) && i < |states| && states[i].pc.Acting?
    ensures !HumanSide(states[i].file)
    ensures states[i].file.Some? && !states[i].file.value.phase.Finished? ==> AutomationMayAct(states[i].file)
  {
    Safe(states, steps, i, i);
  }

  /** One record was added, it is an abort, and it finished the session. */
  ghost predicate AbortedOnce(before: Option<SessionState>, after: Option<SessionState>) {
    && before.Some? && !before.value.phase.Finished?
    && after.Some? && after.value.phase.Finished?
    && |after.value.history| == |before.value.history| + 1
    && before.value.history <= after.value.history
    && after.value.history[|before.value.history|].event.Abort?
  }

  /** One step during an act adds nothing, or an operator's abort. */
  lemma StepOnlyAborts(s: World, step: Step, t: World)
    requires Inductive(s) && Next(s, step, t) && s.pc.Acting? && t.pc.Acting?
    ensures t.file == s.file || AbortedOnce(s.file, t.file)
  {
    hide Chained, HandedBackByTaker, ResumedByHandBack, EndsAtFinish, LatestTaker;
    assert step.OperatorWrite?;
    if Writes(s, step) {
      AdvanceKeepsInvariant(s.file.value, step.event, Operator, None, step.operatorId, step.now);
    }
  }

  /** While an act runs, the only thing anyone can add to the file is an operator's abort. */
  lemma {:induction false} OnlyAbortDuringAct(states: seq<World>, steps: seq<Step>, i: nat, j: nat)
    requires Behavior(states, steps) && i <= j < |states|
    requires forall k :: i <= k <= j ==> states[k].pc.Acting?
    ensures states[j].file == states[i].file || AbortedOnce(states[i].file, states[j].file)
    decreases j
  {
    hide SessionInvariant, Advance, Next;
    if i < j {
      OnlyAbortDuringAct(states, steps, i, j - 1);
      Safe(states, steps, j - 1, j);
      assert states[j - 1].pc.Acting? && states[j].pc.Acting?;
      StepOnlyAborts(states[j - 1], steps[j - 1], states[j]);
    }
  }

  /** Two writes that insist on the same version never both succeed. */
  lemma SwapIsExclusive(states: seq<World>, steps: seq<Step>, i: nat, j: nat)
    requires Behavior(states, steps) && i < j < |steps|
    requires Writes(states[i], steps[i]) && Writes(states[j], steps[j])
    ensures Expected(states[i], steps[i]).None? || Expected(states[i], steps[i]) != Expected(states[j], steps[j])
  {
    hide Chained, HandedBackByTaker, ResumedByHandBack, EndsAtFinish, LatestTaker, Advance;
    Safe(states, steps, i, i + 1);
    Safe(states, steps, i + 1, j);
    StepKeepsInvariant(states[i], steps[i], states[i + 1]);
  }

  /** Once finished, a session file never changes again. */
  lemma FinishedIsAbsorbing(states: seq<World>, steps: seq<Step>, i: nat, j: nat)
    requires Behavior(states, steps) && i <= j < |states|
    requires states[i].file.Some? && states[i].file.value.phase.Finished?
    ensures states[j].file == states[i].file
  {
    Safe(states, steps, i, j);
  }

  /**
   * The whole file invariant, over every interleaving: versions count the history, phases chain,
   * hand-backs come from the taker, and automation regains control only through a hand-back.
   */
  lemma FileInvariant(states: seq<World>, steps: seq<Step>, i: nat, j: nat)
    requires Behavior(states, steps) && i <= j < |states| && states[j].file.Some?
    ensures SessionInvariant(states[j].file.value)
    ensures states[i].file.Some? ==> states[i].file.value.history <= states[j].file.value.history
  {
    Safe(states, steps, i, j);
  }
}
