/** The operator channel: a pause from its request to its answer, while operators write the session file. */
module Operators {
  import opened Vocab
  import opened Result
  import opened Session
  import opened Stops
  import opened Wording

  /** When a human took this pause's session, and who; earlier pauses do not count. */
  function Taker(h: seq<TransitionRecord>, since: int): Option<TransitionRecord> {
    if h == [] then None
    else
      var last := h[|h| - 1];
      if last.at < since then None
      else if last.event.TakeControl? then Some(last)
      else Taker(h[..|h| - 1], since)
  }

  /** The pause's record as it was kept when the browser went away. */
  function GoneRecord(stop: RunStopped, reason: ReasonCode, taker: Option<TransitionRecord>): RecoveryRecord {
    Human(stop.stepId, reason, if taker.Some? then WasAborted else WasExpired,
          if taker.Some? then taker.value.operatorId else None, false,
          if taker.Some? then Some(taker.value.at) else None, None)
  }

  predicate LastIsAbort(h: seq<TransitionRecord>) {
    h != [] && h[|h| - 1].event.Abort?
  }

  /** The record of a pause that ended without a hand-back: aborted if the last transition is an abort. */
  function EndedRecord(
    stop: RunStopped, reason: ReasonCode, state: SessionState, taker: Option<TransitionRecord>): RecoveryRecord
  {
    var aborted := LastIsAbort(state.history);
    var abortedBy := if aborted then state.history[|state.history| - 1].operatorId else None;
    var operator := if taker.Some? then taker.value.operatorId else None;
    Human(stop.stepId, reason, if aborted then WasAborted else WasExpired,
          if abortedBy.Some? then abortedBy else if !aborted then operator else None, false,
          if taker.Some? then Some(taker.value.at) else None, None)
  }

  function EscalatedStop(stop: RunStopped, path: string, record: RecoveryRecord): RunStopped {
    RunStopped(stop.code, HumanWasAsked(stop.message), stop.expected, stop.observed,
               StopEscalated, [], Some(path), stop.stepId, [record])
  }

  /**
   * The channel's answer once its wait is over. A record that breaks the record's own shape rules
   * raises instead of being returned.
   */
  function Answer(
    stop: RunStopped, reason: ReasonCode, path: string, state: SessionState, lost: bool, openedAt: int, now: int)
    : (a: HookAnswer)
    ensures a.EndsRun? ==>
      && a.stop.code == stop.code && a.stop.expected == stop.expected && a.stop.observed == stop.observed
      && a.stop.status.StopEscalated? && a.stop.fieldErrors == [] && a.stop.interventionPath == Some(path)
      && |a.stop.recoveries| == 1 && a.stop.recoveries[0].Human? && OutcomeShape(a.stop.recoveries[0])
      && !a.stop.recoveries[0].outcome.WasHandedBack?
    ensures a.GivesBack? ==>
      && a.handback.intervention.Human? && a.handback.intervention.outcome.WasHandedBack?
      && a.handback.intervention.reason == reason
      && OutcomeShape(Confirmed(a.handback, true)) && OutcomeShape(Confirmed(a.handback, false))
  {
    var taker := Taker(state.history, openedAt);
    if lost then
      var record := GoneRecord(stop, reason, taker);
      if OutcomeShape(record) then EndsRun(EscalatedStop(stop, path, record)) else Breaks
    else if !state.phase.Resuming? then
      var record := EndedRecord(stop, reason, state, taker);
      if OutcomeShape(record) then EndsRun(EscalatedStop(stop, path, record)) else Breaks
    else if taker.None? || taker.value.operatorId.None? then Breaks
    else
      var record := Human(stop.stepId, reason, WasHandedBack, taker.value.operatorId,
        false, Some(taker.value.at), Some(now));
      if OutcomeShape(record) then GivesBack(Handback(record, path)) else Breaks
  }

  ghost predicate Ordered(h: seq<TransitionRecord>) {
    forall i, j :: 0 <= i <= j < |h| ==> h[i].at <= h[j].at
  }

  /** The taker is the latest take_control of a history, provided nothing since is older than the pause. */
  lemma {:induction false} TakerFinds(h: seq<TransitionRecord>, since: int, k: nat)
    requires Ordered(h) && k < |h| && h[k].event.TakeControl? && h[k].at >= since
    ensures Taker(h, since).Some?
  {
    var n := |h| - 1;
    assert h[n].at >= since;
    if !h[n].event.TakeControl? {
      assert h[..n][k] == h[k];
      TakerFinds(h[..n], since, k);
    }
  }

  lemma {:induction false} TakerIsARecord(h: seq<TransitionRecord>, since: int)
    requires Taker(h, since).Some?
    ensures exists k :: 0 <= k < |h| && h[k] == Taker(h, since).value && h[k].event.TakeControl? && h[k].at >= since
  {
    var n := |h| - 1;
    if !h[n].event.TakeControl? {
      TakerIsARecord(h[..n], since);
      var k :| 0 <= k < n && h[..n][k] == Taker(h[..n], since).value;
      assert h[k] == Taker(h, since).value;
    }
  }

  /** The latest take_control names its operator, like every operator's transition. */
  lemma TakerIsNamed(state: SessionState, since: int)
    requires SessionInvariant(state) && Taker(state.history, since).Some?
    ensures Taker(state.history, since).value.operatorId.Some?
    ensures Taker(state.history, since).value in state.history
  {
    TakerIsARecord(state.history, since);
    var i :| 0 <= i < |state.history| && state.history[i] == Taker(state.history, since).value;
    assert LegalRecord(state.history[i]);
  }

  /** A session that is resuming after this pause was taken during this pause. */
  lemma ResumingHasTaker(state: SessionState, openedAt: int, k: nat)
    requires SessionInvariant(state) && Ordered(state.history) && state.phase.Resuming?
    requires k < |state.history| && state.history[k].toPhase.PausedForHuman? && state.history[k].at >= openedAt
    ensures Taker(state.history, openedAt).Some? && !LastIsAbort(state.history)
  {
    var h := state.history;
    ResumingMeansTaken(h, k);
    var j :| k < j < |h| && h[j].event.TakeControl?;
    TakerFinds(h, openedAt, j);
    assert LegalRecord(h[|h| - 1]);
  }

  /** The record of a pause that ended without a hand-back breaks its shape only for an abort nobody took. */
  lemma EndedShape(stop: RunStopped, reason: ReasonCode, state: SessionState, openedAt: int)
    requires SessionInvariant(state)
    ensures
      var taker := Taker(state.history, openedAt);
      OutcomeShape(EndedRecord(stop, reason, state, taker)) <==> !(LastIsAbort(state.history) && taker.None?)
  {
    if Taker(state.history, openedAt).Some? { TakerIsNamed(state, openedAt); }
    if LastIsAbort(state.history) { assert LegalRecord(state.history[|state.history| - 1]); }
  }

  /**
   * Whatever state a wait ends in, the channel's answer is an exception in exactly two cases: an operator
   * aborted, or handed back, a session that nobody took since openedAt.
   */
  lemma BreaksExactly(
    stop: RunStopped, reason: ReasonCode, path: string, state: SessionState, lost: bool, openedAt: int, now: int)
    requires SessionInvariant(state)
    requires forall r :: r in state.history ==> r.at <= now
    ensures Answer(stop, reason, path, state, lost, openedAt, now).Breaks? <==>
            !lost && Taker(state.history, openedAt).None? && (LastIsAbort(state.history) || state.phase.Resuming?)
  {
    EndedShape(stop, reason, state, openedAt);
    if Taker(state.history, openedAt).Some? { TakerIsNamed(state, openedAt); }
  }

  /**
   * After a pause opened at openedAt only one of the two is left: an operator aborted before anyone took
   * control.
   */
  lemma BreaksOnlyOnAbortBeforeTaking(
    stop: RunStopped, reason: ReasonCode, path: string, state: SessionState, lost: bool, openedAt: int, now: int,
    k: nat)
    requires SessionInvariant(state) && Ordered(state.history)
    requires forall r :: r in state.history ==> r.at <= now
    requires k < |state.history| && state.history[k].toPhase.PausedForHuman? && state.history[k].at >= openedAt
    ensures Answer(stop, reason, path, state, lost, openedAt, now).Breaks? <==>
            !lost && LastIsAbort(state.history) && Taker(state.history, openedAt).None?
  {
    BreaksExactly(stop, reason, path, state, lost, openedAt, now);
    if state.phase.Resuming? { ResumingHasTaker(state, openedAt, k); }
  }

  // ---- waiting -----------------------------------------------------------------------------------

  /** What one look at the session file found, and when. */
  datatype Look = Look(at: int, state: SessionState)

  /** Some look found a human at the controls. */
  ghost predicate SomeHeld(looks: seq<Look>) {
    exists i :: 0 <= i < |looks| && looks[i].state.phase.HumanActive?
  }

  /** When the human took control whom the first look from n on that found one did find. */
  ghost function SeenTaken(looks: seq<Look>, n: nat): Option<int>
    requires n <= |looks|
    decreases |looks| - n
  {
    if n == |looks| then None
    else if looks[n].state.phase.HumanActive? then Some(looks[n].state.updatedAt)
    else SeenTaken(looks, n + 1)
  }

  lemma {:induction false} OneLookMore(looks: seq<Look>, n: nat, one: Look)
    requires n <= |looks|
    ensures SeenTaken(looks + [one], n) ==
      if SeenTaken(looks, n).Some? then SeenTaken(looks, n)
      else if one.state.phase.HumanActive? then Some(one.state.updatedAt) else None
    decreases |looks| - n
  {
    if n < |looks| { OneLookMore(looks, n + 1, one); }
  }

  /** Nobody at the controls was seen from n on exactly if no look from n on found a human there. */
  lemma {:induction false} SeenTakenIs(looks: seq<Look>, n: nat)
    requires n <= |looks|
    ensures SeenTaken(looks, n).Some? <==> exists i :: n <= i < |looks| && looks[i].state.phase.HumanActive?
    ensures SeenTaken(looks, n).Some? ==>
      exists i :: n <= i < |looks| && looks[i].state.phase.HumanActive?
        && SeenTaken(looks, n).value == looks[i].state.updatedAt
    decreases |looks| - n
  {
    if n < |looks| { SeenTakenIs(looks, n + 1); }
  }

  /** The wall clock, and the processes that may write the session file while time passes. */
  class Outside {
    const store: StateStore
    const longestSleep: nat
    var clock: int

    /** Every look that was taken at the file. */
    ghost var looks: seq<Look>

    constructor (store: StateStore, longestSleep: nat)
      ensures this.store == store && this.longestSleep == longestSleep && looks == []
    {
      this.store, this.longestSleep := store, longestSleep;
      clock := *;
      looks := [];
    }

    method Read() returns (state: SessionState)
      requires Valid() && store.file.Some?
      modifies this`looks
      ensures Valid() && state.updatedAt <= clock
      ensures state == store.file.value && looks == old(looks) + [Look(clock, state)]
    {
      state := store.file.value;
      looks := looks + [Look(clock, state)];
    }

    ghost predicate Valid()
      reads this, store
    {
      && store.Valid()
      && (store.file.Some? ==>
            && store.file.value.updatedAt <= clock
            && Ordered(store.file.value.history)
            && forall r :: r in store.file.value.history ==> r.at <= clock)
    }

    /** One transition by anybody, stamped with the current time. */
    method Write(e: Event, a: Actor, expected: Option<nat>, iv: Option<string>, op: Option<string>)
      requires Valid()
      modifies store
      ensures Valid()
      ensures old(store.file).Some? ==>
        store.file.Some? && old(store.file).value.history <= store.file.value.history
      ensures
        var swapped := Swap(old(store.file), expected, e, a, iv, op, clock);
        store.file == if swapped.Ok? then Some(swapped.state) else old(store.file)
      ensures old(store.file).None? ==> store.file.None?
    {
      var r := store.Transition(e, a, expected, iv, op, clock);
    }

    /** Time passes: at least one millisecond, at most the longest sleep, and operators write meanwhile. */
    method Sleep() returns (failed: bool)
      requires Valid() && store.file.Some? && longestSleep > 0
      modifies this`clock, store
      ensures Valid() && store.file.Some?
      ensures old(clock) < clock <= old(clock) + longestSleep
      ensures old(store.file).value.history <= store.file.value.history
    {
      failed := *;
      ghost var start := clock;
      ghost var first := store.file.value.history;
      var left: nat :| left < longestSleep;
      clock := clock + 1;
      while left > 0
        invariant Valid() && store.file.Some?
        invariant start < clock <= start + longestSleep - left
        invariant first <= store.file.value.history
        decreases left
      {
        var e: Event, expected: Option<nat>, op: Option<string> := *, *, *;
        Write(e, Operator, expected, None, op);
        clock, left := clock + 1, left - 1;
      }
    }
  }

  /**
   * When a pause's wait runs out: a taker that a look found restarts it, but only the first one in the
   * channel's life.
   */
  function Deadline(requestedAt: int, waitMs: int, heldBefore: bool, takenAt: Option<int>): int {
    if takenAt.Some? && !heldBefore then takenAt.value + waitMs else requestedAt + waitMs
  }

  /** The deadline of a wait that began after the first n looks. */
  ghost function DeadlineSeen(requestedAt: int, waitMs: int, looks: seq<Look>, n: nat): int
    requires n <= |looks|
  {
    Deadline(requestedAt, waitMs, SomeHeld(looks[..n]), SeenTaken(looks, n))
  }

  /**
   * An operator who takes control during a pause gets the whole window exactly if a look of this wait
   * finds a human at the controls and no look of an earlier wait ever did: the restart is decided by what
   * the channel polled, not by what the operator did, and is remembered for good.
   */
  lemma FullWindowExactly(requestedAt: int, waitMs: int, looks: seq<Look>, n: nat, takenAt: int)
    requires n <= |looks| && requestedAt < takenAt
    requires forall i :: n <= i < |looks| && looks[i].state.phase.HumanActive? ==> looks[i].state.updatedAt >= takenAt
    ensures DeadlineSeen(requestedAt, waitMs, looks, n) >= takenAt + waitMs <==>
      !SomeHeld(looks[..n]) && exists i :: n <= i < |looks| && looks[i].state.phase.HumanActive?
  {
    SeenTakenIs(looks, n);
  }

  /** The session of a first pause at 0 that ann takes 100 ms before a wait of 300 s runs out. */
  function PausedAtZero(): SessionState {
    var record := TransitionRecord(Running, PausedForHuman, StuckDetected, Automation, None, 0);
    SessionState(PausedForHuman, ByNobody, 1, 0, None, Some("iv_01"), [record])
  }

  function TakenLate(): SessionState {
    var record := TransitionRecord(PausedForHuman, HumanActive, TakeControl, Operator, Some("ann"), 299900);
    SessionState(HumanActive, ByHuman, 2, 299900, Some("ann"), Some("iv_01"), PausedAtZero().history + [record])
  }

  /**
   * Taking control between the last look and the deadline gives no window at all: the file expires no
   * more, being newer than what was looked at, and yet the pause is answered as expired.
   */
  lemma TakenBetweenLooks(stop: RunStopped, reason: ReasonCode, path: string)
    ensures Advance(Start(0), StuckDetected, Automation, Some("iv_01"), None, 0) == Ok(PausedAtZero())
    ensures Swap(Some(PausedAtZero()), None, TakeControl, Operator, None, Some("ann"), 299900) == Ok(TakenLate())
    ensures DeadlineSeen(0, 300000, [Look(299850, PausedAtZero())], 0) == 300000 < 299900 + 300000
    ensures Swap(Some(TakenLate()), Some(PausedAtZero().version), Expire, System, None, None, 300100) == Err(StaleState)
    ensures var a := Answer(stop, reason, path, TakenLate(), false, 0, 300100);
      && a.EndsRun? && a.stop.recoveries[0].outcome.WasExpired?
      && a.stop.recoveries[0].takenAt == Some(299900) && a.stop.recoveries[0].operatorId == Some("ann")
  {
    var looks := [Look(299850, PausedAtZero())];
    assert SeenTaken(looks, 0) == SeenTaken(looks, 1);
  }

  class OperatorChannel {
    const outside: Outside
    const waitMs: nat
    var pauses: nat
    var holding: bool
    var capturing: bool
    var lost: bool

    constructor (outside: Outside, waitMs: nat)
      ensures this.outside == outside && this.waitMs == waitMs
      ensures pauses == 0 && !holding && !capturing && !lost
      ensures outside.Valid() && outside.looks == [] ==> Valid()
    {
      this.outside, this.waitMs := outside, waitMs;
      pauses, holding, capturing, lost := 0, false, false, false;
    }

    /** The channel remembers that somebody held the session exactly if one of its looks found so. */
    ghost predicate Valid()
      reads this, outside, outside.store
    {
      outside.Valid() && (holding <==> SomeHeld(outside.looks))
    }

    /** A write whose refusal is ignored. */
    method Quietly(e: Event, a: Actor, expected: Option<nat>)
      requires outside.Valid() && outside.store.file.Some?
      modifies outside.store
      ensures outside.Valid() && outside.store.file.Some?
      ensures old(outside.store.file).value.history <= outside.store.file.value.history
    {
      outside.Write(e, a, expected, None, None);
    }

    /** Pauses a running or resuming session, which is created if there is none yet; any other stays as it is. */
    method PauseSession(interventionId: string)
      requires outside.Valid()
      modifies outside.store
      ensures outside.Valid() && outside.store.file.Some?
      ensures old(outside.store.file).Some? ==>
        old(outside.store.file).value.history <= outside.store.file.value.history
      ensures
        var before := if old(outside.store.file).Some? then old(outside.store.file).value else Start(outside.clock);
        var after := outside.store.file.value;
        if Pausable(before.phase) then
          && after.phase.PausedForHuman? && |after.history| == |before.history| + 1
          && after.history[|before.history|].toPhase.PausedForHuman?
          && after.history[|before.history|].at == outside.clock
          && after.interventionId == Some(interventionId)
        else after == before
    {
      hide SessionInvariant;
      if outside.store.file.None? {
        StartIsSound(outside.clock);
        var _ := outside.store.Create(Start(outside.clock));
      }
      var current := outside.store.file.value;
      var event := if current.phase.Resuming? then ReverifyFailed else StuckDetected;
      outside.Write(event, Automation, Some(current.version), Some(interventionId), None);
    }

    /**
     * Looks at the file again and again. The wait expires at a deadline that only its looks decide, and
     * otherwise ends with the session resuming, finished or lost, before twice its length plus one sleep.
     */
    method WaitForOperator(requestedAt: int) returns (ghost expired: bool)
      requires Valid() && outside.store.file.Some? && outside.longestSleep > 0 && waitMs > 0
      requires outside.clock == requestedAt
      modifies this`holding, this`capturing, this`lost, outside`clock, outside`looks, outside.store
      ensures Valid() && outside.store.file.Some?
      ensures old(outside.store.file).value.history <= outside.store.file.value.history
      ensures !capturing && (old(lost) ==> lost)
      ensures old(outside.looks) < outside.looks
      ensures outside.clock < requestedAt + 2 * waitMs + outside.longestSleep
      ensures SomeHeld(old(outside.looks)) ==> outside.clock < requestedAt + waitMs + outside.longestSleep
      ensures expired ==>
        var last := outside.looks[|outside.looks| - 1];
        && !last.state.phase.Resuming? && !last.state.phase.Finished?
        && last.at < outside.clock <= last.at + outside.longestSleep
        && outside.clock >= DeadlineSeen(requestedAt, waitMs, outside.looks, |old(outside.looks)|)
      ensures !expired && !lost ==>
        outside.store.file.value.phase.Resuming? || outside.store.file.value.phase.Finished?
      ensures old(outside.store.file).value.phase.Finished? ==>
        outside.store.file == old(outside.store.file) && outside.clock == requestedAt && !expired && lost == old(lost)
    {
      hide SessionInvariant, Ordered, SomeHeld, SeenTaken, DeadlineSeen, Outside.Valid;
      var deadline := requestedAt + waitMs;
      expired := false;
      capturing := true;
      ghost var n := |outside.looks|;
      NoLookYet(requestedAt, waitMs, outside.looks);
      while true
        invariant Valid() && outside.store.file.Some?
        invariant old(outside.store.file).value.history <= outside.store.file.value.history
        invariant lost == old(lost) && !expired && n <= |outside.looks| && outside.looks[..n] == old(outside.looks)
        invariant deadline == DeadlineSeen(requestedAt, waitMs, outside.looks, n)
        invariant holding <==> old(holding) || SeenTaken(outside.looks, n).Some?
        invariant requestedAt <= outside.clock < deadline < requestedAt + 2 * waitMs
        invariant old(holding) || !holding ==> deadline == requestedAt + waitMs
        invariant |outside.looks| == n ==> outside.store.file == old(outside.store.file) && outside.clock == requestedAt
        invariant old(outside.store.file).value.phase.Finished? ==> |outside.looks| == n
        decreases requestedAt + 2 * waitMs - outside.clock
      {
        ghost var looks := outside.looks;
        var state := outside.Read();
        LookMoves(requestedAt, waitMs, looks, n, Look(outside.clock, state));
        LookHolds(looks, Look(outside.clock, state));
        if state.phase.Resuming? || state.phase.Finished? {
          capturing := false;
          return;
        }
        if state.phase.HumanActive? && !holding {
          holding := true;
          deadline := state.updatedAt + waitMs;
        }
        var failed := outside.Sleep();
        if failed {
          lost, capturing := true, false;
          Quietly(Finish, Automation, None);
          return;
        }
        if outside.clock >= deadline {
          capturing := false;
          Quietly(Expire, System, Some(state.version));
          expired := true;
          return;
        }
      }
    }

    lemma NoLookYet(requestedAt: int, waitMs: int, looks: seq<Look>)
      ensures SeenTaken(looks, |looks|) == None
      ensures DeadlineSeen(requestedAt, waitMs, looks, |looks|) == requestedAt + waitMs
    {
    }

    /** A look moves the deadline exactly when it is the first ever to find a human at the controls. */
    lemma LookMoves(requestedAt: int, waitMs: int, looks: seq<Look>, n: nat, one: Look)
      requires n <= |looks|
      ensures (looks + [one])[..n] == looks[..n]
      ensures SeenTaken(looks + [one], n).Some? <==> SeenTaken(looks, n).Some? || one.state.phase.HumanActive?
      ensures DeadlineSeen(requestedAt, waitMs, looks + [one], n) ==
        if one.state.phase.HumanActive? && SeenTaken(looks, n).None? && !SomeHeld(looks[..n])
        then one.state.updatedAt + waitMs else DeadlineSeen(requestedAt, waitMs, looks, n)
    {
      hide SomeHeld;
      OneLookMore(looks, n, one);
      assert (looks + [one])[..n] == looks[..n];
    }

    lemma LookHolds(looks: seq<Look>, one: Look)
      ensures SomeHeld(looks + [one]) <==> SomeHeld(looks) || one.state.phase.HumanActive?
    {
      if SomeHeld(looks) {
        var i :| 0 <= i < |looks| && looks[i].state.phase.HumanActive?;
        assert (looks + [one])[i] == looks[i];
      }
      if one.state.phase.HumanActive? { assert (looks + [one])[|looks|] == one; }
    }

    /**
     * One pause from beginning to end: pause the session, wait for an operator, answer. It is over in
     * bounded time, and it raises in exactly one case, an abort before anyone took control, unless the
     * session was already in a human's hands when it began.
     */
    method Call(stop: RunStopped, reason: ReasonCode, interventionId: string, path: string)
      returns (a: HookAnswer, ghost openedAt: int)
      requires Valid() && outside.longestSleep > 0 && waitMs > 0
      modifies this, outside`clock, outside`looks, outside.store
      ensures Valid() && outside.store.file.Some?
      ensures openedAt == old(outside.clock) && pauses == old(pauses) + 1
      ensures outside.clock < openedAt + 2 * waitMs + outside.longestSleep
      ensures old(outside.store.file).Some? ==>
        old(outside.store.file).value.history <= outside.store.file.value.history
      ensures
        var file := outside.store.file.value;
        a.Breaks? <==>
          !lost && Taker(file.history, openedAt).None? && (LastIsAbort(file.history) || file.phase.Resuming?)
      ensures old(outside.store.file).None? || Pausable(old(outside.store.file).value.phase)
              || old(outside.store.file).value.phase.Finished? ==>
        var history := outside.store.file.value.history;
        (a.Breaks? <==> !lost && LastIsAbort(history) && Taker(history, openedAt).None?)
      ensures a.GivesBack? ==>
        && outside.store.file.value.phase.Resuming?
        && a.handback.intervention.Human? && a.handback.intervention.reason == reason
        && a.handback.intervention.takenAt.Some? && a.handback.intervention.takenAt.value >= openedAt
    {
      hide SessionInvariant, Ordered, OutcomeShape, SomeHeld, DeadlineSeen;
      openedAt := outside.clock;
      var now := outside.clock;
      pauses := pauses + 1;
      ghost var before := if outside.store.file.Some? then outside.store.file.value else Start(now);
      PauseSession(interventionId);
      ghost var paused := outside.store.file.value;
      var _ := WaitForOperator(now);
      var state := outside.store.file.value;
      a := Answer(stop, reason, path, state, lost, now, outside.clock);
      BreaksExactly(stop, reason, path, state, lost, now, outside.clock);
      if Pausable(before.phase) {
        assert state.history[|before.history|] == paused.history[|before.history|];
        BreaksOnlyOnAbortBeforeTaking(stop, reason, path, state, lost, now, outside.clock, |before.history|);
      }
      if a.GivesBack? { TakerIsARecord(state.history, now); }
    }
  }

  /** The phases a pause can start from. */
  predicate Pausable(p: Phase) {
    p.Running? || p.Resuming?
  }
}
