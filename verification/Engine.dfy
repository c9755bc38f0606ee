/** Replaying a capability over the gated surface: the engine's methods, and what holds of any run of it. */
module Engine {
  import opened Vocab
  import opened Schema
  import opened Result
  import opened Gate
  import opened Enforce
  import opened Looks
  import opened Stops
  import opened EngineState
  import opened Wording
  import Extraction
  import Operators
  import Session

  ghost predicate OpenSound(cap: Capability, begun: seq<OpenRecovery>) {
    && (forall i :: 0 <= i < |begun| ==>
          && begun[i].detector < |cap.detectors|
          && cap.detectors[begun[i].detector].outcome.Recoverable?
          && (begun[i].windowEnds.Some? ==> cap.detectors[begun[i].detector].outcome.recovery.WaitRetryRecovery?))
    && (forall i, j :: 0 <= i < j < |begun| ==> begun[i].detector != begun[j].detector)
  }

  function OpenIndex(begun: seq<OpenRecovery>, d: nat): (i: nat)
    ensures i <= |begun|
    ensures i < |begun| ==> begun[i].detector == d
    ensures i == |begun| ==> forall j :: 0 <= j < |begun| ==> begun[j].detector != d
  {
    if begun == [] then 0
    else if begun[0].detector == d then 0
    else 1 + OpenIndex(begun[1..], d)
  }

  /** The detectors whose window is open: they are set aside while it lasts. */
  function Windowed(begun: seq<OpenRecovery>): set<nat> {
    set o | o in begun && o.windowEnds.Some? :: o.detector
  }

  predicate IsLive(o: OpenRecovery, now: int) {
    o.windowEnds.Some? && now < o.windowEnds.value
  }

  /** How long a live window lets the wait sleep: its poll interval, but not past its end. */
  function OwnPause(cap: Capability, o: OpenRecovery, now: int): (ms: nat)
    requires ValidCapability(cap) && IsLive(o, now) && o.detector < |cap.detectors|
    requires var d := cap.detectors[o.detector]; d.outcome.Recoverable? && d.outcome.recovery.WaitRetryRecovery?
    ensures ms >= 1 && now + ms <= o.windowEnds.value
    ensures ms <= cap.detectors[o.detector].outcome.recovery.pollMs
    ensures ms == cap.detectors[o.detector].outcome.recovery.pollMs || now + ms == o.windowEnds.value
  {
    assert DetectorTyped(cap.detectors[o.detector]);
    var poll := cap.detectors[o.detector].outcome.recovery.pollMs;
    if poll <= o.windowEnds.value - now then poll else o.windowEnds.value - now
  }

  /** How long to sleep while windows are live: the shortest poll interval, but not past any window's end. */
  function LivePause(cap: Capability, begun: seq<OpenRecovery>, now: int): (r: Option<nat>)
    requires ValidCapability(cap) && OpenSound(cap, begun)
    ensures r.None? <==> forall i :: 0 <= i < |begun| ==> !IsLive(begun[i], now)
    ensures r.Some? ==> r.value >= 1
  {
    if begun == [] then None
    else
      var last := begun[|begun| - 1];
      var rest := LivePause(cap, begun[..|begun| - 1], now);
      if !IsLive(last, now) then rest
      else
        var own := OwnPause(cap, last, now);
        if rest.None? || own <= rest.value then Some(own) else rest
  }

  /** The wait sleeps as long as one live window lets it, and no live window lets it sleep less. */
  lemma {:induction false} PauseIsShortest(cap: Capability, begun: seq<OpenRecovery>, now: int, ms: nat)
    requires ValidCapability(cap) && OpenSound(cap, begun) && LivePause(cap, begun, now) == Some(ms)
    ensures forall i :: 0 <= i < |begun| && IsLive(begun[i], now) ==> ms <= OwnPause(cap, begun[i], now)
    ensures exists i :: 0 <= i < |begun| && IsLive(begun[i], now) && ms == OwnPause(cap, begun[i], now)
    ensures forall i :: 0 <= i < |begun| && IsLive(begun[i], now) ==> now + ms <= begun[i].windowEnds.value
  {
    hide ValidCapability, OwnPause;
    var n := |begun| - 1;
    var rest := LivePause(cap, begun[..n], now);
    if rest.Some? {
      PauseIsShortest(cap, begun[..n], now, rest.value);
      var i :| 0 <= i < n && IsLive(begun[..n][i], now) && rest.value == OwnPause(cap, begun[..n][i], now);
      assert begun[..n][i] == begun[i];
    }
    forall i | 0 <= i < |begun| && IsLive(begun[i], now) ensures ms <= OwnPause(cap, begun[i], now) {
      if i < n { assert begun[..n][i] == begun[i]; }
    }
  }

  /**
   * A stop after a hand-back whose screen did not verify. It says nothing only if it stems from a business
   * answer, and its code fits the contract only if an artifact declares it.
   */
  ghost predicate HandoffStop(cap: Capability, attached: bool, s: RunStopped) {
    && s.code.PostHandoffCheckpointFailed? && StopShaped(cap, attached, s) && !s.status.StopBusiness?
    && (SaysWhy(s) || AnswersBusiness(cap))
  }

  /** before, with d opened if it was not. */
  function Opened(before: seq<OpenRecovery>, d: nat): seq<OpenRecovery> {
    if OpenIndex(before, d) < |before| then before else before + [OpenRecovery(d, 0, None)]
  }

  function Dets(begun: seq<OpenRecovery>): set<nat> {
    set o | o in begun :: o.detector
  }

  /** Nothing opened is forgotten, and whatever step p started in between is open. */
  ghost predicate Opens(
    cap: Capability, p: nat, was: map<Key, nat>, now: map<Key, nat>, before: seq<OpenRecovery>,
    begun: seq<OpenRecovery>)
    requires p < |cap.steps|
  {
    && Dets(before) <= Dets(begun)
    && forall e :: 0 <= e < |cap.detectors| ==>
         && Used(was, KeyOf(cap, p, e)) <= Used(now, KeyOf(cap, p, e))
         && (Used(was, KeyOf(cap, p, e)) < Used(now, KeyOf(cap, p, e)) ==> e in Dets(begun))
  }

  lemma OpensMore(cap: Capability, p: nat, attempts: map<Key, nat>, before: seq<OpenRecovery>, begun: seq<OpenRecovery>)
    requires p < |cap.steps| && Dets(before) <= Dets(begun)
    ensures Opens(cap, p, attempts, attempts, before, begun)
  {
  }

  lemma OpensThen(
    cap: Capability, p: nat, a: map<Key, nat>, b: map<Key, nat>, c: map<Key, nat>,
    x: seq<OpenRecovery>, y: seq<OpenRecovery>, z: seq<OpenRecovery>)
    requires p < |cap.steps| && Opens(cap, p, a, b, x, y) && Opens(cap, p, b, c, y, z)
    ensures Opens(cap, p, a, c, x, z)
  {
    hide Dets;
  }

  lemma OpensKept(
    cap: Capability, p: nat, a: map<Key, nat>, b: map<Key, nat>, c: map<Key, nat>, x: seq<OpenRecovery>,
    y: seq<OpenRecovery>)
    requires p < |cap.steps| && Opens(cap, p, a, b, x, y) && Rows(cap, b, p) == Rows(cap, c, p)
    ensures Opens(cap, p, a, c, x, y)
  {
    forall e | 0 <= e < |cap.detectors| ensures Used(c, KeyOf(cap, p, e)) == Used(b, KeyOf(cap, p, e)) {
      assert (p, e) in Rows(cap, b, p);
      assert Rows(cap, b, p)[(p, e)] == Rows(cap, c, p)[(p, e)];
    }
  }

  lemma OpensOne(
    cap: Capability, p: nat, d: nat, was: map<Key, nat>, now: map<Key, nat>, before: seq<OpenRecovery>,
    begun: seq<OpenRecovery>)
    requires p < |cap.steps| && OneMore(cap, p, d, was, now) && Dets(begun) == Dets(before) + {d}
    ensures Opens(cap, p, was, now, before, begun)
  {
    hide Dets;
  }

  ghost predicate WindowsWithin(begun: seq<OpenRecovery>, horizon: int) {
    forall i :: 0 <= i < |begun| && begun[i].windowEnds.Some? ==> begun[i].windowEnds.value <= horizon
  }

  /** The first recovery that acted, or, when all are windows, the first of those that end last. */
  ghost predicate OwnsFailure(begun: seq<OpenRecovery>, i: nat)
    requires i < |begun|
  {
    if begun[i].windowEnds.None? then forall j :: 0 <= j < i ==> begun[j].windowEnds.Some?
    else
      && (forall j :: 0 <= j < |begun| ==>
            begun[j].windowEnds.Some? && begun[j].windowEnds.value <= begun[i].windowEnds.value)
      && (forall j :: 0 <= j < i ==> begun[j].windowEnds.value < begun[i].windowEnds.value)
  }

  /** What a result of the gate raises; a plain failure, like success, raises nothing. */
  function StopFor(act: ActResult): (s: Option<RunStopped>)
    requires !act.ok ==> act.message != ""
    requires HasBlocking(act.events) ==> !act.ok && act.code == Some(ActBlocked)
    requires HasUnexpectedDialog(act.events) ==> !act.ok && act.code != Some(ActNeedsConfirmation)
    ensures s.Some? ==>
      && s.value.status.StopHard? && SaysWhy(s.value) && s.value.fieldErrors == [] && s.value.interventionPath.None?
      && (s.value.code.PolicyBlocked? || s.value.code.ConfirmationRequired? || s.value.code.UnexpectedDialog?)
      && (s.value.code.ConfirmationRequired? ==> act.code == Some(ActNeedsConfirmation))
    ensures act.ok ==> s.None?
    ensures HasRefusal(act.events) ==> s.Some? && ReportsRefusal(s.value)
    ensures s.None? && !act.ok && act.code.Some? ==> act.code.value.ActFailed?
    ensures act.code == Some(ActBlocked) && !act.ok ==> s.Some? && s.value.code.PolicyBlocked?
    ensures act.code == Some(ActNeedsConfirmation) && !act.ok ==> s.Some? && s.value.code.ConfirmationRequired?
  {
    if act.ok then None
    else if act.code == Some(ActBlocked) then
      Some(Failure(PolicyBlocked, act.message, AllowedByPolicy(), act.message))
    else if act.code == Some(ActNeedsConfirmation) then
      Some(Failure(ConfirmationRequired, NotConfirmed(act.message), AllowedByPolicy(), act.message))
    else if HasUnexpectedDialog(act.events) then
      Some(Failure(UnexpectedDialog, act.message, NoDialog(), act.message))
    else None
  }

  /** The gate left it to a human. */
  predicate MayEscalate(d: Option<Decision>) {
    d.Some? && d.value.RequiresConfirmation? && d.value.handling.HandleEscalate?
  }

  /** Between entries n and m of the log, the step's own action came back ok and then its wait was seen to pass. */
  ghost predicate ActedThenSeen(cap: Capability, p: nat, log: seq<Happening>, n: nat, m: nat)
    requires p < |cap.steps|
  {
    exists i, j :: n <= i < j < m && j < |log| && log[i].Did? && log[i].why == Own(cap.steps[p].id) && log[i].ok
                   && log[j] == Heard(WaitQuery(cap.steps[p]), true)
  }

  /** marks cut the log into pieces, in each of which the next step acted and was then seen to pass. */
  ghost predicate FlowMarks(cap: Capability, n: nat, log: seq<Happening>, marks: seq<nat>)
    requires n <= |cap.steps|
  {
    |marks| == n + 1 && forall j :: 0 <= j < n ==> ActedThenSeen(cap, j, log, marks[j], marks[j + 1])
  }

  /** Before entry m of the log the first n steps acted and were seen to pass, one after the other. */
  ghost predicate Flowed(cap: Capability, n: nat, log: seq<Happening>, m: nat)
    requires n <= |cap.steps|
  {
    exists marks: seq<nat> :: FlowMarks(cap, n, log, marks) && marks[n] <= m
  }

  lemma NothingFlowed(cap: Capability, log: seq<Happening>)
    ensures Flowed(cap, 0, log, |log|)
  {
    assert FlowMarks(cap, 0, log, [0]);
  }

  lemma ActedThenSeenStill(cap: Capability, p: nat, was: seq<Happening>, now: seq<Happening>, n: nat, m: nat)
    requires p < |cap.steps| && was <= now && ActedThenSeen(cap, p, was, n, m)
    ensures ActedThenSeen(cap, p, now, n, m)
  {
    var i: nat, j: nat :| n <= i < j < m && j < |was| && was[i].Did? && was[i].why == Own(cap.steps[p].id) && was[i].ok
      && was[j] == Heard(WaitQuery(cap.steps[p]), true);
    assert now[i] == was[i] && now[j] == was[j];
  }

  /** What flowed stays so while the log grows. */
  lemma FlowedStill(cap: Capability, n: nat, was: seq<Happening>, now: seq<Happening>, m: nat, m': nat)
    requires n <= |cap.steps| && was <= now && m <= m' && Flowed(cap, n, was, m)
    ensures Flowed(cap, n, now, m')
  {
    hide ActedThenSeen;
    var marks: seq<nat> :| FlowMarks(cap, n, was, marks) && marks[n] <= m;
    forall j | 0 <= j < n ensures ActedThenSeen(cap, j, now, marks[j], marks[j + 1]) {
      ActedThenSeenStill(cap, j, was, now, marks[j], marks[j + 1]);
    }
    assert FlowMarks(cap, n, now, marks);
  }

  /** One step more, done after the ones before it. */
  lemma FlowedOn(cap: Capability, n: nat, was: seq<Happening>, now: seq<Happening>)
    requires n < |cap.steps| && was <= now && Flowed(cap, n, was, |was|) && ActedThenSeen(cap, n, now, |was|, |now|)
    ensures Flowed(cap, n + 1, now, |now|)
  {
    hide ActedThenSeen;
    FlowedStill(cap, n, was, now, |was|, |was|);
    var marks: seq<nat> :| FlowMarks(cap, n, now, marks) && marks[n] <= |was|;
    ActedLater(cap, n, now, marks[n], |was|, |now|);
    var more: seq<nat> := marks + [|now|];
    forall j | 0 <= j < n + 1 ensures ActedThenSeen(cap, j, now, more[j], more[j + 1]) {
      if j < n { assert ActedThenSeen(cap, j, now, marks[j], marks[j + 1]); }
    }
    assert FlowMarks(cap, n + 1, now, more);
  }

  lemma ActedLater(cap: Capability, p: nat, log: seq<Happening>, n: nat, n': nat, m: nat)
    requires p < |cap.steps| && n <= n' && ActedThenSeen(cap, p, log, n', m)
    ensures ActedThenSeen(cap, p, log, n, m)
  {
  }

  /** Every step acted and was seen to pass, in the order of the flow, and then the success checkpoint was seen. */
  ghost predicate FlowedThenSucceeded(cap: Capability, log: seq<Happening>) {
    exists j: nat :: j < |log| && Flowed(cap, |cap.steps|, log, j) &&
      log[j] == Heard(AskCheckpoint(cap.successCheckpoint), true)
  }

  /** A value is what the parser makes of a text that a read of the output through the gate came back with. */
  ghost predicate ReadAs(spec: OutputSpec, v: OutputValue, log: seq<Happening>, calendar: string -> Option<string>) {
    exists text :: Did(Reading(spec.name), true, Some(text), false, false) in log
                   && Extraction.ParseValue(text, spec.parse, calendar) == Some(v)
  }

  /** An output the capability declares, read as it is declared. */
  ghost predicate Vouched(
    cap: Capability, name: ParamName, v: OutputValue, log: seq<Happening>, calendar: string -> Option<string>)
  {
    exists i :: 0 <= i < |cap.outputs| && cap.outputs[i].name == name && ReadAs(cap.outputs[i], v, log, calendar)
  }

  class ReplayEngine {
    const cap: Capability
    const gated: GatedSurface
    const surface: Surface := gated.surface
    const successStep: nat

    /** The date library, which outputs are parsed with. */
    const calendar: string -> Option<string>

    var reached: Option<StepId>
    var current: Option<Progress>
    var pauses: nat
    var reverifying: bool
    var interventionPath: Option<string>
    var records: seq<StepRecord>
    var recoveries: seq<RecoveryRecord>
    var attempts: map<Key, nat>

    /** Every recovery that was ever started. */
    ghost var started: multiset<Key>

    /** The calls of the escalation hook, and those of them for anything but an irreversible step. */
    ghost var hooks: nat
    ghost var ordinary: nat

    /** The recoveries of the steps that have a wait in progress: what it starts is recorded when it ends. */
    ghost var pending: set<Key>

    /** The waits that were restarted. */
    ghost var restarts: Restarts

    /** Where in the log the step of the flow that is running began: what it stops for happened since. */
    ghost var since: nat

    constructor (cap: Capability, gated: GatedSurface, calendar: string -> Option<string>)
      requires ValidCapability(cap) && gated.irreversible == 0 && gated.surface.acts == multiset{}
      ensures Valid() && this.cap == cap && this.gated == gated && this.calendar == calendar
      ensures records == [] && recoveries == [] && current.None? && reached.None? && pauses == 0 && !reverifying
      ensures successStep == SuccessStep(cap) && started == multiset{} && hooks == 0 && ordinary == 0 && pending == {}
    {
      this.cap, this.gated, this.calendar := cap, gated, calendar;
      successStep := SuccessStep(cap);
      reached, current, pauses, reverifying, interventionPath := None, None, 0, false, None;
      records, recoveries, attempts := [], [], map[];
      started, hooks, ordinary, pending, since := multiset{}, 0, 0, {}, 0;
      restarts := Restarts(multiset{}, 0);
    }

    /** The first step that waits on the success checkpoint, else the last one. */
    static function SuccessStep(cap: Capability): (p: nat)
      requires |cap.steps| > 0
      ensures p < |cap.steps|
      ensures (exists i :: 0 <= i < |cap.steps| && WaitsOnSuccess(cap, i)) ==>
        WaitsOnSuccess(cap, p) && forall j :: 0 <= j < p ==> !WaitsOnSuccess(cap, j)
      ensures (forall i :: 0 <= i < |cap.steps| ==> !WaitsOnSuccess(cap, i)) ==> p == |cap.steps| - 1
    {
      SuccessStepFrom(cap, 0)
    }

    static predicate WaitsOnSuccess(cap: Capability, i: nat)
      requires i < |cap.steps|
    {
      var w := cap.steps[i].waitFor;
      w.CheckpointWait? && w.checkpoint == cap.successCheckpoint
    }

    static function SuccessStepFrom(cap: Capability, from: nat): (p: nat)
      requires from < |cap.steps|
      ensures from <= p < |cap.steps|
      ensures (exists i :: from <= i < |cap.steps| && WaitsOnSuccess(cap, i)) ==>
        WaitsOnSuccess(cap, p) && forall j :: from <= j < p ==> !WaitsOnSuccess(cap, j)
      ensures (forall i :: from <= i < |cap.steps| ==> !WaitsOnSuccess(cap, i)) ==> p == |cap.steps| - 1
      decreases |cap.steps| - from
    {
      if WaitsOnSuccess(cap, from) || from == |cap.steps| - 1 then from else SuccessStepFrom(cap, from + 1)
    }

    ghost predicate Valid()
      reads this, gated`irreversible, surface`acts, surface`log
    {
      Intact() && (interventionPath.Some? <==> surface.attached && pauses > 0)
    }

    /** What holds even while the hook is being asked. */
    ghost predicate Intact()
      reads this, gated`irreversible, surface`acts, surface`log
    {
      && ValidCapability(cap)
      && since <= |surface.log|
      && successStep < |cap.steps|
      && Limited()
      && RecordsSound(cap, recoveries)
      && Told(started, recoveries, pending)
    }

    /**
     * What even an exception of the hook leaves true: recoveries, their clicks and pauses stay within their
     * limits, and the gate let nothing it judged irreversible through without permission.
     */
    ghost predicate Limited()
      reads this, gated`irreversible, surface`acts
    {
      && AttemptsSound(cap, attempts, started) && hooks == pauses <= MAX_HUMAN_PAUSES
      && ClicksPaid(cap, surface.acts, started)
      && (gated.irreversible > 0 ==> gated.Permitted())
    }

    ghost predicate Kept(crashed: bool)
      reads this, gated`irreversible, surface`acts, surface`log
    {
      if crashed then Limited() else Valid()
    }

    /** What surrounds a call that belongs to a wait. */
    ghost function Around(): Env {
      Env(surface.attached, gated.handling.HandleEscalate?, true)
    }

    /** What surrounds a call that runs a step. */
    ghost function Outside(): Env {
      Around().(waiting := false)
    }

    ghost function Now(): View
      reads this, surface, gated
    {
      View(records, current, reached, reverifying, recoveries, pauses, attempts,
           surface.clock, surface.drift, surface.acts, surface.renamed, surface.refused, gated.denied,
           surface.held, surface.log, since, hooks, ordinary, pending, restarts)
    }

    // ---- asking the surface ----------------------------------------------------------------------

    /** One batch of events taken off the surface. */
    ghost predicate Drains(events: seq<SurfaceEvent>, a: View, b: View) {
      && b == a.(clock := b.clock, drift := b.drift, refused := a.refused || HasRefusal(events),
                 log := a.log + [Drained(HasBlocking(events), HasUnexpectedDialog(events))])
      && b.clock - a.clock == b.drift - a.drift >= 0
    }

    /** Takes the events off the surface. */
    method Drain() returns (events: seq<SurfaceEvent>)
      requires Valid()
      modifies surface`clock, surface`drift, surface`refused, surface`log
      ensures Drains(events, old(Now()), Now())
      ensures forall e :: e in events ==> e.detail != ""
      ensures Valid()
    {
      hide ValidCapability, AttemptsSound, RecordsSound, Told, ClicksPaid, Because, HasBlocking, HasUnexpectedDialog;
      events := surface.DrainEvents();
    }

    /** The stop a batch of events raises, if any. */
    function StopForEvents(events: seq<SurfaceEvent>): (s: Option<RunStopped>)
      requires forall e :: e in events ==> e.detail != ""
      ensures s.Some? <==> HasRefusal(events)
      ensures s.Some? ==>
        && s.value == Failure(s.value.code, s.value.message, s.value.expected, s.value.observed) && SaysWhy(s.value)
        && s.value.code == if HasBlocking(events) then PolicyBlocked else UnexpectedDialog
    {
      if HasBlocking(events) then
        var e := FirstBlocking(events);
        Some(Failure(PolicyBlocked, e.detail, InsidePolicy(), BlockedAt(e.url)))
      else if HasUnexpectedDialog(events) then
        var e := FirstDialog(events);
        Some(Failure(UnexpectedDialog, DialogDismissed(e.detail), NoDialog(), e.detail))
      else None
    }

    /** What draining events did: nothing was refused, or a stop says what was. */
    ghost predicate Heeds(p: nat, a: View, b: View, r: Exit<()>)
      requires p < |cap.steps|
    {
      && Spends(cap, Around(), 0, a, b, p, r) && Asleep(b) == Asleep(a) && b.attempts == a.attempts
      && (r.Done? || (r.Stopped? && ReportsRefusal(r.stop))) && DrainedFor(a.log, b.log, r)
    }

    /** A refused request or an unexpected dialog ends the run. */
    method RaiseOnEvents(p: nat) returns (r: Exit<()>)
      requires Valid() && p < |cap.steps|
      modifies surface`clock, surface`drift, surface`refused, surface`log
      ensures Heeds(p, old(Now()), Now(), r)
      ensures Valid()
    {
      hide ValidCapability, AttemptsSound, RecordsSound, Told, ClicksPaid, Because, HasBlocking, HasUnexpectedDialog;
      hide StopForEvents, Heeds, Drains;
      ghost var v0 := Now();
      var events := Drain();
      var stop := StopForEvents(events);
      r := if stop.Some? then Stopped(stop.value) else Done(());
      EventsHeeded(p, events, v0, Now(), r);
    }

    lemma EventsHeeded(p: nat, events: seq<SurfaceEvent>, a: View, b: View, r: Exit<()>)
      requires p < |cap.steps| && Drains(events, a, b) && a.since <= |a.log|
      requires forall e :: e in events ==> e.detail != ""
      requires var stop := StopForEvents(events); r == if stop.Some? then Stopped(stop.value) else Done(())
      ensures Heeds(p, a, b, r)
    {
      hide StopForEvents, HasBlocking, HasUnexpectedDialog, Because, StopFits, Rows, GuardedActs, IrreversibleRenamed;
      hide HandBacks, Unverified, Pauses;
      DrainExplains(b.log, b.since, HasBlocking(events), HasUnexpectedDialog(events));
      if r.Stopped? { EngineStopFits(cap, surface.attached, r.stop); }
    }

    /** One batch of events more: nothing was refused in it, or the stop says what was. */
    ghost predicate DrainedFor(was: seq<Happening>, now: seq<Happening>, r: Exit<()>) {
      && |now| == |was| + 1 && was <= now && now[|was|].Drained?
      && (r.Done? ==> now == was + [Clean()])
      && (r.Stopped? ==>
            r.stop.code == if now[|was|].blocking then PolicyBlocked else UnexpectedDialog)
    }

    lemma DrainExplains(log: seq<Happening>, n: nat, blocking: bool, dialog: bool)
      requires n < |log| && log[|log| - 1] == Drained(blocking, dialog)
      ensures blocking ==> Because(cap, log, n, PolicyBlocked)
      ensures dialog ==> Because(cap, log, n, UnexpectedDialog)
    {
      if blocking { BecauseOf(cap, log, n, |log| - 1, PolicyBlocked); }
      if dialog { BecauseOf(cap, log, n, |log| - 1, UnexpectedDialog); }
    }

    /** What the screen shows instead, in words; never empty. */
    method Observe() returns (r: Exit<string>)
      requires Valid()
      modifies surface`clock, surface`drift
      ensures OnlyTime(old(Now()), Now()) && Asleep(Now()) == Asleep(old(Now()))
      ensures (r.ControlLost? && surface.attached) || (r.Done? && r.value != "")
      ensures Valid()
    {
      hide SeenAt, Unavailable, ValidCapability, AttemptsSound, RecordsSound, Told, ClicksPaid;
      var seen := surface.Read();
      if seen.Lost? { return ControlLost; }
      r := Done(if seen.value.Some? then SeenAt(seen.value.value) else Unavailable());
    }

    /** Asks the eligible detectors in order up to the first that holds, and logs every answer. */
    method Matching(p: nat, skip: set<nat>, timedOut: Option<CheckpointId>) returns (r: Exit<Option<nat>>)
      requires p < |cap.steps|
      modifies surface`clock, surface`drift, surface`held, surface`log
      ensures OnlyTime(old(Now()), Now()) && Asleep(Now()) == Asleep(old(Now()))
      ensures r.Done? || (r.ControlLost? && surface.attached)
      ensures r.Done? && r.value.Some? ==>
        r.value.value < |cap.detectors| && Eligible(cap, p, r.value.value, skip, timedOut.Some?)
      ensures r.Done? ==> surface.log == old(surface.log) + Scan(cap, p, skip, timedOut.Some?, r.value)
      ensures surface.held == old(surface.held) +
        if r.Done? && r.value.Some? then multiset{AskDetector(cap.detectors[r.value.value].id)} else multiset{}
    {
      ghost var log0 := surface.log;
      assert log0 + [] == log0;
      for i := 0 to |cap.detectors|
        invariant surface.clock - old(surface.clock) == surface.drift - old(surface.drift) >= 0
        invariant surface.held == old(surface.held)
        invariant surface.log == log0 + AllNo(cap, p, skip, timedOut.Some?, i)
      {
        if Eligible(cap, p, i, skip, timedOut.Some?) {
          var held := surface.Holds(AskDetector(cap.detectors[i].id));
          if held.Lost? { return ControlLost; }
          assert surface.log == log0 + (AllNo(cap, p, skip, timedOut.Some?, i) +
            [Heard(AskDetector(cap.detectors[i].id), held.value)]);
          if held.value { return Done(Some(i)); }
        }
      }
      r := Done(None);
    }

    function ExpectedOf(p: nat): (s: string)
      requires p < |cap.steps| && ValidCapability(cap)
      ensures s != ""
    {
      var w := cap.steps[p].waitFor;
      assert WaitKnown(cap, cap.steps[p]);
      if w.CheckpointWait? then cap.checkpoints[w.checkpoint] else TakesEffect()
    }

    // ---- stopping and escalating -----------------------------------------------------------------

    /**
     * What the escalation hook may answer: the same words in a hard stop without a channel; with one, an escalated
     * stop and the record of its pause, or a hand-back for the reason asked.
     */
    ghost predicate AnswersHook(stop: RunStopped, reason: ReasonCode, a: HookAnswer) {
      && (!surface.attached ==> a == EndsRun(NoOperator(stop, reason)))
      && (a.EndsRun? ==>
            && a.stop.code == stop.code && a.stop.expected == stop.expected && a.stop.observed == stop.observed
            && a.stop.fieldErrors == []
            && if surface.attached then
                 && a.stop.status.StopEscalated? && a.stop.interventionPath.Some?
                 && |a.stop.recoveries| == 1 && a.stop.recoveries[0].Human? && OutcomeShape(a.stop.recoveries[0])
                 && !a.stop.recoveries[0].outcome.WasHandedBack?
               else a.stop.status.StopHard? && a.stop.interventionPath.None?)
      && (a.GivesBack? ==>
            GoodHandback(a.handback) && a.handback.intervention.Human? && a.handback.intervention.reason == reason)
    }

    /** The escalation hook: the stop itself without a channel, else whatever the channel's wait ended in. */
    method AskHuman(stop: RunStopped, reason: ReasonCode) returns (a: HookAnswer)
      modifies this`hooks, this`ordinary, surface`clock, surface`drift
      ensures hooks == old(hooks) + 1
      ensures ordinary == old(ordinary) + if reason.IrreversibleNeedsHuman? then 0 else 1
      ensures surface.clock - old(surface.clock) == surface.drift - old(surface.drift) >= 0
      ensures AnswersHook(stop, reason, a)
    {
      hide Operators.Answer, AnswersHook;
      hooks, ordinary := hooks + 1, ordinary + if reason.IrreversibleNeedsHuman? then 0 else 1;
      surface.Elapse();
      var path: string, lost: bool, openedAt: int, now: int := *, *, *, *;
      var state: Session.SessionState :| true;
      HookAnswers(stop, reason, path, state, lost, openedAt, now);
      a := if surface.attached then Operators.Answer(stop, reason, path, state, lost, openedAt, now)
        else EndsRun(NoOperator(stop, reason));
    }

    lemma HookAnswers(stop: RunStopped, reason: ReasonCode, path: string, state: Session.SessionState, lost: bool,
      openedAt: int, now: int)
      ensures AnswersHook(stop, reason, if surface.attached
        then Operators.Answer(stop, reason, path, state, lost, openedAt, now) else EndsRun(NoOperator(stop, reason)))
    {
      hide OutcomeShape, Operators.Answer;
    }

    /** Whether a stop with this reason reaches the escalation hook. */
    ghost predicate AsksHuman(reason: ReasonCode)
      reads this
    {
      (!reverifying || reason.IrreversibleNeedsHuman?) && pauses < MAX_HUMAN_PAUSES
    }

    /** Counts a pause and asks. */
    method Ring(stop: RunStopped, reason: ReasonCode) returns (a: HookAnswer)
      requires Valid() && pauses < MAX_HUMAN_PAUSES
      modifies this`pauses, this`hooks, this`ordinary, surface`clock, surface`drift
      ensures AnswersHook(stop, reason, a)
      ensures Now() == old(Now()).(pauses := old(pauses) + 1, clock := surface.clock, drift := surface.drift,
        hooks := old(hooks) + 1, ordinary := old(ordinary) + if reason.IrreversibleNeedsHuman? then 0 else 1)
      ensures surface.clock - old(surface.clock) == surface.drift - old(surface.drift) >= 0
      ensures Intact() && pauses > 0
    {
      hide ValidCapability, AttemptsSound, RecordsSound, Told, ClicksPaid, AnswersHook;
      pauses := pauses + 1;
      a := AskHuman(stop, reason);
    }

    /** What the hook's answer leaves in the engine: the record of a pause that ended the run, and its evidence. */
    method TakeIn(stop: RunStopped, reason: ReasonCode, answer: HookAnswer)
      requires Intact() && (!surface.attached ==> interventionPath.None?) && pauses > 0
      requires AnswersHook(stop, reason, answer)
      modifies this`recoveries, this`interventionPath
      ensures Kept(answer.Breaks?) && HandBacks(recoveries) == HandBacks(old(recoveries))
      ensures Now() == if answer.EndsRun? && surface.attached
        then old(Now()).(recoveries := old(recoveries) + [answer.stop.recoveries[0]]) else old(Now())
    {
      hide OutcomeShape, ValidCapability, AttemptsSound, RecordsSound, Told, HandBacks, Pauses, Unverified;
      hide ClicksPaid, GoodHandback;
      if answer.GivesBack? {
        interventionPath := Some(answer.handback.interventionPath);
      } else if answer.EndsRun? && surface.attached {
        var pause := answer.stop.recoveries[0];
        CountsAppend(recoveries, pause);
        RecordsAppend(cap, recoveries, pause);
        ToldAppends(started, recoveries, pause, pending);
        recoveries, interventionPath := recoveries + [pause], answer.stop.interventionPath;
      }
    }

    /**
     * What asking for a human may change and come back with: a stop in the same words, escalated or not, or a
     * hand-back; while a hand-back is re-verified only an irreversible action asks.
     */
    ghost predicate Escalated(stop: RunStopped, reason: ReasonCode, a: View, b: View, r: Exit<RunStopped>) {
      && b == a.(recoveries := b.recoveries, pauses := b.pauses, clock := b.clock, drift := b.drift,
                 hooks := b.hooks, ordinary := b.ordinary)
      && b.clock - a.clock == b.drift - a.drift >= 0 && a.pauses <= b.pauses
      && a.recoveries <= b.recoveries && HandBacks(b.recoveries) == HandBacks(a.recoveries)
      && (a.reverifying ==> b.ordinary == a.ordinary)
      && (r.Done? || r.HandedBack? || (r.Crashed? && surface.attached))
      && (r.Done? ==>
            && r.value.code == stop.code && r.value.expected == stop.expected && r.value.observed == stop.observed
            && StopShaped(cap, surface.attached, r.value) && !r.value.status.StopBusiness?
            && (r.value.status.StopHard? ==> Pauses(b.recoveries) == Pauses(a.recoveries)))
      && (r.HandedBack? ==>
            && surface.attached && a.pauses < b.pauses && GoodHandback(r.handback)
            && (ForIrreversible(r.handback) <==> reason.IrreversibleNeedsHuman?)
            && (a.reverifying ==> reason.IrreversibleNeedsHuman?))
    }

    /** One call of the escalation hook, and what it leaves in the engine. */
    method Pause(stop: RunStopped, reason: ReasonCode) returns (r: Exit<RunStopped>)
      requires Valid() && pauses < MAX_HUMAN_PAUSES && (reverifying ==> reason.IrreversibleNeedsHuman?)
      requires stop.status.StopHard? && stop.fieldErrors == [] && stop.interventionPath.None?
      modifies this`pauses, this`hooks, this`ordinary, this`recoveries, this`interventionPath
      modifies surface`clock, surface`drift
      ensures Escalated(stop, reason, old(Now()), Now(), r)
      ensures pauses == old(pauses) + 1 && hooks == old(hooks) + 1
      ensures ordinary == old(ordinary) + if reason.IrreversibleNeedsHuman? then 0 else 1
      ensures r.Done? && r.value.status.StopHard? ==> recoveries == old(recoveries)
      ensures Kept(r.Crashed?)
    {
      hide NoOperator, ValidCapability, AttemptsSound, OutcomeShape, RecordsSound, Told, GoodHandback, HandBacks;
      hide Pauses, Unverified, Confirmed, ClicksPaid, Because, AnswersHook, Escalated;
      ghost var v0 := Now();
      var asked := if stop.stepId.Some? then stop else stop.(stepId := reached);
      var answer := Ring(asked, reason);
      ghost var v1 := Now();
      TakeIn(asked, reason, answer);
      r := match answer case Breaks => Crashed case GivesBack(h) => HandedBack(h) case EndsRun(ending) => Done(ending);
      PauseEscalates(stop, asked, reason, v0, v1, Now(), answer, r);
    }

    lemma PauseEscalates(stop: RunStopped, asked: RunStopped, reason: ReasonCode, a: View, b: View, c: View,
      answer: HookAnswer, r: Exit<RunStopped>)
      requires asked == stop.(stepId := asked.stepId) && AnswersHook(asked, reason, answer)
      requires b == a.(pauses := a.pauses + 1, clock := b.clock, drift := b.drift, hooks := b.hooks,
                       ordinary := a.ordinary + if reason.IrreversibleNeedsHuman? then 0 else 1)
      requires b.clock - a.clock == b.drift - a.drift >= 0
      requires a.reverifying ==> reason.IrreversibleNeedsHuman?
      requires HandBacks(c.recoveries) == HandBacks(b.recoveries)
      requires c == if answer.EndsRun? && surface.attached
        then b.(recoveries := b.recoveries + [answer.stop.recoveries[0]]) else b
      requires r == match answer case Breaks => Crashed case GivesBack(h) => HandedBack(h) case EndsRun(e) => Done(e)
      ensures Escalated(stop, reason, a, c, r)
      ensures r.Done? && r.value.status.StopHard? ==> c.recoveries == a.recoveries
    {
      hide HandBacks, Pauses, GoodHandback, OutcomeShape;
    }

    /** Asks for a human, at most three times in a run. Returns the stop its caller raises. */
    method Escalate(stop: RunStopped, reason: ReasonCode) returns (r: Exit<RunStopped>)
      requires Valid()
      requires stop.status.StopHard? && stop.fieldErrors == [] && stop.interventionPath.None?
      modifies this`pauses, this`hooks, this`ordinary, this`recoveries, this`interventionPath
      modifies surface`clock, surface`drift
      ensures Escalated(stop, reason, old(Now()), Now(), r)
      ensures hooks == old(hooks) + if old(AsksHuman(reason)) then 1 else 0
      ensures Kept(r.Crashed?)
    {
      hide ValidCapability, AttemptsSound, OutcomeShape, RecordsSound, Told, GoodHandback, HandBacks, Pauses;
      hide Unverified, PausedTooOften, ClicksPaid, Because;
      if reverifying && !reason.IrreversibleNeedsHuman? { return Done(stop); }
      if pauses >= MAX_HUMAN_PAUSES {
        return Done(RunStopped(
          stop.code, PausedTooOften(stop.message), stop.expected, stop.observed,
          if interventionPath.Some? then StopEscalated else StopHard, [], interventionPath, None, []));
      }
      r := Pause(stop, reason);
    }

    /** Escalates a stop that fits the contract; what comes back to be raised still fits it. */
    method RaiseToHuman(p: nat, stop: RunStopped, reason: ReasonCode) returns (r: Exit<RunStopped>)
      requires Valid() && p < |cap.steps|
      requires StopFits(cap, surface.attached, stop) && stop.status.StopHard? && stop.recoveries == []
      requires !reason.IrreversibleNeedsHuman? && Because(cap, surface.log, since, stop.code)
      modifies this`pauses, this`hooks, this`ordinary, this`recoveries, this`interventionPath
      modifies surface`clock, surface`drift
      ensures surface.Slept() == old(surface.Slept())
      ensures Inside(cap, old(Now()), Now(), p) && Raises(cap, Within(stop.code), old(Now()), Now(), r)
      ensures !r.ControlLost? && (r.Done? ==> r.value.code == stop.code)
      ensures hooks == old(hooks) + if old(AsksHuman(reason)) then 1 else 0
      ensures Kept(r.Crashed?)
    {
      hide Escalated, Inside, Raises, AsksHuman, ValidCapability, AttemptsSound, RecordsSound, Told, OutcomeCodes;
      hide Rows, GuardedActs, OtherGuardedActs, IrreversibleRenamed, Recovers, ReportsDenial, ReportsRefusal, SaysWhy;
      hide GoodHandback, HandBacks, Pauses, Unverified, StopFits, StopShaped, CodeFitsStop, ClicksPaid, Because;
      ghost var v0 := Now();
      FitsShape(stop);
      r := Escalate(stop, reason);
      EscalatedRaises(p, stop, reason, v0, Now(), r);
    }

    lemma EscalatedRaises(p: nat, stop: RunStopped, reason: ReasonCode, a: View, b: View, r: Exit<RunStopped>)
      requires Escalated(stop, reason, a, b, r) && !reason.IrreversibleNeedsHuman?
      requires StopFits(cap, surface.attached, stop) && stop.status.StopHard?
      requires Because(cap, a.log, a.since, stop.code)
      ensures Inside(cap, a, b, p) && Raises(cap, Within(stop.code), a, b, r) && Asleep(b) == Asleep(a)
      ensures !r.ControlLost? && (r.Done? ==> r.value.code == stop.code)
    {
      hide Rows, GuardedActs, IrreversibleRenamed, GoodHandback, HandBacks, Pauses, Unverified, Because, StopFits;
      hide StopShaped;
      if r.Done? { EscalatedFits(cap, surface.attached, stop, r.value); }
    }

    /** Only a step itself raises that its action failed. */
    ghost function Within(code: Code): Env {
      Around().(waiting := !code.ActionFailed?)
    }

    lemma FitsShape(stop: RunStopped)
      requires StopFits(cap, surface.attached, stop) && stop.status.StopHard?
      ensures stop.fieldErrors == [] && stop.interventionPath.None?
    {
    }

    /** A step's own failure, escalated when the step asks for it. */
    method StepFailure(p: nat, code: Code, message: string, expected: string, observed: string)
      returns (r: Exit<RunStopped>)
      requires Valid() && p < |cap.steps|
      requires IsEngineCode(code) && !IsPreRunCode(code) && expected != "" && observed != ""
      requires Because(cap, surface.log, since, code)
      modifies this`pauses, this`hooks, this`ordinary, this`recoveries, this`interventionPath
      modifies surface`clock, surface`drift
      ensures Kept(r.Crashed?)
      ensures surface.Slept() == old(surface.Slept())
      ensures Inside(cap, old(Now()), Now(), p) && Raises(cap, Within(code), old(Now()), Now(), r)
      ensures !r.ControlLost? && (r.Done? ==> r.value.code == code)
      ensures hooks == old(hooks) +
        if cap.steps[p].onFail.FailEscalate? && old(AsksHuman(HardFailureEscalate)) then 1 else 0
    {
      hide ValidCapability, AttemptsSound, RecordsSound, Told, OutcomeCodes, Rows, GuardedActs, OtherGuardedActs;
      hide IrreversibleRenamed, GoodHandback, HandBacks, Pauses, Unverified, StopFits, ClicksPaid, Because;
      var stop := Failure(code, message, expected, observed);
      EngineStopFits(cap, surface.attached, stop);
      if cap.steps[p].onFail.FailHard? { return Done(stop); }
      r := RaiseToHuman(p, stop, HardFailureEscalate);
    }

    /** While a hand-back is re-verified, only a recovery that acts may act. */
    ghost predicate MayAct()
      reads this
    {
      reverifying ==> Recovers(cap)
    }

    /** A decision of this run's gate names this run's way of handling irreversible actions. */
    ghost predicate DecidedBy(d: Option<Decision>) {
      d.Some? && d.value.RequiresConfirmation? ==> d.value.handling == gated.handling
    }

    /**
     * What becomes of the gate's answer: refusals and unexpected dialogs raise, a missing permission raises or is
     * left to a human, and anything else comes back as it is.
     */
    ghost predicate Settled(p: nat, act: ActResult, a: View, b: View, r: Exit<ActResult>)
      requires p < |cap.steps|
    {
      && Inside(cap, a, b, p) && Ends(cap, Around(), a, b, r) && Asleep(b) == Asleep(a)
      && b == a.(recoveries := b.recoveries, pauses := b.pauses, clock := b.clock, drift := b.drift,
                 hooks := b.hooks, ordinary := b.ordinary)
      && !r.ControlLost?
      && (r.Done? ==> r.value == act && !HasRefusal(act.events) && (act.ok || act.code == Some(ActFailed)))
      && (r.Stopped? && HasRefusal(act.events) ==> ReportsRefusal(r.stop))
      && (r.Stopped? && act.code == Some(ActBlocked) ==> r.stop.code.PolicyBlocked? && r.stop.status.StopHard?)
      && (r.Stopped? && act.code == Some(ActNeedsConfirmation) ==>
            r.stop.code.ConfirmationRequired? && !r.stop.status.StopBusiness?)
      && (r.HandedBack? ==>
            !HasRefusal(act.events) && act.code == Some(ActNeedsConfirmation) && ForIrreversible(r.handback))
    }

    /** Raises what the gate's answer raises, or gives it back. */
    method Answered(p: nat, act: ActResult) returns (r: Exit<ActResult>)
      requires Valid() && p < |cap.steps|
      requires MayAct() && DecidedBy(gated.lastDecision) && Answerable(act, Now())
      modifies this`pauses, this`hooks, this`ordinary, this`recoveries, this`interventionPath
      modifies surface`clock, surface`drift
      ensures Settled(p, act, old(Now()), Now(), r)
      ensures hooks == old(hooks) +
        (if !act.ok && act.code == Some(ActNeedsConfirmation) && MayEscalate(gated.lastDecision)
            && old(AsksHuman(IrreversibleNeedsHuman))
         then 1 else 0)
      ensures Kept(r.Crashed?)
    {
      hide ValidCapability, AttemptsSound, RecordsSound, Told, OutcomeCodes, Rows, GuardedActs, IrreversibleRenamed;
      hide GoodHandback, HandBacks, Pauses, Unverified, Check, Refusal, HasBlocking, HasUnexpectedDialog, StopFor;
      hide StopFits, ForIrreversible, Recovers, ClicksPaid, Because, Settled, AsksHuman, LeftAlone;
      ghost var v0 := Now();
      var stop := StopFor(act);
      if stop.None? {
        r := Done(act);
        NothingRaised(p, act, v0);
        return;
      }
      EngineStopFits(cap, surface.attached, stop.value);
      if stop.value.code.ConfirmationRequired? && MayEscalate(gated.lastDecision) {
        r := LeaveToHuman(p, stop.value);
        LeftSettles(p, act, v0, Now(), r);
      } else {
        r := Stopped(stop.value);
        StopSettles(p, act, v0, r);
      }
    }

    lemma NothingRaised(p: nat, act: ActResult, a: View)
      requires p < |cap.steps| && Answerable(act, a) && StopFor(act).None?
      ensures Settled(p, act, a, a, Done(act))
    {
      hide Rows, GuardedActs, IrreversibleRenamed, HandBacks, Pauses, Unverified, Because;
    }

    lemma StopSettles(p: nat, act: ActResult, a: View, r: Exit<ActResult>)
      requires p < |cap.steps| && Answerable(act, a) && StopFor(act).Some? && r == Stopped(StopFor(act).value)
      requires StopFits(cap, surface.attached, StopFor(act).value)
      ensures Settled(p, act, a, a, r)
    {
      hide Rows, GuardedActs, IrreversibleRenamed, GoodHandback, HandBacks, Pauses, Unverified, Because, StopFits;
      hide HasBlocking, HasUnexpectedDialog, StopFor;
    }

    lemma LeftSettles(p: nat, act: ActResult, a: View, b: View, r: Exit<ActResult>)
      requires p < |cap.steps| && Answerable(act, a) && StopFor(act).Some?
      requires StopFor(act).value.code.ConfirmationRequired? && LeftAlone(p, a, b, r)
      ensures Settled(p, act, a, b, r)
    {
      hide HasBlocking, HasUnexpectedDialog, StopFor, Inside, Ends, Because;
    }

    /** A human was asked to do what is irreversible: it is not done here, whatever comes back. */
    ghost predicate LeftAlone(p: nat, a: View, b: View, r: Exit<ActResult>)
      requires p < |cap.steps|
    {
      && Inside(cap, a, b, p) && Ends(cap, Around(), a, b, r) && Asleep(b) == Asleep(a)
      && b == a.(recoveries := b.recoveries, pauses := b.pauses, clock := b.clock, drift := b.drift,
                 hooks := b.hooks, ordinary := b.ordinary)
      && (r.Stopped? ==> r.stop.code.ConfirmationRequired? && !r.stop.status.StopBusiness?)
      && (r.HandedBack? ==> ForIrreversible(r.handback))
      && !r.Done? && !r.ControlLost?
    }

    /** The gate left an irreversible action to a human. */
    method LeaveToHuman(p: nat, stop: RunStopped) returns (r: Exit<ActResult>)
      requires Valid() && p < |cap.steps| && MayAct() && gated.handling.HandleEscalate?
      requires StopFits(cap, surface.attached, stop) && stop.status.StopHard? && stop.code.ConfirmationRequired?
      requires Because(cap, surface.log, since, stop.code)
      modifies this`pauses, this`hooks, this`ordinary, this`recoveries, this`interventionPath
      modifies surface`clock, surface`drift
      ensures LeftAlone(p, old(Now()), Now(), r)
      ensures hooks == old(hooks) + if old(AsksHuman(IrreversibleNeedsHuman)) then 1 else 0
      ensures Kept(r.Crashed?)
    {
      hide Escalated, LeftAlone, AsksHuman, ValidCapability, AttemptsSound, RecordsSound, Told, StopFits, Because;
      hide Recovers, ClicksPaid;
      ghost var v0 := Now();
      FitsShape(stop);
      var raised := Escalate(stop, IrreversibleNeedsHuman);
      r := if raised.Done? then Stopped(raised.value) else raised.PropagateFailure();
      EscalatedLeaves(p, stop, v0, Now(), raised, r);
    }

    lemma EscalatedLeaves(
      p: nat, stop: RunStopped, a: View, b: View, raised: Exit<RunStopped>, r: Exit<ActResult>)
      requires Escalated(stop, IrreversibleNeedsHuman, a, b, raised) && gated.handling.HandleEscalate?
      requires StopFits(cap, surface.attached, stop) && stop.status.StopHard? && stop.code.ConfirmationRequired?
      requires Because(cap, a.log, a.since, stop.code) && (a.reverifying ==> Recovers(cap))
      requires r == if raised.Done? then Stopped(raised.value) else raised.PropagateFailure()
      requires p < |cap.steps|
      ensures LeftAlone(p, a, b, r)
    {
      hide Rows, GuardedActs, IrreversibleRenamed, GoodHandback, HandBacks, Pauses, Unverified, Because, StopFits;
      hide StopShaped, Recovers;
      if raised.Done? { EscalatedFits(cap, surface.attached, stop, raised.value); }
    }

    /** What the gate's answer, as the log tells it, accounts for. */
    lemma AttemptExplains(was: seq<Happening>, n: nat, why: ActBy, acted: bool, d: Option<Decision>, permission: bool,
      act: ActResult)
      requires n <= |was| && FitsDecision(d, permission, acted, act)
      ensures StopFor(act).Some? ==>
        Because(cap, was + [EntryOf(why, acted, d.Some?, act)], n, StopFor(act).value.code)
      ensures !HasRefusal(act.events) && (act.ok || act.code == Some(ActFailed)) ==>
        EntryOf(why, acted, d.Some?, act) ==
          if acted then Did(why, act.ok, act.text, false, false) else Gone(why)
      ensures IsAttempt(EntryOf(why, acted, d.Some?, act), why)
    {
      hide HasBlocking, HasUnexpectedDialog, Because;
      var log := was + [EntryOf(why, acted, d.Some?, act)];
      if StopFor(act).Some? { BecauseOf(cap, log, n, |was|, StopFor(act).value.code); }
    }

    lemma ActKeepsPaid(acts: multiset<ActBy>, why: ActBy, acted: bool)
      requires ClicksPaid(cap, acts, started)
      requires why.RecoveryClick? ==> acts[why] < AllStartsOf(cap, started, why.detector)
      ensures ClicksPaid(cap, acts + (if acted then multiset{why} else multiset{}), started)
    {
    }

    /** An attempt that was answered is one entry more in the log, and says how it went. */
    ghost predicate Attempted(
      why: ActBy, acted: bool, was: seq<Happening>, now: seq<Happening>, r: Exit<ActResult>)
    {
      && |now| == |was| + 1 && was <= now && IsAttempt(now[|was|], why)
      && (r.Done? ==> now[|was|] == if acted then Did(why, r.value.ok, r.value.text, false, false) else Gone(why))
    }

    /** What one action through the gate did to the run, and how it may end. */
    ghost predicate Performed(p: nat, why: ActBy, risk: RiskClass, acted: bool, a: View, b: View, r: Exit<ActResult>)
      requires p < |cap.steps|
    {
      && Carries(cap, a, b, p) && TraceKept(a, b) && Ends(cap, Around(), a, b, r) && Asleep(b) == Asleep(a)
      && b.acts == a.acts + (if acted then multiset{why} else multiset{})
      && (acted && risk == Irreversible ==> gated.confirm)
      && (if r.ControlLost? then b.log == a.log else Attempted(why, acted, a.log, b.log, r))
      && (r.Done? ==>
            (r.value.ok ==> acted) && (!r.value.ok ==> r.value.message != "" && r.value.code == Some(ActFailed)))
    }

    /** The gate's part of an action: what it changes, and that the log accounts for what it refused. */
    ghost predicate GatePassed(p: nat, why: ActBy, risk: RiskClass, renamed: bool, acted: bool, d: Option<Decision>,
      a: View, b: View, result: Controlled<ActResult>)
      requires p < |cap.steps|
    {
      && b == a.(clock := b.clock, drift := b.drift, log := b.log,
                 acts := a.acts + (if acted then multiset{why} else multiset{}),
                 renamed := a.renamed + (if acted && renamed && why.Own? then {why.step} else {}),
                 refused := a.refused || (acted && result.Held? && HasRefusal(result.value.events)),
                 denied := a.denied || (result.Held? && d.Some? && !acted))
      && b.clock - a.clock == b.drift - a.drift >= 0
      && (acted && risk == Irreversible ==> gated.confirm)
      && DecidedBy(d)
      && (if result.Lost? then !acted && surface.attached && b.log == a.log
          else
            && b.log == a.log + [EntryOf(why, acted, d.Some?, result.value)]
            && FitsDecision(d, gated.confirm, acted, result.value))
    }

    /** The gate's part of an action. */
    method Pass(p: nat, why: ActBy, aimed: Option<TargetOf>, risk: RiskClass)
      returns (result: Controlled<ActResult>, ghost acted: bool)
      requires Valid() && p < |cap.steps|
      requires why.RecoveryClick? ==> surface.acts[why] < AllStartsOf(cap, started, why.detector)
      modifies gated`lastDecision, gated`declared, gated`confirmedNow, gated`denied, gated`irreversible
      modifies gated`dialogAsked
      modifies surface`clock, surface`drift, surface`acts, surface`renamed, surface`refused, surface`log
      ensures acted ==> result.Held?
      ensures GatePassed(p, why, risk, aimed.Some? && aimed.value in surface.stale, acted, gated.lastDecision,
        old(Now()), Now(), result)
      ensures Valid()
    {
      hide ValidCapability, AttemptsSound, RecordsSound, Told, ClicksPaid, EntryOf, AllStartsOf, FitsDecision;
      hide Refusal, HasBlocking, HasUnexpectedDialog;
      ActKeepsPaid(surface.acts, why, true);
      ActKeepsPaid(surface.acts, why, false);
      result, acted := gated.Perform(why, aimed, risk, why.Own? && AnswersDialog(cap.steps[p]));
    }

    /** One action through the gate. */
    method Perform(p: nat, why: ActBy, aimed: Option<TargetOf>, risk: RiskClass)
      returns (r: Exit<ActResult>, ghost acted: bool)
      requires Valid() && p < |cap.steps| && MayAct()
      requires why.Own? ==>
        why.step == cap.steps[p].id &&
          (aimed.Some? && aimed.value in surface.stale ==> cap.steps[p].risk != Irreversible)
      requires why.RecoveryClick? ==> surface.acts[why] < AllStartsOf(cap, started, why.detector)
      modifies this`pauses, this`hooks, this`ordinary, this`recoveries, this`interventionPath
      modifies gated`lastDecision, gated`declared, gated`confirmedNow, gated`denied, gated`irreversible
      modifies gated`dialogAsked
      modifies surface`clock, surface`drift, surface`acts, surface`renamed, surface`refused, surface`log
      ensures Performed(p, why, risk, acted, old(Now()), Now(), r)
      ensures Kept(r.Crashed?)
    {
      hide ValidCapability, AttemptsSound, RecordsSound, Told, OutcomeCodes, Rows, GuardedActs, IrreversibleRenamed;
      hide GoodHandback, HandBacks, Pauses, Unverified, Check, Refusal, HasBlocking, HasUnexpectedDialog, Inside;
      hide Ends, Because, EntryOf, AllStartsOf, StopFor, ClicksPaid, Performed, GatePassed, FitsDecision, DecidedBy;
      ghost var v0, renamed := Now(), aimed.Some? && aimed.value in surface.stale;
      var result: Controlled<ActResult>;
      result, acted := Pass(p, why, aimed, risk);
      ghost var v1 := Now();
      if result.Lost? {
        LostPerforms(p, why, risk, renamed, acted, gated.lastDecision, v0, v1, result);
        return ControlLost, acted;
      }
      PassedTells(p, why, risk, renamed, acted, gated.lastDecision, v0, v1, result);
      r := Answered(p, result.value);
      AnsweredPerforms(p, why, risk, renamed, acted, gated.lastDecision, v0, v1, Now(), result, r);
    }

    lemma LostPerforms(p: nat, why: ActBy, risk: RiskClass, renamed: bool, acted: bool, d: Option<Decision>,
      a: View, b: View, result: Controlled<ActResult>)
      requires ValidCapability(cap) && p < |cap.steps|
      requires result.Lost? && GatePassed(p, why, risk, renamed, acted, d, a, b, result)
      ensures Performed(p, why, risk, acted, a, b, ControlLost)
    {
      hide Rows, IrreversibleRenamed, HandBacks, ValidCapability;
      assert a.acts + multiset{} == a.acts && a.renamed + {} == a.renamed;
    }

    /** What the gate's answer demands of the rest. */
    lemma PassedTells(p: nat, why: ActBy, risk: RiskClass, renamed: bool, acted: bool, d: Option<Decision>,
      a: View, b: View, result: Controlled<ActResult>)
      requires p < |cap.steps| && a.since <= |a.log|
      requires result.Held? && GatePassed(p, why, risk, renamed, acted, d, a, b, result)
      ensures DecidedBy(d) && Answerable(result.value, b)
      ensures b.reverifying == a.reverifying
    {
      hide HasBlocking, HasUnexpectedDialog, Because, EntryOf, StopFor;
      AttemptExplains(a.log, a.since, why, acted, d, gated.confirm, result.value);
    }

    /** An answer of the gate that can be acted on: what it raises, the log accounts for. */
    ghost predicate Answerable(act: ActResult, v: View) {
      && (!act.ok ==> act.code.Some? && act.message != "")
      && (HasBlocking(act.events) ==> !act.ok && act.code == Some(ActBlocked))
      && (HasUnexpectedDialog(act.events) ==> !act.ok && act.code != Some(ActNeedsConfirmation))
      && (StopFor(act).Some? ==> Because(cap, v.log, v.since, StopFor(act).value.code))
    }

    lemma AnsweredPerforms(p: nat, why: ActBy, risk: RiskClass, renamed: bool, acted: bool, d: Option<Decision>,
      a: View, b: View, c: View, result: Controlled<ActResult>, r: Exit<ActResult>)
      requires ValidCapability(cap) && p < |cap.steps| && a.since <= |a.log|
      requires why.Own? ==> why.step == cap.steps[p].id && (renamed ==> cap.steps[p].risk != Irreversible)
      requires result.Held? && GatePassed(p, why, risk, renamed, acted, d, a, b, result)
      requires Settled(p, result.value, b, c, r)
      ensures Performed(p, why, risk, acted, a, c, r)
    {
      hide ValidCapability, Rows, GuardedActs, IrreversibleRenamed, GoodHandback, HandBacks, Pauses, Unverified;
      hide StopFits, Because, EntryOf, HasBlocking, HasUnexpectedDialog, IsAttempt, StopFor;
      AttemptExplains(a.log, a.since, why, acted, d, gated.confirm, result.value);
      RenamedKept(p, a.renamed);
      assert a.renamed + {} == a.renamed;
    }

    lemma RenamedKept(p: nat, renamed: set<StepId>)
      requires ValidCapability(cap) && p < |cap.steps|
      ensures cap.steps[p].risk != Irreversible ==>
        IrreversibleRenamed(cap, renamed + {cap.steps[p].id}) == IrreversibleRenamed(cap, renamed)
    {
      forall s | s in cap.steps && s.id == cap.steps[p].id ensures s == cap.steps[p] {
        var i :| 0 <= i < |cap.steps| && cap.steps[i] == s;
        assert StepIds(cap.steps)[i] == StepIds(cap.steps)[p];
      }
    }

    /** An action that is no step's own: it leaves the counts of guarded steps alone. */
    method PerformAside(p: nat, why: ActBy, of: TargetOf) returns (r: Exit<ActResult>, ghost acted: bool)
      requires Valid() && p < |cap.steps| && MayAct() && !why.Own?
      requires why.RecoveryClick? ==> surface.acts[why] < AllStartsOf(cap, started, why.detector)
      modifies this`pauses, this`hooks, this`ordinary, this`recoveries, this`interventionPath
      modifies gated`lastDecision, gated`declared, gated`confirmedNow, gated`denied, gated`irreversible
      modifies gated`dialogAsked
      modifies surface`clock, surface`drift, surface`acts, surface`renamed, surface`refused, surface`log
      ensures Inside(cap, old(Now()), Now(), p) && Performed(p, why, Safe, acted, old(Now()), Now(), r)
      ensures Kept(r.Crashed?)
    {
      hide ValidCapability, AttemptsSound, RecordsSound, Told, ClicksPaid, Performed, Inside, AllStartsOf;
      ghost var v0 := Now();
      r, acted := Perform(p, why, Some(of), Safe);
      AsideInside(p, why, acted, v0, Now(), r);
    }

    lemma AsideInside(p: nat, why: ActBy, acted: bool, a: View, b: View, r: Exit<ActResult>)
      requires p < |cap.steps| && !why.Own? && Performed(p, why, Safe, acted, a, b, r)
      ensures Inside(cap, a, b, p)
    {
      hide GuardedActs, Carries, Ends, Attempted, TraceKept;
      ActKeepsGuarded(cap, a.acts, why);
      assert a.acts + multiset{} == a.acts;
    }

    // ---- detectors and recoveries ----------------------------------------------------------------

    /** The stop of a detector's own code. */
    method DetectorStop(d: nat, p: nat, message: string) returns (r: Exit<RunStopped>)
      requires Valid() && p < |cap.steps| && d < |cap.detectors| && !cap.detectors[d].outcome.BusinessOutcome?
      requires Fired(cap, surface.log, since, d)
      modifies surface`clock, surface`drift
      ensures Valid() && OnlyTime(old(Now()), Now())
      ensures surface.Slept() == old(surface.Slept())
      ensures r.Done? || (r.ControlLost? && surface.attached)
      ensures r.Done? ==>
        && r.value.code == cap.detectors[d].outcome.code && r.value.recoveries == []
        && StopFits(cap, surface.attached, r.value) && r.value.status.StopHard?
        && Because(cap, surface.log, since, r.value.code) && !r.value.code.ActionFailed?
    {
      hide ValidCapability, AttemptsSound, RecordsSound, Told, CodeFitsStop, Because, Fired, ClicksPaid;
      var observed := Observe();
      if observed.IsFailure() { return ControlLost; }
      var stop := Failure(cap.detectors[d].outcome.code, message, ExpectedOf(p), observed.value);
      DetectorCodeFits(cap, d, stop);
      DetectorExplains(d);
      r := Done(stop);
    }

    /** A detector that held accounts for its own code, which is not the engine's. */
    lemma DetectorExplains(d: nat)
      requires ValidCapability(cap) && d < |cap.detectors| && Fired(cap, surface.log, since, d)
      ensures Because(cap, surface.log, since, cap.detectors[d].outcome.code)
      ensures !cap.detectors[d].outcome.code.ActionFailed?
    {
      BecauseFired(cap, surface.log, since, d);
      assert DetectorSound(cap, cap.detectors[d]);
    }

    /** A call that made the stop its caller raises, which took no sleep. */
    ghost predicate Makes(p: nat, a: View, b: View, r: Exit<RunStopped>) {
      && Inside(cap, a, b, p) && Asleep(b) == Asleep(a) && b.attempts == a.attempts && b.log == a.log
      && if r.ControlLost? then surface.attached else Raises(cap, Around(), a, b, r)
    }

    /** A detector's own stop, raised as it is. */
    lemma StopMade(p: nat, a: View, b: View, s: Exit<RunStopped>)
      requires OnlyTime(a, b) && Asleep(b) == Asleep(a) && b.log == a.log
      requires s.Done? || (s.ControlLost? && surface.attached)
      requires s.Done? ==>
        && StopFits(cap, surface.attached, s.value) && Because(cap, b.log, b.since, s.value.code)
        && !s.value.code.ActionFailed?
      ensures Makes(p, a, b, s)
    {
      hide Rows, GuardedActs, IrreversibleRenamed, HandBacks, Unverified, Pauses, StopFits, Because;
    }

    /** A stop that was made and then handed to a human. */
    lemma StopHanded(p: nat, a: View, b: View, c: View, s: Exit<RunStopped>, r: Exit<RunStopped>)
      requires Makes(p, a, b, s) && s.Done? && OnlyTime(a, b)
      requires Inside(cap, b, c, p) && Raises(cap, Around(), b, c, r) && Asleep(c) == Asleep(b)
      requires c.attempts == b.attempts && c.log == b.log && !r.ControlLost?
      ensures Makes(p, a, c, r)
    {
      hide Inside, Raises, Quiet;
      QuietSelf(cap, Around(), a, p);
      Idle(cap, Around(), a, a, b, p);
      RaisesAfter(cap, Around(), a, b, c, p, r);
    }

    /** The wait ended without the recovery having worked: its detector's own code, escalated if it asks. */
    method Exhausted(p: nat, open: OpenRecovery) returns (r: Exit<RunStopped>)
      requires Valid() && p < |cap.steps|
      requires open.detector < |cap.detectors| && cap.detectors[open.detector].outcome.Recoverable?
      requires Fired(cap, surface.log, since, open.detector)
      modifies this`pauses, this`hooks, this`ordinary, this`recoveries, this`interventionPath
      modifies surface`clock, surface`drift
      ensures Makes(p, old(Now()), Now(), r)
      ensures r.Done? ==> r.value.code == cap.detectors[open.detector].outcome.code
      ensures !r.ControlLost? ==>
        var asks := cap.detectors[open.detector].outcome.onExhausted.FailEscalate? && old(AsksHuman(RecoveryExhausted));
        hooks == old(hooks) + if asks then 1 else 0
      ensures Kept(r.Crashed?)
    {
      hide ValidCapability, AttemptsSound, RecordsSound, Told, ClicksPaid, Because, Makes, NotBroughtBack, StopFits;
      hide Inside, Raises, AsksHuman, OnlyTime;
      ghost var v0 := Now();
      var d := cap.detectors[open.detector];
      var stop := DetectorStop(open.detector, p, NotBroughtBack(d.description));
      ghost var v1 := Now();
      StopMade(p, v0, v1, stop);
      r := stop;
      if stop.Done? && d.outcome.onExhausted.FailEscalate? {
        r := RaiseToHuman(p, stop.value, RecoveryExhausted);
        StopHanded(p, v0, v1, Now(), stop, r);
      }
    }

    /** A wait that opened recoveries fails in the name of its owner among them. */
    method Unverifiable(p: nat, begun: seq<OpenRecovery>) returns (r: Exit<RunStopped>, ghost owner: nat)
      requires Valid() && p < |cap.steps| && OpenSound(cap, begun) && begun != []
      requires AllFired(cap, surface.log, since, Dets(begun))
      modifies this`pauses, this`hooks, this`ordinary, this`recoveries, this`interventionPath
      modifies surface`clock, surface`drift
      ensures Makes(p, old(Now()), Now(), r)
      ensures owner < |begun| && OwnsFailure(begun, owner)
      ensures r.Done? ==> r.value.code == cap.detectors[begun[owner].detector].outcome.code
      ensures Kept(r.Crashed?)
    {
      hide Makes, ValidCapability, AttemptsSound, RecordsSound, Told, OutcomeCodes, Rows, GuardedActs;
      hide OtherGuardedActs, IrreversibleRenamed, GoodHandback, HandBacks, Pauses, Unverified, Inside, Raises, Ends;
      hide ClicksPaid, Because;
      var i := 0;
      while i < |begun| && begun[i].windowEnds.Some?
        invariant i <= |begun| && forall j :: 0 <= j < i ==> begun[j].windowEnds.Some?
      {
        i := i + 1;
      }
      if i == |begun| {
        i := 0;
        for j := 1 to |begun|
          invariant i < |begun|
          invariant forall k :: 0 <= k < j ==> begun[k].windowEnds.value <= begun[i].windowEnds.value
          invariant forall k :: 0 <= k < i ==> begun[k].windowEnds.value < begun[i].windowEnds.value
        {
          if begun[j].windowEnds.value > begun[i].windowEnds.value { i := j; }
        }
      }
      owner := i;
      r := Exhausted(p, begun[i]);
    }

    /** The recoveries of step p are pending: a wait that may start them is in progress. */
    ghost predicate Waiting(p: nat)
      reads this
      requires p < |cap.steps|
    {
      KeysOf(cap, p) <= pending
    }

    /**
     * What handling detector d did to a wait. It came back with a window opened, at no time at all, or
     * with the wait to be restarted; either way it cost one attempt, and only starting it may have slept.
     * Whatever it started is open, and a stop without an attempt is the detector's own.
     */
    ghost predicate Handled(
      p: nat, d: nat, before: seq<OpenRecovery>, begun: seq<OpenRecovery>, a: View, b: View, r: Exit<bool>)
      requires p < |cap.steps| && d < |cap.detectors|
    {
      var outcome := cap.detectors[d].outcome;
      && Opens(cap, p, a.attempts, b.attempts, before, begun) && Dets(begun) <= Dets(before) + {d}
      && Asleep(b) - Asleep(a) <= (if Started(p, d, a, b) then ActingCost(cap, p, d) else 0)
      && (r.Stopped? && !Started(p, d, a, b) ==> r.stop.code == outcome.code)
      && (r.Stopped? || r.HandedBack? ==> Hopeless(p, d, a, b))
      && (if r == Done(false) then RestartedNow(p, d, a, b) else SameRestarts(p, a, b))
      && (r.Done? ==>
            && outcome.Recoverable? && d in Dets(begun)
            && OneMore(cap, p, d, a.attempts, b.attempts)
            && (forall t: int :: WindowsWhole(before, t) && t <= b.clock ==> WindowsWhole(begun, t))
            && (forall h: int :: WindowsWithin(before, h) && (r.value ==> b.clock + BudgetOf(d) <= h) ==>
                  WindowsWithin(begun, h))
            && (r.value <==> outcome.recovery.WaitRetryRecovery?)
            && (!r.value ==> Restarted(d, a.log, b.log))
            && (r.value ==>
                  && b.clock == a.clock && b.drift == a.drift && b.restarts == a.restarts
                  && OpenIndex(begun, d) < |begun|
                  && begun[OpenIndex(begun, d)].windowEnds == Some(b.clock + BudgetOf(d))))
    }

    /** No wait of step p was restarted in between. */
    ghost predicate SameRestarts(p: nat, a: View, b: View)
      requires p < |cap.steps|
    {
      forall e :: 0 <= e < |cap.detectors| ==>
        b.restarts.of[KeyOf(cap, p, e)] == a.restarts.of[KeyOf(cap, p, e)]
    }

    /** Detector d restarted the wait of step p, once and just now. */
    ghost predicate RestartedNow(p: nat, d: nat, a: View, b: View)
      requires p < |cap.steps|
    {
      && b.restarts.at == b.clock
      && forall e :: 0 <= e < |cap.detectors| ==>
           b.restarts.of[KeyOf(cap, p, e)] == a.restarts.of[KeyOf(cap, p, e)] + if e == d then 1 else 0
    }

    /** Detector d could not be recovered from: it is no such kind, its attempts were used up, or acting failed. */
    ghost predicate Hopeless(p: nat, d: nat, a: View, b: View)
      requires p < |cap.steps| && d < |cap.detectors|
    {
      || !cap.detectors[d].outcome.Recoverable?
      || (b.log == a.log && Used(b.attempts, KeyOf(cap, p, d)) >= Limit(cap.detectors[d]))
      || (ActsToRecover(cap.detectors[d]) && Started(p, d, a, b))
    }

    /** Every window runs, from t at the earliest, for as long as its recovery's budget. */
    ghost predicate WindowsWhole(begun: seq<OpenRecovery>, t: int) {
      forall i :: 0 <= i < |begun| && begun[i].windowEnds.Some? && begun[i].detector < |cap.detectors| ==>
        t + BudgetOf(begun[i].detector) <= begun[i].windowEnds.value
    }

    /** Step p counted an attempt of detector d in between. */
    ghost predicate Started(p: nat, d: nat, a: View, b: View)
      requires p < |cap.steps| && d < |cap.detectors|
    {
      Used(a.attempts, KeyOf(cap, p, d)) < Used(b.attempts, KeyOf(cap, p, d))
    }

    /** How long the window of a wait_retry recovery stays open. */
    function BudgetOf(d: nat): nat
      requires d < |cap.detectors|
    {
      var o := cap.detectors[d].outcome;
      if o.Recoverable? && o.recovery.WaitRetryRecovery? then o.recovery.maxTotalMs else 0
    }

    lemma NotHandled(p: nat, d: nat, before: seq<OpenRecovery>, begun: seq<OpenRecovery>,
      a: View, b: View, r: Exit<bool>)
      requires p < |cap.steps| && d < |cap.detectors| && !r.Done?
      requires Opens(cap, p, a.attempts, b.attempts, before, begun) && Asleep(b) == Asleep(a)
      requires Dets(begun) <= Dets(before) + {d}
      requires r.Stopped? ==> r.stop.code == cap.detectors[d].outcome.code
      requires SameRestarts(p, a, b) && (r.Stopped? || r.HandedBack? ==> Hopeless(p, d, a, b))
      ensures Handled(p, d, before, begun, a, b, r)
    {
      hide Opens, SameRestarts, Hopeless, WindowsWhole, Dets;
    }

    /** Act on a matched detector: true when a window opened, false when the interrupted wait restarts. */
    method Handle(p: nat, d: nat, before: seq<OpenRecovery>) returns (r: Exit<bool>, begun: seq<OpenRecovery>)
      requires Valid() && p < |cap.steps| && d < |cap.detectors| && OpenSound(cap, before)
      requires InScope(cap.detectors[d], cap.steps[p].id) && Waiting(p) && Fired(cap, surface.log, since, d)
      modifies this, surface, gated
      ensures Kept(r.Crashed?)
      ensures OpenSound(cap, begun)
      ensures Inside(cap, old(Now()), Now(), p) && Ends(cap, Around(), old(Now()), Now(), r)
      ensures Handled(p, d, before, begun, old(Now()), Now(), r)
      ensures !cap.detectors[d].outcome.Recoverable? && !r.ControlLost? ==>
        hooks == old(hooks) + if EscalatesAtOnce(d) && old(AsksHuman(HardFailureEscalate)) then 1 else 0
      decreases p, 5
    {
      hide ValidCapability, AttemptsSound, RecordsSound, Told, OutcomeCodes, Rows, GuardedActs, OtherGuardedActs;
      hide IrreversibleRenamed, GoodHandback, HandBacks, Pauses, Unverified, KeysOf, StopFits, Inside, Ends;
      hide OpenSound, Handled, Opens, Dets, AsksHuman, ClicksPaid, Because;
      ghost var v0 := Now();
      if cap.detectors[d].outcome.Recoverable? {
        r, begun := Recover(p, d, before);
      } else {
        OpensMore(cap, p, attempts, before, before);
        r := EndRun(p, d);
        begun := before;
        NotHandled(p, d, before, before, v0, Now(), r);
      }
    }

    /** A hard failure whose artifact asks for a human. */
    predicate EscalatesAtOnce(d: nat)
      requires d < |cap.detectors|
    {
      cap.detectors[d].outcome.HardFailure? && cap.detectors[d].outcome.escalate
    }

    /** The stop of a business or hard outcome. */
    ghost predicate OwnStop(p: nat, d: nat, a: View, b: View, s: Exit<RunStopped>)
      requires p < |cap.steps| && d < |cap.detectors|
    {
      && OnlyTime(a, b) && Asleep(b) == Asleep(a) && (s.Done? || (s.ControlLost? && surface.attached))
      && (s.Done? ==>
            && s.value.code == cap.detectors[d].outcome.code && StopFits(cap, surface.attached, s.value)
            && (!cap.detectors[d].outcome.BusinessOutcome? ==> s.value.status.StopHard? && s.value.recoveries == [])
            && Because(cap, b.log, b.since, s.value.code) && !s.value.code.ActionFailed?)
    }

    /** Makes the stop of a business or hard outcome. */
    method StopOf(p: nat, d: nat) returns (r: Exit<RunStopped>)
      requires Valid() && p < |cap.steps| && d < |cap.detectors| && !cap.detectors[d].outcome.Recoverable?
      requires Fired(cap, surface.log, since, d)
      modifies surface`clock, surface`drift, surface`log
      ensures OwnStop(p, d, old(Now()), Now(), r)
      ensures Valid()
    {
      hide ValidCapability, AttemptsSound, RecordsSound, Told, ClicksPaid, Because, StopFits, Fired, OnlyTime;
      if cap.detectors[d].outcome.BusinessOutcome? {
        r := BusinessStop(d);
      } else {
        r := DetectorStop(d, p, cap.detectors[d].description);
      }
    }

    /** A business or hard outcome ends the run in its own code. */
    method EndRun(p: nat, d: nat) returns (r: Exit<bool>)
      requires Valid() && p < |cap.steps| && d < |cap.detectors| && !cap.detectors[d].outcome.Recoverable?
      requires Fired(cap, surface.log, since, d)
      modifies this`pauses, this`hooks, this`ordinary, this`recoveries, this`interventionPath
      modifies surface`clock, surface`drift, surface`log
      ensures Spends(cap, Around(), 0, old(Now()), Now(), p, r) && surface.Slept() == old(surface.Slept())
      ensures !r.Done? && (r.Stopped? ==> r.stop.code == cap.detectors[d].outcome.code)
      ensures !r.ControlLost? ==>
        hooks == old(hooks) + if EscalatesAtOnce(d) && old(AsksHuman(HardFailureEscalate)) then 1 else 0
      ensures Kept(r.Crashed?)
    {
      hide ValidCapability, AttemptsSound, RecordsSound, Told, ClicksPaid, Because, OwnStop, StopFits, Inside, Raises;
      hide Spends, AsksHuman, Fired;
      ghost var v0 := Now();
      var stop := StopOf(p, d);
      ghost var v1 := Now();
      OwnStopFits(p, d, v0, v1, stop);
      if stop.Done? && EscalatesAtOnce(d) {
        var raised := RaiseToHuman(p, stop.value, HardFailureEscalate);
        r := if raised.Done? then Stopped(raised.value) else raised.PropagateFailure();
        HandedEnds(p, d, v0, v1, Now(), stop, raised, r);
      } else {
        r := if stop.Done? then Stopped(stop.value) else ControlLost;
        StopEnds(p, d, v0, v1, stop, r);
      }
    }

    lemma OwnStopFits(p: nat, d: nat, a: View, b: View, s: Exit<RunStopped>)
      requires p < |cap.steps| && d < |cap.detectors| && OwnStop(p, d, a, b, s)
      ensures Asleep(b) == Asleep(a) && (s.Done? || (s.ControlLost? && surface.attached))
      ensures s.Done? ==>
        && s.value.code == cap.detectors[d].outcome.code && StopFits(cap, surface.attached, s.value)
        && (!cap.detectors[d].outcome.BusinessOutcome? ==> s.value.status.StopHard? && s.value.recoveries == [])
        && Because(cap, b.log, b.since, s.value.code) && !s.value.code.ActionFailed?
    {
      hide StopFits, Because, OnlyTime;
    }

    lemma StopEnds(p: nat, d: nat, a: View, b: View, s: Exit<RunStopped>, r: Exit<bool>)
      requires p < |cap.steps| && d < |cap.detectors| && OwnStop(p, d, a, b, s)
      requires r == if s.Done? then Stopped(s.value) else ControlLost
      ensures Spends(cap, Around(), 0, a, b, p, r)
    {
      hide StopFits, Because, OnlyTime, Spends;
      if s.Done? {
        AskingSpends(cap, Around(), a, b, p, s);
        StopSpends<bool>(cap, Around(), b, p, s.value);
        SpendsThen(cap, Around(), 0, 0, a, b, b, p, s, r);
      } else {
        AskingSpends(cap, Around(), a, b, p, r);
      }
    }

    lemma HandedEnds(p: nat, d: nat, a: View, b: View, c: View, s: Exit<RunStopped>, raised: Exit<RunStopped>,
      r: Exit<bool>)
      requires p < |cap.steps| && d < |cap.detectors| && OwnStop(p, d, a, b, s) && s.Done?
      requires Inside(cap, b, c, p) && Raises(cap, Within(s.value.code), b, c, raised) && Asleep(c) == Asleep(b)
      requires !raised.ControlLost?
      requires r == if raised.Done? then Stopped(raised.value) else raised.PropagateFailure()
      ensures !raised.Stopped?
      ensures Spends(cap, Around(), 0, a, c, p, r)
    {
      hide StopFits, Because, OnlyTime, Spends, Inside, Raises;
      AskingSpends(cap, Around(), a, b, p, s);
      RaisingSpends<bool>(cap, Around(), b, c, p, raised);
      SpendsThen(cap, Around(), 0, 0, a, b, c, p, s, r);
    }

    /** The answer a business outcome carries: the screen's own words, or the detector's. */
    method BusinessStop(d: nat) returns (r: Exit<RunStopped>)
      requires Valid() && d < |cap.detectors| && cap.detectors[d].outcome.BusinessOutcome?
      requires Fired(cap, surface.log, since, d)
      modifies surface`clock, surface`drift, surface`log
      ensures Valid() && OnlyTime(old(Now()), Now())
      ensures surface.Slept() == old(surface.Slept())
      ensures r.Done? || (r.ControlLost? && surface.attached)
      ensures r.Done? ==>
        && r.value.code == cap.detectors[d].outcome.code && r.value.status.StopBusiness?
        && StopFits(cap, surface.attached, r.value) && r.value.observed == r.value.message
        && Because(cap, surface.log, since, r.value.code) && !r.value.code.ActionFailed?
      ensures r.Done? ==> exists text ::
        && surface.log == old(surface.log) + [Showed(text)]
        && r.value.message == if text.Some? && text.value != "" then text.value else cap.detectors[d].description
      ensures r.Done? ==>
        (forall e :: e in r.value.fieldErrors <==>
              cap.detectors[d].outcome.field == Some(e.field) && e.message == r.value.message)
    {
      hide ValidCapability, AttemptsSound, RecordsSound, Told, CodeFitsStop, Because, Fired, ClicksPaid;
      ghost var log0 := surface.log;
      var det := cap.detectors[d];
      var text := surface.ReadMessage();
      if text.Lost? { return ControlLost; }
      var message := if text.value.Some? && text.value.value != "" then text.value.value else det.description;
      var errors := if det.outcome.field.Some? then [FieldError(det.outcome.field.value, message)] else [];
      var stop := RunStopped(det.outcome.code, message, "", message, StopBusiness, errors, None, None, []);
      DetectorCodeFits(cap, d, stop);
      FiredStill(cap, log0, surface.log, since, d);
      DetectorExplains(d);
      FieldDeclared(d);
      r := Done(stop);
    }

    /** Counts one attempt of detector d for step p. */
    method Start(p: nat, d: nat)
      requires Valid() && p < |cap.steps| && d < |cap.detectors| && Waiting(p)
      requires Used(attempts, KeyOf(cap, p, d)) < Limit(cap.detectors[d])
      modifies this`attempts, this`started
      ensures Now() == old(Now()).(attempts := attempts)
      ensures OneMore(cap, p, d, old(attempts), attempts)
      ensures Rows(cap, attempts, p + 1) == Rows(cap, old(attempts), p + 1)
      ensures forall k: Key :: Used(old(attempts), k) <= Used(attempts, k)
      ensures ClickDue(cap, surface.acts, started, d)
      ensures Valid()
    {
      hide ValidCapability, AttemptsSound, RecordsSound, Told, ClicksPaid, OneMore, Rows, KeysOf, ClickDue, Limit;
      var key := KeyOf(cap, p, d);
      StartKeepsSound(cap, attempts, started, p, d);
      StartIsOneMore(cap, attempts, p, d);
      StartPays(cap, surface.acts, started, p, d);
      KeyPends(p, d);
      ToldStarts(started, recoveries, key, pending);
      attempts := attempts[key := Used(attempts, key) + 1];
      started := started + multiset{key};
    }

    /** A recoverable condition: start its recovery while attempts last, else it is exhausted. */
    method Recover(p: nat, d: nat, before: seq<OpenRecovery>)
      returns (r: Exit<bool>, begun: seq<OpenRecovery>)
      requires Valid() && p < |cap.steps| && d < |cap.detectors| && OpenSound(cap, before)
      requires InScope(cap.detectors[d], cap.steps[p].id) && cap.detectors[d].outcome.Recoverable? && Waiting(p)
      requires Fired(cap, surface.log, since, d)
      modifies this, surface, gated
      ensures OpenSound(cap, begun)
      ensures Inside(cap, old(Now()), Now(), p) && Ends(cap, Around(), old(Now()), Now(), r)
      ensures Handled(p, d, before, begun, old(Now()), Now(), r)
      ensures Kept(r.Crashed?)
      decreases p, 4
    {
      hide ValidCapability, AttemptsSound, RecordsSound, Told, ClicksPaid, Because, KeysOf, Inside, Ends, Makes;
      hide ActsFor, Restarted, OpenSound, OpenIndex, Opened, Limit, Handled, OneMore, Dets, Rows, ClickDue, Fired;
      ghost var v0 := Now();
      OpenedSound(before, d);
      begun := Opened(before, d);
      var i := OpenIndex(begun, d);
      var used := Used(attempts, KeyOf(cap, p, d));
      if used >= Limit(cap.detectors[d]) {
        var n := if begun[i].attempts >= used then begun[i].attempts else used;
        Reopened(before, d, n, begun[i].windowEnds);
        begun := begun[i := OpenRecovery(d, n, begun[i].windowEnds)];
        var raised := Exhausted(p, begun[i]);
        assert used == Used(attempts, KeyOf(cap, p, d));
        r := if raised.Done? then Stopped(raised.value) else raised.PropagateFailure();
        ExhaustedHandled(p, d, before, begun, v0, Now(), raised, r);
        return;
      }
      Start(p, d);
      ghost var v1 := Now();
      var n := begun[i].attempts + 1;
      if cap.detectors[d].outcome.recovery.WaitRetryRecovery? {
        var end := Some(surface.clock + cap.detectors[d].outcome.recovery.maxTotalMs);
        Reopened(before, d, n, end);
        begun := begun[i := OpenRecovery(d, n, end)];
        r := Done(true);
        WindowHandled(p, d, before, begun, v0, v1);
      } else {
        var end := begun[i].windowEnds;
        Reopened(before, d, n, end);
        begun := begun[i := OpenRecovery(d, n, end)];
        r := Restart(p, d, begun[i]);
        ghost var v2 := Now();
        if r.Done? { Renew(p, d); }
        RestartHandled(p, d, before, begun, v0, v1, v2, Now(), r);
      }
    }

    lemma ExhaustedHandled(p: nat, d: nat, before: seq<OpenRecovery>, begun: seq<OpenRecovery>, a: View, b: View,
      raised: Exit<RunStopped>, r: Exit<bool>)
      requires p < |cap.steps| && d < |cap.detectors| && Makes(p, a, b, raised)
      requires raised.Done? ==> raised.value.code == cap.detectors[d].outcome.code
      requires Dets(begun) == Dets(before) + {d}
      requires Used(a.attempts, KeyOf(cap, p, d)) >= Limit(cap.detectors[d])
      requires r == if raised.Done? then Stopped(raised.value) else raised.PropagateFailure()
      ensures Inside(cap, a, b, p) && Ends(cap, Around(), a, b, r) && Handled(p, d, before, begun, a, b, r)
    {
      hide Inside, Ends, Raises, Quiet, Handled, Dets;
      MadeThrown(p, a, b, raised);
      QuietSelf(cap, Around(), a, p);
      Throws<bool>(cap, Around(), a, a, b, p, raised);
      OpensMore(cap, p, a.attempts, before, begun);
      NoneRestarted(p, a, b);
      NotHandled(p, d, before, begun, a, b, r);
    }

    /** Without an attempt no wait was restarted, nor did time begin anew. */
    lemma NoneRestarted(p: nat, a: View, b: View)
      requires p < |cap.steps| && Inside(cap, a, b, p) && b.attempts == a.attempts
      ensures b.restarts == a.restarts && SameRestarts(p, a, b)
    {
      hide Repays, Rows, GuardedActs, HandBacks, IrreversibleRenamed;
      RepaysNone(a, b);
    }

    /** Work that leaves the attempts of step p alone restarts none of its waits. */
    lemma RowsKeepRestarts(p: nat, a: View, b: View)
      requires p < |cap.steps| && Inside(cap, a, b, p) && Rows(cap, b.attempts, p) == Rows(cap, a.attempts, p)
      ensures SameRestarts(p, a, b)
    {
      hide GuardedActs, HandBacks, IrreversibleRenamed;
      forall e | 0 <= e < |cap.detectors|
        ensures b.restarts.of[KeyOf(cap, p, e)] == a.restarts.of[KeyOf(cap, p, e)]
      {
        assert Rows(cap, a.attempts, p)[(p, e)] == Rows(cap, b.attempts, p)[(p, e)];
      }
    }

    /** The wait of step p starts over. */
    ghost method Renew(p: nat, d: nat)
      requires Valid() && p < |cap.steps| && d < |cap.detectors|
      modifies this`restarts
      ensures Now() == old(Now()).(restarts := Restarts(old(restarts.of) + multiset{KeyOf(cap, p, d)}, surface.clock))
      ensures Valid()
    {
      hide ValidCapability, AttemptsSound, RecordsSound, Told, ClicksPaid;
      restarts := Restarts(restarts.of + multiset{KeyOf(cap, p, d)}, surface.clock);
    }

    lemma KeyPends(p: nat, d: nat)
      requires p < |cap.steps| && d < |cap.detectors|
      ensures KeyOf(cap, p, d) in KeysOf(cap, p)
    {
    }

    /** Opening detector d, if it was not open, and rewriting its entry. */
    lemma Reopened(before: seq<OpenRecovery>, d: nat, n: nat, w: Option<int>)
      requires ValidCapability(cap) && OpenSound(cap, before) && d < |cap.detectors|
      requires cap.detectors[d].outcome.Recoverable?
      requires OpenIndex(Opened(before, d), d) < |Opened(before, d)|
      requires w.Some? ==>
        Opened(before, d)[OpenIndex(Opened(before, d), d)].windowEnds == w
        || cap.detectors[d].outcome.recovery.WaitRetryRecovery?
      ensures var i := OpenIndex(Opened(before, d), d);
        var after := Opened(before, d)[i := OpenRecovery(d, n, w)];
        && OpenSound(cap, after) && OpenIndex(after, d) == i && Dets(after) == Dets(before) + {d}
        && (forall h: int ::
              WindowsWithin(before, h) && (w.Some? ==> w == Opened(before, d)[i].windowEnds || w.value <= h) ==>
                WindowsWithin(after, h))
        && (forall t: int ::
              WindowsWhole(before, t)
              && (w.Some? ==> w == Opened(before, d)[i].windowEnds || t + BudgetOf(d) <= w.value) ==>
                WindowsWhole(after, t))
    {
      hide WindowsWithin, WindowsWhole, ValidCapability, BudgetOf;
      OpenedSound(before, d);
      UpdatedSound(Opened(before, d), d, n, w);
      forall t: int | WindowsWhole(before, t) && (w.Some? ==>
        w == Opened(before, d)[OpenIndex(Opened(before, d), d)].windowEnds || t + BudgetOf(d) <= w.value)
        ensures WindowsWhole(Opened(before, d)[OpenIndex(Opened(before, d), d) := OpenRecovery(d, n, w)], t)
        { WholeUpdated(before, d, n, w, t); }
      var i := OpenIndex(Opened(before, d), d);
      var mid := Opened(before, d);
      var after := mid[i := OpenRecovery(d, n, w)];
      assert forall j :: 0 <= j < |mid| ==> after[j].detector == mid[j].detector;
      SameDets(mid, after);
      OpenedDets(before, d);
    }

    lemma WholeUpdated(before: seq<OpenRecovery>, d: nat, n: nat, w: Option<int>, t: int)
      requires d < |cap.detectors| && OpenIndex(Opened(before, d), d) < |Opened(before, d)| && WindowsWhole(before, t)
      requires w.Some? ==>
        w == Opened(before, d)[OpenIndex(Opened(before, d), d)].windowEnds || t + BudgetOf(d) <= w.value
      ensures WindowsWhole(Opened(before, d)[OpenIndex(Opened(before, d), d) := OpenRecovery(d, n, w)], t)
    {
      hide BudgetOf;
      IndexFound(Opened(before, d), d);
    }

    lemma IndexFound(begun: seq<OpenRecovery>, d: nat)
      requires OpenIndex(begun, d) < |begun|
      ensures begun[OpenIndex(begun, d)].detector == d
    {
    }

    lemma SameDets(a: seq<OpenRecovery>, b: seq<OpenRecovery>)
      requires |a| == |b| && forall j :: 0 <= j < |a| ==> a[j].detector == b[j].detector
      ensures Dets(a) == Dets(b)
    {
      forall d | d in Dets(a) ensures d in Dets(b) {
        var j :| 0 <= j < |a| && a[j].detector == d;
        assert b[j] in b;
      }
      forall d | d in Dets(b) ensures d in Dets(a) {
        var j :| 0 <= j < |b| && b[j].detector == d;
        assert a[j] in a;
      }
    }

    lemma OpenedDets(before: seq<OpenRecovery>, d: nat)
      ensures Dets(Opened(before, d)) == Dets(before) + {d}
    {
      var i := OpenIndex(before, d);
      if i < |before| {
        assert before[i] in before;
      } else {
        var one := OpenRecovery(d, 0, None);
        assert forall o :: o in before + [one] <==> o in before || o == one;
      }
    }

    lemma WindowHandled(p: nat, d: nat, before: seq<OpenRecovery>, begun: seq<OpenRecovery>, a: View, b: View)
      requires ValidCapability(cap) && p < |cap.steps| && d < |cap.detectors|
      requires cap.detectors[d].outcome.Recoverable? && cap.detectors[d].outcome.recovery.WaitRetryRecovery?
      requires b == a.(attempts := b.attempts) && OneMore(cap, p, d, a.attempts, b.attempts)
      requires Rows(cap, b.attempts, p + 1) == Rows(cap, a.attempts, p + 1) && Dets(begun) == Dets(before) + {d}
      requires OpenIndex(begun, d) < |begun|
      requires var end := b.clock + cap.detectors[d].outcome.recovery.maxTotalMs;
        && begun[OpenIndex(begun, d)].windowEnds == Some(end)
        && forall h: int :: WindowsWithin(before, h) && end <= h ==> WindowsWithin(begun, h)
      requires forall k: Key :: Used(a.attempts, k) <= Used(b.attempts, k)
      requires forall t: int :: WindowsWhole(before, t) && t <= b.clock ==> WindowsWhole(begun, t)
      ensures Inside(cap, a, b, p) && Ends(cap, Around(), a, b, Done(true))
      ensures Handled(p, d, before, begun, a, b, Done(true))
    {
      hide ValidCapability, Opens, WindowsWithin, WindowsWhole, OpenIndex, OneMore, Dets, Inside, Ends, Quiet, Rows;
      OpensOne(cap, p, d, a.attempts, b.attempts, before, begun);
      QuietSelf(cap, Around(), a, p);
      Attempts(cap, Around(), a, a, b, p);
      Finishes(cap, Around(), a, b, p, true);
    }

    lemma RestartHandled(
      p: nat, d: nat, before: seq<OpenRecovery>, begun: seq<OpenRecovery>, a: View, b: View, c: View, e: View,
      r: Exit<bool>)
      requires ValidCapability(cap) && p < |cap.steps| && d < |cap.detectors| && (r.Done? ==> !r.value)
      requires cap.detectors[d].outcome.Recoverable? && !cap.detectors[d].outcome.recovery.WaitRetryRecovery?
      requires b == a.(attempts := b.attempts) && OneMore(cap, p, d, a.attempts, b.attempts)
      requires Rows(cap, b.attempts, p + 1) == Rows(cap, a.attempts, p + 1) && Dets(begun) == Dets(before) + {d}
      requires forall k: Key :: Used(a.attempts, k) <= Used(b.attempts, k)
      requires ActsFor(p, d, b, c, r) && (r.Done? ==> Restarted(d, b.log, c.log))
      requires e == if r.Done? then c.(restarts := Restarts(c.restarts.of + multiset{KeyOf(cap, p, d)}, c.clock)) else c
      requires forall h: int :: WindowsWithin(before, h) ==> WindowsWithin(begun, h)
      requires forall t: int :: WindowsWhole(before, t) ==> WindowsWhole(begun, t)
      ensures Inside(cap, a, e, p) && Ends(cap, Around(), a, e, r) && Handled(p, d, before, begun, a, e, r)
    {
      hide Opens, WindowsWithin, WindowsWhole, OpenIndex, OneMore, Dets, ActingCost, Inside, Ends, Quiet, Rows;
      hide Restarted, SameRestarts, RestartedNow, ValidCapability;
      OpensOne(cap, p, d, a.attempts, b.attempts, before, begun);
      OpensKept(cap, p, a.attempts, b.attempts, c.attempts, before, begun);
      OneMoreKept(cap, p, d, a.attempts, b.attempts, c.attempts);
      OneMoreStarts(p, d, a, c);
      QuietSelf(cap, Around(), a, p);
      Attempts(cap, Around(), a, a, b, p);
      Chains(cap, Around(), a, b, c, p, r);
      RowsKeepRestarts(p, b, c);
      RestartsFrom(p, a, b, c);
      if r.Done? { RenewsOnce(p, d, a, c, e, r); }
    }

    lemma OneMoreStarts(p: nat, d: nat, a: View, b: View)
      requires p < |cap.steps| && d < |cap.detectors| && OneMore(cap, p, d, a.attempts, b.attempts)
      ensures Started(p, d, a, b)
    {
    }

    lemma RestartsFrom(p: nat, a: View, b: View, c: View)
      requires p < |cap.steps| && b.restarts == a.restarts && SameRestarts(p, b, c)
      ensures SameRestarts(p, a, c)
    {
    }

    /** One attempt pays for one restart. */
    lemma RenewsOnce(p: nat, d: nat, a: View, b: View, c: View, r: Exit<bool>)
      requires p < |cap.steps| && d < |cap.detectors| && OneMore(cap, p, d, a.attempts, b.attempts)
      requires ValidCapability(cap) && SameRestarts(p, a, b)
      requires Inside(cap, a, b, p) && Ends(cap, Around(), a, b, r) && r.Done?
      requires c == b.(restarts := Restarts(b.restarts.of + multiset{KeyOf(cap, p, d)}, b.clock))
      ensures Inside(cap, a, c, p) && Ends(cap, Around(), a, c, r) && RestartedNow(p, d, a, c)
    {
      hide ValidCapability, Rows, GuardedActs, HandBacks, IrreversibleRenamed, Pauses, Unverified;
      forall e | 0 <= e < |cap.detectors| && e != d ensures KeyOf(cap, p, e) != KeyOf(cap, p, d) {
        if KeyOf(cap, p, e) == KeyOf(cap, p, d) { KeyInjective(cap, p, d, p, e); }
      }
      RenewRepays(p, d, a, b, c);
    }

    lemma RenewRepays(p: nat, d: nat, a: View, b: View, c: View)
      requires p < |cap.steps| && d < |cap.detectors| && Repays(a, b) && OneMore(cap, p, d, a.attempts, b.attempts)
      requires SameRestarts(p, a, b)
      requires c == b.(restarts := Restarts(b.restarts.of + multiset{KeyOf(cap, p, d)}, b.clock))
      ensures Repays(a, c)
    {
      assert c.restarts.of[KeyOf(cap, p, d)] > a.restarts.of[KeyOf(cap, p, d)];
    }

    /** What acting on detector d for step p did: it leaves the attempts of this and later steps alone. */
    ghost predicate ActsFor<T>(p: nat, d: nat, a: View, b: View, r: Exit<T>)
      requires p < |cap.steps| && d < |cap.detectors|
    {
      && Inside(cap, a, b, p) && Ends(cap, Around(), a, b, r)
      && Asleep(b) - Asleep(a) <= ActingCost(cap, p, d) && Rows(cap, b.attempts, p) == Rows(cap, a.attempts, p)
    }

    /** Acts on a recovery, and then lets the page settle. */
    method Restart(p: nat, d: nat, open: OpenRecovery) returns (r: Exit<bool>)
      requires Valid() && p < |cap.steps| && d < |cap.detectors| && open.detector == d
      requires InScope(cap.detectors[d], cap.steps[p].id) && Fired(cap, surface.log, since, d)
      requires cap.detectors[d].outcome.Recoverable? && !cap.detectors[d].outcome.recovery.WaitRetryRecovery?
      requires ClickDue(cap, surface.acts, started, d)
      modifies this, surface, gated
      ensures ActsFor(p, d, old(Now()), Now(), r)
      ensures r.Done? ==> !r.value && Restarted(d, old(surface.log), surface.log)
      ensures Kept(r.Crashed?)
      decreases p, 3
    {
      hide ValidCapability, AttemptsSound, RecordsSound, Told, ClicksPaid, Because, ActsFor, Restarted;
      hide ActedToRecover, Fired;
      ghost var v0 := Now();
      var done := ActToRecover(p, d, open);
      ghost var v1 := Now();
      if done.IsFailure() {
        ActsForAs(p, d, v0, v1, done, done.PropagateFailure<bool>());
        return done.PropagateFailure();
      }
      var settled := Calm(d);
      r := if settled.Lost? then ControlLost else Done(false);
      CalmsAfter(p, d, v0, v1, Now(), done, settled, r);
    }

    /** Lets the page settle after a recovery. */
    method Calm(d: nat) returns (r: Controlled<bool>)
      requires Valid() && d < |cap.detectors|
      modifies surface`clock, surface`drift, surface`held, surface`log
      ensures OnlyTime(old(Now()), Now()) && Asleep(Now()) == Asleep(old(Now()))
      ensures r.Lost? ==> surface.attached
      ensures r.Held? ==> surface.log == old(surface.log) + [Heard(AskCalm(cap.detectors[d].id), r.value)]
      ensures Valid()
    {
      hide ValidCapability, AttemptsSound, RecordsSound, Told, ClicksPaid, Because;
      r := surface.Settle(AskCalm(cap.detectors[d].id));
    }

    lemma ActsForAs<T, U>(p: nat, d: nat, a: View, b: View, e: Exit<T>, f: Exit<U>)
      requires p < |cap.steps| && d < |cap.detectors| && ActsFor(p, d, a, b, e)
      requires e.IsFailure() && f == e.PropagateFailure()
      ensures ActsFor(p, d, a, b, f)
    {
      hide Inside, HandBacks, Unverified, Pauses, StopFits, GoodHandback, Because, Rows, ActingCost;
    }

    lemma CalmsAfter(p: nat, d: nat, a: View, b: View, c: View, done: Exit<()>, settled: Controlled<bool>,
      r: Exit<bool>)
      requires p < |cap.steps| && d < |cap.detectors| && ActsFor(p, d, a, b, done) && done.Done?
      requires ActedToRecover(d, a.log, b.log) && OnlyTime(b, c) && Asleep(c) == Asleep(b)
      requires settled.Lost? ==> surface.attached
      requires settled.Held? ==> c.log == b.log + [Heard(AskCalm(cap.detectors[d].id), settled.value)]
      requires r == if settled.Lost? then ControlLost else Done(false)
      ensures ActsFor(p, d, a, c, r) && (r.Done? ==> Restarted(d, a.log, c.log))
    {
      hide Inside, Ends, Quiet, Rows, ActingCost, ActedToRecover, Restarted;
      var env := Around();
      QuietSelf(cap, env, a, p);
      Goes(cap, env, a, a, b, p, done);
      InsideMonotone(cap, a, b, p);
      if settled.Lost? {
        LosesControl<bool>(cap, env, a, b, c, p);
      } else {
        Idle(cap, env, a, b, c, p);
        Finishes(cap, env, a, c, p, false);
        SettledAfter(d, a.log, b.log, c.log, settled.value);
      }
    }

    /** Detector d's recovery acted, and then the page was given time to settle. */
    ghost predicate Restarted(d: nat, was: seq<Happening>, now: seq<Happening>)
      requires d < |cap.detectors|
    {
      var n := |now| - 1;
      && |was| <= n && now[n].Heard? && now[n].query == AskCalm(cap.detectors[d].id)
      && ActedToRecover(d, was, now[..n])
    }

    /** It clicked, if its target was there; or it ran its steps once more, in order. */
    ghost predicate ActedToRecover(d: nat, was: seq<Happening>, now: seq<Happening>)
      requires d < |cap.detectors|
    {
      && ActsToRecover(cap.detectors[d])
      && match cap.detectors[d].outcome.recovery
         case ClickRecovery(_) => ClickTried(cap.detectors[d].id, was, now)
         case RunStepsRecovery(ids, _) => RanInOrder(ids, was, now)
         case _ => true
    }

    lemma SettledAfter(d: nat, a: seq<Happening>, b: seq<Happening>, c: seq<Happening>, yes: bool)
      requires d < |cap.detectors| && ActedToRecover(d, a, b) && a <= b
      requires c == b + [Heard(AskCalm(cap.detectors[d].id), yes)]
      ensures Restarted(d, a, c)
    {
      hide ActedToRecover;
      assert c[..|c| - 1] == b;
    }

    /** A click, or the steps once more. */
    method ActToRecover(p: nat, d: nat, open: OpenRecovery) returns (r: Exit<()>)
      requires Valid() && p < |cap.steps| && d < |cap.detectors| && open.detector == d
      requires InScope(cap.detectors[d], cap.steps[p].id) && Fired(cap, surface.log, since, d)
      requires cap.detectors[d].outcome.Recoverable? && !cap.detectors[d].outcome.recovery.WaitRetryRecovery?
      requires ClickDue(cap, surface.acts, started, d)
      modifies this, surface, gated
      ensures ActsFor(p, d, old(Now()), Now(), r)
      ensures r.Done? && cap.detectors[d].outcome.recovery.RunStepsRecovery? ==>
        Reran(d, old(surface.acts), surface.acts)
      ensures r.Done? ==> ActedToRecover(d, old(surface.log), surface.log)
      ensures Kept(r.Crashed?)
      decreases p, 2
    {
      hide ValidCapability, AttemptsSound, RecordsSound, Told, ClicksPaid, Because, Inside, Ends, Reran, Rows;
      hide ClickDue, Fired, ActingCost, RanInOrder, ClickTried, Clicked;
      ghost var v0 := Now();
      if cap.detectors[d].outcome.recovery.ClickRecovery? {
        r := RecoverByClick(p, d);
        ClickedActs(p, d, v0, Now(), r);
      } else {
        r := RecoverBySteps(p, open);
      }
    }

    lemma ClickedActs(p: nat, d: nat, a: View, b: View, r: Exit<()>)
      requires p < |cap.steps| && d < |cap.detectors| && Clicked(p, d, a, b, r)
      ensures ActsFor(p, d, a, b, r) && b.attempts == a.attempts
      ensures r.Done? ==> ClickTried(cap.detectors[d].id, a.log, b.log)
    {
      hide Inside, Ends, ClickTried;
    }

    /** Every step a run_steps recovery names acted at least once more. */
    ghost predicate Reran(d: nat, was: multiset<ActBy>, now: multiset<ActBy>)
      requires d < |cap.detectors| && cap.detectors[d].outcome.Recoverable?
      requires cap.detectors[d].outcome.recovery.RunStepsRecovery?
    {
      forall id :: id in cap.detectors[d].outcome.recovery.stepIds ==> now[Own(id)] > was[Own(id)]
    }

    /** Rewriting one opened recovery keeps the others and moves at most its own window. */
    lemma UpdatedSound(begun: seq<OpenRecovery>, d: nat, n: nat, w: Option<int>)
      requires OpenSound(cap, begun) && d < |cap.detectors| && OpenIndex(begun, d) < |begun|
      requires w.Some? ==>
        begun[OpenIndex(begun, d)].windowEnds == w || cap.detectors[d].outcome.recovery.WaitRetryRecovery?
      ensures var i := OpenIndex(begun, d);
        var after := begun[i := OpenRecovery(d, n, w)];
        && OpenSound(cap, after) && OpenIndex(after, d) == i
        && (forall h: int :: WindowsWithin(begun, h) && (w.Some? ==> w == begun[i].windowEnds || w.value <= h) ==>
              WindowsWithin(after, h))
    {
      var i := OpenIndex(begun, d);
      var after := begun[i := OpenRecovery(d, n, w)];
      assert forall j :: 0 <= j < |begun| ==> after[j].detector == begun[j].detector;
      UpdatedIndex(after, d, i);
    }

    lemma FieldDeclared(d: nat)
      requires ValidCapability(cap) && d < |cap.detectors|
      ensures var o := cap.detectors[d].outcome;
        o.BusinessOutcome? && o.field.Some? ==> o.field.value in cap.inputs
    {
      assert DetectorSound(cap, cap.detectors[d]);
    }

    lemma OpenedSound(before: seq<OpenRecovery>, d: nat)
      requires OpenSound(cap, before) && d < |cap.detectors| && cap.detectors[d].outcome.Recoverable?
      ensures OpenSound(cap, Opened(before, d)) && OpenIndex(Opened(before, d), d) < |Opened(before, d)|
      ensures forall h: int :: WindowsWithin(before, h) ==> WindowsWithin(Opened(before, d), h)
    {
      hide WindowsWithin, OpenIndex;
      var i := OpenIndex(before, d);
      var after := Opened(before, d);
      if i == |before| {
        assert after[|before|].detector == d;
        forall h: int | WindowsWithin(before, h) ensures WindowsWithin(after, h)
          { WindowsKept(before, OpenRecovery(d, 0, None), h); }
      }
    }

    lemma WindowsKept(before: seq<OpenRecovery>, o: OpenRecovery, h: int)
      requires WindowsWithin(before, h) && o.windowEnds.None?
      ensures WindowsWithin(before + [o], h)
    {
    }

    lemma UpdatedIndex(begun: seq<OpenRecovery>, d: nat, i: nat)
      requires OpenSound(cap, begun) && i < |begun| && begun[i].detector == d
      ensures OpenIndex(begun, d) == i
    {
    }

    /** What recovering by a click did. */
    ghost predicate Clicked(p: nat, d: nat, a: View, b: View, r: Exit<()>)
      requires p < |cap.steps| && d < |cap.detectors|
    {
      && Inside(cap, a, b, p) && Ends(cap, Around(), a, b, r)
      && Asleep(b) == Asleep(a) && b.attempts == a.attempts
      && (r.Done? ==> ClickTried(cap.detectors[d].id, a.log, b.log))
    }

    /** Clicks on the recovery's target, if it is there. */
    method RecoverByClick(p: nat, d: nat) returns (r: Exit<()>)
      requires Valid() && p < |cap.steps| && d < |cap.detectors| && ActsToRecover(cap.detectors[d])
      requires ClickDue(cap, surface.acts, started, d)
      modifies this, surface, gated
      ensures Clicked(p, d, old(Now()), Now(), r)
      ensures attempts == old(attempts)
      ensures Kept(r.Crashed?)
    {
      hide ValidCapability, AttemptsSound, RecordsSound, Told, ClicksPaid, Because, Clicked, Performed, Inside, Ends;
      hide OnlyTime, AllStartsOf, Recovers;
      ghost var v0 := Now();
      var found := FindClick(d);
      ghost var v1 := Now();
      if found.Lost? || !found.value {
        r := if found.Lost? then ControlLost else Done(());
        ClickNotMade(p, d, v0, v1, found, r);
        return;
      }
      var why := RecoveryClick(cap.detectors[d].id);
      RecoveryMayAct(d);
      var result, acted := PerformAside(p, why, RecoveryTarget(cap.detectors[d].id));
      r := if result.Done? then Done(()) else result.PropagateFailure();
      ClickMade(p, d, acted, v0, v1, Now(), result, r);
    }

    lemma RecoveryMayAct(d: nat)
      requires d < |cap.detectors| && ActsToRecover(cap.detectors[d])
      ensures Recovers(cap)
    {
    }

    /** Looks for the target of a recovery's click. */
    method FindClick(d: nat) returns (r: Controlled<bool>)
      requires Valid() && d < |cap.detectors|
      modifies surface`clock, surface`drift, surface`held, surface`log, surface`stale
      ensures OnlyTime(old(Now()), Now()) && Asleep(Now()) == Asleep(old(Now()))
      ensures r.Lost? ==> surface.attached
      ensures r.Held? ==>
        surface.log == old(surface.log) + [Heard(AskTarget(RecoveryTarget(cap.detectors[d].id)), r.value)]
      ensures Valid()
    {
      hide ValidCapability, AttemptsSound, RecordsSound, Told, ClicksPaid, Because;
      var found := surface.Resolve(RecoveryTarget(cap.detectors[d].id));
      r := if found.Lost? then Lost else Held(found.value.Some?);
    }

    lemma ClickNotMade(p: nat, d: nat, a: View, b: View, found: Controlled<bool>, r: Exit<()>)
      requires p < |cap.steps| && d < |cap.detectors| && OnlyTime(a, b) && Asleep(b) == Asleep(a)
      requires if found.Lost? then r == ControlLost && surface.attached
               else
                 && r == Done(())
                 && b.log == a.log + [Heard(AskTarget(RecoveryTarget(cap.detectors[d].id)), false)]
      ensures Clicked(p, d, a, b, r)
    {
      hide Inside, Ends, Quiet;
      var env := Around();
      QuietSelf(cap, env, a, p);
      if found.Lost? {
        LosesControl<()>(cap, env, a, a, b, p);
      } else {
        Idle(cap, env, a, a, b, p);
        Finishes(cap, env, a, b, p, ());
      }
    }

    lemma ClickMade(p: nat, d: nat, acted: bool, a: View, b: View, c: View, result: Exit<ActResult>, r: Exit<()>)
      requires p < |cap.steps| && d < |cap.detectors| && OnlyTime(a, b) && Asleep(b) == Asleep(a)
      requires b.log == a.log + [Heard(AskTarget(RecoveryTarget(cap.detectors[d].id)), true)]
      requires Inside(cap, b, c, p) && Performed(p, RecoveryClick(cap.detectors[d].id), Safe, acted, b, c, result)
      requires r == if result.Done? then Done(()) else result.PropagateFailure()
      requires c.attempts == b.attempts
      ensures Clicked(p, d, a, c, r)
    {
      hide Inside, Ends, Quiet, Carries, TraceKept;
      var env := Around();
      QuietSelf(cap, env, a, p);
      Idle(cap, env, a, a, b, p);
      if result.Done? {
        Goes(cap, env, a, b, c, p, result);
        Finishes(cap, env, a, c, p, ());
        assert c.log[|a.log|] == b.log[|a.log|];
      } else {
        Fails<ActResult, ()>(cap, env, a, b, c, p, result);
      }
    }

    /** The click's target was looked for, and exactly when it was there the click went to the gate. */
    ghost predicate ClickTried(id: DetectorId, was: seq<Happening>, now: seq<Happening>) {
      var n := |was|;
      && was < now && now[n].Heard? && now[n].query == AskTarget(RecoveryTarget(id))
      && |now| == n + (if now[n].yes then 2 else 1)
      && (now[n].yes ==> IsAttempt(now[n + 1], RecoveryClick(id)))
    }

    /** The failures of a re-run step that are reported in the recovering detector's name. */
    predicate MeansNotRecovered(stop: RunStopped) {
      stop.status.StopHard?
      && (stop.code.TargetNotFound? || stop.code.TargetAmbiguous?
         || stop.code.CheckpointTimeout? || stop.code.ActionFailed?)
    }

    /** The steps a run_steps recovery names. */
    function StepsOf(open: OpenRecovery): seq<StepId>
      requires open.detector < |cap.detectors| && cap.detectors[open.detector].outcome.Recoverable?
      requires cap.detectors[open.detector].outcome.recovery.RunStepsRecovery?
    {
      cap.detectors[open.detector].outcome.recovery.stepIds
    }

    /** Runs the steps a recovery names once more, in order; when it comes back, each of them acted again. */
    method RecoverBySteps(p: nat, open: OpenRecovery) returns (r: Exit<()>)
      requires Valid() && p < |cap.steps|
      requires open.detector < |cap.detectors| && cap.detectors[open.detector].outcome.Recoverable?
      requires cap.detectors[open.detector].outcome.recovery.RunStepsRecovery?
      requires InScope(cap.detectors[open.detector], cap.steps[p].id) && Fired(cap, surface.log, since, open.detector)
      modifies this, surface, gated
      ensures ActsFor(p, open.detector, old(Now()), Now(), r)
      ensures r.Done? ==> Reran(open.detector, old(surface.acts), surface.acts)
      ensures r.Done? ==> RanInOrder(StepsOf(open), old(surface.log), surface.log)
      ensures Kept(r.Crashed?)
      decreases p, 1
    {
      hide ValidCapability, AttemptsSound, RecordsSound, Told, ClicksPaid, Because, ActsFor, Reran, RanInOrder;
      hide Rerunning, Reruns, Fired;
      ghost var v0, d := Now(), open.detector;
      var ids := StepsOf(open);
      ghost var marks: seq<nat> := [|surface.log|];
      RerunsStart(p, d, v0);
      for k := 0 to |ids|
        invariant Valid() && Rerunning(p, d, k, v0, Now(), marks)
      {
        ghost var v1 := Now();
        RerunningFired(p, d, k, v0, v1, marks);
        r := Rerun(p, open, k);
        RerunsOn(p, d, k, v0, v1, Now(), marks, r);
        if r.IsFailure() { return; }
        marks := marks + [|surface.log|];
      }
      RerunsEnd(p, d, v0, Now(), marks);
      r := Done(());
    }

    /** The first k steps of a recovery ran once more, in order, and nothing else happened but in them. */
    ghost predicate Rerunning(p: nat, d: nat, k: nat, a: View, b: View, marks: seq<nat>)
      requires p < |cap.steps| && d < |cap.detectors| && cap.detectors[d].outcome.Recoverable?
      requires cap.detectors[d].outcome.recovery.RunStepsRecovery?
    {
      var ids := cap.detectors[d].outcome.recovery.stepIds;
      && Quiet(cap, Around(), a, b, p) && Rows(cap, b.attempts, p) == Rows(cap, a.attempts, p)
      && k <= |ids| && Asleep(b) - Asleep(a) <= RerunCost(cap, p, ids, k)
      && a.acts <= b.acts && a.log <= b.log && Fired(cap, b.log, b.since, d)
      && (forall j :: 0 <= j < k ==> b.acts[Own(ids[j])] > a.acts[Own(ids[j])])
      && RanMarks(ids, k, b.log, marks) && marks[0] == |a.log| && marks[k] == |b.log|
    }

    lemma RerunsStart(p: nat, d: nat, a: View)
      requires p < |cap.steps| && d < |cap.detectors| && cap.detectors[d].outcome.Recoverable?
      requires cap.detectors[d].outcome.recovery.RunStepsRecovery? && Fired(cap, a.log, a.since, d)
      ensures Rerunning(p, d, 0, a, a, [|a.log|])
    {
      hide Quiet, Rows, Fired;
      QuietSelf(cap, Around(), a, p);
    }

    lemma RerunningFired(p: nat, d: nat, k: nat, a: View, b: View, marks: seq<nat>)
      requires p < |cap.steps| && d < |cap.detectors| && cap.detectors[d].outcome.Recoverable?
      requires cap.detectors[d].outcome.recovery.RunStepsRecovery? && Rerunning(p, d, k, a, b, marks)
      ensures Fired(cap, b.log, b.since, d)
    {
      hide Quiet, Rows, Fired, RanMarks;
    }

    lemma RerunsOn(p: nat, d: nat, k: nat, a: View, b: View, c: View, marks: seq<nat>, r: Exit<()>)
      requires p < |cap.steps| && d < |cap.detectors| && cap.detectors[d].outcome.Recoverable?
      requires cap.detectors[d].outcome.recovery.RunStepsRecovery?
      requires k < |cap.detectors[d].outcome.recovery.stepIds|
      requires Rerunning(p, d, k, a, b, marks) && Reruns(p, d, k, b, c, r)
      ensures if r.Done? then Rerunning(p, d, k + 1, a, c, marks + [|c.log|]) else ActsFor(p, d, a, c, r)
    {
      hide Inside, Ends, Quiet, Rows, Fired, RanMarks, RanAgain, RerunCost, MeansNotRecovered;
      var ids := cap.detectors[d].outcome.recovery.stepIds;
      InsideMonotone(cap, b, c, p);
      RerunCostGrows(cap, p, ids, k + 1, |ids|);
      if r.Done? {
        Goes(cap, Around(), a, b, c, p, r);
        FiredStill(cap, b.log, c.log, b.since, d);
        RanOn(ids, k, b.log, c.log, marks);
        MarksEnds(ids, k, b.log, marks);
      } else {
        Fails<(), ()>(cap, Around(), a, b, c, p, r);
      }
    }

    lemma MarksEnds(ids: seq<StepId>, k: nat, log: seq<Happening>, marks: seq<nat>)
      requires RanMarks(ids, k, log, marks)
      ensures |marks| == k + 1
    {
    }

    lemma RerunsEnd(p: nat, d: nat, a: View, b: View, marks: seq<nat>)
      requires p < |cap.steps| && d < |cap.detectors| && cap.detectors[d].outcome.Recoverable?
      requires cap.detectors[d].outcome.recovery.RunStepsRecovery?
      requires Rerunning(p, d, |cap.detectors[d].outcome.recovery.stepIds|, a, b, marks)
      ensures ActsFor(p, d, a, b, Done(())) && Reran(d, a.acts, b.acts)
      ensures RanInOrder(cap.detectors[d].outcome.recovery.stepIds, a.log, b.log)
    {
      hide Inside, Ends, Quiet, Rows, Fired, RanMarks, RerunCost;
      Finishes(cap, Around(), a, b, p, ());
    }

    /** Between entries n and m of the log the k-th of ids acted, and unless it is the last was seen to pass. */
    ghost predicate RanAgain(ids: seq<StepId>, k: nat, log: seq<Happening>, n: nat, m: nat)
      requires k < |ids|
    {
      && HasStep(cap.steps, ids[k])
      && (exists i :: n <= i < m && i < |log| && IsOwnAct(Position(cap.steps, ids[k]), log[i]))
      && (ids[k] != ids[|ids| - 1] ==> ActedThenSeen(cap, Position(cap.steps, ids[k]), log, n, m))
    }

    ghost predicate RanMarks(ids: seq<StepId>, n: nat, log: seq<Happening>, marks: seq<nat>) {
      && n <= |ids| && |marks| == n + 1 && (forall k :: 0 <= k <= n ==> marks[k] <= |log|)
      && forall k :: 0 <= k < n ==> RanAgain(ids, k, log, marks[k], marks[k + 1])
    }

    /** What was appended falls into pieces, in each of which the next of ids ran once more. */
    ghost predicate RanInOrder(ids: seq<StepId>, was: seq<Happening>, now: seq<Happening>) {
      && was <= now
      && exists marks: seq<nat> :: RanMarks(ids, |ids|, now, marks) && marks[0] == |was| && marks[|ids|] == |now|
    }

    lemma RanStill(ids: seq<StepId>, k: nat, was: seq<Happening>, now: seq<Happening>, n: nat, m: nat)
      requires k < |ids| && was <= now && m <= |was| && RanAgain(ids, k, was, n, m)
      ensures RanAgain(ids, k, now, n, m)
    {
      hide ActedThenSeen;
      var q := Position(cap.steps, ids[k]);
      var i :| n <= i < m && i < |was| && IsOwnAct(q, was[i]);
      assert IsOwnAct(q, now[i]);
      if ids[k] != ids[|ids| - 1] { ActedThenSeenStill(cap, q, was, now, n, m); }
    }

    lemma RanOn(ids: seq<StepId>, n: nat, was: seq<Happening>, now: seq<Happening>, marks: seq<nat>)
      requires RanMarks(ids, n, was, marks) && n < |ids| && was <= now && marks[n] == |was|
      requires RanAgain(ids, n, now, |was|, |now|)
      ensures RanMarks(ids, n + 1, now, marks + [|now|])
    {
      hide RanAgain;
      var more: seq<nat> := marks + [|now|];
      forall k | 0 <= k < n + 1 ensures RanAgain(ids, k, now, more[k], more[k + 1]) {
        if k < n { RanStill(ids, k, was, now, marks[k], marks[k + 1]); }
      }
    }

    /** What running step k of a recovery once more did. */
    ghost predicate Reruns(p: nat, d: nat, k: nat, a: View, b: View, r: Exit<()>)
      requires p < |cap.steps| && d < |cap.detectors| && cap.detectors[d].outcome.Recoverable?
      requires cap.detectors[d].outcome.recovery.RunStepsRecovery?
      requires k < |cap.detectors[d].outcome.recovery.stepIds|
    {
      var ids := cap.detectors[d].outcome.recovery.stepIds;
      && Inside(cap, a, b, p) && Ends(cap, Around(), a, b, r)
      && Asleep(b) - Asleep(a) <= RerunCost(cap, p, ids, k + 1) - RerunCost(cap, p, ids, k)
      && Rows(cap, b.attempts, p) == Rows(cap, a.attempts, p)
      && (r.Stopped? ==> r.stop.code == cap.detectors[d].outcome.code || !MeansNotRecovered(r.stop))
      && (r.Done? ==> b.acts[Own(ids[k])] > a.acts[Own(ids[k])] && RanAgain(ids, k, b.log, |a.log|, |b.log|))
    }

    /** Step k of a recovery: it acts, or ends in the detector's own code, or in one that is no mere failure to act. */
    method Rerun(p: nat, open: OpenRecovery, k: nat) returns (r: Exit<()>)
      requires Valid() && p < |cap.steps|
      requires open.detector < |cap.detectors| && cap.detectors[open.detector].outcome.Recoverable?
      requires cap.detectors[open.detector].outcome.recovery.RunStepsRecovery?
      requires InScope(cap.detectors[open.detector], cap.steps[p].id) && Fired(cap, surface.log, since, open.detector)
      requires k < |StepsOf(open)|
      modifies this, surface, gated
      ensures Reruns(p, open.detector, k, old(Now()), Now(), r)
      ensures Kept(r.Crashed?)
      decreases p, 0
    {
      hide ValidCapability, AttemptsSound, RecordsSound, Told, ClicksPaid, Because, Reruns, Works, Ran, TraceKept;
      hide GivesUp, StepCost, Fired, Inside, Ends;
      ghost var v1 := Now();
      var ids := StepsOf(open);
      RerunGoesBack(cap, p, open.detector, k);
      RecoveryMayAct(open.detector);
      var q := Position(cap.steps, ids[k]);
      r := RunStep(q, false, ids[k] == ids[|ids| - 1]);
      ghost var v2 := Now();
      RerunInside(p, open.detector, k, q, v1, v2, r);
      if r.Stopped? && MeansNotRecovered(r.stop) {
        ghost var one := r.stop;
        FiredStill(cap, v1.log, v2.log, since, open.detector);
        var raised := Exhausted(p, open);
        r := Thrown(raised);
        RerunGivesUp(p, open.detector, k, v1, v2, Now(), one, raised, r);
      }
    }

    lemma RerunInside(p: nat, d: nat, k: nat, q: nat, a: View, b: View, r: Exit<()>)
      requires p < |cap.steps| && d < |cap.detectors| && cap.detectors[d].outcome.Recoverable?
      requires cap.detectors[d].outcome.recovery.RunStepsRecovery?
      requires k < |cap.detectors[d].outcome.recovery.stepIds|
      requires var id := cap.detectors[d].outcome.recovery.stepIds[k];
        HasStep(cap.steps, id) && q == Position(cap.steps, id) && q < p && !Guarded(cap.steps[q])
      requires Works(cap, Outside(), gated.confirm, a, b, q, r) && TraceKept(a, b)
      requires Asleep(b) - Asleep(a) <= StepCost(cap, q)
      requires var ids := cap.detectors[d].outcome.recovery.stepIds;
        r.Done? ==> Ran(q, ids[k] == ids[|ids| - 1], a, b)
      ensures Inside(cap, a, b, p) && Ends(cap, Outside(), a, b, r)
      ensures Rows(cap, b.attempts, p) == Rows(cap, a.attempts, p) && a.log <= b.log && b.since == a.since
      ensures Asleep(b) - Asleep(a) <= RerunCost(cap, p, cap.detectors[d].outcome.recovery.stepIds, k + 1)
        - RerunCost(cap, p, cap.detectors[d].outcome.recovery.stepIds, k)
      ensures (r.Stopped? && MeansNotRecovered(r.stop)) || Reruns(p, d, k, a, b, r)
    {
      hide Inside, Carries, Ends, Rows, GuardedActs, ActsWithin, Works, Ran, RanAgain, StepCost, Outside, TraceKept;
      var ids := cap.detectors[d].outcome.recovery.stepIds;
      WorksParts(cap, Outside(), gated.confirm, a, b, q, r);
      ActsAfter(cap, gated.confirm, q, a.acts, a.acts, b.acts);
      InsideLater(cap, a, b, q, p);
      if r.Done? { RerunRan(p, d, ids, k, a, b); }
      if !(r.Stopped? && MeansNotRecovered(r.stop)) { RerunEnds(a, b, r); }
    }

    lemma RerunEnds(a: View, b: View, r: Exit<()>)
      requires Ends(cap, Outside(), a, b, r) && !(r.Stopped? && MeansNotRecovered(r.stop))
      ensures Ends(cap, Around(), a, b, r)
    {
      hide Ends;
      EndsInWait(cap, Around(), a, b, r);
    }

    lemma RerunGivesUp(p: nat, d: nat, k: nat, a: View, b: View, c: View, one: RunStopped, raised: Exit<RunStopped>,
      r: Exit<()>)
      requires p < |cap.steps| && d < |cap.detectors| && cap.detectors[d].outcome.Recoverable?
      requires cap.detectors[d].outcome.recovery.RunStepsRecovery?
      requires k < |cap.detectors[d].outcome.recovery.stepIds|
      requires Inside(cap, a, b, p) && Ends<()>(cap, Outside(), a, b, Stopped(one)) && MeansNotRecovered(one)
      requires Rows(cap, b.attempts, p) == Rows(cap, a.attempts, p) && c.attempts == b.attempts
      requires Asleep(b) - Asleep(a) <= RerunCost(cap, p, cap.detectors[d].outcome.recovery.stepIds, k + 1)
        - RerunCost(cap, p, cap.detectors[d].outcome.recovery.stepIds, k)
      requires Inside(cap, b, c, p) && Asleep(c) == Asleep(b)
      requires if raised.ControlLost? then surface.attached else Raises(cap, Around(), b, c, raised)
      requires raised.Done? ==> raised.value.code == cap.detectors[d].outcome.code
      requires !raised.Stopped? && r == Thrown(raised)
      ensures Reruns(p, d, k, a, c, r)
    {
      hide Inside, Ends, Raises, Rows, RerunCost, Quiet;
      QuietSelf(cap, Around(), a, p);
      ThrowsAfterFailure<()>(cap, Around(), a, a, b, c, p, one, raised);
    }

    lemma RerunRan(p: nat, d: nat, ids: seq<StepId>, k: nat, a: View, b: View)
      requires k < |ids| && HasStep(cap.steps, ids[k])
      requires Ran(Position(cap.steps, ids[k]), ids[k] == ids[|ids| - 1], a, b)
      ensures RanAgain(ids, k, b.log, |a.log|, |b.log|) && b.acts[Own(ids[k])] > a.acts[Own(ids[k])]
    {
      hide ActedThenSeen, Asked;
    }

    function RecordOf(p: nat, open: OpenRecovery, succeeded: bool): RecoveryRecord
      requires p < |cap.steps| && open.detector < |cap.detectors|
      requires cap.detectors[open.detector].outcome.Recoverable?
    {
      var d := cap.detectors[open.detector];
      var kind := match d.outcome.recovery
        case ClickRecovery(_) => ByClick
        case WaitRetryRecovery(_, _) => ByWaiting
        case RunStepsRecovery(_, _) => BySteps;
      Automatic(cap.steps[p].id, d.id, d.outcome.code, kind, if open.attempts >= 1 then open.attempts else 1, succeeded)
    }

    function RecordsOf(p: nat, begun: seq<OpenRecovery>, succeeded: bool): (rs: seq<RecoveryRecord>)
      requires p < |cap.steps| && OpenSound(cap, begun)
      ensures |rs| == |begun|
    {
      seq(|begun|, i requires 0 <= i < |begun| => RecordOf(p, begun[i], succeeded))
    }

    /** Every opened recovery becomes one record, in the order they were opened. */
    method Close(p: nat, begun: seq<OpenRecovery>, succeeded: bool)
      requires Valid() && p < |cap.steps| && OpenSound(cap, begun)
      modifies this`recoveries
      ensures Valid()
      ensures recoveries == old(recoveries) + RecordsOf(p, begun, succeeded)
      ensures HandBacks(recoveries) == HandBacks(old(recoveries)) && Pauses(recoveries) == Pauses(old(recoveries))
      ensures Unverified(recoveries) == Unverified(old(recoveries)) + if succeeded then 0 else |begun|
    {
      hide ValidCapability, AttemptsSound, RecordsSound, Told, OutcomeCodes, Rows, GuardedActs, OtherGuardedActs;
      hide IrreversibleRenamed, HandBacks, Pauses, Unverified, OpenSound, ClicksPaid, Because;
      ghost var all := RecordsOf(p, begun, succeeded);
      assert recoveries + all[..0] == recoveries;
      for i := 0 to |begun|
        invariant Valid()
        invariant recoveries == old(recoveries) + all[..i]
        invariant HandBacks(recoveries) == HandBacks(old(recoveries)) && Pauses(recoveries) == Pauses(old(recoveries))
        invariant Unverified(recoveries) == Unverified(old(recoveries)) + if succeeded then 0 else i
      {
        OpenAt(begun, i);
        var rec := RecordOf(p, begun[i], succeeded);
        CountsAppend(recoveries, rec);
        RecordsAppend(cap, recoveries, rec);
        ToldAppends(started, recoveries, rec, pending);
        assert all[..i + 1] == all[..i] + [rec];
        recoveries := recoveries + [rec];
      }
      assert all[..|begun|] == all;
    }

    lemma OpenAt(begun: seq<OpenRecovery>, i: nat)
      requires OpenSound(cap, begun) && i < |begun|
      ensures begun[i].detector < |cap.detectors| && cap.detectors[begun[i].detector].outcome.Recoverable?
      ensures cap.detectors[begun[i].detector].id in DetectorIds(cap.detectors)
    {
      assert DetectorIds(cap.detectors)[begun[i].detector] == cap.detectors[begun[i].detector].id;
    }

    // ---- waits -----------------------------------------------------------------------------------

    /** What asking once for what is awaited did. */
    ghost predicate LooksFor(p: nat, aw: Awaited, a: View, b: View, stale: set<TargetOf>, r: Exit<Option<Seen>>)
      requires p < |cap.steps|
    {
      && OnlyTime(a, b) && Asleep(b) == Asleep(a) && (r.Done? || (r.ControlLost? && surface.attached))
      && (r.Done? ==>
            && b.log == a.log + [Heard(QueryOf(cap.steps[p].id, aw), r.value.Some?)]
            && b.held == a.held + if r.value.Some? then multiset{QueryOf(cap.steps[p].id, aw)} else multiset{})
      && (r.Done? && r.value.Some? ==>
            (r.value.value.Found? <==> aw.TargetResolves?) && SeenTruly(aw, r.value.value, stale))
      && (r == Done(None) && aw.PageSettles? ==> b.clock > a.clock)
    }

    /** Asks once for what is awaited. */
    method Look(p: nat, aw: Awaited) returns (r: Exit<Option<Seen>>)
      requires p < |cap.steps|
      modifies surface`clock, surface`drift, surface`held, surface`log, surface`stale
      ensures LooksFor(p, aw, old(Now()), Now(), surface.stale, r)
    {
      hide LooksFor;
      match aw
      case TargetResolves(of, _) => r := LookForTarget(p, aw);
      case PageSettles => r := LookForQuiet(p, aw);
      case _ => r := LookForHolding(p, aw);
    }

    method LookForTarget(p: nat, aw: Awaited) returns (r: Exit<Option<Seen>>)
      requires p < |cap.steps| && aw.TargetResolves?
      modifies surface`clock, surface`drift, surface`held, surface`log, surface`stale
      ensures LooksFor(p, aw, old(Now()), Now(), surface.stale, r)
    {
      var found := surface.Resolve(aw.of);
      r := if found.Lost? then ControlLost
        else Done(if found.value.Some? then Some(Found(found.value.value)) else None);
    }

    method LookForQuiet(p: nat, aw: Awaited) returns (r: Exit<Option<Seen>>)
      requires p < |cap.steps| && aw.PageSettles?
      modifies surface`clock, surface`drift, surface`held, surface`log
      ensures LooksFor(p, aw, old(Now()), Now(), surface.stale, r)
    {
      var quiet := surface.Settle(AskQuiet(cap.steps[p].id));
      r := if quiet.Lost? then ControlLost else Done(if quiet.value then Some(Passed) else None);
    }

    method LookForHolding(p: nat, aw: Awaited) returns (r: Exit<Option<Seen>>)
      requires p < |cap.steps| && !aw.TargetResolves? && !aw.PageSettles?
      modifies surface`clock, surface`drift, surface`held, surface`log
      ensures LooksFor(p, aw, old(Now()), Now(), surface.stale, r)
    {
      var held := surface.Holds(QueryOf(cap.steps[p].id, aw));
      r := if held.Lost? then ControlLost else Done(if held.value then Some(Passed) else None);
    }

    /** A wait's own timeout. */
    method OnTimeout(p: nat, aw: Awaited) returns (r: Exit<RunStopped>)
      requires Valid() && p < |cap.steps| && JustGaveUp(cap, surface.log, since, p, aw)
      requires aw.TargetResolves? && aw.failureCode.Some? ==> aw.failureCode.value.OutputExtractionFailed?
      modifies this`pauses, this`hooks, this`ordinary, this`recoveries, this`interventionPath
      modifies surface`clock, surface`drift
      ensures Makes(p, old(Now()), Now(), r)
      ensures r.Done? ==> OwnTimeout(aw, r.value.code)
      ensures Kept(r.Crashed?)
    {
      hide ValidCapability, AttemptsSound, RecordsSound, Told, ClicksPaid, Because, Makes, OneElement, NotResolved;
      hide WaitTimedOut, Inside, Raises, JustGaveUp, OnlyTime;
      ghost var v0 := Now();
      var observed := Observe();
      ghost var v1 := Now();
      if observed.IsFailure() {
        r := ControlLost;
        StopMade(p, v0, v1, r);
        return;
      }
      var ambiguous: bool := *;
      var code := if !aw.TargetResolves? then CheckpointTimeout
        else if aw.failureCode.Some? then aw.failureCode.value
        else if ambiguous then TargetAmbiguous else TargetNotFound;
      BecauseGaveUp(cap, surface.log, since, p, aw, code);
      r := StepFailure(p, code, if aw.TargetResolves? then NotResolved() else WaitTimedOut(),
        if aw.TargetResolves? then OneElement() else ExpectedOf(p), observed.value);
      TimeoutMade(p, code, v0, v1, Now(), r);
    }

    lemma TimeoutMade(p: nat, code: Code, a: View, b: View, c: View, r: Exit<RunStopped>)
      requires OnlyTime(a, b) && Asleep(b) == Asleep(a) && b.log == a.log && !code.ActionFailed?
      requires Inside(cap, b, c, p) && Raises(cap, Within(code), b, c, r) && Asleep(c) == Asleep(b)
      requires c.attempts == b.attempts && c.log == b.log && !r.ControlLost?
      ensures Makes(p, a, c, r)
    {
      hide Inside, Raises, Quiet;
      QuietSelf(cap, Around(), a, p);
      Idle(cap, Around(), a, a, b, p);
      RaisesAfter(cap, Around(), a, b, c, p, r);
    }

    /** What is awaited was seen at least once more. */
    ghost predicate Asked(p: nat, aw: Awaited, was: multiset<Query>, now: multiset<Query>)
      requires p < |cap.steps|
    {
      now[QueryOf(cap.steps[p].id, aw)] > was[QueryOf(cap.steps[p].id, aw)]
    }

    lemma AskedSince(p: nat, aw: Awaited, a: multiset<Query>, b: multiset<Query>, c: multiset<Query>)
      requires p < |cap.steps| && a <= b && Asked(p, aw, b, c)
      ensures Asked(p, aw, a, c)
    {
    }

    /** What looking around did: what it asked in which order, and what it saw. */
    ghost predicate LooksAround(p: nat, aw: Awaited, windows: set<nat>, a: View, b: View, stale: set<TargetOf>,
      r: Exit<Option<TickEnd>>)
      requires p < |cap.steps|
    {
      && OnlyTime(a, b) && Asleep(b) == Asleep(a) && (r.Done? || (r.ControlLost? && surface.attached))
      && (r.Done? ==>
            && WatchEnded(p, aw, windows, a.held, b.held, stale, r.value)
            && b.log == a.log + AroundLog(cap, p, aw, windows, r.value))
      && (r == Done(None) && aw.PageSettles? ==> b.clock > a.clock)
    }

    /** The step's detectors, and only when none holds, what is awaited. None when nothing was seen. */
    method LookAround(p: nat, aw: Awaited, windows: set<nat>) returns (r: Exit<Option<TickEnd>>)
      requires Valid() && p < |cap.steps|
      modifies surface`clock, surface`drift, surface`held, surface`log, surface`stale
      ensures LooksAround(p, aw, windows, old(Now()), Now(), surface.stale, r)
      ensures Valid()
    {
      hide Eligible, AllNo, ValidCapability, AttemptsSound, RecordsSound, Told, ClicksPaid, Because, LooksAround;
      hide LooksFor, OnlyTime, Scan;
      ghost var v0 := Now();
      var matched := Matching(p, windows, None);
      ghost var v1 := Now();
      if matched != Done(None) {
        r := if matched.Done? then Done(Some(Picked(matched.value.value))) else matched.PropagateFailure();
        MatchedAround(p, aw, windows, v0, v1, surface.stale, matched, r);
        Older(v0, v1);
        return;
      }
      var value := Look(p, aw);
      r := if !value.Done? then value.PropagateFailure()
        else Done(if value.value.Some? then Some(Saw(value.value.value)) else None);
      LookedAround(p, aw, windows, v0, v1, Now(), surface.stale, value, r);
      OlderStill(p, aw, v0, v1, Now(), surface.stale, value);
    }

    lemma Older(a: View, b: View)
      requires OnlyTime(a, b)
      ensures a.log <= b.log
    {
    }

    lemma OlderStill(p: nat, aw: Awaited, a: View, b: View, c: View, stale: set<TargetOf>, e: Exit<Option<Seen>>)
      requires p < |cap.steps| && OnlyTime(a, b) && LooksFor(p, aw, b, c, stale, e)
      ensures a.log <= c.log
    {
      hide SeenTruly;
    }

    lemma MatchedAround(p: nat, aw: Awaited, windows: set<nat>, a: View, b: View, stale: set<TargetOf>,
      matched: Exit<Option<nat>>, r: Exit<Option<TickEnd>>)
      requires p < |cap.steps| && OnlyTime(a, b) && Asleep(b) == Asleep(a) && matched != Done(None)
      requires matched.Done? || (matched.ControlLost? && surface.attached)
      requires matched.Done? ==>
        && matched.value.value < |cap.detectors| && Eligible(cap, p, matched.value.value, windows, false)
        && b.log == a.log + Scan(cap, p, windows, false, matched.value)
      requires r == if matched.Done? then Done(Some(Picked(matched.value.value))) else matched.PropagateFailure()
      ensures LooksAround(p, aw, windows, a, b, stale, r)
    {
      hide Eligible, Scan, SeenTruly;
      if matched.Done? { assert matched.value == Some(r.value.value.detector); }
    }

    lemma LookedAround(p: nat, aw: Awaited, windows: set<nat>, a: View, b: View, c: View, stale: set<TargetOf>,
      value: Exit<Option<Seen>>, r: Exit<Option<TickEnd>>)
      requires p < |cap.steps| && OnlyTime(a, b) && Asleep(b) == Asleep(a)
      requires b.log == a.log + Scan(cap, p, windows, false, None) && LooksFor(p, aw, b, c, stale, value)
      requires r == if !value.Done? then value.PropagateFailure()
        else Done(if value.value.Some? then Some(Saw(value.value.value)) else None)
      ensures LooksAround(p, aw, windows, a, c, stale, r)
    {
      hide Eligible, Scan, SeenTruly;
      if value.Done? {
        var look := [Heard(QueryOf(cap.steps[p].id, aw), value.value.Some?)];
        assert c.log == a.log + (Scan(cap, p, windows, false, None) + look);
      }
    }

    /** What a look around saw: what is awaited, which then was asked for, or an eligible detector. */
    ghost predicate WatchEnded(
      p: nat, aw: Awaited, windows: set<nat>, was: multiset<Query>, now: multiset<Query>, stale: set<TargetOf>,
      end: Option<TickEnd>)
      requires p < |cap.steps|
    {
      end.Some? ==>
        && !end.value.Slept?
        && (end.value.Saw? ==>
              && (end.value.seen.Found? <==> aw.TargetResolves?) && Asked(p, aw, was, now)
              && SeenTruly(aw, end.value.seen, stale))
        && (end.value.Picked? ==>
              end.value.detector < |cap.detectors| && Eligible(cap, p, end.value.detector, windows, false))
    }

    /** What the looking part of a tick did. */
    ghost predicate Watches(p: nat, aw: Awaited, windows: set<nat>, a: View, b: View, stale: set<TargetOf>,
      r: Exit<Option<TickEnd>>)
      requires p < |cap.steps|
    {
      && Spends(cap, Around(), 0, a, b, p, r) && Asleep(b) == Asleep(a) && b.attempts == a.attempts
      && (r.Done? || r.ControlLost? || (r.Stopped? && ReportsRefusal(r.stop)))
      && (r.Done? ==>
            && WatchEnded(p, aw, windows, a.held, b.held, stale, r.value)
            && b.log == a.log + TickLog(cap, p, aw, windows, r.value))
      && (r == Done(None) && aw.PageSettles? ==> b.clock > a.clock)
    }

    /** The looking part of a tick: events, then detectors, then what is awaited. None when it saw nothing. */
    method Watch(p: nat, aw: Awaited, windows: set<nat>) returns (r: Exit<Option<TickEnd>>)
      requires Valid() && p < |cap.steps|
      modifies surface`clock, surface`drift, surface`refused, surface`held, surface`log, surface`stale
      ensures Watches(p, aw, windows, old(Now()), Now(), surface.stale, r)
      ensures Valid()
    {
      hide ValidCapability, AttemptsSound, RecordsSound, Told, ClicksPaid, Because, Watches, LooksAround, Heeds;
      ghost var v0 := Now();
      var drained := RaiseOnEvents(p);
      ghost var v1 := Now();
      if drained.IsFailure() {
        r := drained.PropagateFailure();
        RefusedWatch(p, aw, windows, v0, v1, surface.stale, drained, r);
        return;
      }
      r := LookAround(p, aw, windows);
      LookedWatch(p, aw, windows, v0, v1, Now(), surface.stale, drained, r);
    }

    lemma RefusedWatch(p: nat, aw: Awaited, windows: set<nat>, a: View, b: View, stale: set<TargetOf>, e: Exit<()>,
      r: Exit<Option<TickEnd>>)
      requires p < |cap.steps| && Heeds(p, a, b, e) && e.IsFailure() && r == e.PropagateFailure()
      ensures Watches(p, aw, windows, a, b, stale, r)
    {
      hide Spends, ReportsRefusal;
      SpendsAs(cap, Around(), 0, a, b, p, e, r);
    }

    lemma LookedWatch(p: nat, aw: Awaited, windows: set<nat>, a: View, b: View, c: View, stale: set<TargetOf>,
      e: Exit<()>, r: Exit<Option<TickEnd>>)
      requires p < |cap.steps| && Heeds(p, a, b, e) && e.Done? && LooksAround(p, aw, windows, b, c, stale, r)
      ensures Watches(p, aw, windows, a, c, stale, r)
    {
      hide Spends, ReportsRefusal, AroundLog, Asked, SeenTruly, Eligible;
      AskingSpends(cap, Around(), b, c, p, r);
      SpendsThen(cap, Around(), 0, 0, a, b, c, p, e, r);
      SpendsTime(p, a, b, e);
      if r.Done? {
        assert c.log == a.log + ([Clean()] + AroundLog(cap, p, aw, windows, r.value));
        if r.value.Some? && r.value.value.Saw? { AskedSince(p, aw, a.held, b.held, c.held); }
      }
    }

    lemma SpendsTime<T>(p: nat, a: View, b: View, e: Exit<T>)
      requires p < |cap.steps| && Spends(cap, Around(), 0, a, b, p, e)
      ensures a.clock <= b.clock && a.held <= b.held && a.log <= b.log && b.since == a.since
    {
    }

    /**
     * One tick of a wait, up to acting on a detector: look, then give up or sleep. now is when the
     * sleep began; gaveUpAt when hope ended.
     */
    method Tick(p: nat, aw: Awaited, begun: seq<OpenRecovery>, deadline: int)
      returns (r: Exit<TickEnd>, ghost now: int, ghost gaveUpAt: Option<int>)
      requires Valid() && p < |cap.steps| && OpenSound(cap, begun) && AllFired(cap, surface.log, since, Dets(begun))
      requires aw.TargetResolves? && aw.failureCode.Some? ==> aw.failureCode.value.OutputExtractionFailed?
      modifies this`pauses, this`hooks, this`ordinary, this`recoveries, this`interventionPath, surface
      ensures Ticks(p, aw, begun, deadline, old(Now()), Now(), now, gaveUpAt, r)
      ensures r.Done? && r.value.Saw? ==> SeenTruly(aw, r.value.seen, surface.stale)
      ensures Kept(r.Crashed?)
      decreases p, 1
    {
      hide ValidCapability, AttemptsSound, RecordsSound, Told, ClicksPaid, Because, Ticks, Watches, WatchEnded;
      hide SeenTruly, Lingers, OpenSound, Windowed, AllFired, JustLooked, Dets, Looked;
      ghost var v0 := Now();
      now, gaveUpAt := surface.clock, None;
      var windows := Windowed(begun);
      var watched := Watch(p, aw, windows);
      ghost var v1 := Now();
      if watched != Done(None) {
        r := if watched.Done? then Done(watched.value.value) else watched.PropagateFailure();
        WatchTicks(p, aw, begun, deadline, v0, v1, now, surface.stale, watched, r);
        return;
      }
      now := surface.clock;
      ghost var stale := surface.stale;
      WatchedInVain(p, aw, begun, v0, v1, stale);
      r, gaveUpAt := Linger(p, aw, begun, windows, deadline);
      LingerTicks(p, aw, begun, deadline, v0, v1, Now(), stale, gaveUpAt, watched, r);
      LingerSawNothing(p, aw, begun, deadline, v1, Now(), gaveUpAt, r);
    }

    /** What a tick did, and what it slept. */
    ghost predicate Ticks(p: nat, aw: Awaited, begun: seq<OpenRecovery>, deadline: int, a: View, b: View, now: int,
      gaveUpAt: Option<int>, r: Exit<TickEnd>)
      requires p < |cap.steps|
    {
      && Inside(cap, a, b, p) && Ends(cap, Around(), a, b, r) && b.attempts == a.attempts
      && Asleep(b) - Asleep(a) == (if r.Done? && r.value.Slept? && !aw.PageSettles? then r.value.ms else 0)
      && (r.Done? ==> TickEnded(p, aw, begun, deadline, a, b, now, r.value))
      && (r.Done? && r.value.Saw? ==> Asked(p, aw, a.held, b.held))
      && (r.Done? && r.value.Picked? ==>
            r.value.detector < |cap.detectors| && InScope(cap.detectors[r.value.detector], cap.steps[p].id))
      && (!r.Done? ==> Fruitless(p, aw, begun, deadline, a, b, gaveUpAt, r))
    }

    lemma WatchTicks(p: nat, aw: Awaited, begun: seq<OpenRecovery>, deadline: int, a: View, b: View, now: int,
      stale: set<TargetOf>, watched: Exit<Option<TickEnd>>, r: Exit<TickEnd>)
      requires p < |cap.steps| && Watches(p, aw, Windowed(begun), a, b, stale, watched) && watched != Done(None)
      requires r == if watched.Done? then Done(watched.value.value) else watched.PropagateFailure()
      ensures Ticks(p, aw, begun, deadline, a, b, now, None, r)
      ensures r.Done? && r.value.Saw? ==> SeenTruly(aw, r.value.seen, stale)
    {
      hide Inside, Ends, TickLog, TickEnded, Fruitless, SeenTruly, Asked, Windowed, ReportsRefusal;
      SpendsAs(cap, Around(), 0, a, b, p, watched, r);
      if r.Done? {
        LookedTick(p, aw, begun, deadline, a, b, now, r.value);
      } else {
        RefusedTick(p, aw, begun, deadline, a, b, watched);
      }
    }

    lemma WatchedInVain(p: nat, aw: Awaited, begun: seq<OpenRecovery>, a: View, b: View, stale: set<TargetOf>)
      requires p < |cap.steps| && Watches(p, aw, Windowed(begun), a, b, stale, Done(None)) && a.since <= |a.log|
      requires AllFired(cap, a.log, a.since, Dets(begun))
      ensures AllFired(cap, b.log, b.since, Dets(begun))
      ensures JustLooked(cap, b.log, b.since, p, aw, Windowed(begun))
    {
      hide Spends, JustLooked, Windowed, AllFired, Dets, LookLog;
      SpendsTime<Option<TickEnd>>(p, a, b, Done(None));
      LooksNow(cap, a.log, a.since, p, aw, Windowed(begun));
      AllFiredStill(cap, a.log, b.log, a.since, Dets(begun));
    }

    lemma LingerTicks(p: nat, aw: Awaited, begun: seq<OpenRecovery>, deadline: int, a: View, b: View, c: View,
      stale: set<TargetOf>, gaveUpAt: Option<int>, watched: Exit<Option<TickEnd>>, r: Exit<TickEnd>)
      requires p < |cap.steps| && Watches(p, aw, Windowed(begun), a, b, stale, watched) && watched == Done(None)
      requires Lingers(p, aw, begun, deadline, b, c, gaveUpAt, r)
      ensures Ticks(p, aw, begun, deadline, a, c, b.clock, gaveUpAt, r)
    {
      hide Spends, TickEnded, Lingered, Fruitless, Windowed, IsLive, Scan, LookLog, Asked, Inside, Ends, TimeIsUp;
      SpendsTime(p, a, b, watched);
      SpendsThen(cap, Around(), 0, Asleep(c) - Asleep(b), a, b, c, p, watched, r);
      SpendsMeans(p, Asleep(c) - Asleep(b), a, c, r);
      SpendsMeans(p, Asleep(c) - Asleep(b), b, c, r);
      if r.Done? {
        LingeredTick(p, aw, begun, deadline, a, b, c, r.value);
      } else {
        FruitlessTick(p, aw, begun, deadline, a, b, c, gaveUpAt, r);
      }
    }

    lemma SpendsMeans<T>(p: nat, cost: int, a: View, b: View, e: Exit<T>)
      requires Spends(cap, Around(), cost, a, b, p, e)
      ensures Inside(cap, a, b, p) && Ends(cap, Around(), a, b, e) && a.clock <= b.clock
    {
      hide Ends;
    }

    lemma LingerSawNothing(p: nat, aw: Awaited, begun: seq<OpenRecovery>, deadline: int, a: View, b: View,
      gaveUpAt: Option<int>, r: Exit<TickEnd>)
      requires p < |cap.steps| && Lingers(p, aw, begun, deadline, a, b, gaveUpAt, r)
      ensures r.Done? ==> !r.value.Saw?
    {
      hide Spends, Scan, IsLive, Windowed;
    }

    /**
     * A tick that ended the wait: something was refused, a recovery had been opened before, or hope ended
     * at the deadline, after one more look and the timeout detectors of the checkpoint.
     */
    ghost predicate Fruitless(
      p: nat, aw: Awaited, begun: seq<OpenRecovery>, deadline: int, a: View, b: View, gaveUpAt: Option<int>,
      e: Exit<TickEnd>)
      requires p < |cap.steps|
    {
      && (e.HandedBack? || (e.Stopped? && !ReportsRefusal(e.stop)) ==>
            (gaveUpAt.Some? || begun != []) && TimeIsUp(begun, deadline, b.clock))
      && (gaveUpAt.Some? ==>
            && deadline <= gaveUpAt.value && a.clock <= gaveUpAt.value <= b.clock
            && EndsSince(a.log, b.log, LastChance(cap, p, aw)))
    }

    /** No window is live any more, and without any window the deadline has come. */
    ghost predicate TimeIsUp(begun: seq<OpenRecovery>, deadline: int, now: int) {
      && (forall i :: 0 <= i < |begun| ==> !IsLive(begun[i], now))
      && (Windowed(begun) == {} ==> deadline <= now)
    }

    lemma RefusedTick(
      p: nat, aw: Awaited, begun: seq<OpenRecovery>, deadline: int, a: View, b: View, e: Exit<Option<TickEnd>>)
      requires p < |cap.steps| && e.IsFailure() && (e.Stopped? ==> ReportsRefusal(e.stop)) && !e.HandedBack?
      ensures Fruitless(p, aw, begun, deadline, a, b, None, e.PropagateFailure())
    {
      hide ReportsRefusal;
    }

    lemma FruitlessTick(
      p: nat, aw: Awaited, begun: seq<OpenRecovery>, deadline: int, a: View, b: View, c: View, gaveUpAt: Option<int>,
      e: Exit<TickEnd>)
      requires p < |cap.steps| && a.clock <= b.clock
      requires b.log == a.log + Looked(cap, p, aw, Windowed(begun), false)
      requires b.clock <= c.clock
      requires e.HandedBack? || e.Stopped? ==> (gaveUpAt.Some? || begun != []) && TimeIsUp(begun, deadline, b.clock)
      requires gaveUpAt.Some? ==>
        && Windowed(begun) == {} && deadline <= gaveUpAt.value && gaveUpAt.value == b.clock <= c.clock
        && c.log == b.log + if aw.CheckpointHolds? then Scan(cap, p, {}, true, None) else []
      ensures Fruitless(p, aw, begun, deadline, a, c, gaveUpAt, e)
    {
      hide ReportsRefusal, LookLog, Scan, Windowed;
      if gaveUpAt.Some? {
        EndsSinceTail(a.log, LastChance(cap, p, aw));
        assert c.log == a.log + LastChance(cap, p, aw);
      }
    }

    /**
     * What a wait that saw nothing did: it slept in good time, or gave up, and then no window was live and, if
     * none was open, the deadline had come.
     */
    ghost predicate Lingers(p: nat, aw: Awaited, begun: seq<OpenRecovery>, deadline: int, a: View, b: View,
      gaveUpAt: Option<int>, r: Exit<TickEnd>)
      requires p < |cap.steps|
    {
      && Spends(cap, Around(), Asleep(b) - Asleep(a), a, b, p, r) && b.attempts == a.attempts
      && Asleep(b) - Asleep(a) == (if r.Done? && r.value.Slept? && !aw.PageSettles? then r.value.ms else 0)
      && (r.Done? ==> Lingered(p, aw, begun, deadline, a, b, r.value))
      && (r.Done? && r.value.Picked? ==>
            r.value.detector < |cap.detectors| && InScope(cap.detectors[r.value.detector], cap.steps[p].id))
      && (!r.Done? || r.value.Picked? ==> TimeIsUp(begun, deadline, a.clock))
      && (r.HandedBack? || r.Stopped? ==> gaveUpAt.Some? || begun != [])
      && (gaveUpAt.Some? ==>
            && Windowed(begun) == {} && gaveUpAt.value == a.clock >= deadline
            && b.log == a.log + if aw.CheckpointHolds? then Scan(cap, p, {}, true, None) else [])
    }

    /** Nothing was seen: give up, or sleep for as long as no deadline and no live window's end is missed. */
    method Linger(p: nat, aw: Awaited, begun: seq<OpenRecovery>, windows: set<nat>, deadline: int)
      returns (r: Exit<TickEnd>, ghost gaveUpAt: Option<int>)
      requires Valid() && p < |cap.steps| && OpenSound(cap, begun) && windows == Windowed(begun)
      requires AllFired(cap, surface.log, since, Dets(begun)) && JustLooked(cap, surface.log, since, p, aw, windows)
      requires aw.TargetResolves? && aw.failureCode.Some? ==> aw.failureCode.value.OutputExtractionFailed?
      modifies this`pauses, this`hooks, this`ordinary, this`recoveries, this`interventionPath, surface
      ensures Lingers(p, aw, begun, deadline, old(Now()), Now(), gaveUpAt, r)
      ensures Kept(r.Crashed?)
    {
      hide ValidCapability, AttemptsSound, RecordsSound, Told, ClicksPaid, Because, Lingers, Despairs, OpenSound;
      hide Windowed, AllFired, JustLooked, LivePause, IsLive, Dets;
      ghost var v0 := Now();
      var now := surface.clock;
      var live := LivePause(cap, begun, now);
      if live.None? && (windows != {} || now >= deadline) {
        if windows != {} { WindowsAreOpen(begun); }
        r, gaveUpAt := GiveUp(p, aw, begun, windows != {});
        DespairLingers(p, aw, begun, deadline, v0, Now(), gaveUpAt, r);
      } else {
        if live.Some? { PauseIsShortest(cap, begun, now, live.value); }
        var pause := if live.Some? then live.value else if POLL_MS <= deadline - now then POLL_MS else deadline - now;
        r := Rest(p, aw, pause);
        gaveUpAt := None;
        RestLingers(p, aw, begun, deadline, v0, Now(), pause, r);
      }
    }

    lemma DespairLingers(p: nat, aw: Awaited, begun: seq<OpenRecovery>, deadline: int, a: View, b: View,
      gaveUpAt: Option<int>, r: Exit<TickEnd>)
      requires p < |cap.steps| && Despairs(p, aw, Windowed(begun) != {}, a, b, gaveUpAt, r)
      requires forall i :: 0 <= i < |begun| ==> !IsLive(begun[i], a.clock)
      requires (Windowed(begun) == {} ==> a.clock >= deadline) && (Windowed(begun) != {} ==> begun != [])
      ensures Lingers(p, aw, begun, deadline, a, b, gaveUpAt, r)
    {
      hide Spends, Scan, IsLive, Windowed, Lingered;
      if r.Done? { PickedLate(p, aw, begun, deadline, a, b, r.value); }
    }

    lemma RestLingers(p: nat, aw: Awaited, begun: seq<OpenRecovery>, deadline: int, a: View, b: View, ms: nat,
      r: Exit<TickEnd>)
      requires p < |cap.steps| && ms > 0 && r == Done(Slept(ms))
      requires OnlyTime(a, b) && Asleep(b) - Asleep(a) == (if aw.PageSettles? then 0 else ms)
      requires if aw.PageSettles? then b == a else b.clock >= a.clock + ms
      requires forall i :: 0 <= i < |begun| && IsLive(begun[i], a.clock) ==> a.clock + ms <= begun[i].windowEnds.value
      requires (forall i :: 0 <= i < |begun| ==> !IsLive(begun[i], a.clock)) ==> a.clock + ms <= deadline
      ensures Lingers(p, aw, begun, deadline, a, b, None, r)
    {
      hide Scan, IsLive, Windowed, Lingered, Inside, Ends, Quiet;
      SleptLate(p, aw, begun, deadline, a, b, ms);
      QuietSelf(cap, Around(), a, p);
      Idle(cap, Around(), a, a, b, p);
      Finishes(cap, Around(), a, b, p, r.value);
    }

    /** Sleeps between two looks, unless the look itself takes its time. */
    method Rest(p: nat, aw: Awaited, pause: nat) returns (r: Exit<TickEnd>)
      requires Valid() && p < |cap.steps|
      modifies surface`clock, surface`drift
      ensures r == Done(Slept(pause)) && OnlyTime(old(Now()), Now())
      ensures Asleep(Now()) - Asleep(old(Now())) == if aw.PageSettles? then 0 else pause
      ensures if aw.PageSettles? then Now() == old(Now()) else surface.clock >= old(surface.clock) + pause
      ensures Valid()
    {
      hide ValidCapability, AttemptsSound, RecordsSound, Told, ClicksPaid, Because;
      if !aw.PageSettles? { surface.Sleep(pause); }
      r := Done(Slept(pause));
    }

    /** A sleep of ms from now on ends before every live window does, or before the deadline if none is live. */
    ghost predicate InGoodTime(begun: seq<OpenRecovery>, deadline: int, now: int, ms: nat) {
      && (forall i :: 0 <= i < |begun| && IsLive(begun[i], now) ==> now + ms <= begun[i].windowEnds.value)
      && ((forall i :: 0 <= i < |begun| ==> !IsLive(begun[i], now)) ==> now + ms <= deadline)
    }

    lemma InHorizon(begun: seq<OpenRecovery>, deadline: int, now: int, ms: nat, horizon: int)
      requires InGoodTime(begun, deadline, now, ms) && WindowsWithin(begun, horizon) && deadline <= horizon
      ensures now + ms <= horizon
    {
      if !(forall i :: 0 <= i < |begun| ==> !IsLive(begun[i], now)) {
        var i :| 0 <= i < |begun| && IsLive(begun[i], now);
        assert begun[i].windowEnds.value <= horizon;
      }
    }

    /** The last thing that happened was that detector d was answered yes. */
    ghost predicate PickedLast(d: nat, was: seq<Happening>, now: seq<Happening>) {
      && d < |cap.detectors| && was < now
      && now[|now| - 1] == Heard(AskDetector(cap.detectors[d].id), true)
    }

    /** A timeout detector was picked at the deadline, or the wait slept in good time. */
    ghost predicate Lingered(p: nat, aw: Awaited, begun: seq<OpenRecovery>, deadline: int,
      a: View, b: View, end: TickEnd)
      requires p < |cap.steps|
    {
      && !end.Saw?
      && (end.Picked? ==> PickedLast(end.detector, a.log, b.log))
      && (end.Slept? ==>
            && end.ms > 0 && InGoodTime(begun, deadline, a.clock, end.ms)
            && (if aw.PageSettles? then b == a else b.clock >= a.clock + end.ms))
    }

    lemma PickedLate(p: nat, aw: Awaited, begun: seq<OpenRecovery>, deadline: int, a: View, b: View, end: TickEnd)
      requires p < |cap.steps| && end.Picked? && end.detector < |cap.detectors|
      requires b.log == a.log + Scan(cap, p, {}, true, Some(end.detector))
      ensures Lingered(p, aw, begun, deadline, a, b, end)
    {
    }

    lemma SleptLate(p: nat, aw: Awaited, begun: seq<OpenRecovery>, deadline: int, a: View, b: View, ms: nat)
      requires p < |cap.steps| && ms > 0
      requires if aw.PageSettles? then b == a else b.clock >= a.clock + ms
      requires forall i :: 0 <= i < |begun| && IsLive(begun[i], a.clock) ==> a.clock + ms <= begun[i].windowEnds.value
      requires (forall i :: 0 <= i < |begun| ==> !IsLive(begun[i], a.clock)) ==> a.clock + ms <= deadline
      ensures Lingered(p, aw, begun, deadline, a, b, Slept(ms))
    {
    }

    lemma LookedTick(p: nat, aw: Awaited, begun: seq<OpenRecovery>, deadline: int,
      a: View, b: View, now: int, end: TickEnd)
      requires p < |cap.steps| && !end.Slept?
      requires end.Saw? ==> (end.seen.Found? <==> aw.TargetResolves?)
      requires end.Picked? ==> end.detector < |cap.detectors|
      requires b.log == a.log + TickLog(cap, p, aw, Windowed(begun), Some(end))
      ensures TickEnded(p, aw, begun, deadline, a, b, now, end)
    {
      hide LookLog, AllNo, Windowed;
      if end.Saw? {
        EndsSinceTail(a.log, LastLook(cap, p, aw, Windowed(begun)));
      }
    }

    /** Looking took its own time; what came after is measured from when the look ended. */
    lemma LingeredTick(
      p: nat, aw: Awaited, begun: seq<OpenRecovery>, deadline: int, a: View, b: View, c: View, end: TickEnd)
      requires p < |cap.steps| && Lingered(p, aw, begun, deadline, b, c, end)
      requires a.clock <= b.clock && a.log <= b.log && (aw.PageSettles? ==> b.clock > a.clock)
      ensures TickEnded(p, aw, begun, deadline, a, c, b.clock, end) && !end.Saw?
    {
      hide InGoodTime;
    }

    /** How a tick that did not end the wait ended: what it saw, picked or slept, and when the sleep began. */
    ghost predicate TickEnded(
      p: nat, aw: Awaited, begun: seq<OpenRecovery>, deadline: int, a: View, b: View, now: int, end: TickEnd)
      requires p < |cap.steps|
    {
      && (end.Saw? ==>
            (end.seen.Found? <==> aw.TargetResolves?) && EndsSince(a.log, b.log, LastLook(cap, p, aw, Windowed(begun))))
      && (end.Picked? ==> PickedLast(end.detector, a.log, b.log))
      && (end.Slept? ==>
            && end.ms > 0 && a.clock <= now && InGoodTime(begun, deadline, now, end.ms)
            && b.clock >= now + (if aw.PageSettles? then 0 else end.ms) && b.clock > a.clock)
    }

    /**
     * The end of hope in a wait: a timeout detector was picked after all; or the wait failed, and unless its
     * windows had closed, at its deadline, after the timeout detectors of its checkpoint.
     */
    ghost predicate Despairs(p: nat, aw: Awaited, windowsClosed: bool, a: View, b: View, gaveUpAt: Option<int>,
      r: Exit<TickEnd>)
      requires p < |cap.steps|
    {
      && Spends(cap, Around(), 0, a, b, p, r) && Asleep(b) == Asleep(a) && b.attempts == a.attempts
      && (r.Done? ==>
            && r.value.Picked? && !windowsClosed && aw.CheckpointHolds?
            && r.value.detector < |cap.detectors| && Eligible(cap, p, r.value.detector, {}, true)
            && b.log == a.log + Scan(cap, p, {}, true, Some(r.value.detector)))
      && (r.HandedBack? || r.Stopped? ==> windowsClosed || gaveUpAt.Some?)
      && (gaveUpAt.Some? ==>
            && !windowsClosed && gaveUpAt.value == a.clock
            && b.log == a.log + if aw.CheckpointHolds? then Scan(cap, p, {}, true, None) else [])
    }

    /**
     * The wait cannot go on as it is: its windows have all closed, or its deadline has come. At the
     * deadline a checkpoint's own timeout detectors get their one chance before the wait fails.
     */
    method GiveUp(p: nat, aw: Awaited, begun: seq<OpenRecovery>, windowsClosed: bool)
      returns (r: Exit<TickEnd>, ghost gaveUpAt: Option<int>)
      requires Valid() && p < |cap.steps| && OpenSound(cap, begun) && AllFired(cap, surface.log, since, Dets(begun))
      requires if windowsClosed then begun != [] else JustLooked(cap, surface.log, since, p, aw, {})
      requires aw.TargetResolves? && aw.failureCode.Some? ==> aw.failureCode.value.OutputExtractionFailed?
      modifies this`pauses, this`hooks, this`ordinary, this`recoveries, this`interventionPath, surface
      ensures Despairs(p, aw, windowsClosed, old(Now()), Now(), gaveUpAt, r)
      ensures Kept(r.Crashed?)
      decreases p, 0
    {
      hide ValidCapability, AttemptsSound, RecordsSound, Told, ClicksPaid, Because, Despairs, Makes, OpenSound;
      hide AllFired, JustLooked, JustGaveUp, OnlyTime, Scan, Dets, Eligible;
      ghost var v0 := Now();
      var fired := LateDetectors(p, aw, windowsClosed);
      ghost var v1 := Now();
      if fired != Done(None) {
        r := if fired.Done? then Done(Picked(fired.value.value)) else fired.PropagateFailure();
        gaveUpAt := None;
        LateEnds(p, aw, windowsClosed, v0, v1, fired, r);
        return;
      }
      gaveUpAt := if windowsClosed then None else Some(v0.clock);
      StillFired(p, v0, v1, begun);
      if !windowsClosed { GivesUpNow(cap, v0.log, v1.log, since, p, aw); }
      var raised := HopeEnds(p, aw, begun);
      r := if raised.Done? then Stopped(raised.value) else raised.PropagateFailure();
      HopeEnded(p, aw, windowsClosed, v0, v1, Now(), fired, gaveUpAt, raised, r);
    }

    lemma StillFired(p: nat, a: View, b: View, begun: seq<OpenRecovery>)
      requires OnlyTime(a, b) && AllFired(cap, a.log, a.since, Dets(begun))
      ensures AllFired(cap, b.log, b.since, Dets(begun))
    {
      AllFiredStill(cap, a.log, b.log, a.since, Dets(begun));
    }

    /** At its deadline a wait for a checkpoint asks the checkpoint's own timeout detectors. */
    method LateDetectors(p: nat, aw: Awaited, windowsClosed: bool) returns (r: Exit<Option<nat>>)
      requires Valid() && p < |cap.steps|
      modifies surface`clock, surface`drift, surface`held, surface`log
      ensures OnlyTime(old(Now()), Now()) && Asleep(Now()) == Asleep(old(Now()))
      ensures r.Done? || (r.ControlLost? && surface.attached)
      ensures r.Done? && r.value.Some? ==>
        && !windowsClosed && aw.CheckpointHolds? && r.value.value < |cap.detectors|
        && Eligible(cap, p, r.value.value, {}, true)
      ensures r.Done? ==>
        surface.log == old(surface.log) +
          if !windowsClosed && aw.CheckpointHolds? then Scan(cap, p, {}, true, r.value) else []
      ensures Valid()
    {
      hide ValidCapability, AttemptsSound, RecordsSound, Told, ClicksPaid, Because, Scan, Eligible;
      r := Done(None);
      if !windowsClosed && aw.CheckpointHolds? {
        r := Matching(p, {}, Some(aw.checkpoint));
      }
    }

    lemma LateEnds(p: nat, aw: Awaited, windowsClosed: bool, a: View, b: View, fired: Exit<Option<nat>>,
      r: Exit<TickEnd>)
      requires p < |cap.steps| && OnlyTime(a, b) && Asleep(b) == Asleep(a) && fired != Done(None)
      requires fired.Done? || (fired.ControlLost? && surface.attached)
      requires fired.Done? ==>
        && !windowsClosed && aw.CheckpointHolds? && fired.value.value < |cap.detectors|
        && Eligible(cap, p, fired.value.value, {}, true)
        && b.log == a.log + Scan(cap, p, {}, true, fired.value)
      requires r == if fired.Done? then Done(Picked(fired.value.value)) else fired.PropagateFailure()
      ensures Despairs(p, aw, windowsClosed, a, b, None, r)
    {
      hide Spends, Scan, Eligible;
      if r.Done? { assert fired.value == Some(r.value.detector); }
      AskingSpends(cap, Around(), a, b, p, r);
    }

    lemma HopeEnded(p: nat, aw: Awaited, windowsClosed: bool, a: View, b: View, c: View, fired: Exit<Option<nat>>,
      gaveUpAt: Option<int>, raised: Exit<RunStopped>, r: Exit<TickEnd>)
      requires p < |cap.steps| && OnlyTime(a, b) && Asleep(b) == Asleep(a) && fired == Done(None)
      requires Makes(p, b, c, raised) && gaveUpAt == if windowsClosed then None else Some(a.clock)
      requires b.log == a.log + if !windowsClosed && aw.CheckpointHolds? then Scan(cap, p, {}, true, None) else []
      requires r == if raised.Done? then Stopped(raised.value) else raised.PropagateFailure()
      ensures Despairs(p, aw, windowsClosed, a, c, gaveUpAt, r)
    {
      hide Spends, Scan, Inside, Raises;
      AskingSpends(cap, Around(), a, b, p, fired);
      MadeThrown(p, b, c, raised);
      RaisingSpends<TickEnd>(cap, Around(), b, c, p, raised);
      SpendsThen(cap, Around(), 0, 0, a, b, c, p, fired, r);
    }

    lemma MadeThrown(p: nat, a: View, b: View, raised: Exit<RunStopped>)
      requires Makes(p, a, b, raised)
      ensures !raised.Stopped?
    {
      hide Inside, Ends;
    }

    /** The failure of a wait: of what it opened, if anything, else its own timeout. */
    method HopeEnds(p: nat, aw: Awaited, begun: seq<OpenRecovery>) returns (r: Exit<RunStopped>)
      requires Valid() && p < |cap.steps| && OpenSound(cap, begun) && AllFired(cap, surface.log, since, Dets(begun))
      requires begun == [] ==> JustGaveUp(cap, surface.log, since, p, aw)
      requires aw.TargetResolves? && aw.failureCode.Some? ==> aw.failureCode.value.OutputExtractionFailed?
      modifies this`pauses, this`hooks, this`ordinary, this`recoveries, this`interventionPath
      modifies surface`clock, surface`drift
      ensures Makes(p, old(Now()), Now(), r)
      ensures r.Done? && begun != [] ==>
        exists i :: 0 <= i < |begun| && OwnsFailure(begun, i)
          && r.value.code == cap.detectors[begun[i].detector].outcome.code
      ensures r.Done? && begun == [] ==> OwnTimeout(aw, r.value.code)
      ensures Kept(r.Crashed?)
    {
      hide Makes, ValidCapability, AttemptsSound, RecordsSound, Told, OutcomeCodes, Rows, GuardedActs;
      hide OtherGuardedActs, IrreversibleRenamed, GoodHandback, HandBacks, Pauses, Unverified, Inside, Ends, Raises;
      hide Quiet, StopFits, OwnsFailure, ClicksPaid, Because;
      if begun != [] {
        ghost var owner: nat;
        r, owner := Unverifiable(p, begun);
      } else {
        r := OnTimeout(p, aw);
      }
    }

    /**
     * The loop of a wait. Each tick drains events, lets the first matching detector act, then looks
     * for what is awaited. A click or a re-run restarts the wait; an open window only extends it.
     */
    method PollLoop(p: nat, aw: Awaited, timeoutMs: nat) returns (r: Exit<Seen>, begun: seq<OpenRecovery>)
      requires Valid() && p < |cap.steps| && Waiting(p)
      requires aw.TargetResolves? && aw.failureCode.Some? ==> aw.failureCode.value.OutputExtractionFailed?
      modifies this, surface, gated
      ensures Kept(r.Crashed?)
      ensures OpenSound(cap, begun) && Opens(cap, p, old(attempts), attempts, [], begun)
      ensures Inside(cap, old(Now()), Now(), p) && Ends(cap, Around(), old(Now()), Now(), r)
      ensures r.Done? ==> (r.value.Found? <==> aw.TargetResolves?) && Asked(p, aw, old(surface.held), surface.held)
      ensures r.Done? ==> SeenTruly(aw, r.value, surface.stale)
      ensures r.Done? ==> EndsSince(old(surface.log), surface.log, LastLook(cap, p, aw, Windowed(begun)))
      ensures SleptWithin(p, timeoutMs, !aw.PageSettles?, old(Now()), Now())
      ensures EndsInTime(p, aw, timeoutMs, old(Now()), Now(), r)
      ensures FullTime(p, timeoutMs, old(Now()), Now(), begun, r)
      decreases p, 6
    {
      hide ValidCapability, AttemptsSound, RecordsSound, Told, OutcomeCodes, Rows, GuardedActs, OtherGuardedActs;
      hide IrreversibleRenamed, GoodHandback, HandBacks, Pauses, Unverified, ReportsRefusal, Windowed, LastLook;
      hide OpenSound, OpenIndex, Inside, Ends, Raises, Quiet, Left, StopFits, HorizonAfter, DeadlineAfter, KeysOf;
      hide Opens, Handled, Asked, SeenTruly, OneMore, Dets, TickEnded, Fruitless, SleptWithin, EndsInTime, EndsSince;
      hide InWait, ClicksPaid, Because, FullTime;
      ghost var v0, paced := Now(), !aw.PageSettles?;
      begun := [];
      var deadline := surface.clock + timeoutMs;
      ghost var horizon: int := deadline;
      WaitStarts(p, timeoutMs, paced, v0);
      while true
        invariant Valid() && OpenSound(cap, begun) && Waiting(p)
        invariant InWait(p, timeoutMs, paced, v0, Now(), begun, deadline, horizon)
        decreases RemainingAt(cap, attempts, p), Left(horizon, surface.clock)
      {
        RemainingNonNegative(cap, attempts, started, p, |cap.detectors|);
        ghost var v1 := Now();
        WaitFired(p, timeoutMs, paced, v0, v1, begun, deadline, horizon);
        var tick, now, gaveUpAt := Tick(p, aw, begun, deadline);
        ghost var v2 := Now();
        if tick.IsFailure() {
          WaitFails(p, aw, timeoutMs, v0, v1, v2, begun, deadline, horizon, tick, gaveUpAt);
          return tick.PropagateFailure(), begun;
        }
        match tick.value
        case Saw(seen) =>
          WaitSees(p, aw, timeoutMs, v0, v1, v2, begun, deadline, horizon, now, tick);
          return Done(seen), begun;
        case Slept(ms) =>
          WaitSleeps(p, aw, timeoutMs, v0, v1, v2, begun, deadline, horizon, now, tick);
        case Picked(d) =>
          WaitPicks(p, aw, timeoutMs, v0, v1, v2, begun, deadline, horizon, now, tick);
          ghost var before := begun;
          var handled: Exit<bool>;
          handled, begun := Handle(p, d, begun);
          WaitHandles(p, d, aw, timeoutMs, v0, v2, Now(), before, begun, deadline, horizon, handled);
          if handled.IsFailure() { return handled.PropagateFailure(), begun; }
          horizon := HorizonAfter(horizon, handled.value, BudgetOf(d), surface.clock, timeoutMs);
          deadline := DeadlineAfter(deadline, handled.value, surface.clock, timeoutMs);
      }
    }

    ghost function ChargesOf(p: nat, timeoutMs: nat, paced: bool, a: View, b: View): int
      requires p < |cap.steps|
    {
      Charges(cap, p, timeoutMs, paced, a.attempts, b.attempts, |cap.detectors|)
    }

    /** A wait slept no more than its timeout and what the recoveries its step started meanwhile add to it. */
    ghost predicate SleptWithin(p: nat, timeoutMs: nat, paced: bool, a: View, b: View)
      requires p < |cap.steps|
    {
      Asleep(b) - Asleep(a) <= (if paced then timeoutMs else 0) + ChargesOf(p, timeoutMs, paced, a, b)
    }

    /**
     * A wait that failed although nothing was refused and no detector held has timed out: it had its whole
     * time, to the millisecond if only its sleeps took time, and looked around once more at the end.
     */
    ghost predicate EndsInTime<T>(p: nat, aw: Awaited, timeoutMs: nat, a: View, b: View, e: Exit<T>)
      requires p < |cap.steps|
    {
      (e.HandedBack? || (e.Stopped? && !ReportsRefusal(e.stop))) && NoneHeld(b.log, |a.log|) ==>
        && b.clock >= a.clock + timeoutMs
        && (!aw.PageSettles? && b.drift == a.drift ==> b.clock == a.clock + timeoutMs)
        && EndsSince(a.log, b.log, LastChance(cap, p, aw))
    }

    /**
     * A wait that failed, and not because something was refused, had its time: every window it opened ran for
     * its whole budget, and without any it had its whole timeout since it began and since it last started over.
     * Otherwise a detector that held broke it off.
     */
    ghost predicate FullTime<T>(p: nat, timeoutMs: nat, a: View, b: View, begun: seq<OpenRecovery>, e: Exit<T>)
      requires p < |cap.steps|
    {
      e.HandedBack? || (e.Stopped? && !ReportsRefusal(e.stop)) ==>
        HadItsTime(p, timeoutMs, a, b, begun) || exists d :: BrokenOff(p, d, a, b)
    }

    ghost predicate HadItsTime(p: nat, timeoutMs: nat, a: View, b: View, begun: seq<OpenRecovery>)
      requires p < |cap.steps|
    {
      && WindowsWhole(begun, a.clock) && (forall i :: 0 <= i < |begun| ==> !IsLive(begun[i], b.clock))
      && (Windowed(begun) == {} ==>
            && a.clock + timeoutMs <= b.clock
            && (SameRestarts(p, a, b) || b.restarts.at + timeoutMs <= b.clock))
    }

    /**
     * Detector d was answered yes in a wait of step p, and that was the end of it: it is not recoverable; or it
     * was the last thing that happened and no attempt was left; or its recovery acted and came to nothing.
     */
    ghost predicate BrokenOff(p: nat, d: nat, a: View, b: View)
      requires p < |cap.steps|
    {
      && d < |cap.detectors| && Fired(cap, b.log, |a.log|, d)
      && (|| !cap.detectors[d].outcome.Recoverable?
          || (PickedLast(d, a.log, b.log) && Used(b.attempts, KeyOf(cap, p, d)) >= Limit(cap.detectors[d]))
          || (ActsToRecover(cap.detectors[d]) && !RestartsPaid(p, d, a, b)))
    }

    /** Every attempt of detector d in between restarted the wait of step p. */
    ghost predicate RestartsPaid(p: nat, d: nat, a: View, b: View)
      requires p < |cap.steps| && d < |cap.detectors|
    {
      var k := KeyOf(cap, p, d);
      b.restarts.of[k] + Used(a.attempts, k) == a.restarts.of[k] + Used(b.attempts, k)
    }

    /** The time of a wait so far: it was renewed whenever the wait started over, and no window is cut short. */
    ghost predicate Timed(p: nat, timeoutMs: nat, a: View, b: View, begun: seq<OpenRecovery>, deadline: int)
      requires p < |cap.steps|
    {
      && (SameRestarts(p, a, b) || b.restarts.at + timeoutMs <= deadline)
      && (forall d :: 0 <= d < |cap.detectors| && ActsToRecover(cap.detectors[d]) ==> RestartsPaid(p, d, a, b))
      && WindowsWhole(begun, a.clock)
    }

    lemma TimedStill(p: nat, timeoutMs: nat, a: View, b: View, c: View, begun: seq<OpenRecovery>, deadline: int)
      requires p < |cap.steps| && Timed(p, timeoutMs, a, b, begun, deadline)
      requires c.restarts == b.restarts && c.attempts == b.attempts
      ensures Timed(p, timeoutMs, a, c, begun, deadline)
    {
      hide WindowsWhole;
    }

    lemma TimedOut(p: nat, timeoutMs: nat, a: View, b: View, begun: seq<OpenRecovery>, deadline: int)
      requires p < |cap.steps| && Timed(p, timeoutMs, a, b, begun, deadline)
      requires a.clock + timeoutMs <= deadline && TimeIsUp(begun, deadline, b.clock)
      ensures HadItsTime(p, timeoutMs, a, b, begun)
    {
      hide WindowsWhole, SameRestarts, RestartsPaid, IsLive, Windowed;
    }

    /** A detector that was handled keeps the account of a wait's time. */
    lemma TimedOn(p: nat, d: nat, timeoutMs: nat, a: View, b: View, c: View, before: seq<OpenRecovery>,
      begun: seq<OpenRecovery>, deadline: int, isWindow: bool)
      requires p < |cap.steps| && d < |cap.detectors| && Timed(p, timeoutMs, a, b, before, deadline)
      requires a.clock <= c.clock && OneMore(cap, p, d, b.attempts, c.attempts)
      requires if isWindow then c.restarts == b.restarts && !ActsToRecover(cap.detectors[d])
               else RestartedNow(p, d, b, c)
      requires WindowsWhole(before, a.clock) ==> WindowsWhole(begun, a.clock)
      ensures Timed(p, timeoutMs, a, c, begun, DeadlineAfter(deadline, isWindow, c.clock, timeoutMs))
    {
      hide WindowsWhole;
    }

    /** A detector that could not be recovered from breaks the wait off. */
    lemma BreaksOff(p: nat, d: nat, timeoutMs: nat, a: View, b: View, c: View, begun: seq<OpenRecovery>, deadline: int)
      requires p < |cap.steps| && d < |cap.detectors| && Timed(p, timeoutMs, a, b, begun, deadline)
      requires PickedLast(d, a.log, b.log) && b.log <= c.log && SameRestarts(p, b, c) && Hopeless(p, d, b, c)
      ensures BrokenOff(p, d, a, c)
    {
      hide WindowsWhole, Limit;
      FiredNow(cap, b.log, |a.log|, d);
      FiredStill(cap, b.log, c.log, |a.log|, d);
    }

    /** A wait in the middle of its loop: what it did so far, what it opened, and the account of its time. */
    ghost predicate InWait(
      p: nat, timeoutMs: nat, paced: bool, a: View, b: View, begun: seq<OpenRecovery>, deadline: int, horizon: int)
      requires p < |cap.steps|
    {
      && Quiet(cap, Around(), a, b, p)
      && Opens(cap, p, a.attempts, b.attempts, [], begun)
      && Pace(Asleep(b) - Asleep(a), ChargesOf(p, timeoutMs, paced, a, b), begun == [], timeoutMs, a.clock, b.clock,
              deadline, horizon, paced)
      && WindowsWithin(begun, horizon)
      && (NoneHeld(b.log, |a.log|) ==> begun == [])
      && b.since == a.since <= |a.log| && AllFired(cap, b.log, b.since, Dets(begun))
      && Timed(p, timeoutMs, a, b, begun, deadline)
    }

    lemma WaitFired(p: nat, timeoutMs: nat, paced: bool, a: View, b: View,
      begun: seq<OpenRecovery>, deadline: int, horizon: int)
      requires p < |cap.steps| && InWait(p, timeoutMs, paced, a, b, begun, deadline, horizon)
      ensures AllFired(cap, b.log, b.since, Dets(begun))
    {
      hide Quiet, Opens, Pace, WindowsWithin, NoneHeld, Dets, AllFired, Timed;
    }

    lemma WaitStarts(p: nat, timeoutMs: nat, paced: bool, a: View)
      requires p < |cap.steps| && a.since <= |a.log|
      ensures InWait(p, timeoutMs, paced, a, a, [], a.clock + timeoutMs, a.clock + timeoutMs)
      ensures OpenSound(cap, [])
    {
      hide Quiet, Opens, Pace, WindowsWithin;
      NothingOpen(a.clock + timeoutMs);
      QuietSelf(cap, Around(), a, p);
      PaceStarts(timeoutMs, a.clock, paced);
      OpensMore(cap, p, a.attempts, [], []);
      NoCharges(cap, p, timeoutMs, paced, a.attempts, |cap.detectors|);
    }

    /** Up to now the wait kept to its time. */
    lemma PaceBounds(p: nat, timeoutMs: nat, paced: bool, a: View, b: View, c: View,
      begun: seq<OpenRecovery>, deadline: int, horizon: int)
      requires p < |cap.steps| && InWait(p, timeoutMs, paced, a, b, begun, deadline, horizon)
      requires Asleep(c) == Asleep(b) && c.attempts == b.attempts
      ensures SleptWithin(p, timeoutMs, paced, a, c)
    {
      hide Quiet, Opens, WindowsWithin, NoneHeld;
    }

    lemma WaitFails(
      p: nat, aw: Awaited, timeoutMs: nat, a: View, b: View, c: View, begun: seq<OpenRecovery>,
      deadline: int, horizon: int, e: Exit<TickEnd>, gaveUpAt: Option<int>)
      requires p < |cap.steps| && InWait(p, timeoutMs, !aw.PageSettles?, a, b, begun, deadline, horizon)
      requires Inside(cap, b, c, p) && Ends(cap, Around(), b, c, e) && e.IsFailure()
      requires c.attempts == b.attempts && Asleep(c) == Asleep(b)
      requires Fruitless(p, aw, begun, deadline, b, c, gaveUpAt, e)
      ensures var after := e.PropagateFailure<Seen>();
        && Inside(cap, a, c, p) && Ends(cap, Around(), a, c, after)
        && Opens(cap, p, a.attempts, c.attempts, [], begun)
        && SleptWithin(p, timeoutMs, !aw.PageSettles?, a, c) && EndsInTime(p, aw, timeoutMs, a, c, after)
        && FullTime(p, timeoutMs, a, c, begun, after)
    {
      hide Quiet, Opens, WindowsWithin, Inside, Ends, SleptWithin, EndsSince, LastChance, ReportsRefusal, NoneHeld;
      hide Timed, TimeIsUp, HadItsTime, BrokenOff;
      NoneRestarted(p, b, c);
      TimedStill(p, timeoutMs, a, b, c, begun, deadline);
      if TimeIsUp(begun, deadline, c.clock) { TimedOut(p, timeoutMs, a, c, begun, deadline); }
      Fails<TickEnd, Seen>(cap, Around(), a, b, c, p, e);
      PaceBounds(p, timeoutMs, !aw.PageSettles?, a, b, c, begun, deadline, horizon);
      InsideMonotone(cap, b, c, p);
      QuietMonotone(cap, Around(), a, b, p);
      if NoneHeld(c.log, |a.log|) { NoneHeldBefore(|a.log|, b.log, c.log); }
      if gaveUpAt.Some? { EndsSinceBefore(a.log, b.log, c.log, LastChance(cap, p, aw)); }
    }

    lemma WaitSees(
      p: nat, aw: Awaited, timeoutMs: nat, a: View, b: View, c: View, begun: seq<OpenRecovery>,
      deadline: int, horizon: int, now: int, e: Exit<TickEnd>)
      requires p < |cap.steps| && InWait(p, timeoutMs, !aw.PageSettles?, a, b, begun, deadline, horizon)
      requires Inside(cap, b, c, p) && Ends(cap, Around(), b, c, e) && e.Done? && e.value.Saw?
      requires c.attempts == b.attempts && Asleep(c) == Asleep(b)
      requires TickEnded(p, aw, begun, deadline, b, c, now, e.value) && Asked(p, aw, b.held, c.held)
      ensures Inside(cap, a, c, p) && Ends(cap, Around(), a, c, Done(e.value.seen))
      ensures e.value.seen.Found? <==> aw.TargetResolves?
      ensures Asked(p, aw, a.held, c.held) && EndsSince(a.log, c.log, LastLook(cap, p, aw, Windowed(begun)))
      ensures Opens(cap, p, a.attempts, c.attempts, [], begun)
      ensures SleptWithin(p, timeoutMs, !aw.PageSettles?, a, c)
      ensures EndsInTime(p, aw, timeoutMs, a, c, Done(e.value.seen))
      ensures FullTime(p, timeoutMs, a, c, begun, Done(e.value.seen))
    {
      hide Timed, Quiet, Opens, Pace, WindowsWithin, Inside, Ends, SleptWithin, Asked, EndsSince, LastLook, Windowed;
      hide NoneHeld;
      Goes(cap, Around(), a, b, c, p, e);
      Finishes(cap, Around(), a, c, p, e.value.seen);
      QuietMonotone(cap, Around(), a, b, p);
      AskedSince(p, aw, a.held, b.held, c.held);
      EndsSinceBefore(a.log, b.log, c.log, LastLook(cap, p, aw, Windowed(begun)));
      PaceBounds(p, timeoutMs, !aw.PageSettles?, a, b, c, begun, deadline, horizon);
    }

    lemma WaitSleeps(
      p: nat, aw: Awaited, timeoutMs: nat, a: View, b: View, c: View, begun: seq<OpenRecovery>,
      deadline: int, horizon: int, now: int, e: Exit<TickEnd>)
      requires p < |cap.steps| && InWait(p, timeoutMs, !aw.PageSettles?, a, b, begun, deadline, horizon)
      requires Inside(cap, b, c, p) && Ends(cap, Around(), b, c, e) && e.Done? && e.value.Slept?
      requires c.attempts == b.attempts && Asleep(c) == Asleep(b) + if aw.PageSettles? then 0 else e.value.ms
      requires TickEnded(p, aw, begun, deadline, b, c, now, e.value)
      ensures InWait(p, timeoutMs, !aw.PageSettles?, a, c, begun, deadline, horizon)
      ensures c.pending == b.pending && Left(horizon, c.clock) < Left(horizon, b.clock)
    {
      hide Quiet, Opens, WindowsWithin, Inside, Ends, Left, InGoodTime, Pace, NoneHeld, Timed;
      NoneRestarted(p, b, c);
      TimedStill(p, timeoutMs, a, b, c, begun, deadline);
      Goes(cap, Around(), a, b, c, p, e);
      PendingKept(cap, Around(), b, c, e);
      InsideMonotone(cap, b, c, p);
      PaceOrdered(p, timeoutMs, !aw.PageSettles?, a, b, begun, deadline, horizon);
      InHorizon(begun, deadline, now, e.value.ms, horizon);
      AllFiredStill(cap, b.log, c.log, b.since, Dets(begun));
      PaceTicks(Asleep(b) - Asleep(a), ChargesOf(p, timeoutMs, !aw.PageSettles?, a, b), begun == [], timeoutMs, a.clock,
                b.clock, c.clock, deadline, horizon, !aw.PageSettles?, now, e.value.ms);
      if NoneHeld(c.log, |a.log|) { NoneHeldBefore(|a.log|, b.log, c.log); }
    }

    lemma PaceOrdered(p: nat, timeoutMs: nat, paced: bool, a: View, b: View,
      begun: seq<OpenRecovery>, deadline: int, horizon: int)
      requires p < |cap.steps| && InWait(p, timeoutMs, paced, a, b, begun, deadline, horizon)
      ensures deadline <= horizon
    {
      hide Quiet, Opens, WindowsWithin, NoneHeld;
    }

    lemma WaitPicks(
      p: nat, aw: Awaited, timeoutMs: nat, a: View, b: View, c: View, begun: seq<OpenRecovery>,
      deadline: int, horizon: int, now: int, e: Exit<TickEnd>)
      requires p < |cap.steps| && InWait(p, timeoutMs, !aw.PageSettles?, a, b, begun, deadline, horizon)
      requires Inside(cap, b, c, p) && Ends(cap, Around(), b, c, e) && e.Done? && e.value.Picked?
      requires c.attempts == b.attempts && Asleep(c) == Asleep(b)
      requires TickEnded(p, aw, begun, deadline, b, c, now, e.value)
      ensures InWait(p, timeoutMs, !aw.PageSettles?, a, c, begun, deadline, horizon)
      ensures c.pending == b.pending && Left(horizon, c.clock) <= Left(horizon, b.clock)
      ensures PickedLast(e.value.detector, a.log, c.log) && Fired(cap, c.log, c.since, e.value.detector)
    {
      hide Quiet, Opens, WindowsWithin, Inside, Ends, Left, Pace, NoneHeld, AllFired, Dets, Timed;
      NoneRestarted(p, b, c);
      TimedStill(p, timeoutMs, a, b, c, begun, deadline);
      Goes(cap, Around(), a, b, c, p, e);
      PendingKept(cap, Around(), b, c, e);
      InsideMonotone(cap, b, c, p);
      QuietMonotone(cap, Around(), a, b, p);
      PaceIdles(Asleep(b) - Asleep(a), ChargesOf(p, timeoutMs, !aw.PageSettles?, a, b), begun == [], timeoutMs, a.clock,
                b.clock, c.clock, deadline, horizon, !aw.PageSettles?);
      AllFiredStill(cap, b.log, c.log, b.since, Dets(begun));
      FiredNow(cap, c.log, c.since, e.value.detector);
      if NoneHeld(c.log, |a.log|) { HeldSince(|a.log|, c.log, c.log); }
    }

    lemma WaitHandles(
      p: nat, d: nat, aw: Awaited, timeoutMs: nat, a: View, b: View, c: View, before: seq<OpenRecovery>,
      begun: seq<OpenRecovery>, deadline: int, horizon: int, e: Exit<bool>)
      requires p < |cap.steps| && d < |cap.detectors|
      requires InWait(p, timeoutMs, !aw.PageSettles?, a, b, before, deadline, horizon)
      requires Inside(cap, b, c, p) && Ends(cap, Around(), b, c, e) && Handled(p, d, before, begun, b, c, e)
      requires PickedLast(d, a.log, b.log) && Fired(cap, b.log, b.since, d)
      ensures e.IsFailure() ==>
        && Inside(cap, a, c, p) && Ends<Seen>(cap, Around(), a, c, e.PropagateFailure())
        && Opens(cap, p, a.attempts, c.attempts, [], begun)
        && SleptWithin(p, timeoutMs, !aw.PageSettles?, a, c)
        && EndsInTime<Seen>(p, aw, timeoutMs, a, c, e.PropagateFailure())
        && FullTime<Seen>(p, timeoutMs, a, c, begun, e.PropagateFailure())
      ensures e.Done? ==>
        && InWait(p, timeoutMs, !aw.PageSettles?, a, c, begun, DeadlineAfter(deadline, e.value, c.clock, timeoutMs),
                  HorizonAfter(horizon, e.value, BudgetOf(d), c.clock, timeoutMs))
        && RemainingAt(cap, c.attempts, p) == RemainingAt(cap, b.attempts, p) - 1
        && c.pending == b.pending
    {
      hide Quiet, Opens, Pace, WindowsWithin, Inside, Ends, SleptWithin, Handled, DeadlineAfter, HorizonAfter;
      hide NoneHeld, DetectorHolds, RemainingAt, Timed, BrokenOff, HadItsTime;
      InsideMonotone(cap, b, c, p);
      HeldSince(|a.log|, b.log, c.log);
      if e.IsFailure() {
        Fails<bool, Seen>(cap, Around(), a, b, c, p, e);
        HandledFails(p, d, timeoutMs, !aw.PageSettles?, a, b, c, before, begun, deadline, horizon, e);
        if e.Stopped? || e.HandedBack? { HandledBreaks(p, d, timeoutMs, a, b, c, before, begun, deadline, e); }
      } else {
        Goes(cap, Around(), a, b, c, p, e);
        PendingKept(cap, Around(), b, c, e);
        AllFiredStill(cap, b.log, c.log, b.since, Dets(before));
        FiredStill(cap, b.log, c.log, b.since, d);
        HandledCounts(p, d, timeoutMs, !aw.PageSettles?, a, b, c, before, begun, deadline, horizon, e);
        QuietMonotone(cap, Around(), a, b, p);
        HandledTimed(p, d, timeoutMs, a, b, c, before, begun, deadline, e);
        AllFiredMore(cap, c.log, c.since, Dets(before), d, Dets(begun));
      }
    }

    lemma HandledBreaks(p: nat, d: nat, timeoutMs: nat, a: View, b: View, c: View, before: seq<OpenRecovery>,
      begun: seq<OpenRecovery>, deadline: int, e: Exit<bool>)
      requires p < |cap.steps| && d < |cap.detectors| && Handled(p, d, before, begun, b, c, e)
      requires e.Stopped? || e.HandedBack?
      requires Timed(p, timeoutMs, a, b, before, deadline) && PickedLast(d, a.log, b.log) && b.log <= c.log
      ensures BrokenOff(p, d, a, c)
    {
      hide Timed, Opens, WindowsWithin, WindowsWhole, OpenIndex, Dets, ActingCost, SameRestarts, Hopeless, PickedLast;
      hide BrokenOff;
      BreaksOff(p, d, timeoutMs, a, b, c, before, deadline);
    }

    lemma HandledTimed(p: nat, d: nat, timeoutMs: nat, a: View, b: View, c: View, before: seq<OpenRecovery>,
      begun: seq<OpenRecovery>, deadline: int, e: Exit<bool>)
      requires p < |cap.steps| && d < |cap.detectors| && Handled(p, d, before, begun, b, c, e) && e.Done?
      requires Timed(p, timeoutMs, a, b, before, deadline) && a.clock <= b.clock <= c.clock
      ensures Timed(p, timeoutMs, a, c, begun, DeadlineAfter(deadline, e.value, c.clock, timeoutMs))
    {
      hide Timed, Opens, WindowsWithin, WindowsWhole, OpenIndex, Dets, ActingCost, SameRestarts, RestartedNow;
      hide OneMore, DeadlineAfter;
      TimedOn(p, d, timeoutMs, a, b, c, before, begun, deadline, e.value);
    }

    /** A recovery that failed slept no more than what starting it is charged. */
    lemma HandledFails(
      p: nat, d: nat, timeoutMs: nat, paced: bool, a: View, b: View, c: View, before: seq<OpenRecovery>,
      begun: seq<OpenRecovery>, deadline: int, horizon: int, e: Exit<bool>)
      requires p < |cap.steps| && d < |cap.detectors| && Handled(p, d, before, begun, b, c, e)
      requires InWait(p, timeoutMs, paced, a, b, before, deadline, horizon)
      ensures Opens(cap, p, a.attempts, c.attempts, [], begun) && SleptWithin(p, timeoutMs, paced, a, c)
    {
      hide WindowsWithin, OpenIndex, Dets, Quiet, ActingCost, NoneHeld;
      OpensThen(cap, p, a.attempts, b.attempts, c.attempts, [], before, begun);
      PaceBounds(p, timeoutMs, paced, a, b, b, before, deadline, horizon);
      ChargesGrow(cap, p, timeoutMs, paced, a.attempts, b.attempts, c.attempts, d, |cap.detectors|);
    }

    /** A detector handled charges exactly the recovery its step started, and uses up one of its attempts. */
    lemma HandledCounts(
      p: nat, d: nat, timeoutMs: nat, paced: bool, a: View, b: View, c: View, before: seq<OpenRecovery>,
      begun: seq<OpenRecovery>, deadline: int, horizon: int, e: Exit<bool>)
      requires p < |cap.steps| && d < |cap.detectors| && Handled(p, d, before, begun, b, c, e) && e.Done?
      requires InWait(p, timeoutMs, paced, a, b, before, deadline, horizon) && b.clock <= c.clock
      ensures Opens(cap, p, a.attempts, c.attempts, [], begun) && begun != [] && Dets(begun) <= Dets(before) + {d}
      ensures ChargesOf(p, timeoutMs, paced, a, c) ==
        ChargesOf(p, timeoutMs, paced, a, b) + RecoveryCost(cap, p, d, timeoutMs, paced)
      ensures RemainingAt(cap, c.attempts, p) == RemainingAt(cap, b.attempts, p) - 1
      ensures var h := HorizonAfter(horizon, e.value, BudgetOf(d), c.clock, timeoutMs);
        && WindowsWithin(begun, h)
        && Pace(Asleep(c) - Asleep(a), ChargesOf(p, timeoutMs, paced, a, c), false, timeoutMs, a.clock, c.clock,
                DeadlineAfter(deadline, e.value, c.clock, timeoutMs), h, paced)
    {
      hide WindowsWithin, OpenIndex, Quiet, ActingCost, Pace, NoneHeld, HorizonAfter, DeadlineAfter;
      OpensThen(cap, p, a.attempts, b.attempts, c.attempts, [], before, begun);
      OneMoreCosts(cap, p, d, b.attempts, c.attempts, |cap.detectors|);
      OneMoreCharges(cap, p, timeoutMs, paced, a.attempts, b.attempts, c.attempts, d, |cap.detectors|);
      PaceHandles(Asleep(b) - Asleep(a), ChargesOf(p, timeoutMs, paced, a, b), before == [],
                  timeoutMs, a.clock, b.clock, c.clock,
                  deadline, horizon, paced, e.value, BudgetOf(d), Asleep(c) - Asleep(b), ActingCost(cap, p, d));
      WindowsWiden(before, horizon, HorizonAfter(horizon, e.value, BudgetOf(d), c.clock, timeoutMs));
    }

    lemma WindowsWiden(begun: seq<OpenRecovery>, horizon: int, wider: int)
      requires WindowsWithin(begun, horizon) && horizon <= wider
      ensures WindowsWithin(begun, wider)
    {
    }

    lemma NothingOpen(horizon: int)
      ensures OpenSound(cap, []) && WindowsWithin([], horizon)
    {
    }

    lemma WindowsAreOpen(begun: seq<OpenRecovery>)
      requires Windowed(begun) != {}
      ensures begun != []
    {
    }

    /**
     * A wait: the loop, and then every recovery it opened becomes a record, verified exactly when the
     * wait passed. It sleeps no more than its timeout and what the recoveries started meanwhile add to it.
     */
    method Poll(p: nat, aw: Awaited, timeoutMs: nat) returns (r: Exit<Seen>, ghost begun: seq<OpenRecovery>)
      requires Valid() && p < |cap.steps|
      requires aw.TargetResolves? && aw.failureCode.Some? ==> aw.failureCode.value.OutputExtractionFailed?
      modifies this, surface, gated
      ensures Kept(r.Crashed?)
      ensures Inside(cap, old(Now()), Now(), p) && Ends(cap, Around(), old(Now()), Now(), r)
      ensures r.Done? ==> (r.value.Found? <==> aw.TargetResolves?) && Asked(p, aw, old(surface.held), surface.held)
      ensures r.Done? ==> SeenTruly(aw, r.value, surface.stale)
      ensures r.Done? ==> EndsSince(old(surface.log), surface.log, LastLook(cap, p, aw, Windowed(begun)))
      ensures SleptWithin(p, timeoutMs, !aw.PageSettles?, old(Now()), Now())
      ensures EndsInTime(p, aw, timeoutMs, old(Now()), Now(), r)
      ensures FullTime(p, timeoutMs, old(Now()), Now(), begun, r)
      ensures OpenSound(cap, begun) && Opens(cap, p, old(attempts), attempts, [], begun)
      ensures r.Done? || r.Stopped? || r.HandedBack? ==> EndsWith(recoveries, RecordsOf(p, begun, r.Done?))
      decreases p, 7
    {
      hide ValidCapability, AttemptsSound, RecordsSound, Told, OutcomeCodes, Rows, GuardedActs, OtherGuardedActs;
      hide IrreversibleRenamed, GoodHandback, HandBacks, Pauses, Unverified, ReportsRefusal, Windowed, LastLook;
      hide LastChance, NoneHeld, OpenSound, Opens, Asked, SeenTruly, KeysOf, StopFits, EndsWith, EndsSince, Inside;
      hide Ends, SleptWithin, EndsInTime, FullTime, ClicksPaid, Because;
      ghost var v0, started0 := Now(), started;
      Pend(p);
      ghost var v1 := Now();
      var opens: seq<OpenRecovery>;
      r, opens := PollLoop(p, aw, timeoutMs);
      begun := opens;
      ghost var v2 := Now();
      if r.Done? || r.Stopped? || r.HandedBack? {
        InsideGrows(cap, v1, v2, p);
        PendingKept(cap, Around(), v1, v2, r);
        CloseWait(p, opens, r.Done?, v0, started0);
        EndsWithTail(v2.recoveries, RecordsOf(p, opens, r.Done?));
      }
      WaitEnds(cap, Around(), v0, v1, v2, Now(), p, r);
      WaitTimed(p, aw, timeoutMs, v0, v1, v2, Now(), r);
      WaitFull(p, timeoutMs, v0, v1, v2, Now(), begun, r);
    }

    /** A wait of step p begins: its recoveries are pending until it ends. */
    ghost method Pend(p: nat)
      requires Valid() && p < |cap.steps|
      modifies this`pending
      ensures Now() == old(Now()).(pending := old(pending) + KeysOf(cap, p)) && Waiting(p)
      ensures Valid()
    {
      hide ValidCapability, AttemptsSound, RecordsSound, Told, ClicksPaid, KeysOf;
      ToldWaits(started, recoveries, pending, KeysOf(cap, p));
      pending := pending + KeysOf(cap, p);
    }

    /** Marking recoveries as pending and recording them takes no time. */
    lemma WaitTimed(p: nat, aw: Awaited, timeoutMs: nat, a: View, b: View, c: View, d: View, e: Exit<Seen>)
      requires p < |cap.steps| && b == a.(pending := b.pending)
      requires d == c.(recoveries := d.recoveries, pending := d.pending)
      requires SleptWithin(p, timeoutMs, !aw.PageSettles?, b, c) && EndsInTime(p, aw, timeoutMs, b, c, e)
      ensures SleptWithin(p, timeoutMs, !aw.PageSettles?, a, d) && EndsInTime(p, aw, timeoutMs, a, d, e)
    {
      hide Charges, EndsSince, LastChance, NoneHeld, ReportsRefusal;
    }

    lemma WaitFull(p: nat, timeoutMs: nat, a: View, b: View, c: View, d: View, begun: seq<OpenRecovery>, e: Exit<Seen>)
      requires p < |cap.steps| && b == a.(pending := b.pending)
      requires d == c.(recoveries := d.recoveries, pending := d.pending)
      requires FullTime(p, timeoutMs, b, c, begun, e)
      ensures FullTime(p, timeoutMs, a, d, begun, e)
    {
      hide ReportsRefusal, WindowsWhole, IsLive, Windowed, PickedLast, Limit, Fired;
      if exists x :: BrokenOff(p, x, b, c) {
        var x :| BrokenOff(p, x, b, c);
        assert BrokenOff(p, x, a, d);
      }
    }

    /** Within the limits of its recoveries a wait never sleeps more than the most it may. */
    lemma WaitMostSlept(p: nat, timeoutMs: nat, paced: bool, a: View, b: View, started: multiset<Key>)
      requires p < |cap.steps| && SleptWithin(p, timeoutMs, paced, a, b) && AttemptsSound(cap, b.attempts, started)
      ensures Asleep(b) - Asleep(a) <= WaitMost(cap, p, timeoutMs)
    {
      hide AttemptsSound, RecoveryCost;
      ChargesWithin(cap, p, timeoutMs, paced, a.attempts, b.attempts, started, |cap.detectors|);
    }

    /** Records what a wait opened; from then on none of its recoveries is pending. */
    method CloseWait(p: nat, begun: seq<OpenRecovery>, succeeded: bool,
      ghost was: View, ghost startedWas: multiset<Key>)
      requires Valid() && p < |cap.steps| && OpenSound(cap, begun) && Opens(cap, p, was.attempts, attempts, [], begun)
      requires AttemptsSound(cap, was.attempts, startedWas) && Told(startedWas, was.recoveries, was.pending)
      requires was.recoveries <= recoveries && pending == was.pending + KeysOf(cap, p)
      modifies this`recoveries, this`pending
      ensures Valid() && pending == was.pending
      ensures recoveries == old(recoveries) + RecordsOf(p, begun, succeeded)
      ensures HandBacks(recoveries) == HandBacks(old(recoveries)) && Pauses(recoveries) == Pauses(old(recoveries))
      ensures succeeded ==> Unverified(recoveries) == Unverified(old(recoveries))
    {
      hide ValidCapability, AttemptsSound, RecordsSound, Told, OutcomeCodes, HandBacks, Pauses, Unverified, OpenSound;
      hide Opens, KeysOf, ClicksPaid, Because;
      ghost var v2 := Now();
      Close(p, begun, succeeded);
      WaitTold(p, begun, succeeded, was, startedWas, v2, attempts, started);
      pending := was.pending;
    }

    /** A wait that recorded what it opened leaves nothing it started untold. */
    lemma WaitTold(
      p: nat, begun: seq<OpenRecovery>, ok: bool, a: View, startedWas: multiset<Key>, b: View, now: map<Key, nat>,
      startedNow: multiset<Key>)
      requires p < |cap.steps| && OpenSound(cap, begun) && Opens(cap, p, a.attempts, now, [], begun)
      requires AttemptsSound(cap, a.attempts, startedWas) && AttemptsSound(cap, now, startedNow)
      requires a.recoveries <= b.recoveries && Told(startedWas, a.recoveries, a.pending)
      requires Told(startedNow, b.recoveries + RecordsOf(p, begun, ok), a.pending + KeysOf(cap, p))
      ensures Told(startedNow, b.recoveries + RecordsOf(p, begun, ok), a.pending)
    {
      hide AttemptsSound, Told, KeysOf, ClicksPaid, Because;
      var rs := b.recoveries + RecordsOf(p, begun, ok);
      forall e | e in Dets(begun) && e < |cap.detectors|
        ensures exists i :: 0 <= i < |rs| && Tells(rs[i], KeyOf(cap, p, e))
      {
        var o :| o in begun && o.detector == e;
        var j :| 0 <= j < |begun| && begun[j] == o;
        assert rs[|b.recoveries| + j] == RecordOf(p, begun[j], ok);
      }
      ToldAfterWait(cap, p, Dets(begun), a.attempts, now, startedWas, startedNow, a.recoveries, rs, a.pending);
    }

    /** What waiting for a target did: found, it was the last thing seen; else it was looked for, or a detector held. */
    ghost predicate Resolves<T>(p: nat, of: TargetOf, timeoutMs: nat, failureCode: Option<Code>, a: View, b: View,
      r: Exit<T>)
      requires p < |cap.steps|
    {
      && Spends(cap, Around(), WaitMost(cap, p, timeoutMs), a, b, p, r)
      && (r.Done? ==>
            && Asked(p, TargetResolves(of, failureCode), a.held, b.held)
            && SeenSince(p, TargetResolves(of, failureCode), a.log, b.log))
      && (r.Stopped? && !ReportsRefusal(r.stop) ==> SoughtSince(of, a.log, b.log))
    }

    /** Waits for a target to resolve to one element. */
    method ResolveTarget(p: nat, of: TargetOf, timeoutMs: nat, failureCode: Option<Code>) returns (r: Exit<Resolved>)
      requires Valid() && p < |cap.steps|
      requires failureCode.Some? ==> failureCode.value.OutputExtractionFailed?
      modifies this, surface, gated
      ensures Resolves(p, of, timeoutMs, failureCode, old(Now()), Now(), r)
      ensures r.Done? ==> (of in surface.stale <==> r.value.identityChanged)
      ensures Kept(r.Crashed?)
      decreases p, 8
    {
      hide ValidCapability, AttemptsSound, RecordsSound, Told, ClicksPaid, Because, Inside, Ends, SleptWithin;
      hide EndsInTime, WaitMost, SeenSince, SoughtSince, EndsSince, Asked;
      ghost var v0 := Now();
      var seen, begun := Poll(p, TargetResolves(of, failureCode), timeoutMs);
      WaitMostSlept(p, timeoutMs, true, v0, Now(), started);
      if seen.Done? {
        SawLast(p, TargetResolves(of, failureCode), Windowed(begun), v0.log, surface.log);
      } else {
        SoughtInVain(p, TargetResolves(of, failureCode), timeoutMs, v0, Now(), seen);
      }
      r := if seen.Done? then Done(seen.value.target) else seen.PropagateFailure();
      ghost var cost := WaitMost(cap, p, timeoutMs);
      SpendsAs(cap, Around(), cost, v0, Now(), p, seen, r);
    }

    /** Since, a target was looked for in vain, or a detector held. */
    ghost predicate SoughtSince(of: TargetOf, was: seq<Happening>, now: seq<Happening>) {
      !NoneHeld(now, |was|) || exists i :: |was| <= i < |now| && now[i] == Heard(AskTarget(of), false)
    }

    lemma SoughtInVain(p: nat, aw: Awaited, timeoutMs: nat, a: View, b: View, e: Exit<Seen>)
      requires p < |cap.steps| && aw.TargetResolves? && EndsInTime(p, aw, timeoutMs, a, b, e)
      ensures e.Stopped? && !ReportsRefusal(e.stop) ==> SoughtSince(aw.of, a.log, b.log)
    {
      hide NoneHeld, ReportsRefusal, Scan;
      if e.Stopped? && !ReportsRefusal(e.stop) && NoneHeld(b.log, |a.log|) {
        var tail := LastChance(cap, p, aw);
        assert tail[|tail| - 1] == Heard(AskTarget(aw.of), false);
        assert b.log[|b.log| - |tail|..][|tail| - 1] == b.log[|b.log| - 1];
      }
    }

    /** The last thing that happened, and since, was that the awaited was seen. */
    ghost predicate SeenSince(p: nat, aw: Awaited, was: seq<Happening>, now: seq<Happening>)
      requires p < |cap.steps|
    {
      was < now && now[|now| - 1] == Heard(QueryOf(cap.steps[p].id, aw), true)
    }

    lemma SawLast(p: nat, aw: Awaited, windows: set<nat>, was: seq<Happening>, now: seq<Happening>)
      requires p < |cap.steps| && EndsSince(was, now, LastLook(cap, p, aw, windows))
      ensures SeenSince(p, aw, was, now)
    {
      hide Scan;
      var tail := LastLook(cap, p, aw, windows);
      assert tail[|tail| - 1] == Heard(QueryOf(cap.steps[p].id, aw), true);
      assert now[|now| - |tail|..][|tail| - 1] == now[|now| - 1];
    }

    method Wait(p: nat) returns (r: Exit<()>)
      requires Valid() && p < |cap.steps|
      modifies this, surface, gated
      ensures Kept(r.Crashed?)
      ensures surface.Slept() - old(surface.Slept()) <= WaitMost(cap, p, cap.steps[p].waitFor.timeoutMs)
      ensures Inside(cap, old(Now()), Now(), p) && Ends(cap, Around(), old(Now()), Now(), r)
      ensures r.Done? ==> Asked(p, AwaitedBy(cap.steps[p]), old(surface.held), surface.held)
      ensures r.Done? ==> SeenSince(p, AwaitedBy(cap.steps[p]), old(surface.log), surface.log)
      decreases p, 8
    {
      hide ValidCapability, AttemptsSound, RecordsSound, Told, OutcomeCodes, Rows, GuardedActs, OtherGuardedActs;
      hide IrreversibleRenamed, GoodHandback, HandBacks, Pauses, Unverified, Asked, ClicksPaid, Because;
      ghost var v0 := Now();
      var seen, begun := Poll(p, AwaitedBy(cap.steps[p]), cap.steps[p].waitFor.timeoutMs);
      WaitMostSlept(p, cap.steps[p].waitFor.timeoutMs, !cap.steps[p].waitFor.SettleWait?, v0, Now(), started);
      if seen.Done? { SawLast(p, AwaitedBy(cap.steps[p]), Windowed(begun), v0.log, surface.log); }
      r := if seen.Done? then Done(()) else seen.PropagateFailure();
    }

    // ---- steps -----------------------------------------------------------------------------------

    /** The risk a step's action has in the end: the larger of the declared and the gate's, if the gate can tell. */
    function RiskJudged(declared: RiskClass, judged: Option<RiskClass>): (r: RiskClass)
      ensures RiskRank(declared) <= RiskRank(r) && (judged.Some? ==> RiskRank(judged.value) <= RiskRank(r))
      ensures r == declared || judged == Some(r)
    {
      if judged.None? then declared else MaxRisk(declared, judged.value)
    }

    /** A risk no lower than declared, and no lower than the gate's, if the gate can tell. */
    method EffectiveRisk(declared: RiskClass) returns (r: Exit<RiskClass>)
      modifies gated`judged, surface`clock, surface`drift
      ensures OnlyTime(old(Now()), Now()) && Asleep(Now()) == Asleep(old(Now()))
      ensures r.Done? || (r.ControlLost? && surface.attached)
      ensures r.Done? ==> r.value == RiskJudged(declared, gated.judged)
    {
      var judged := gated.Judge(declared);
      if judged.Lost? { return ControlLost; }
      r := Done(RiskJudged(declared, judged.value));
    }

    /** Resolves a step's own target, if its action has one: whether it no longer looks as recorded. */
    method FindOwn(p: nat) returns (r: Exit<bool>)
      requires Valid() && p < |cap.steps|
      modifies this, surface, gated
      ensures Spends(cap, Around(), WaitMost(cap, p, cap.steps[p].waitFor.timeoutMs), old(Now()), Now(), p, r)
      ensures r.Done? && r.value ==> Because(cap, surface.log, since, TargetChanged)
      ensures r.Done? ==> (r.value <==> AimOf(p).Some? && AimOf(p).value in surface.stale)
      ensures r.Done? && AimOf(p).Some? ==>
        surface.held[AskTarget(AimOf(p).value)] > old(surface.held)[AskTarget(AimOf(p).value)]
      ensures Kept(r.Crashed?)
      decreases p, 9
    {
      hide ValidCapability, AttemptsSound, RecordsSound, Told, ClicksPaid, Because, Spends, WaitMost, SeenSince;
      hide SoughtSince;
      ghost var v0, env := Now(), Around();
      ghost var cost := WaitMost(cap, p, cap.steps[p].waitFor.timeoutMs);
      var step := cap.steps[p];
      if !HasTarget(step.action) {
        r := Done(false);
        NothingSpent(p, cost, v0, r);
        return;
      }
      var found := ResolveTarget(p, StepTarget(step.id), step.waitFor.timeoutMs, None);
      r := if found.Done? then Done(found.value.identityChanged) else found.PropagateFailure();
      SpendsAs(cap, env, cost, v0, Now(), p, found, r);
      if found.Done? { RenamedExplains(p, v0, Now()); }
    }

    lemma NothingSpent<T>(p: nat, cost: nat, a: View, r: Exit<T>)
      requires p < |cap.steps| && r.Done?
      ensures Spends(cap, Around(), cost, a, a, p, r)
    {
      AskingSpends(cap, Around(), a, a, p, r);
    }

    /**
     * Resolves and judges a step's action before it is tried: its effective risk. What is irreversible
     * is never aimed at a target that no longer looks as recorded.
     */
    method Aim(p: nat) returns (r: Exit<RiskClass>)
      requires Valid() && p < |cap.steps|
      modifies this, surface, gated
      ensures Spends(cap, Around(), WaitMost(cap, p, cap.steps[p].waitFor.timeoutMs), old(Now()), Now(), p, r)
      ensures r.Done? ==> r.value == RiskJudged(cap.steps[p].risk, gated.judged)
      ensures r.Done? ==> (AimOf(p).Some? && AimOf(p).value in surface.stale ==> r.value != Irreversible)
      ensures r.Done? && AimOf(p).Some? ==>
        surface.held[AskTarget(AimOf(p).value)] > old(surface.held)[AskTarget(AimOf(p).value)]
      ensures Kept(r.Crashed?)
      decreases p, 10
    {
      hide ValidCapability, AttemptsSound, RecordsSound, Told, ClicksPaid, Because, Spends, WaitMost, RiskJudged;
      hide OnlyTime, AimOf;
      ghost var v0, env := Now(), Around();
      ghost var cost := WaitMost(cap, p, cap.steps[p].waitFor.timeoutMs);
      var changed := FindOwn(p);
      ghost var v1 := Now();
      if changed.IsFailure() {
        r := changed.PropagateFailure();
        SpendsAs(cap, env, cost, v0, v1, p, changed, r);
        return;
      }
      r := EffectiveRisk(cap.steps[p].risk);
      ghost var v2 := Now();
      AskingSpends(cap, env, v1, v2, p, r);
      SpendsThen(cap, env, cost, 0, v0, v1, v2, p, changed, r);
      if r.Done? && changed.value && r.value == Irreversible {
        ghost var judged := r;
        BecauseStill(cap, v1.log, v2.log, since, since, TargetChanged);
        r := Renamed(p);
        SpendsThen(cap, env, cost, 0, v0, v2, Now(), p, judged, r);
      }
    }

    /** What is irreversible is not aimed at another target than recorded. */
    method Renamed(p: nat) returns (r: Exit<RiskClass>)
      requires Valid() && p < |cap.steps| && Because(cap, surface.log, since, TargetChanged)
      modifies this`pauses, this`hooks, this`ordinary, this`recoveries, this`interventionPath
      modifies surface`clock, surface`drift
      ensures !r.Done? && Spends(cap, Around(), 0, old(Now()), Now(), p, r)
      ensures Kept(r.Crashed?)
    {
      hide ValidCapability, AttemptsSound, RecordsSound, Told, ClicksPaid, Because, NoLongerRecorded, RecordedElement;
      hide RenamedElement, Raises, Inside, Spends;
      ghost var v0 := Now();
      var raised := StepFailure(p, TargetChanged, NoLongerRecorded(), RecordedElement(), RenamedElement());
      RaisingSpends<RiskClass>(cap, Around(), v0, Now(), p, raised);
      r := Thrown(raised);
    }

    /** A target was found, which accounts for its being called another than recorded. */
    lemma RenamedExplains(p: nat, a: View, b: View)
      requires p < |cap.steps| && b.since <= |a.log|
      requires SeenSince(p, TargetResolves(StepTarget(cap.steps[p].id), None), a.log, b.log)
      ensures Because(cap, b.log, b.since, TargetChanged)
    {
      BecauseOf(cap, b.log, b.since, |b.log| - 1, TargetChanged);
    }

    /** The target a step's own action is aimed at. */
    function AimOf(p: nat): Option<TargetOf>
      requires p < |cap.steps|
    {
      if HasTarget(cap.steps[p].action) then Some(StepTarget(cap.steps[p].id)) else None
    }

    /** The step's own action reached the application, and came back ok. */
    ghost predicate ActedIn(p: nat, a: View, b: View)
      requires p < |cap.steps|
    {
      Acted(p, a.acts, b.acts) && ActedSince(p, b.log, |a.log|)
    }

    lemma ActedLate(p: nat, a: View, b: View, c: View)
      requires p < |cap.steps| && a.acts <= b.acts && a.log <= b.log && ActedIn(p, b, c)
      ensures ActedIn(p, a, c)
    {
      ActedAmong(p, a.acts, b.acts, c.acts, c.acts);
      ActedEarlier(p, c.log, |a.log|, |b.log|);
    }

    /** The step's own action was answered: it acted, or it failed plainly, which the log tells. */
    ghost predicate TriedOwn(p: nat, a: View, b: View, act: ActResult)
      requires p < |cap.steps|
    {
      if act.ok then ActedIn(p, a, b) else act.message != "" && Because(cap, b.log, b.since, Code.ActionFailed)
    }

    /** The step's own action, once, through the gate. */
    method ActOnce(p: nat) returns (r: Exit<ActResult>)
      requires Valid() && MayAct() && p < |cap.steps|
      requires AimOf(p).Some? && AimOf(p).value in surface.stale ==> cap.steps[p].risk != Irreversible
      modifies this`pauses, this`hooks, this`ordinary, this`recoveries, this`interventionPath, surface, gated
      ensures surface.Slept() == old(surface.Slept())
      ensures Works(cap, Around(), gated.confirm, old(Now()), Now(), p, r) && TraceKept(old(Now()), Now())
      ensures gated.judged == old(gated.judged)
      ensures r.Done? ==> TriedOwn(p, old(Now()), Now(), r.value)
      ensures Kept(r.Crashed?)
    {
      hide ValidCapability, AttemptsSound, RecordsSound, Told, ClicksPaid, Because, Works, TraceKept, TriedOwn;
      hide Performed;
      ghost var v0 := Now();
      ghost var acted;
      r, acted := Perform(p, Own(cap.steps[p].id), AimOf(p), cap.steps[p].risk);
      OwnWorks(p, acted, v0, Now(), r);
    }

    lemma OwnWorks(p: nat, acted: bool, a: View, b: View, r: Exit<ActResult>)
      requires ValidCapability(cap) && p < |cap.steps| && a.since <= |a.log|
      requires Performed(p, Own(cap.steps[p].id), cap.steps[p].risk, acted, a, b, r)
      ensures Works(cap, Around(), gated.confirm, a, b, p, r) && TraceKept(a, b) && Asleep(b) == Asleep(a)
      ensures r.Done? ==> TriedOwn(p, a, b, r.value)
    {
      hide ValidCapability, Ends, ActsWithin, TraceKept, GuardedActs, Rows, IrreversibleRenamed, HandBacks, TriedOwn;
      assert a.acts + multiset{} == a.acts;
      if acted {
        ActsOwn(cap, gated.confirm, p, a.acts);
      } else {
        ActsNone(cap, gated.confirm, p, a.acts, b.acts);
      }
      if r.Done? { OwnTold(p, acted, a, b, r.value); }
    }

    lemma OwnTold(p: nat, acted: bool, a: View, b: View, act: ActResult)
      requires p < |cap.steps| && Attempted(Own(cap.steps[p].id), acted, a.log, b.log, Done(act))
      requires b.since <= |a.log| && (act.ok ==> acted) && (!act.ok ==> act.message != "")
      requires b.acts == a.acts + (if acted then multiset{Own(cap.steps[p].id)} else multiset{})
      ensures TriedOwn(p, a, b, act)
    {
      hide Because;
      var i := |a.log|;
      if act.ok { assert IsOwnAct(p, b.log[i]); } else { BecauseOf(cap, b.log, b.since, i, Code.ActionFailed); }
    }

    /** Resolve, judge, act: the gate's answer, and the risk the attempt was judged at. */
    method AimAndAct(p: nat) returns (r: Exit<(ActResult, RiskClass)>)
      requires Valid() && MayAct() && p < |cap.steps|
      modifies this, surface, gated
      ensures Kept(r.Crashed?)
      ensures surface.Slept() - old(surface.Slept()) <= WaitMost(cap, p, cap.steps[p].waitFor.timeoutMs)
      ensures Works(cap, Around(), gated.confirm, old(Now()), Now(), p, r) && TraceKept(old(Now()), Now())
      ensures r.Done? ==>
        r.value.1 == RiskJudged(cap.steps[p].risk, gated.judged) && TriedOwn(p, old(Now()), Now(), r.value.0)
      decreases p, 11
    {
      hide ValidCapability, AttemptsSound, RecordsSound, Told, OutcomeCodes, Rows, GuardedActs, OtherGuardedActs;
      hide IrreversibleRenamed, GoodHandback, HandBacks, Pauses, Unverified, StopFits, ClicksPaid, Because, WaitMost;
      hide Inside, Carries, Ends, ActsWithin, Works, Ready, TriedOwn, RiskJudged;
      ghost var v0, env, confirm := Now(), Around(), gated.confirm;
      var aimed := Aim(p);
      ghost var v1 := Now();
      SpendsParts(p, v0, v1, aimed);
      if aimed.IsFailure() {
        r := aimed.PropagateFailure();
        InsideWorks(cap, env, confirm, v0, v1, p, aimed);
        WorksAs(cap, env, confirm, v0, v1, p, aimed, r);
        return;
      }
      ReadyInside(cap, env, v0, v1, p, aimed);
      AimedLow(p, aimed.value);
      var act := ActOnce(p);
      ghost var v2 := Now();
      ReadyThen(cap, env, confirm, v0, v1, v2, p, act);
      r := if act.Done? then Done((act.value, aimed.value)) else act.PropagateFailure();
      WorksAs(cap, env, confirm, v0, v2, p, act, r);
      if act.Done? { TriedLate(p, v0, v1, v2, act.value); }
    }

    lemma SpendsParts<T>(p: nat, a: View, b: View, e: Exit<T>)
      requires p < |cap.steps|
      requires Spends(cap, Around(), WaitMost(cap, p, cap.steps[p].waitFor.timeoutMs), a, b, p, e)
      ensures Inside(cap, a, b, p) && Ends(cap, Around(), a, b, e) && TraceKept(a, b)
      ensures a.clock <= b.clock && a.drift <= b.drift && a.acts <= b.acts && a.held <= b.held && a.log <= b.log
      ensures b.reverifying == a.reverifying && b.since == a.since
      ensures Asleep(b) - Asleep(a) <= WaitMost(cap, p, cap.steps[p].waitFor.timeoutMs)
    {
      hide WaitMost, Ends;
    }

    lemma AimedLow(p: nat, risk: RiskClass)
      requires p < |cap.steps| && risk == RiskJudged(cap.steps[p].risk, gated.judged)
      ensures risk != Irreversible ==> cap.steps[p].risk != Irreversible
    {
    }

    lemma TriedLate(p: nat, a: View, b: View, c: View, act: ActResult)
      requires p < |cap.steps| && a.acts <= b.acts && a.log <= b.log && TriedOwn(p, b, c, act)
      ensures TriedOwn(p, a, c, act)
    {
      hide ActedIn, Because;
      if act.ok { ActedLate(p, a, b, c); }
    }

    /** Whether a step's plain failure to act may be tried again: never a guarded step's, and only in its time. */
    ghost predicate Retryable(p: nat, begin: int, judged: Option<RiskClass>, now: int)
      requires p < |cap.steps|
    {
      !Guarded(cap.steps[p]) && judged != Some(Irreversible) && now - begin < cap.steps[p].waitFor.timeoutMs
    }

    /** A step's hard failure to act: it is raised only when it may not be tried again. */
    ghost predicate GivesUp<T>(p: nat, begin: int, judged: Option<RiskClass>, now: int, r: Exit<T>)
      requires p < |cap.steps|
    {
      r.Stopped? && FailedToAct(r.stop) ==> !Retryable(p, begin, judged, now)
    }

    /** What one attempt did: it acted, or may be tried again, or ended the step, and then for good reason. */
    ghost predicate TriesOnce(p: nat, begin: int, a: View, b: View, judged: Option<RiskClass>, r: Exit<bool>)
      requires p < |cap.steps|
    {
      && Works(cap, Outside(), gated.confirm, a, b, p, r) && TraceKept(a, b)
      && Asleep(b) - Asleep(a) <= WaitMost(cap, p, cap.steps[p].waitFor.timeoutMs)
      && (r == Done(true) ==> ActedIn(p, a, b))
      && (r == Done(false) ==> Retryable(p, begin, judged, b.clock))
      && GivesUp(p, begin, judged, b.clock, r)
    }

    /**
     * One attempt at a step's action: resolve, judge, act. True when it acted, false when the act
     * failed in a way that may be tried again, which no guarded step's act ever may.
     */
    method TryAction(p: nat, begin: int) returns (r: Exit<bool>)
      requires Valid() && MayAct() && p < |cap.steps|
      modifies this, surface, gated
      ensures TriesOnce(p, begin, old(Now()), Now(), gated.judged, r)
      ensures Kept(r.Crashed?)
      decreases p, 12
    {
      hide ValidCapability, AttemptsSound, RecordsSound, Told, ClicksPaid, Because, WaitMost, TriesOnce, Works;
      hide TriedOwn, RiskJudged, TraceKept, Inside, Raises, Retryable;
      ghost var v0 := Now();
      var step := cap.steps[p];
      var tried := AimAndAct(p);
      ghost var v1 := Now();
      if tried.IsFailure() {
        r := tried.PropagateFailure();
        AttemptBroke(p, begin, v0, v1, gated.judged, tried, r);
        return;
      }
      var (act, risk) := tried.value;
      var retryable := risk != Irreversible && !AnswersDialog(step);
      RetryDecided(p, begin, risk, retryable, surface.clock);
      TriedMeans(p, v0, v1, act);
      if !act.ok && (!retryable || surface.clock - begin >= step.waitFor.timeoutMs) {
        var raised := ActFailure(p, act.message);
        r := if raised.Done? then Stopped(raised.value) else raised.PropagateFailure();
        AttemptRaised(p, begin, v0, v1, Now(), gated.judged, tried, raised, r);
      } else {
        r := Done(act.ok);
        AttemptCame(p, begin, v0, v1, gated.judged, tried, r);
      }
    }

    lemma TriedMeans(p: nat, a: View, b: View, act: ActResult)
      requires p < |cap.steps| && TriedOwn(p, a, b, act)
      ensures !act.ok ==> act.message != "" && Because(cap, b.log, b.since, Code.ActionFailed)
    {
      hide Because, ActedIn;
    }

    lemma AttemptBroke(p: nat, begin: int, a: View, b: View, judged: Option<RiskClass>,
      e: Exit<(ActResult, RiskClass)>, r: Exit<bool>)
      requires p < |cap.steps| && e.IsFailure() && r == e.PropagateFailure<bool>()
      requires Works(cap, Around(), gated.confirm, a, b, p, e) && TraceKept(a, b)
      requires Asleep(b) - Asleep(a) <= WaitMost(cap, p, cap.steps[p].waitFor.timeoutMs)
      ensures TriesOnce(p, begin, a, b, judged, r)
    {
      hide Works, TraceKept, WaitMost, Retryable, ActedIn;
      WorksOutside(cap, Around(), gated.confirm, a, b, p, e);
      WorksAs(cap, Outside(), gated.confirm, a, b, p, e, r);
      AimsInWait(p, a, b, e);
    }

    lemma AttemptRaised(p: nat, begin: int, a: View, b: View, c: View, judged: Option<RiskClass>,
      e: Exit<(ActResult, RiskClass)>, raised: Exit<RunStopped>, r: Exit<bool>)
      requires p < |cap.steps| && e.Done? && Works(cap, Around(), gated.confirm, a, b, p, e) && TraceKept(a, b)
      requires Inside(cap, b, c, p) && Raises(cap, Outside(), b, c, raised) && Asleep(c) == Asleep(b)
      requires Asleep(b) - Asleep(a) <= WaitMost(cap, p, cap.steps[p].waitFor.timeoutMs)
      requires !Retryable(p, begin, judged, b.clock)
      requires r == if raised.Done? then Stopped(raised.value) else raised.PropagateFailure()
      ensures TriesOnce(p, begin, a, c, judged, r)
    {
      hide Works, TraceKept, WaitMost, ActedIn, Inside, Raises, Retryable;
      WorksOutside(cap, Around(), gated.confirm, a, b, p, e);
      WorksThrow<(ActResult, RiskClass), bool>(cap, Outside(), gated.confirm, a, b, c, p, e, raised);
      RaisedLate(p, begin, judged, a, b, c);
    }

    lemma AttemptCame(p: nat, begin: int, a: View, b: View, judged: Option<RiskClass>,
      e: Exit<(ActResult, RiskClass)>, r: Exit<bool>)
      requires p < |cap.steps| && e.Done? && Works(cap, Around(), gated.confirm, a, b, p, e) && TraceKept(a, b)
      requires Asleep(b) - Asleep(a) <= WaitMost(cap, p, cap.steps[p].waitFor.timeoutMs)
      requires TriedOwn(p, a, b, e.value.0) && r == Done(e.value.0.ok)
      requires !e.value.0.ok ==> Retryable(p, begin, judged, b.clock)
      ensures TriesOnce(p, begin, a, b, judged, r)
    {
      hide Works, TraceKept, WaitMost, ActedIn, Because, Retryable;
      WorksOutside(cap, Around(), gated.confirm, a, b, p, e);
      WorksAs(cap, Outside(), gated.confirm, a, b, p, e, r);
    }

    /** The attempt itself raises no hard failure to act. */
    lemma AimsInWait(p: nat, a: View, b: View, e: Exit<(ActResult, RiskClass)>)
      requires p < |cap.steps| && Works(cap, Around(), gated.confirm, a, b, p, e)
      ensures e.Stopped? ==> !FailedToAct(e.stop)
    {
      hide Carries, ActsWithin, Because, StopFits, HandBacks, Unverified, Pauses, GoodHandback;
    }

    lemma RetryDecided(p: nat, begin: int, risk: RiskClass, retryable: bool, now: int)
      requires p < |cap.steps| && risk == RiskJudged(cap.steps[p].risk, gated.judged)
      requires retryable <==> risk != Irreversible && !AnswersDialog(cap.steps[p])
      ensures Retryable(p, begin, gated.judged, now) <==>
        retryable && now - begin < cap.steps[p].waitFor.timeoutMs
    {
    }

    lemma RaisedLate(p: nat, begin: int, judged: Option<RiskClass>, a: View, b: View, c: View)
      requires p < |cap.steps| && TraceKept(a, b) && Inside(cap, b, c, p)
      requires !Retryable(p, begin, judged, b.clock)
      ensures !Retryable(p, begin, judged, c.clock) && TraceKept(a, c)
    {
    }

    /** The log's entry of a step's own action that came back ok. */
    ghost predicate IsOwnAct(p: nat, h: Happening)
      requires p < |cap.steps|
    {
      h.Did? && h.why == Own(cap.steps[p].id) && h.ok
    }

    /** The step's own action came back ok somewhere from entry n of the log on. */
    ghost predicate ActedSince(p: nat, log: seq<Happening>, n: nat)
      requires p < |cap.steps|
    {
      exists i :: n <= i < |log| && IsOwnAct(p, log[i])
    }

    lemma ActedEarlier(p: nat, log: seq<Happening>, n: nat, m: nat)
      requires p < |cap.steps| && n <= m && ActedSince(p, log, m)
      ensures ActedSince(p, log, n)
    {
    }

    method ActFailure(p: nat, message: string) returns (r: Exit<RunStopped>)
      requires Valid() && p < |cap.steps| && message != "" && Because(cap, surface.log, since, Code.ActionFailed)
      modifies this`pauses, this`hooks, this`ordinary, this`recoveries, this`interventionPath
      modifies surface`clock, surface`drift
      ensures Kept(r.Crashed?)
      ensures surface.Slept() == old(surface.Slept())
      ensures Inside(cap, old(Now()), Now(), p) && Raises(cap, Outside(), old(Now()), Now(), r)
    {
      hide ActionDidFail, Inside, Raises, AttemptsSound, RecordsSound, Told, Because, ClicksPaid;
      assert StepTyped(cap.steps[p]);
      r := StepFailure(p, Code.ActionFailed, ActionDidFail(message), cap.steps[p].description, message);
    }

    /** One try and, if it may be repeated, a pause, with less of the step's time left. */
    method TryThenPause(p: nat, begin: int) returns (r: Exit<bool>)
      requires Valid() && MayAct() && p < |cap.steps|
      modifies this, surface, gated
      ensures Kept(r.Crashed?)
      ensures Works(cap, Outside(), gated.confirm, old(Now()), Now(), p, r) && TraceKept(old(Now()), Now())
      ensures Tries(p, begin, old(Now()), Now(), r) && GivesUp(p, begin, gated.judged, surface.clock, r)
      decreases p, 13
    {
      hide TriesOnce, ValidCapability, AttemptsSound, RecordsSound, Told, OutcomeCodes, Rows, GuardedActs;
      hide OtherGuardedActs, IrreversibleRenamed, GoodHandback, HandBacks, Pauses, Unverified, StopFits, ClicksPaid;
      hide Because, WaitMost, Carries, Ends, ActsWithin, Works, ActedIn, TraceKept, Tries, Retries, GivesUp;
      hide Retryable, Outside;
      ghost var v0, env, confirm := Now(), Outside(), gated.confirm;
      r := TryAction(p, begin);
      ghost var v1 := Now();
      AttemptMeans(p, begin, v0, v1, gated.judged, r);
      var again := r == Done(false);
      if again { surface.Sleep(POLL_MS); }
      TriedOnce(p, begin, v0, v1, Now(), gated.judged, r);
      WorksOn(cap, env, confirm, v0, v1, Now(), p, r);
    }

    lemma AttemptMeans(p: nat, begin: int, a: View, b: View, judged: Option<RiskClass>, r: Exit<bool>)
      requires p < |cap.steps| && TriesOnce(p, begin, a, b, judged, r)
      ensures Works(cap, Outside(), gated.confirm, a, b, p, r) && a.clock <= b.clock && a.drift <= b.drift
    {
      hide Works, TraceKept, WaitMost, ActedIn, Retryable;
      WorksParts(cap, Outside(), gated.confirm, a, b, p, r);
    }

    /** How one try went: it acted, or may be repeated, or ended the step; and how long it slept. */
    ghost predicate Tries(p: nat, begin: int, a: View, b: View, r: Exit<bool>)
      requires p < |cap.steps|
    {
      && (r == Done(true) ==> ActedIn(p, a, b))
      && (if r == Done(false) then !Guarded(cap.steps[p]) && Retries(p, begin, a, b)
          else Asleep(b) - Asleep(a) <= WaitMost(cap, p, cap.steps[p].waitFor.timeoutMs))
    }

    lemma TriedOnce(p: nat, begin: int, a: View, b: View, c: View, judged: Option<RiskClass>, r: Exit<bool>)
      requires p < |cap.steps| && a.clock <= b.clock && a.drift <= b.drift && TriesOnce(p, begin, a, b, judged, r)
      requires if r == Done(false)
               then c == b.(clock := c.clock, drift := c.drift)
                 && c.clock - b.clock - POLL_MS == c.drift - b.drift >= 0
               else c == b
      ensures Tries(p, begin, a, c, r) && GivesUp(p, begin, judged, c.clock, r) && TraceKept(a, c)
    {
      hide ActedIn, WaitMost, Works;
    }

    /** A failed try and the pause after it leave less of the step's time, and slept no longer than it and a pause. */
    ghost predicate Retries(p: nat, begin: int, a: View, b: View)
      requires p < |cap.steps|
    {
      var end := begin + cap.steps[p].waitFor.timeoutMs;
      Left(end, b.clock) < Left(end, a.clock) && Asleep(b) + a.drift < end + POLL_MS
    }

    /** The step's trace while it runs: the flow counts its tries, a re-run leaves none. */
    ghost predicate Tracked(p: nat, flow: bool, a: View, b: View) {
      && b.records == a.records && b.reached == a.reached
      && if flow then b.current.Some? && b.current.value.step == p else b.current == a.current
    }

    /** One more try: its progress, counted whether or not it acted. */
    method TryAgain(p: nat, begin: int, flow: bool, before: Progress) returns (r: Exit<Progress>)
      requires Valid() && MayAct() && p < |cap.steps| && before.step == p && !before.acted
      requires flow ==> current == Some(before)
      modifies this, surface, gated
      ensures GivesUp(p, begin, gated.judged, surface.clock, r)
      ensures Counts(p, begin, flow, before, old(Now()), Now(), r)
      ensures Works(cap, Outside(), gated.confirm, old(Now()), Now(), p, r) && Tracked(p, flow, old(Now()), Now())
      ensures Kept(r.Crashed?)
      decreases p, 14
    {
      hide ValidCapability, AttemptsSound, RecordsSound, Told, OutcomeCodes, Rows, GuardedActs, OtherGuardedActs;
      hide IrreversibleRenamed, GoodHandback, HandBacks, Pauses, Unverified, StopFits, ClicksPaid, Because, WaitMost;
      hide Carries, Ends, ActsWithin, Works, Ready, ActedIn, TraceKept, Tries, GivesUp, Outside, Tracked, Counts;
      ghost var v0, env, confirm := Now(), Outside(), gated.confirm;
      var progress := before.(attempts := before.attempts + 1);
      Count(flow, progress, false);
      ghost var v1 := Now();
      ReadySelf(cap, env, v0, v1, p);
      var tried := TryThenPause(p, begin);
      ghost var v2 := Now();
      ReadyThen(cap, env, confirm, v0, v1, v2, p, tried);
      progress := progress.(acted := tried.Done? && tried.value);
      Count(flow && tried.Done?, progress, tried.Crashed?);
      WorksOn(cap, env, confirm, v0, v2, Now(), p, tried);
      r := if tried.Done? then Done(progress) else tried.PropagateFailure();
      WorksAs(cap, env, confirm, v0, Now(), p, tried, r);
      TryCounted(p, begin, flow, before, v0, v1, v2, Now(), gated.judged, tried, r);
    }

    /** The flow keeps the progress of its step. */
    method Count(flow: bool, progress: Progress, ghost crashed: bool)
      requires Kept(crashed)
      modifies this`current
      ensures Kept(crashed) && Now() == if flow then old(Now()).(current := Some(progress)) else old(Now())
    {
      current := if flow then Some(progress) else current;
    }

    /** One try, counted: it acted, or it did not and less of the step's time is left. */
    ghost predicate Counts(p: nat, begin: int, flow: bool, before: Progress, a: View, b: View, r: Exit<Progress>)
      requires p < |cap.steps|
    {
      && (if r.Done? && !r.value.acted then !Guarded(cap.steps[p]) && Retries(p, begin, a, b)
          else Asleep(b) - Asleep(a) <= WaitMost(cap, p, cap.steps[p].waitFor.timeoutMs))
      && (r.Done? ==>
            && r.value.step == p && r.value.attempts == before.attempts + 1 && (flow ==> b.current == Some(r.value))
            && (r.value.acted ==> ActedIn(p, a, b)))
    }

    lemma TryCounted(p: nat, begin: int, flow: bool, before: Progress, a: View, b: View, c: View, d: View,
      judged: Option<RiskClass>, e: Exit<bool>, r: Exit<Progress>)
      requires p < |cap.steps| && before.step == p && b == a.(current := b.current) && d == c.(current := d.current)
      requires TraceKept(b, c) && Tries(p, begin, b, c, e) && GivesUp(p, begin, judged, c.clock, e)
      requires if e.Done? then r == Done(Progress(p, before.attempts + 1, e.value)) else r == e.PropagateFailure()
      requires if flow then
        && b.current.Some? && b.current.value.step == p
        && d.current == if r.Done? then Some(r.value) else c.current
        else b.current == a.current && d.current == c.current
      ensures Tracked(p, flow, a, d) && Counts(p, begin, flow, before, a, d, r)
      ensures GivesUp(p, begin, judged, d.clock, r)
    {
      hide WaitMost, Retryable, Acted, ActedSince;
    }

    /** Tries a step's action until it acts, within the step's own timeout. Returns how many tries it took. */
    method ActInTime(p: nat, flow: bool) returns (r: Exit<nat>)
      requires Valid() && MayAct() && p < |cap.steps|
      requires flow ==> current == Some(Progress(p, 0, false))
      modifies this, surface, gated
      ensures Kept(r.Crashed?)
      ensures surface.Slept() - old(surface.Slept()) <=
        cap.steps[p].waitFor.timeoutMs + POLL_MS + WaitMost(cap, p, cap.steps[p].waitFor.timeoutMs)
      ensures Works(cap, Outside(), gated.confirm, old(Now()), Now(), p, r) && Tracked(p, flow, old(Now()), Now())
      ensures r.Done? ==> r.value >= 1 && ActedIn(p, old(Now()), Now())
      ensures r.Done? && Guarded(cap.steps[p]) ==> r.value == 1
      ensures GivesUp(p, old(surface.clock), gated.judged, surface.clock, r)
      decreases p, 15
    {
      hide ValidCapability, AttemptsSound, RecordsSound, Told, OutcomeCodes, Rows, GuardedActs, OtherGuardedActs;
      hide IrreversibleRenamed, GoodHandback, HandBacks, Pauses, Unverified, StopFits, ClicksPaid, Because, WaitMost;
      hide Carries, Ends, ActsWithin, Works, Ready, ActedIn, GivesUp, Outside, Tracked, Counts, Left, Trying;
      ghost var v0, env, confirm := Now(), Outside(), gated.confirm;
      var begin := surface.clock;
      var progress := Progress(p, 0, false);
      TryingStarts(p, flow, v0);
      while !progress.acted
        invariant Valid() && MayAct() && progress.step == p && (flow ==> current == Some(progress))
        invariant Trying(p, flow, v0, Now(), progress)
        decreases !progress.acted, Left(begin + cap.steps[p].waitFor.timeoutMs, surface.clock)
      {
        ghost var v1 := Now();
        var tried := TryAgain(p, begin, flow, progress);
        TryingOn(p, begin, flow, v0, v1, Now(), progress, tried);
        if tried.IsFailure() {
          r := tried.PropagateFailure();
          WorksAs(cap, env, confirm, v0, Now(), p, tried, r);
          GivesUpAs(p, begin, surface.clock, tried, r);
          return;
        }
        progress := tried.value;
      }
      r := Done(progress.attempts);
      TryingEnds(p, flow, v0, Now(), progress, r);
    }

    /** In the middle of trying: nothing guarded was done, or the step's own action was, and the time it took. */
    ghost predicate Trying(p: nat, flow: bool, a: View, b: View, progress: Progress)
      requires p < |cap.steps|
    {
      var most := WaitMost(cap, p, cap.steps[p].waitFor.timeoutMs);
      && Tracked(p, flow, a, b)
      && Asleep(b) - Asleep(a) <= cap.steps[p].waitFor.timeoutMs + POLL_MS + (if progress.acted then most else 0)
      && (Guarded(cap.steps[p]) ==> progress.attempts == if progress.acted then 1 else 0)
      && (if progress.acted then
            && Works(cap, Outside(), gated.confirm, a, b, p, Done(())) && ActedIn(p, a, b) && progress.attempts >= 1
          else Ready(cap, Outside(), a, b, p))
    }

    lemma TryingStarts(p: nat, flow: bool, a: View)
      requires p < |cap.steps| && (flow ==> a.current == Some(Progress(p, 0, false)))
      ensures Trying(p, flow, a, a, Progress(p, 0, false))
    {
      hide WaitMost, Ready;
      ReadySelf(cap, Outside(), a, a, p);
    }

    lemma TryingOn(p: nat, begin: int, flow: bool, a: View, b: View, c: View, progress: Progress, e: Exit<Progress>)
      requires p < |cap.steps| && begin == a.clock && !progress.acted && Trying(p, flow, a, b, progress)
      requires Works(cap, Outside(), gated.confirm, b, c, p, e) && Tracked(p, flow, b, c)
      requires Counts(p, begin, flow, progress, b, c, e)
      ensures Works(cap, Outside(), gated.confirm, a, c, p, e) && Tracked(p, flow, a, c)
      ensures Asleep(c) - Asleep(a) <=
        cap.steps[p].waitFor.timeoutMs + POLL_MS + WaitMost(cap, p, cap.steps[p].waitFor.timeoutMs)
      ensures e.Done? ==>
        && Trying(p, flow, a, c, e.value) && c.reverifying == b.reverifying
        && e.value.step == p && (flow ==> c.current == Some(e.value))
      ensures e.Done? && !e.value.acted ==>
        Left(begin + cap.steps[p].waitFor.timeoutMs, c.clock) < Left(begin + cap.steps[p].waitFor.timeoutMs, b.clock)
    {
      hide Works, Ready, ActedIn, WaitMost, Left, Outside;
      ReadyThen(cap, Outside(), gated.confirm, a, b, c, p, e);
      ReadyGrows(cap, Outside(), a, b, p);
      WorksParts(cap, Outside(), gated.confirm, b, c, p, e);
      if e.Done? {
        WorksAs(cap, Outside(), gated.confirm, a, c, p, e, Done(()));
        if e.value.acted { ActedLate(p, a, b, c); }
      }
    }

    lemma TryingEnds(p: nat, flow: bool, a: View, b: View, progress: Progress, r: Exit<nat>)
      requires p < |cap.steps| && progress.acted && Trying(p, flow, a, b, progress) && r == Done(progress.attempts)
      ensures Works(cap, Outside(), gated.confirm, a, b, p, r) && Tracked(p, flow, a, b) && ActedIn(p, a, b)
      ensures r.value >= 1 && (Guarded(cap.steps[p]) ==> r.value == 1)
      ensures Asleep(b) - Asleep(a) <=
        cap.steps[p].waitFor.timeoutMs + POLL_MS + WaitMost(cap, p, cap.steps[p].waitFor.timeoutMs)
      ensures GivesUp(p, a.clock, gated.judged, b.clock, r)
    {
      hide Works, Ready, ActedIn, WaitMost, Outside, Tracked;
      WorksAs(cap, Outside(), gated.confirm, a, b, p, Done(()), r);
    }

    lemma GivesUpAs<T, U>(p: nat, begin: int, now: int, e: Exit<T>, f: Exit<U>)
      requires p < |cap.steps| && GivesUp(p, begin, gated.judged, now, e)
      requires e.IsFailure() && f == e.PropagateFailure()
      ensures GivesUp(p, begin, gated.judged, now, f)
    {
      hide Retryable;
    }

    /** The step's action and, unless it is skipped, its wait. */
    method ActAndWait(p: nat, flow: bool, skipWait: bool) returns (r: Exit<nat>)
      requires Valid() && MayAct() && p < |cap.steps|
      requires flow ==> current == Some(Progress(p, 0, false))
      modifies this, surface, gated
      ensures Kept(r.Crashed?)
      ensures surface.Slept() - old(surface.Slept()) <= StepCost(cap, p)
      ensures Works(cap, Outside(), gated.confirm, old(Now()), Now(), p, r) && Tracked(p, flow, old(Now()), Now())
      ensures r.Done? ==> r.value >= 1 && Ran(p, skipWait, old(Now()), Now())
      ensures GivesUp(p, old(surface.clock), gated.judged, surface.clock, r)
      decreases p, 16
    {
      hide ValidCapability, AttemptsSound, RecordsSound, Told, OutcomeCodes, Rows, GuardedActs, OtherGuardedActs;
      hide IrreversibleRenamed, GoodHandback, HandBacks, Pauses, Unverified, StopFits, ClicksPaid, Because, WaitMost;
      hide Inside, Carries, Ends, ActsWithin, Works, ActedIn, GivesUp, Outside, Tracked, Asked, Ran;
      ghost var v0, env, confirm := Now(), Outside(), gated.confirm;
      r := ActInTime(p, flow);
      ghost var v1 := Now();
      if r.IsFailure() || skipWait {
        if r.Done? { RanUnseen(p, v0, v1); }
        return;
      }
      var tries := r.value;
      var waited := Wait(p);
      ghost var v2 := Now();
      WaitedToo(p, flow, tries, v0, v1, v2, gated.judged, waited);
      r := if waited.Done? then Done(tries) else waited.PropagateFailure();
    }

    /** What a step that ran has done: it acted, and unless its wait was skipped it then was seen to pass. */
    ghost predicate Ran(p: nat, skipWait: bool, a: View, b: View)
      requires p < |cap.steps|
    {
      && ActedIn(p, a, b)
      && (!skipWait ==>
            Asked(p, AwaitedBy(cap.steps[p]), a.held, b.held) && ActedThenSeen(cap, p, b.log, |a.log|, |b.log|))
    }

    lemma RanUnseen(p: nat, a: View, b: View)
      requires p < |cap.steps| && ActedIn(p, a, b)
      ensures Ran(p, true, a, b)
    {
    }

    lemma WaitedToo(
      p: nat, flow: bool, tries: nat, a: View, b: View, c: View, judged: Option<RiskClass>, waited: Exit<()>)
      requires p < |cap.steps| && Works(cap, Outside(), gated.confirm, a, b, p, Done(tries)) && Tracked(p, flow, a, b)
      requires Inside(cap, b, c, p) && Ends(cap, Around(), b, c, waited)
      requires ActedIn(p, a, b)
      requires waited.Done? ==>
        && Asked(p, AwaitedBy(cap.steps[p]), b.held, c.held)
        && SeenSince(p, AwaitedBy(cap.steps[p]), b.log, c.log)
      ensures var r: Exit<nat> := if waited.Done? then Done(tries) else waited.PropagateFailure();
        && Works(cap, Outside(), gated.confirm, a, c, p, r) && Tracked(p, flow, a, c)
        && (r.Done? ==> Ran(p, false, a, c)) && GivesUp(p, a.clock, judged, c.clock, r)
    {
      hide Works, Carries, Ends, Asked, SeenSince, ActedSince, ActedThenSeen, Retryable;
      EndsOutside(cap, Around(), b, c, waited);
      var r: Exit<nat> := if waited.Done? then Done(tries) else waited.PropagateFailure();
      WorksParts(cap, Outside(), gated.confirm, a, b, p, Done(tries));
      WorksThen(cap, Outside(), gated.confirm, a, b, c, p, Done(tries), waited);
      WorksAs(cap, Outside(), gated.confirm, a, c, p, waited, r);
      InsideMonotone(cap, b, c, p);
      InsideParts(cap, b, c, p);
      if waited.Done? {
        ActedAmong(p, a.acts, a.acts, b.acts, c.acts);
        AskedSince(p, AwaitedBy(cap.steps[p]), a.held, b.held, c.held);
        InThatOrder(p, a.log, b.log, c.log);
        ActedStill(p, b.log, c.log, |a.log|);
      } else if waited.Stopped? {
        NoFailureInWait(b, c, waited);
      }
    }

    lemma ActedStill(p: nat, was: seq<Happening>, now: seq<Happening>, n: nat)
      requires p < |cap.steps| && was <= now && ActedSince(p, was, n)
      ensures ActedSince(p, now, n)
    {
      var i :| n <= i < |was| && IsOwnAct(p, was[i]);
      assert IsOwnAct(p, now[i]);
    }

    lemma NoFailureInWait<T>(a: View, b: View, e: Exit<T>)
      requires Ends(cap, Around(), a, b, e) && e.Stopped?
      ensures !FailedToAct(e.stop)
    {
      hide Because, StopFits, HandBacks, Unverified, Pauses, GoodHandback;
    }

    lemma InThatOrder(p: nat, a: seq<Happening>, b: seq<Happening>, c: seq<Happening>)
      requires p < |cap.steps| && a <= b && ActedSince(p, b, |a|) && SeenSince(p, AwaitedBy(cap.steps[p]), b, c)
      ensures ActedThenSeen(cap, p, c, |a|, |c|)
    {
      var i :| |a| <= i < |b| && IsOwnAct(p, b[i]);
      assert c[i] == b[i];
    }

    /** Runs one step: its action, at most once if it is guarded, and then its wait. A re-run leaves no trace. */
    method RunStep(p: nat, flow: bool, skipWait: bool) returns (r: Exit<()>)
      requires Valid() && MayAct() && p < |cap.steps| && (!flow ==> !Guarded(cap.steps[p]))
      modifies this, surface, gated
      ensures surface.Slept() - old(surface.Slept()) <= StepCost(cap, p)
      ensures GivesUp(p, old(surface.clock), gated.judged, surface.clock, r)
      ensures r.Done? ==> Ran(p, skipWait, old(Now()), Now())
      ensures if flow then StepTraced(p, old(Now()), Now(), r.Done?) else TraceKept(old(Now()), Now())
      ensures Works(cap, Outside(), gated.confirm, old(Now()), Now(), p, r)
      ensures Kept(r.Crashed?)
      decreases p, 17
    {
      hide ValidCapability, AttemptsSound, RecordsSound, Told, OutcomeCodes, Rows, GuardedActs, OtherGuardedActs;
      hide IrreversibleRenamed, GoodHandback, HandBacks, Pauses, Unverified, StopFits, ClicksPaid, Because, WaitMost;
      hide Carries, Ends, ActsWithin, Works, GivesUp, Outside, Tracked, Ran, StepTraced, TraceKept, StepCost;
      ghost var v0 := Now();
      Begin(p, flow);
      ghost var v1 := Now();
      var done := ActAndWait(p, flow, skipWait);
      ghost var v2 := Now();
      Note(p, flow, done);
      r := if done.Done? then Done(()) else done.PropagateFailure();
      StepEnds(p, flow, skipWait, v0, v1, v2, Now(), gated.judged, done, r);
    }

    /** The flow is at step p. */
    method Begin(p: nat, flow: bool)
      requires Valid() && p < |cap.steps|
      modifies this`reached, this`current
      ensures Valid() && (flow ==> current == Some(Progress(p, 0, false)))
      ensures Now() == if flow
        then old(Now()).(reached := Some(cap.steps[p].id), current := Some(Progress(p, 0, false))) else old(Now())
    {
      reached := if flow then Some(cap.steps[p].id) else reached;
      current := if flow then Some(Progress(p, 0, false)) else current;
    }

    /** A step of the flow that passed leaves its record. */
    method Note(p: nat, flow: bool, done: Exit<nat>)
      requires Kept(done.Crashed?) && p < |cap.steps|
      modifies this`records, this`current
      ensures Kept(done.Crashed?)
      ensures Now() == if flow && done.Done?
        then old(Now()).(records := old(records) + [StepRecord(cap.steps[p].id, true, done.value)], current := None)
        else old(Now())
    {
      var passed := flow && done.Done?;
      records := if passed then records + [StepRecord(cap.steps[p].id, true, done.value)] else records;
      current := if passed then None else current;
    }

    /** What the engine notes before and after a step's work leaves the work as it is. */
    lemma StepEnds(p: nat, flow: bool, skipWait: bool, a: View, b: View, c: View, d: View,
      judged: Option<RiskClass>, e: Exit<nat>, r: Exit<()>)
      requires p < |cap.steps| && b == a.(reached := b.reached, current := b.current)
      requires Works(cap, Outside(), gated.confirm, b, c, p, e) && Tracked(p, flow, b, c)
      requires e.Done? ==> e.value >= 1 && Ran(p, skipWait, b, c)
      requires GivesUp(p, b.clock, judged, c.clock, e)
      requires r == if e.Done? then Done(()) else e.PropagateFailure()
      requires d == c.(records := d.records, current := d.current)
      requires if flow then b.reached == Some(cap.steps[p].id) else b == a
      requires if flow && e.Done? then
        d.records == c.records + [StepRecord(cap.steps[p].id, true, e.value)] && d.current.None?
        else d == c
      ensures Works(cap, Outside(), gated.confirm, a, d, p, r)
      ensures r.Done? ==> Ran(p, skipWait, a, d)
      ensures if flow then StepTraced(p, a, d, r.Done?) else TraceKept(a, d)
      ensures GivesUp(p, a.clock, judged, d.clock, r)
    {
      hide Works, Ready, Outside, Asked, ActedThenSeen, ActedSince, Acted, Retryable;
      ReadySelf(cap, Outside(), a, b, p);
      ReadyThen(cap, Outside(), gated.confirm, a, b, c, p, e);
      WorksOn(cap, Outside(), gated.confirm, a, c, d, p, e);
      WorksAs(cap, Outside(), gated.confirm, a, d, p, e, r);
    }

    /** A step of the flow leaves one passed record, or stays the current step. */
    ghost predicate StepTraced(p: nat, a: View, b: View, done: bool)
      requires p < |cap.steps|
    {
      && b.reached == Some(cap.steps[p].id)
      && (done ==>
            && b.current.None? && |b.records| == |a.records| + 1 && b.records[..|a.records|] == a.records
            && b.records[|a.records|].stepId == cap.steps[p].id
            && b.records[|a.records|].passed && b.records[|a.records|].attempts >= 1)
      && (!done ==> b.records == a.records && b.current.Some? && b.current.value.step == p)
    }

    /** The step's own action reached the application at least once more. */
    ghost predicate Acted(p: nat, was: multiset<ActBy>, now: multiset<ActBy>)
      requires p < |cap.steps|
    {
      now[Own(cap.steps[p].id)] > was[Own(cap.steps[p].id)]
    }

    lemma ActedAmong(p: nat, a: multiset<ActBy>, b: multiset<ActBy>, c: multiset<ActBy>, d: multiset<ActBy>)
      requires p < |cap.steps| && a <= b && Acted(p, b, c) && c <= d
      ensures Acted(p, a, d)
    {
    }

    // ---- hand-backs ------------------------------------------------------------------------------

    /** What one pass over a step's detectors did; what is opened covers everything started. */
    ghost predicate LooksOnce(p: nat, a: View, b: View, begun: seq<OpenRecovery>, matched: Option<nat>, r: Exit<()>)
      requires p < |cap.steps|
    {
      && OpenSound(cap, begun) && Opens(cap, p, a.attempts, b.attempts, [], begun)
      && Inside(cap, a, b, p) && Ends(cap, Around(), a, b, r)
      && SleptWithin(p, cap.steps[p].waitFor.timeoutMs, false, a, b)
      && (r.Done? ==> LookedOnce(p, a.log, b.log, matched))
    }

    /** Drains events and asks a step's detectors once. */
    method LookOnce(p: nat) returns (r: Exit<()>, begun: seq<OpenRecovery>, ghost matched: Option<nat>)
      requires Valid() && p < |cap.steps| && Waiting(p)
      modifies this, surface, gated
      ensures LooksOnce(p, old(Now()), Now(), begun, matched, r)
      ensures Kept(r.Crashed?)
    {
      hide ValidCapability, AttemptsSound, RecordsSound, Told, ClicksPaid, Because, LooksOnce, Heeds, OnlyTime, Scan;
      hide Eligible, OpenSound, Inside, Ends, Handled, Fired, KeysOf;
      ghost var v0 := Now();
      begun, matched := [], None;
      NothingOpen(0);
      var drained := RaiseOnEvents(p);
      ghost var v1 := Now();
      if drained.IsFailure() {
        LookRefused(p, v0, v1, drained);
        return drained, [], None;
      }
      HeedsMeans(p, v0, v1, drained);
      var found := Matching(p, {}, None);
      ghost var v2 := Now();
      if found.IsFailure() || found.value.None? {
        r := if found.Done? then Done(()) else ControlLost;
        LookUnmatched(p, v0, v1, v2, drained, found, r);
        OlderLog(v1, v2);
        return;
      }
      OlderLog(v1, v2);
      matched := found.value;
      ScanFires(cap, v1.log, v2.log, since, p, {}, false, matched.value);
      var handled: Exit<bool>;
      handled, begun := Handle(p, found.value.value, []);
      r := if handled.Done? then Done(()) else handled.PropagateFailure();
      LookHandled(p, matched.value, v0, v1, v2, Now(), begun, drained, handled, r);
    }

    lemma OlderLog(a: View, b: View)
      requires OnlyTime(a, b)
      ensures a.log <= b.log
    {
    }

    lemma HeedsMeans(p: nat, a: View, b: View, e: Exit<()>)
      requires p < |cap.steps| && Heeds(p, a, b, e) && e.Done?
      ensures b.log == a.log + [Clean()] && a.clock <= b.clock && b.since == a.since
    {
    }

    lemma LookRefused(p: nat, a: View, b: View, e: Exit<()>)
      requires p < |cap.steps| && Heeds(p, a, b, e) && e.IsFailure()
      ensures LooksOnce(p, a, b, [], None, e)
    {
      hide Inside, Ends, Opens, SleptWithin, LookedOnce;
      NothingOpen(0);
      OpensMore(cap, p, a.attempts, [], []);
      NothingSlept(p, a, b);
    }

    lemma LookUnmatched(p: nat, a: View, b: View, c: View, e: Exit<()>, found: Exit<Option<nat>>, r: Exit<()>)
      requires p < |cap.steps| && Heeds(p, a, b, e) && e.Done? && OnlyTime(b, c) && Asleep(c) == Asleep(b)
      requires found.Done? || (found.ControlLost? && surface.attached)
      requires found.Done? ==> found.value.None? && c.log == b.log + Scan(cap, p, {}, false, None)
      requires r == if found.Done? then Done(()) else ControlLost
      ensures LooksOnce(p, a, c, [], None, r)
    {
      hide Spends, Opens, SleptWithin, Scan, Inside, Ends;
      NothingOpen(0);
      AskingSpends(cap, Around(), b, c, p, r);
      SpendsThen(cap, Around(), 0, 0, a, b, c, p, e, r);
      SpendsMeans(p, 0, a, c, r);
      OpensMore(cap, p, a.attempts, [], []);
      NothingSlept(p, a, c);
    }

    lemma LookHandled(p: nat, d: nat, a: View, b: View, c: View, w: View, begun: seq<OpenRecovery>, e: Exit<()>,
      handled: Exit<bool>, r: Exit<()>)
      requires p < |cap.steps| && d < |cap.detectors| && Heeds(p, a, b, e) && e.Done?
      requires OnlyTime(b, c) && Asleep(c) == Asleep(b) && c.log == b.log + Scan(cap, p, {}, false, Some(d))
      requires OpenSound(cap, begun) && Inside(cap, c, w, p) && Ends(cap, Around(), c, w, handled)
      requires Handled(p, d, [], begun, c, w, handled)
      requires r == if handled.Done? then Done(()) else handled.PropagateFailure()
      ensures LooksOnce(p, a, w, begun, Some(d), r)
    {
      hide Opens, SleptWithin, Scan, Handled, OpenSound, Inside, Ends, Quiet;
      QuietSelf(cap, Around(), a, p);
      Goes(cap, Around(), a, a, b, p, e);
      Idle(cap, Around(), a, b, c, p);
      InsideMonotone(cap, c, w, p);
      HandledOnce(p, d, begun, a, c, w, handled);
      if handled.Done? {
        Goes(cap, Around(), a, c, w, p, handled);
        Finishes(cap, Around(), a, w, p, ());
      } else {
        Fails<bool, ()>(cap, Around(), a, c, w, p, handled);
      }
    }

    /**
     * One pass over a step's detectors: events were drained, none refused, then every detector in scope was
     * asked up to the first that held; nothing else happened if none did, and one that did is recoverable.
     */
    ghost predicate LookedOnce(p: nat, was: seq<Happening>, now: seq<Happening>, matched: Option<nat>)
      requires p < |cap.steps|
    {
      && (matched.Some? ==> matched.value < |cap.detectors| && cap.detectors[matched.value].outcome.Recoverable?)
      && was + [Clean()] + Scan(cap, p, {}, false, matched) <= now
      && (matched.None? ==> now == was + [Clean()] + Scan(cap, p, {}, false, None))
    }

    lemma NothingSlept(p: nat, a: View, b: View)
      requires p < |cap.steps| && Asleep(b) == Asleep(a) && b.attempts == a.attempts
      ensures SleptWithin(p, cap.steps[p].waitFor.timeoutMs, false, a, b)
    {
      NoCharges(cap, p, cap.steps[p].waitFor.timeoutMs, false, a.attempts, |cap.detectors|);
    }

    lemma HandledOnce(p: nat, d: nat, begun: seq<OpenRecovery>, a: View, b: View, c: View, e: Exit<bool>)
      requires p < |cap.steps| && d < |cap.detectors| && Handled(p, d, [], begun, b, c, e)
      requires Asleep(b) == Asleep(a) && b.attempts == a.attempts
      ensures Opens(cap, p, a.attempts, c.attempts, [], begun)
      ensures SleptWithin(p, cap.steps[p].waitFor.timeoutMs, false, a, c)
      ensures e.Done? ==> cap.detectors[d].outcome.Recoverable?
    {
      hide WindowsWithin, OpenIndex, Dets, ActingCost;
      NoCharges(cap, p, cap.steps[p].waitFor.timeoutMs, false, a.attempts, |cap.detectors|);
      ChargesGrow(cap, p, cap.steps[p].waitFor.timeoutMs, false, a.attempts,
                  b.attempts, c.attempts, d, |cap.detectors|);
    }

    /** Runs a step's detectors once and closes what they opened. */
    method DetectorsOnce(p: nat) returns (r: Exit<()>, ghost matched: Option<nat>)
      requires Valid() && p < |cap.steps|
      modifies this, surface, gated
      ensures Kept(r.Crashed?)
      ensures Inside(cap, old(Now()), Now(), p) && Ends(cap, Around(), old(Now()), Now(), r)
      ensures surface.Slept() - old(surface.Slept()) <= WaitMost(cap, p, cap.steps[p].waitFor.timeoutMs)
      ensures r.Done? ==> LookedOnce(p, old(surface.log), surface.log, matched)
    {
      hide ValidCapability, AttemptsSound, RecordsSound, Told, OutcomeCodes, Rows, GuardedActs, OtherGuardedActs;
      hide IrreversibleRenamed, GoodHandback, HandBacks, Pauses, Unverified, SleptWithin, LookedOnce, WaitMost;
      hide OpenSound, Opens, KeysOf, StopFits, Inside, Ends, ClicksPaid, Because;
      ghost var v0, started0 := Now(), started;
      Pend(p);
      ghost var v1 := Now();
      var begun: seq<OpenRecovery>;
      r, begun, matched := LookOnce(p);
      ghost var v2 := Now();
      WaitMostSlept(p, cap.steps[p].waitFor.timeoutMs, false, v1, v2, started);
      if r.Done? || r.Stopped? || r.HandedBack? {
        InsideGrows(cap, v1, v2, p);
        PendingKept(cap, Around(), v1, v2, r);
        CloseWait(p, begun, r.Done?, v0, started0);
      }
      WaitEnds(cap, Around(), v0, v1, v2, Now(), p, r);
    }

    /** What re-verifying keeps, whatever it ends in: no guarded act, nothing irreversible on a renamed target. */
    ghost predicate Looks(p: nat, a: View, b: View)
      requires p < |cap.steps|
    {
      && !b.reverifying && b.reached == a.reached && a.pauses <= b.pauses
      && GuardedActs(cap, b.acts) == GuardedActs(cap, a.acts)
      && IrreversibleRenamed(cap, b.renamed) == IrreversibleRenamed(cap, a.renamed)
      && a.held <= b.held && a.acts <= b.acts && a.log <= b.log
      && Asleep(b) - Asleep(a) <= WaitMost(cap, p, cap.steps[p].waitFor.timeoutMs)
    }

    /**
     * What one re-verification did: the step passes and None comes back, or its failure ends in a hand-off stop or,
     * after one more pause, in the next hand-back.
     */
    ghost predicate Reverified(p: nat, a: View, b: View, r: Exit<Option<Handback>>)
      requires p < |cap.steps|
    {
      && Looks(p, a, b)
      && (r.Done? || r.Stopped? ==> HandBacks(b.recoveries) > 0)
      && (if r == Done(None) && a.current.Some? then Passes(p, a.records, b.records) && b.current.None?
          else b.records == a.records && b.current == a.current)
      && (r.Done? && r.value.Some? ==> GoodHandback(r.value.value) && a.pauses < b.pauses)
      && (r.Stopped? ==> HandoffStop(cap, surface.attached, r.stop))
      && (r.HandedBack? ==> Escapes(r.handback))
      && (r == Done(None) && cap.steps[p].waitFor.CheckpointWait? ==>
            Asked(p, AwaitedBy(cap.steps[p]), a.held, b.held))
      && (r.Done? || r.Stopped? || r.HandedBack? ==> b.pending == a.pending)
    }

    /** After a hand-back: looks at the step again, and records what became of the hand-back. */
    method Reverify(p: nat, handback: Handback) returns (r: Exit<Option<Handback>>)
      requires Valid() && p < |cap.steps| && GoodHandback(handback) && !reverifying && surface.attached
      requires current.Some? ==> current.value.step == p
      modifies this, surface, gated
      ensures Reverified(p, old(Now()), Now(), r)
      ensures Kept(r.Crashed?)
    {
      hide ValidCapability, AttemptsSound, RecordsSound, Told, ClicksPaid, Because, GoodHandback, HandBacks;
      hide LooksAgain, Reverified, Escapes, HandoffStop, StopFits;
      ghost var v0 := Now();
      var waited, matched := LookAgain(p);
      ghost var v1 := Now();
      LooksMeans(p, v0, v1, matched, waited);
      match waited
      case Stopped(stop) =>
        RecordHandback(handback, false);
        ghost var v2 := Now();
        r := AskAgain(stop);
        ReverifyFailed(p, v0, v1, v2, Now(), matched, waited, r);
      case Done(_) =>
        RecordHandback(handback, cap.steps[p].waitFor.CheckpointWait?);
        RecordStep(p);
        r := Done(None);
        ReverifyPassed(p, v0, v1, Now(), matched, waited, r);
      case _ =>
        r := waited.PropagateFailure();
        ReverifyBroke(p, v0, v1, matched, waited, r);
    }

    lemma LooksMeans(p: nat, a: View, b: View, matched: Option<nat>, waited: Exit<()>)
      requires p < |cap.steps| && LooksAgain(p, a, b, matched, waited)
      ensures !b.reverifying && b.current == a.current
      ensures waited.Stopped? ==> StopFits(cap, surface.attached, waited.stop)
    {
      hide LookedOnce, StopFits, GuardedActs, IrreversibleRenamed, WaitMost, HandBacks, Escapes;
    }

    lemma ReverifyFailed(p: nat, a: View, b: View, c: View, d: View, matched: Option<nat>, waited: Exit<()>,
      r: Exit<Option<Handback>>)
      requires p < |cap.steps| && LooksAgain(p, a, b, matched, waited) && waited.Stopped?
      requires c == b.(recoveries := c.recoveries) && AsksAgain(c, d, r)
      ensures Reverified(p, a, d, r)
    {
      hide LookedOnce, StopFits, HandBacks, GoodHandback, HandoffStop, Escapes, GuardedActs, IrreversibleRenamed;
      hide WaitMost, Passes, Asked;
    }

    lemma ReverifyPassed(p: nat, a: View, b: View, c: View, matched: Option<nat>, waited: Exit<()>,
      r: Exit<Option<Handback>>)
      requires p < |cap.steps| && LooksAgain(p, a, b, matched, waited) && waited.Done? && r == Done(None)
      requires HandBacks(c.recoveries) > 0 && (b.current.Some? ==> b.current.value.step == p)
      requires c == if b.current.None? then b.(recoveries := c.recoveries)
        else b.(recoveries := c.recoveries, records := b.records + [StepRecord(cap.steps[p].id, true,
          if b.current.value.attempts >= 1 then b.current.value.attempts else 1)], current := None)
      ensures Reverified(p, a, c, r)
    {
      hide LookedOnce, StopFits, HandBacks, GoodHandback, HandoffStop, Escapes, GuardedActs, IrreversibleRenamed;
      hide WaitMost, Asked;
    }

    lemma ReverifyBroke(p: nat, a: View, b: View, matched: Option<nat>, waited: Exit<()>, r: Exit<Option<Handback>>)
      requires p < |cap.steps| && LooksAgain(p, a, b, matched, waited) && !waited.Done? && !waited.Stopped?
      requires r == waited.PropagateFailure<Option<Handback>>()
      ensures Reverified(p, a, b, r)
    {
      hide LookedOnce, StopFits, HandBacks, GoodHandback, HandoffStop, Escapes, GuardedActs, IrreversibleRenamed;
      hide WaitMost, Asked, Passes;
    }

    /** A hand-back that leaves the run: a recovery met an irreversible step while another was re-verified. */
    ghost predicate Escapes(h: Handback) {
      ForIrreversible(h) && surface.attached && gated.handling.HandleEscalate? && Recovers(cap)
    }

    /** What looking again did: nothing is escalated meanwhile, and what passed was seen to. */
    ghost predicate LooksAgain(p: nat, a: View, b: View, matched: Option<nat>, r: Exit<()>)
      requires p < |cap.steps|
    {
      && Looks(p, a, b) && TraceKept(a, b) && b.ordinary == a.ordinary
      && HandBacks(b.recoveries) == HandBacks(a.recoveries)
      && (r.Done? ==>
            if cap.steps[p].waitFor.CheckpointWait? then Asked(p, AwaitedBy(cap.steps[p]), a.held, b.held)
            else LookedOnce(p, a.log, b.log, matched))
      && (r.Stopped? ==> StopFits(cap, surface.attached, r.stop))
      && (r.HandedBack? ==> Escapes(r.handback))
      && (r.Done? || r.Stopped? || r.HandedBack? ==> b.pending == a.pending)
      && (r.HandedBack? || r.ControlLost? || r.Crashed? ==> surface.attached)
    }

    /**
     * The step's checkpoint once more, or its detectors when its wait cannot be run again; nothing is
     * escalated meanwhile.
     */
    method LookAgain(p: nat) returns (r: Exit<()>, ghost matched: Option<nat>)
      requires Valid() && p < |cap.steps| && !reverifying
      modifies this, surface, gated
      ensures LooksAgain(p, old(Now()), Now(), matched, r)
      ensures Kept(r.Crashed?)
    {
      hide ValidCapability, AttemptsSound, RecordsSound, Told, ClicksPaid, Because, LooksAgain, Inside, Ends, Asked;
      hide LookedOnce, WaitMost, SeenSince;
      ghost var v0 := Now();
      SetReverifying(true, false);
      ghost var v1 := Now();
      matched := None;
      if cap.steps[p].waitFor.CheckpointWait? { r := Wait(p); } else { r, matched := DetectorsOnce(p); }
      ghost var v2 := Now();
      SetReverifying(false, r.Crashed?);
      LookedAgain(p, v0, v1, v2, Now(), matched, r);
    }

    /** Marks that a hand-back is re-verified; what it stops for happens from now on. */
    method SetReverifying(on: bool, ghost crashed: bool)
      requires Kept(crashed)
      modifies this`reverifying, this`since
      ensures Now() == old(Now()).(reverifying := on, since := if on then |old(surface.log)| else old(since))
      ensures Kept(crashed)
    {
      hide ValidCapability, AttemptsSound, RecordsSound, Told, ClicksPaid, Because;
      reverifying := on;
      since := if on then |surface.log| else since;
    }

    lemma LookedAgain(p: nat, a: View, b: View, c: View, d: View, matched: Option<nat>, e: Exit<()>)
      requires p < |cap.steps| && !a.reverifying && b == a.(reverifying := true, since := b.since)
      requires Inside(cap, b, c, p) && Ends(cap, Around(), b, c, e) && d == c.(reverifying := false)
      requires Asleep(c) - Asleep(b) <= WaitMost(cap, p, cap.steps[p].waitFor.timeoutMs)
      requires e.Done? && cap.steps[p].waitFor.CheckpointWait? ==> Asked(p, AwaitedBy(cap.steps[p]), b.held, c.held)
      requires e.Done? && !cap.steps[p].waitFor.CheckpointWait? ==> LookedOnce(p, b.log, c.log, matched)
      ensures LooksAgain(p, a, d, matched, e)
    {
      hide LookedOnce, StopFits, HandBacks, Unverified, Pauses, GoodHandback, Because, GuardedActs, Rows, Recovers;
      hide WaitMost, Asked, IrreversibleRenamed;
    }

    /** The record the hand-back gets once the screen was looked at. */
    method RecordHandback(handback: Handback, reverified: bool)
      requires Valid() && GoodHandback(handback)
      modifies this`recoveries
      ensures HandBacks(recoveries) > 0 && Now() == old(Now()).(recoveries := recoveries)
      ensures Valid()
    {
      hide ValidCapability, AttemptsSound, RecordsSound, Told, OutcomeShape, ClicksPaid, Because;
      var rec := Confirmed(handback, reverified);
      CountsAppend(recoveries, rec);
      RecordsAppend(cap, recoveries, rec);
      ToldAppends(started, recoveries, rec, pending);
      recoveries := recoveries + [rec];
    }

    /** The passed record of the step a hand-back interrupted, if it did. */
    method RecordStep(p: nat)
      requires Valid() && p < |cap.steps|
      modifies this`records, this`current
      ensures Now() == if old(current).None? then old(Now())
        else old(Now()).(records := old(records) + [StepRecord(cap.steps[p].id, true,
          if old(current).value.attempts >= 1 then old(current).value.attempts else 1)], current := None)
      ensures Valid()
    {
      hide ValidCapability, AttemptsSound, RecordsSound, Told, ClicksPaid;
      if current.Some? {
        records := records + [StepRecord(cap.steps[p].id, true,
          if current.value.attempts >= 1 then current.value.attempts else 1)];
        current := None;
      }
    }

    /** What asking once more did: a hand-off stop, or one more hand-back after one more pause. */
    ghost predicate AsksAgain(a: View, b: View, r: Exit<Option<Handback>>) {
      && b == a.(recoveries := b.recoveries, pauses := b.pauses, clock := b.clock, drift := b.drift,
                 hooks := b.hooks, ordinary := b.ordinary)
      && b.clock - a.clock == b.drift - a.drift >= 0
      && HandBacks(b.recoveries) > 0 && a.pauses <= b.pauses
      && (r.Done? ==> r.value.Some? && GoodHandback(r.value.value) && a.pauses < b.pauses)
      && (r.Stopped? ==> HandoffStop(cap, surface.attached, r.stop))
      && (r.Done? || r.Stopped? || r.Crashed?)
    }

    /** A hand-back that did not verify asks for a human once more, in its own name. */
    method AskAgain(stop: RunStopped) returns (r: Exit<Option<Handback>>)
      requires Valid() && !reverifying && surface.attached && HandBacks(recoveries) > 0
      requires StopFits(cap, surface.attached, stop)
      modifies this`pauses, this`hooks, this`ordinary, this`recoveries, this`interventionPath
      modifies surface`clock, surface`drift
      ensures AsksAgain(old(Now()), Now(), r)
      ensures Kept(r.Crashed?)
    {
      hide ValidCapability, AttemptsSound, RecordsSound, Told, ClicksPaid, Because, StillNotVerified, HandBacks;
      hide Escalated, AsksAgain, StopFits;
      ghost var v0 := Now();
      var failed := Failure(PostHandoffCheckpointFailed, StillNotVerified(stop.message), stop.expected, stop.observed);
      SaysWhyOrAnswers(stop);
      var asked := Escalate(failed, PostHandoffFailed);
      r := match asked case Done(s) => Stopped(s) case HandedBack(h) => Done(Some(h)) case _ => Crashed;
      AskedAgain(failed, v0, Now(), asked, r);
    }

    lemma AskedAgain(failed: RunStopped, a: View, b: View, asked: Exit<RunStopped>, r: Exit<Option<Handback>>)
      requires HandBacks(a.recoveries) > 0 && Escalated(failed, PostHandoffFailed, a, b, asked)
      requires failed.code.PostHandoffCheckpointFailed? && (SaysWhy(failed) || AnswersBusiness(cap))
      requires r == match asked case Done(s) => Stopped(s) case HandedBack(h) => Done(Some(h)) case _ => Crashed
      ensures AsksAgain(a, b, r)
    {
      hide HandBacks, Pauses, GoodHandback, StopShaped, AnswersBusiness;
    }

    /** Only a business answer leaves unsaid what was expected. */
    lemma SaysWhyOrAnswers(stop: RunStopped)
      requires StopFits(cap, surface.attached, stop)
      ensures SaysWhy(stop) || AnswersBusiness(cap)
    {
      if stop.status.StopBusiness? {
        var d := DeclaredBy(cap.detectors, stop.code);
        assert cap.detectors[d].outcome.BusinessOutcome?;
      }
    }

    /** One passed record more, for step p. */
    ghost predicate Passes(p: nat, a: seq<StepRecord>, b: seq<StepRecord>)
      requires p < |cap.steps|
    {
      && |b| == |a| + 1 && b[..|a|] == a
      && b[|a|].stepId == cap.steps[p].id && b[|a|].passed && b[|a|].attempts >= 1
    }

    // ---- the flow --------------------------------------------------------------------------------

    /** The records of the first i steps, all passed. */
    ghost predicate PassedUpTo(rs: seq<StepRecord>, i: nat) {
      && |rs| == i <= |cap.steps|
      && forall j :: 0 <= j < i ==> rs[j].stepId == cap.steps[j].id && rs[j].passed && rs[j].attempts >= 1
    }

    lemma PassesExtends(p: nat, a: seq<StepRecord>, b: seq<StepRecord>)
      requires p < |cap.steps| && PassedUpTo(a, p) && Passes(p, a, b)
      ensures PassedUpTo(b, p + 1)
    {
      forall j | 0 <= j < p + 1 ensures b[j].stepId == cap.steps[j].id && b[j].passed && b[j].attempts >= 1 {
        if j < p { assert b[..p][j] == b[j]; }
      }
    }

    /** Guarded steps before i acted at most once and the others never; nothing irreversible unconfirmed or renamed. */
    ghost predicate ActsSound(acts: multiset<ActBy>, renamed: set<StepId>, i: nat) {
      && (forall q :: 0 <= q < |cap.steps| && Guarded(cap.steps[q]) ==>
            acts[Own(cap.steps[q].id)] <= if q < i then 1 else 0)
      && (forall q :: 0 <= q < |cap.steps| && cap.steps[q].risk == Irreversible && !gated.confirm ==>
            acts[Own(cap.steps[q].id)] == 0)
      && IrreversibleRenamed(cap, renamed) == {}
    }

    lemma ActsStep(p: nat, a: multiset<ActBy>, b: multiset<ActBy>, r0: set<StepId>, r1: set<StepId>)
      requires p < |cap.steps| && ActsSound(a, r0, p) && ActsWithin(cap, gated.confirm, p, a, b)
      requires IrreversibleRenamed(cap, r1) == IrreversibleRenamed(cap, r0)
      ensures ActsSound(b, r1, p + 1)
    {
      forall q: nat | q < |cap.steps| && Guarded(cap.steps[q])
        ensures b[Own(cap.steps[q].id)] <= if q < p + 1 then 1 else 0
        ensures cap.steps[q].risk == Irreversible && !gated.confirm ==> b[Own(cap.steps[q].id)] == 0
      {
        if q != p {
          assert q in OtherGuardedActs(cap, a, p);
          assert OtherGuardedActs(cap, a, p)[q] == OtherGuardedActs(cap, b, p)[q];
        }
      }
    }

    lemma ActsSame(i: nat, a: multiset<ActBy>, b: multiset<ActBy>, r0: set<StepId>, r1: set<StepId>)
      requires ActsSound(a, r0, i) && GuardedActs(cap, a) == GuardedActs(cap, b)
      requires IrreversibleRenamed(cap, r1) == IrreversibleRenamed(cap, r0)
      ensures ActsSound(b, r1, i)
    {
      forall q: nat | q < |cap.steps| && Guarded(cap.steps[q])
        ensures b[Own(cap.steps[q].id)] == a[Own(cap.steps[q].id)]
      {
        assert q in GuardedActs(cap, a);
        assert GuardedActs(cap, a)[q] == GuardedActs(cap, b)[q];
      }
    }

    /**
     * Of the first i steps: without hand-backs they acted and were seen to pass, one after the other; with
     * them, every checkpoint a step waits on was still seen to hold.
     */
    ghost predicate WentThrough(i: nat, acts: multiset<ActBy>, held: multiset<Query>,
      log: seq<Happening>, handBacks: nat) {
      && (handBacks == 0 && i <= |cap.steps| ==> Flowed(cap, i, log, |log|))
      && forall j :: 0 <= j < i && j < |cap.steps| ==>
           && (handBacks == 0 ==> acts[Own(cap.steps[j].id)] > 0 && held[WaitQuery(cap.steps[j])] > 0)
           && (cap.steps[j].waitFor.CheckpointWait? ==> held[WaitQuery(cap.steps[j])] > 0)
    }

    ghost predicate Went(i: nat, v: View) {
      WentThrough(i, v.acts, v.held, v.log, HandBacks(v.recoveries))
    }

    lemma WentKept(i: nat, a: View, b: View)
      requires i <= |cap.steps| && Went(i, a) && a.acts <= b.acts && a.held <= b.held && a.log <= b.log
      requires HandBacks(a.recoveries) <= HandBacks(b.recoveries)
      ensures Went(i, b)
    {
      hide HandBacks, Flowed;
      if HandBacks(b.recoveries) == 0 { FlowedStill(cap, i, a.log, b.log, |a.log|, |b.log|); }
    }

    lemma WentNext(i: nat, a: View, b: View)
      requires i < |cap.steps| && Went(i, a)
      requires a.acts <= b.acts && a.held <= b.held && a.log <= b.log
      requires HandBacks(b.recoveries) > 0 ||
        (HandBacks(b.recoveries) == HandBacks(a.recoveries) && Acted(i, a.acts, b.acts)
         && Asked(i, AwaitedBy(cap.steps[i]), a.held, b.held) && ActedThenSeen(cap, i, b.log, |a.log|, |b.log|))
      requires cap.steps[i].waitFor.CheckpointWait? ==> Asked(i, AwaitedBy(cap.steps[i]), a.held, b.held)
      ensures Went(i + 1, b)
    {
      hide HandBacks, ActedThenSeen, Flowed;
      if HandBacks(b.recoveries) == 0 { FlowedOn(cap, i, a.log, b.log); }
    }

    /** Without a hand-back, nothing went unverified and nothing refused was passed over. */
    ghost predicate Accounted(v: View) {
      && (HandBacks(v.recoveries) == 0 ==> Unverified(v.recoveries) == 0 && !v.refused && !v.denied)
      && (HandBacks(v.recoveries) > 0 ==> surface.attached)
    }

    /** Between steps: exactly the first i are recorded, all passed. */
    ghost predicate Between(i: nat, v: View) {
      && PassedUpTo(v.records, i) && v.current.None? && !v.reverifying
      && (i > 0 ==> v.reached == Some(cap.steps[i - 1].id))
      && ActsSound(v.acts, v.renamed, i) && Went(i, v) && Accounted(v) && v.pending == {}
    }

    ghost predicate AtStep(i: nat)
      reads this, surface, gated
    {
      Valid() && Between(i, Now())
    }

    /** In the middle of step i, or after the last one when i is their number. */
    ghost predicate WithinStep(i: nat, v: View) {
      && i <= |cap.steps| && PassedUpTo(v.records, i) && !v.reverifying
      && (if i < |cap.steps| then v.current.Some? && v.current.value.step == i && v.reached == Some(cap.steps[i].id)
          else v.current.None? && i > 0 && v.reached == Some(cap.steps[i - 1].id))
      && ActsSound(v.acts, v.renamed, |cap.steps|)
    }

    /** Step i is behind the run, or, after the last one, nothing changed. */
    ghost predicate GotThrough(i: nat, v: View) {
      if i < |cap.steps| then
        && PassedUpTo(v.records, i + 1) && v.current.None? && v.reached == Some(cap.steps[i].id) && !v.reverifying
        && ActsSound(v.acts, v.renamed, |cap.steps|)
      else WithinStep(i, v)
    }

    /** How the flow may break off. */
    ghost predicate Breaks<T>(v: View, r: Exit<T>) {
      && (r.Done? || r.Stopped? || r.HandedBack? ==> v.pending == {})
      && match r
      case Done(_) => true
      case Stopped(s) =>
        if HandBacks(v.recoveries) == 0 then
          && StopFits(cap, surface.attached, s) && Because(cap, v.log, 0, s.code)
          && (v.refused ==> ReportsRefusal(s)) && (v.denied ==> ReportsDenial(s))
        else
          && surface.attached
          && ((StopFits(cap, surface.attached, s) && Because(cap, v.log, 0, s.code))
              || HandoffStop(cap, surface.attached, s))
      case HandedBack(h) => Escapes(h)
      case _ => surface.attached
    }

    /** In the middle of re-verifying at step i, or past it: what was done since, and the pauses that pay for it. */
    ghost predicate Reverifying(p: nat, i: nat, a: View, b: View, handed: Option<Handback>)
      requires p < |cap.steps|
    {
      && surface.attached && a.pauses <= b.pauses && b.pending == {}
      && (if handed.Some? then WithinStep(i, b) && GoodHandback(handed.value)
          else HandBacks(b.recoveries) > 0 && GotThrough(i, b))
      && a.acts <= b.acts && a.held <= b.held && a.log <= b.log
      && (handed.None? && cap.steps[p].waitFor.CheckpointWait? ==> Asked(p, AwaitedBy(cap.steps[p]), a.held, b.held))
      && GuardedActs(cap, b.acts) == GuardedActs(cap, a.acts)
      && IrreversibleRenamed(cap, b.renamed) == IrreversibleRenamed(cap, a.renamed)
      && LooksPay(cap, Asleep(b) - Asleep(a), b.pauses - a.pauses + if handed.Some? then 0 else 1)
    }

    /** What re-verifying hand-back after hand-back did: step i is got through, or the flow breaks off in it. */
    ghost predicate ReverifiedAll(p: nat, i: nat, a: View, b: View, r: Exit<()>)
      requires p < |cap.steps|
    {
      && LooksPay(cap, Asleep(b) - Asleep(a), b.pauses - a.pauses + 1) && a.pauses <= b.pauses
      && GuardedActs(cap, b.acts) == GuardedActs(cap, a.acts)
      && IrreversibleRenamed(cap, b.renamed) == IrreversibleRenamed(cap, a.renamed)
      && a.acts <= b.acts && a.held <= b.held && a.log <= b.log
      && (if r.Done? then Reverifying(p, i, a, b, None) else WithinStep(i, b) && Breaks(b, r))
    }

    /** Re-verifies hand-back after hand-back; the pauses, of which there are few, pay for the looks. */
    method ReverifyAll(p: nat, i: nat, first: Handback) returns (r: Exit<()>)
      requires Valid() && p < |cap.steps| && WithinStep(i, Now()) && GoodHandback(first) && surface.attached
      requires pending == {} && (i < |cap.steps| ==> p == i)
      modifies this, surface, gated
      ensures ReverifiedAll(p, i, old(Now()), Now(), r)
      ensures Kept(r.Crashed?)
    {
      hide ValidCapability, AttemptsSound, RecordsSound, Told, ClicksPaid, Because, GoodHandback, Reverified;
      hide Reverifying, ReverifiedAll, WithinStep;
      var handed := Some(first);
      ghost var v0 := Now();
      ReverifyStarts(p, i, v0, first);
      while handed.Some?
        invariant Valid() && Reverifying(p, i, v0, Now(), handed)
        decreases handed.Some?, MAX_HUMAN_PAUSES - pauses
      {
        ghost var v1 := Now();
        HandedMeans(p, i, v0, v1, handed);
        var one := Reverify(p, handed.value);
        ReverifiesOn(p, i, v0, v1, Now(), handed, one);
        if one.IsFailure() { return one.PropagateFailure(); }
        handed := one.value;
      }
      r := Done(());
      ReverifyEnds(p, i, v0, Now());
    }

    lemma ReverifyStarts(p: nat, i: nat, a: View, first: Handback)
      requires p < |cap.steps| && WithinStep(i, a) && GoodHandback(first) && surface.attached && a.pending == {}
      ensures Reverifying(p, i, a, a, Some(first))
    {
      hide WithinStep, GoodHandback, GuardedActs, IrreversibleRenamed, LooksPay;
      NoLookPays(0, 0);
    }

    lemma HandedMeans(p: nat, i: nat, a: View, b: View, handed: Option<Handback>)
      requires p < |cap.steps| && Reverifying(p, i, a, b, handed) && handed.Some? && (i < |cap.steps| ==> p == i)
      ensures surface.attached && GoodHandback(handed.value) && !b.reverifying
      ensures b.current.Some? ==> b.current.value.step == p
    {
      hide GoodHandback, GuardedActs, IrreversibleRenamed, LooksPay, PassedUpTo, ActsSound, HandBacks;
    }

    lemma ReverifiesOn(p: nat, i: nat, a: View, b: View, c: View, handed: Option<Handback>,
      one: Exit<Option<Handback>>)
      requires p < |cap.steps| && Reverifying(p, i, a, b, handed) && handed.Some? && (i < |cap.steps| ==> p == i)
      requires Reverified(p, b, c, one)
      ensures if one.Done? then
        Reverifying(p, i, a, c, one.value) && (one.value.Some? ==> b.pauses < c.pauses)
        else ReverifiedAll(p, i, a, c, one.PropagateFailure())
    {
      hide GoodHandback, GuardedActs, IrreversibleRenamed, LooksPay, PassedUpTo, ActsSound, HandBacks, Passes, Asked;
      hide HandoffStop, StopFits, Escapes, WaitMost, Because;
      LooksPaid(p, a, b, c, if one.Done? && one.value.Some? then 0 else 1);
      ActsSame(|cap.steps|, b.acts, c.acts, b.renamed, c.renamed);
      if one == Done(None) {
        if cap.steps[p].waitFor.CheckpointWait? { AskedSince(p, AwaitedBy(cap.steps[p]), a.held, b.held, c.held); }
        if i < |cap.steps| { PassesExtends(p, b.records, c.records); }
      }
    }

    /** One look more, and the pause it led to, or the one that is still to be paid. */
    lemma LooksPaid(p: nat, a: View, b: View, c: View, more: nat)
      requires p < |cap.steps| && a.pauses <= b.pauses <= c.pauses && more <= 1 && b.pauses + 1 <= c.pauses + more
      requires LooksPay(cap, Asleep(b) - Asleep(a), b.pauses - a.pauses)
      requires Asleep(c) - Asleep(b) <= WaitMost(cap, p, cap.steps[p].waitFor.timeoutMs)
      ensures LooksPay(cap, Asleep(c) - Asleep(a), c.pauses - a.pauses + more)
    {
      hide LooksPay, WaitMost;
      var slept := Asleep(c) - Asleep(a);
      OneLookPays(cap, p, Asleep(c) - Asleep(b));
      LooksPayMore(cap, Asleep(b) - Asleep(a), Asleep(c) - Asleep(b), b.pauses - a.pauses, 1);
      LooksPayLess(cap, slept, slept, b.pauses - a.pauses + 1, c.pauses - a.pauses + more);
    }

    lemma ReverifyEnds(p: nat, i: nat, a: View, b: View)
      requires p < |cap.steps| && Reverifying(p, i, a, b, None)
      ensures ReverifiedAll(p, i, a, b, Done(()))
    {
      hide GotThrough, GuardedActs, IrreversibleRenamed, LooksPay, HandBacks, Asked;
    }

    /** What a step of the flow did, hand-backs and all. */
    ghost predicate Stepped(i: nat, a: View, b: View, r: Exit<()>)
      requires i < |cap.steps|
    {
      && (if r.Done? then Between(i + 1, b) else WithinStep(i, b) && Breaks(b, r))
      && a.pauses <= b.pauses && LooksPay(cap, Asleep(b) - Asleep(a) - StepCost(cap, i), b.pauses - a.pauses)
    }

    /** From here on the log tells what the flow stops for. */
    ghost method Mark()
      requires Valid()
      modifies this`since
      ensures Now() == old(Now()).(since := |surface.log|)
      ensures Valid()
    {
      hide ValidCapability, AttemptsSound, RecordsSound, Told, ClicksPaid, Because;
      since := |surface.log|;
    }

    /** A step of the flow, and every hand-back it leads to. */
    method StepWithHandbacks(i: nat) returns (r: Exit<()>)
      requires i < |cap.steps| && AtStep(i)
      modifies this, surface, gated
      ensures Stepped(i, old(Now()), Now(), r)
      ensures Kept(r.Crashed?)
    {
      hide ValidCapability, AttemptsSound, RecordsSound, Told, ClicksPaid, Because, Between, Stepped, Works, Ran;
      hide StepTraced, GivesUp, StepCost, ReverifiedAll, WithinStep, GoodHandback;
      ghost var u0 := Now();
      BetweenMeans(i, u0);
      Mark();
      ghost var v0 := Now();
      r := RunStep(i, true, false);
      ghost var v1 := Now();
      StepTaken(i, u0, v0, v1, r);
      if r.HandedBack? {
        var handed := r.handback;
        r := ReverifyAll(i, i, handed);
        StepReverified(i, u0, v0, v1, Now(), handed, r);
      }
    }

    lemma BetweenMeans(i: nat, v: View)
      requires Between(i, v)
      ensures !v.reverifying && v.pending == {}
    {
      hide PassedUpTo, ActsSound, Went, Accounted;
    }

    /** What a run of step i left: the next step begins, the flow breaks off, or a hand-back is to be re-verified. */
    lemma StepTaken(i: nat, u: View, a: View, b: View, e: Exit<()>)
      requires i < |cap.steps| && Between(i, u) && a == u.(since := a.since)
      requires Works(cap, Outside(), gated.confirm, a, b, i, e) && StepTraced(i, a, b, e.Done?)
      requires Asleep(b) - Asleep(a) <= StepCost(cap, i) && (e.Done? ==> Ran(i, false, a, b))
      ensures !e.HandedBack? ==> Stepped(i, u, b, e)
      ensures e.HandedBack? ==>
        && WithinStep(i, b) && GoodHandback(e.handback) && surface.attached && b.pending == {}
        && ActsSound(b.acts, b.renamed, i + 1) && u.acts <= b.acts && u.held <= b.held && u.log <= b.log
        && u.pauses < b.pauses
    {
      hide ActsSound, PassedUpTo, Went, LooksPay, StepCost, Because, HandBacks, Unverified, Works, StepTraced;
      hide StopFits, GoodHandback, IrreversibleRenamed, ActsWithin, Ran;
      StepParts(i, a, b, e);
      ActsStep(i, a.acts, b.acts, a.renamed, b.renamed);
      ActsWiden(i + 1, b.acts, b.renamed);
      NoLookPays(Asleep(b) - Asleep(u) - StepCost(cap, i), b.pauses - u.pauses);
      if e.Done? {
        WentFrom(i, u, a);
        RanWent(i, a, b);
      }
    }

    lemma WentFrom(i: nat, a: View, b: View)
      requires Went(i, a) && b == a.(since := b.since)
      ensures Went(i, b)
    {
      hide WentThrough;
    }

    lemma RanWent(i: nat, a: View, b: View)
      requires i < |cap.steps| && Went(i, a) && Ran(i, false, a, b)
      requires a.acts <= b.acts && a.held <= b.held && a.log <= b.log
      requires HandBacks(b.recoveries) == HandBacks(a.recoveries)
      ensures Went(i + 1, b)
    {
      hide HandBacks, WentThrough, Asked, Acted, ActedSince, ActedThenSeen;
      WentNext(i, a, b);
    }

    lemma StepReverified(i: nat, u: View, a: View, b: View, c: View, handed: Handback, r: Exit<()>)
      requires i < |cap.steps| && Between(i, u) && a == u.(since := a.since)
      requires Asleep(b) - Asleep(a) <= StepCost(cap, i)
      requires ActsSound(b.acts, b.renamed, i + 1) && u.acts <= b.acts && u.held <= b.held && u.log <= b.log
      requires u.pauses < b.pauses && ReverifiedAll(i, i, b, c, r)
      ensures Stepped(i, u, c, r)
    {
      hide ActsSound, PassedUpTo, WentThrough, LooksPay, StepCost, Because, HandBacks, Unverified, GuardedActs;
      hide IrreversibleRenamed, Asked, WithinStep, Breaks;
      LooksPayLess(cap, Asleep(c) - Asleep(b), Asleep(c) - Asleep(u) - StepCost(cap, i),
                   c.pauses - b.pauses + 1, c.pauses - u.pauses);
      if r.Done? {
        ActsSame(i + 1, b.acts, c.acts, b.renamed, c.renamed);
        if cap.steps[i].waitFor.CheckpointWait? {
          AskedSince(i, AwaitedBy(cap.steps[i]), u.held, b.held, c.held);
        }
        WentNext(i, u, c);
      }
    }

    lemma NoLookPays(slept: int, n: nat)
      requires slept <= 0
      ensures LooksPay(cap, slept, n)
    {
      LooksPayLess(cap, 0, slept, 0, n);
    }

    lemma ActsWiden(i: nat, acts: multiset<ActBy>, renamed: set<StepId>)
      requires i <= |cap.steps| && ActsSound(acts, renamed, i)
      ensures ActsSound(acts, renamed, |cap.steps|)
    {
    }

    /** What a run of step i left, unpacked for the flow. */
    lemma StepParts(i: nat, a: View, b: View, e: Exit<()>)
      requires i < |cap.steps| && PassedUpTo(a.records, i) && !a.reverifying
      requires Works(cap, Outside(), gated.confirm, a, b, i, e) && StepTraced(i, a, b, e.Done?)
      ensures ActsWithin(cap, gated.confirm, i, a.acts, b.acts)
      ensures !b.reverifying && b.reached == Some(cap.steps[i].id)
      ensures if e.Done? then PassedUpTo(b.records, i + 1) && b.current.None?
              else PassedUpTo(b.records, i) && b.current.Some? && b.current.value.step == i
      ensures HandBacks(b.recoveries) == HandBacks(a.recoveries)
      ensures a.pauses <= b.pauses && (e.HandedBack? ==> a.pauses < b.pauses)
      ensures a.acts <= b.acts && a.held <= b.held && a.log <= b.log
      ensures e.Done? || e.Stopped? || e.HandedBack? ==> b.pending == a.pending
      ensures e.Done? ==>
        Unverified(b.recoveries) == Unverified(a.recoveries) && b.refused == a.refused && b.denied == a.denied
      ensures e.Stopped? ==>
        && StopFits(cap, surface.attached, e.stop) && Because(cap, b.log, 0, e.stop.code)
        && (b.refused == a.refused || ReportsRefusal(e.stop)) && (b.denied == a.denied || ReportsDenial(e.stop))
      ensures e.HandedBack? ==> GoodHandback(e.handback)
      ensures e.HandedBack? || e.ControlLost? || e.Crashed? ==> surface.attached
      ensures IrreversibleRenamed(cap, b.renamed) == IrreversibleRenamed(cap, a.renamed)
    {
      if e.Done? { PassesExtends(i, a.records, b.records); }
      if e.Stopped? { BecauseStill(cap, b.log, b.log, b.since, 0, e.stop.code); }
    }

    // ---- success and outputs ---------------------------------------------------------------------

    method WaitForCheckpoint(p: nat, checkpoint: CheckpointId, timeoutMs: nat) returns (r: Exit<()>)
      requires Valid() && p < |cap.steps|
      modifies this, surface, gated
      ensures Kept(r.Crashed?)
      ensures Inside(cap, old(Now()), Now(), p) && Ends(cap, Around(), old(Now()), Now(), r)
      ensures r.Done? ==> Asked(p, CheckpointHolds(checkpoint), old(surface.held), surface.held)
      ensures r.Done? ==> SeenSince(p, CheckpointHolds(checkpoint), old(surface.log), surface.log)
      ensures surface.Slept() - old(surface.Slept()) <= WaitMost(cap, p, timeoutMs)
    {
      hide ValidCapability, AttemptsSound, RecordsSound, Told, OutcomeCodes, Rows, GuardedActs, OtherGuardedActs;
      hide IrreversibleRenamed, GoodHandback, HandBacks, Pauses, Unverified, Asked, ClicksPaid, Because;
      ghost var v0 := Now();
      var seen, begun := Poll(p, CheckpointHolds(checkpoint), timeoutMs);
      WaitMostSlept(p, timeoutMs, true, v0, Now(), started);
      if seen.Done? { SawLast(p, CheckpointHolds(checkpoint), Windowed(begun), v0.log, surface.log); }
      r := if seen.Done? then Done(()) else seen.PropagateFailure();
    }

    /** Since, the output was looked for or read, or a detector held. */
    ghost predicate Sought(name: ParamName, was: seq<Happening>, now: seq<Happening>) {
      || SoughtSince(OutputTarget(name), was, now)
      || exists i :: |was| <= i < |now| && IsAttempt(now[i], Reading(name))
    }

    /** What looking for an output and reading it once did; nothing of what came back is made up. */
    ghost predicate ReadOnce(p: nat, name: ParamName, a: View, b: View, r: Exit<ActResult>)
      requires p < |cap.steps|
    {
      && Spends(cap, Around(), WaitMost(cap, p, OUTPUT_TIMEOUT_MS), a, b, p, r)
      && (r.Stopped? && r.stop.code.OutputExtractionFailed? ==> Sought(name, a.log, b.log))
      && (r.Done? ==>
            && Sought(name, a.log, b.log) && Because(cap, b.log, b.since, OutputExtractionFailed)
            && (r.value.ok ==>
                  b.acts[Reading(name)] > 0 && Did(Reading(name), true, r.value.text, false, false) in b.log))
    }

    /** Looks for an output and reads it once. */
    method ReadText(p: nat, name: ParamName) returns (r: Exit<ActResult>)
      requires Valid() && MayAct() && p < |cap.steps|
      modifies this, surface, gated
      ensures ReadOnce(p, name, old(Now()), Now(), r)
      ensures Kept(r.Crashed?)
    {
      hide ValidCapability, AttemptsSound, RecordsSound, Told, ClicksPaid, Because, Spends, WaitMost, ReadOnce;
      hide Performed, Inside, Sought, SeenSince, SoughtSince, Asked, Recovers;
      ghost var v0, env := Now(), Around();
      ghost var cost := WaitMost(cap, p, OUTPUT_TIMEOUT_MS);
      var found := ResolveTarget(p, OutputTarget(name), OUTPUT_TIMEOUT_MS, Some(OutputExtractionFailed));
      ghost var v1 := Now();
      ghost var gone: Exit<ActResult> := if found.Done? then ControlLost else found.PropagateFailure();
      if found.IsFailure() {
        SpendsAs(cap, env, cost, v0, v1, p, found, gone);
        NotFound(p, name, v0, v1, found, gone);
        return found.PropagateFailure();
      }
      SpendsAs(cap, env, cost, v0, v1, p, found, found);
      ghost var done;
      r, done := PerformAside(p, Reading(name), OutputTarget(name));
      WasTried(p, name, done, v0, v1, Now(), found, r);
    }

    lemma NotFound<T>(p: nat, name: ParamName, a: View, b: View, e: Exit<T>, r: Exit<ActResult>)
      requires p < |cap.steps| && e.IsFailure() && r == e.PropagateFailure<ActResult>()
      requires Resolves(p, OutputTarget(name), OUTPUT_TIMEOUT_MS, Some(OutputExtractionFailed), a, b, e)
      requires Spends(cap, Around(), WaitMost(cap, p, OUTPUT_TIMEOUT_MS), a, b, p, r)
      ensures ReadOnce(p, name, a, b, r)
    {
      hide Spends, WaitMost, SoughtSince, Because;
    }

    lemma WasTried<T>(p: nat, name: ParamName, acted: bool, a: View, b: View, c: View, e: Exit<T>, r: Exit<ActResult>)
      requires p < |cap.steps| && e.Done? && b.since == a.since <= |a.log| && a.log <= b.log
      requires Spends(cap, Around(), WaitMost(cap, p, OUTPUT_TIMEOUT_MS), a, b, p, e)
      requires Inside(cap, b, c, p) && Performed(p, Reading(name), Safe, acted, b, c, r)
      ensures ReadOnce(p, name, a, c, r)
    {
      hide WaitMost, SoughtSince, Because, Carries, Ends, Inside, TraceKept, Spends;
      PerformSpends(p, Reading(name), acted, b, c, r);
      SpendsThen(cap, Around(), WaitMost(cap, p, OUTPUT_TIMEOUT_MS), 0, a, b, c, p, e, r);
      if !r.ControlLost? { assert IsAttempt(c.log[|b.log|], Reading(name)); }
      if r.Done? { BecauseOf(cap, c.log, c.since, |b.log|, OutputExtractionFailed); }
    }

    lemma PerformSpends(p: nat, why: ActBy, acted: bool, a: View, b: View, r: Exit<ActResult>)
      requires p < |cap.steps| && Inside(cap, a, b, p) && Performed(p, why, Safe, acted, a, b, r)
      ensures Spends(cap, Around(), 0, a, b, p, r)
    {
      hide Carries, Ends, Inside, TraceKept, Attempted;
    }

    /** Reads one output and parses it. */
    method ReadOutput(p: nat, spec: OutputSpec) returns (r: Exit<OutputValue>)
      requires Valid() && MayAct() && p < |cap.steps|
      modifies this, surface, gated
      ensures Spends(cap, Around(), WaitMost(cap, p, OUTPUT_TIMEOUT_MS), old(Now()), Now(), p, r)
      ensures r.Done? ==> ReadAs(spec, r.value, surface.log, calendar) && surface.acts[Reading(spec.name)] > 0
      ensures r.Stopped? && r.stop.code.OutputExtractionFailed? ==> Sought(spec.name, old(surface.log), surface.log)
      ensures Kept(r.Crashed?)
    {
      hide ValidCapability, AttemptsSound, RecordsSound, Told, ClicksPaid, Because, Spends, WaitMost, ReadOnce;
      hide ReadAs, Sought, Readable, NoText, DoesNotParse, Extraction.ParseValue;
      ghost var v0 := Now();
      var read := ReadText(p, spec.name);
      if read.IsFailure() {
        r := read.PropagateFailure();
        ReadEnds(p, spec, v0, Now(), read, r);
        return;
      }
      var value := if read.value.ok && read.value.text.Some?
        then Extraction.ParseValue(read.value.text.value, spec.parse, calendar) else None;
      if value.Some? {
        r := Done(value.value);
      } else {
        var observed := if read.value.ok && read.value.text.Some? then DoesNotParse()
          else if read.value.message != "" then read.value.message else NoText();
        r := Stopped(Failure(OutputExtractionFailed, NoText(), Readable(), observed));
      }
      ReadEnds(p, spec, v0, Now(), read, r);
    }

    /** A text that parses is the output's value; without one the output could not be extracted. */
    lemma ReadEnds(p: nat, spec: OutputSpec, a: View, b: View, read: Exit<ActResult>, r: Exit<OutputValue>)
      requires p < |cap.steps| && ReadOnce(p, spec.name, a, b, read)
      requires if read.IsFailure() then r == read.PropagateFailure()
               else if r.Done? then
                 && read.value.ok && read.value.text.Some?
                 && Extraction.ParseValue(read.value.text.value, spec.parse, calendar) == Some(r.value)
               else
                 && r.Stopped? && r.stop == Failure(OutputExtractionFailed, r.stop.message, Readable(), r.stop.observed)
                 && r.stop.observed != ""
      ensures Spends(cap, Around(), WaitMost(cap, p, OUTPUT_TIMEOUT_MS), a, b, p, r)
      ensures r.Done? ==> ReadAs(spec, r.value, b.log, calendar) && b.acts[Reading(spec.name)] > 0
      ensures r.Stopped? && r.stop.code.OutputExtractionFailed? ==> Sought(spec.name, a.log, b.log)
    {
      hide Spends, WaitMost, Because, Sought, Extraction.ParseValue, StopFits;
      var cost := WaitMost(cap, p, OUTPUT_TIMEOUT_MS);
      if read.IsFailure() || r.Done? {
        SpendsAs(cap, Around(), cost, a, b, p, read, r);
      } else {
        EngineStopFits(cap, surface.attached, r.stop);
        StopSpends<OutputValue>(cap, Around(), b, p, r.stop);
        SpendsThen(cap, Around(), cost, 0, a, b, b, p, read, r);
      }
    }

    /** Outputs read so far: each declared, of its type, and every required one among them. */
    ghost predicate OutputsSound(outputs: map<ParamName, OutputValue>, n: nat)
      requires n <= |cap.outputs|
    {
      && (forall name :: name in outputs ==> OutputFits(cap.outputs, name, outputs[name]))
      && (forall i :: 0 <= i < n && cap.outputs[i].name in cap.requiresOutputs ==> cap.outputs[i].name in outputs)
    }

    lemma ReadHasParse(spec: OutputSpec, v: OutputValue, log: seq<Happening>)
      requires ReadAs(spec, v, log, calendar)
      ensures HasParse(v, spec.parse)
    {
      hide Extraction.ParseValue;
    }

    /** Every output was read off the screen through the gate, and parsed as it is declared. */
    ghost predicate OutputsRead(outputs: map<ParamName, OutputValue>, acts: multiset<ActBy>, log: seq<Happening>) {
      forall name :: name in outputs ==>
        acts[Reading(name)] > 0 && Vouched(cap, name, outputs[name], log, calendar)
    }

    lemma StillReadAs(spec: OutputSpec, v: OutputValue, was: seq<Happening>, now: seq<Happening>)
      requires ReadAs(spec, v, was, calendar) && was <= now
      ensures ReadAs(spec, v, now, calendar)
    {
      hide Extraction.ParseValue;
    }

    lemma OutputsStillRead(outputs: map<ParamName, OutputValue>, a: View, b: View)
      requires OutputsRead(outputs, a.acts, a.log) && a.acts <= b.acts && a.log <= b.log
      ensures OutputsRead(outputs, b.acts, b.log)
    {
      hide ReadAs;
      forall name | name in outputs
        ensures Vouched(cap, name, outputs[name], b.log, calendar)
      {
        var i :| 0 <= i < |cap.outputs| && cap.outputs[i].name == name
          && ReadAs(cap.outputs[i], outputs[name], a.log, calendar);
        StillReadAs(cap.outputs[i], outputs[name], a.log, b.log);
      }
    }

    lemma OneMoreRead(outputs: map<ParamName, OutputValue>, v: View, i: nat, value: OutputValue)
      requires i < |cap.outputs| && OutputsRead(outputs, v.acts, v.log)
      requires v.acts[Reading(cap.outputs[i].name)] > 0 && ReadAs(cap.outputs[i], value, v.log, calendar)
      ensures OutputsRead(outputs[cap.outputs[i].name := value], v.acts, v.log)
    {
      hide ReadAs;
    }

    lemma OutputsAdd(outputs: map<ParamName, OutputValue>, n: nat, v: OutputValue)
      requires n < |cap.outputs| && OutputsSound(outputs, n) && HasParse(v, cap.outputs[n].parse)
      ensures OutputsSound(outputs[cap.outputs[n].name := v], n + 1)
    {
    }

    /** Whether any recovery from n on failed. */
    method AnyFailedSince(n: nat) returns (failed: bool)
      requires n <= |recoveries|
      ensures failed <==> exists i :: n <= i < |recoveries| && recoveries[i].Automatic? && !recoveries[i].succeeded
    {
      failed := false;
      for i := n to |recoveries|
        invariant failed <==> exists j :: n <= j < i && recoveries[j].Automatic? && !recoveries[j].succeeded
      {
        if recoveries[i].Automatic? && !recoveries[i].succeeded { failed := true; }
      }
    }

    /** What finishing once did: the success checkpoint was seen, the outputs were read, and nothing was refused. */
    ghost predicate Finished(a: View, b: View, r: Exit<map<ParamName, OutputValue>>)
      requires successStep < |cap.steps|
    {
      && Inside(cap, a, b, successStep) && Ends(cap, Around(), a, b, r)
      && Asleep(b) - Asleep(a) <= FinishCost(cap, successStep)
      && (r.Done? ==>
            && OutputsSound(r.value, |cap.outputs|) && OutputsRead(r.value, b.acts, b.log)
            && b.held[AskCheckpoint(cap.successCheckpoint)] > 0 && SucceededSince(|a.log|, b.log))
    }

    /** Verifies success once more and reads the outputs. An optional output that is not there is skipped. */
    method Finish() returns (r: Exit<map<ParamName, OutputValue>>)
      requires Valid() && MayAct()
      modifies this, surface, gated
      ensures Finished(old(Now()), Now(), r)
      ensures Kept(r.Crashed?)
    {
      hide ValidCapability, AttemptsSound, RecordsSound, Told, ClicksPaid, Because, Inside, Ends, Finished, ReadSoFar;
      hide OutputsSound, OutputsRead, Spends, Heeds, Asked, SeenSince, WaitMost, ReadOrSkipped;
      ghost var v0 := Now();
      var p := successStep;
      var verified := WaitForCheckpoint(p, cap.successCheckpoint, cap.steps[p].waitFor.timeoutMs);
      ghost var v1 := Now();
      var outputs: map<ParamName, OutputValue> := map[];
      if verified.IsFailure() {
        r := verified.PropagateFailure();
        NotVerified(p, v0, v1, verified, r);
        return;
      }
      FinishStarts(p, v0, v1, verified);
      for i := 0 to |cap.outputs|
        invariant Valid() && MayAct() && ReadSoFar(p, i, v0, v1, Now(), outputs)
      {
        ghost var v2 := Now();
        SoFarMeans(p, i, v0, v1, v2, outputs);
        var one := OneOutput(p, i, outputs);
        ReadsOn(p, i, v0, v1, v2, Now(), outputs, one);
        if one.IsFailure() { return one; }
        outputs := one.value;
      }
      ghost var v3 := Now();
      var drained := RaiseOnEvents(p);
      r := if drained.Done? then Done(outputs) else drained.PropagateFailure();
      FinishDrains(p, v0, v1, v3, Now(), outputs, drained, r);
    }

    /** The first i outputs are dealt with, after the success checkpoint was seen. */
    ghost predicate ReadSoFar(p: nat, i: nat, a: View, b: View, c: View, outputs: map<ParamName, OutputValue>)
      requires p < |cap.steps|
    {
      && i <= |cap.outputs| && Quiet(cap, Around(), a, c, p)
      && Asleep(b) - Asleep(a) <= WaitMost(cap, p, cap.steps[p].waitFor.timeoutMs)
      && ReadsPay(p, Asleep(c) - Asleep(b), i)
      && OutputsSound(outputs, i) && OutputsRead(outputs, c.acts, c.log)
      && SeenSince(p, CheckpointHolds(cap.successCheckpoint), a.log, b.log)
      && c.held[AskCheckpoint(cap.successCheckpoint)] > 0 && b.log <= c.log
    }

    lemma NotVerified(p: nat, a: View, b: View, e: Exit<()>, r: Exit<map<ParamName, OutputValue>>)
      requires p == successStep < |cap.steps| && e.IsFailure() && r == e.PropagateFailure()
      requires Inside(cap, a, b, p) && Ends(cap, Around(), a, b, e)
      requires Asleep(b) - Asleep(a) <= WaitMost(cap, p, cap.steps[p].waitFor.timeoutMs)
      ensures Finished(a, b, r)
    {
      hide Inside, Ends, Quiet, WaitMost, FinishCost;
      QuietSelf(cap, Around(), a, p);
      Fails<(), map<ParamName, OutputValue>>(cap, Around(), a, a, b, p, e);
      NothingRead(p);
      ReadsInFinish(p, Asleep(b) - Asleep(a), 0, 0);
    }

    lemma FinishStarts(p: nat, a: View, b: View, e: Exit<()>)
      requires p < |cap.steps| && e.Done? && Inside(cap, a, b, p) && Ends(cap, Around(), a, b, e)
      requires Asleep(b) - Asleep(a) <= WaitMost(cap, p, cap.steps[p].waitFor.timeoutMs)
      requires Asked(p, CheckpointHolds(cap.successCheckpoint), a.held, b.held)
      requires SeenSince(p, CheckpointHolds(cap.successCheckpoint), a.log, b.log)
      ensures ReadSoFar(p, 0, a, b, b, map[]) && b.reverifying == a.reverifying
    {
      hide Inside, Ends, Quiet, WaitMost, OutputsSound, OutputsRead, SeenSince;
      QuietSelf(cap, Around(), a, p);
      Goes(cap, Around(), a, a, b, p, e);
      InsideMonotone(cap, a, b, p);
      NothingRead(p);
      NoOutputs();
    }

    lemma SoFarMeans(p: nat, i: nat, a: View, b: View, c: View, outputs: map<ParamName, OutputValue>)
      requires p < |cap.steps| && ReadSoFar(p, i, a, b, c, outputs)
      ensures OutputsRead(outputs, c.acts, c.log) && i <= |cap.outputs| && OutputsSound(outputs, i)
    {
      hide Quiet, OutputsSound, OutputsRead, SeenSince, WaitMost;
    }

    lemma ReadsOn(p: nat, i: nat, a: View, b: View, c: View, d: View, outputs: map<ParamName, OutputValue>,
      one: Exit<map<ParamName, OutputValue>>)
      requires p == successStep < |cap.steps| && i < |cap.outputs| && ReadSoFar(p, i, a, b, c, outputs)
      requires Spends(cap, Around(), WaitMost(cap, p, OUTPUT_TIMEOUT_MS), c, d, p, one)
      requires one.Done? ==> OutputsSound(one.value, i + 1) && OutputsRead(one.value, d.acts, d.log)
      ensures if one.Done? then ReadSoFar(p, i + 1, a, b, d, one.value) && d.reverifying == c.reverifying
              else Finished(a, d, one)
    {
      hide Inside, Ends, Quiet, WaitMost, OutputsSound, OutputsRead, SeenSince, ReadsPay, FinishCost;
      InsideMonotone(cap, c, d, p);
      ReadPays(p, Asleep(c) - Asleep(b), Asleep(d) - Asleep(c), i);
      ReadsInFinish(p, Asleep(b) - Asleep(a), Asleep(d) - Asleep(b), i + 1);
      if one.Done? {
        Goes(cap, Around(), a, c, d, p, one);
      } else {
        Fails<map<ParamName, OutputValue>, map<ParamName, OutputValue>>(cap, Around(), a, c, d, p, one);
      }
    }

    lemma FinishDrains(p: nat, a: View, b: View, c: View, d: View, outputs: map<ParamName, OutputValue>,
      drained: Exit<()>, r: Exit<map<ParamName, OutputValue>>)
      requires p == successStep < |cap.steps| && ReadSoFar(p, |cap.outputs|, a, b, c, outputs)
      requires Heeds(p, c, d, drained)
      requires r == if drained.Done? then Done(outputs) else drained.PropagateFailure()
      ensures Finished(a, d, r)
    {
      hide Inside, Ends, Quiet, WaitMost, OutputsSound, OutputsRead, SeenSince, ReadsPay, FinishCost, ReportsRefusal;
      hide SucceededSince;
      InsideMonotone(cap, c, d, p);
      ReadsInFinish(p, Asleep(b) - Asleep(a), Asleep(c) - Asleep(b), |cap.outputs|);
      if drained.Done? {
        Goes(cap, Around(), a, c, d, p, drained);
        Finishes(cap, Around(), a, d, p, outputs);
        SuccessThenDrained(p, a.log, b.log, c.log, d.log);
        OutputsStillRead(outputs, c, d);
      } else {
        Fails<(), map<ParamName, OutputValue>>(cap, Around(), a, c, d, p, drained);
      }
    }

    /** Sleep that reading n outputs pays for. */
    ghost predicate ReadsPay(p: nat, slept: int, n: nat)
      requires p < |cap.steps|
    {
      slept <= n * WaitMost(cap, p, OUTPUT_TIMEOUT_MS)
    }

    lemma NothingRead(p: nat)
      requires p < |cap.steps|
      ensures ReadsPay(p, 0, 0)
    {
    }

    lemma ReadPays(p: nat, slept: int, more: int, n: nat)
      requires p < |cap.steps| && ReadsPay(p, slept, n) && more <= WaitMost(cap, p, OUTPUT_TIMEOUT_MS)
      ensures ReadsPay(p, slept + more, n + 1)
    {
      Apart(n, 1, WaitMost(cap, p, OUTPUT_TIMEOUT_MS));
    }

    lemma ReadsInFinish(p: nat, verifying: int, slept: int, n: nat)
      requires p < |cap.steps| && ReadsPay(p, slept, n) && n <= |cap.outputs|
      requires verifying <= WaitMost(cap, p, cap.steps[p].waitFor.timeoutMs)
      ensures verifying + slept <= FinishCost(cap, p)
    {
      hide WaitMost;
      TimesMonotone(n, |cap.outputs|, WaitMost(cap, p, OUTPUT_TIMEOUT_MS));
    }

    lemma NoOutputs()
      ensures OutputsSound(map[], 0)
      ensures forall acts: multiset<ActBy>, log: seq<Happening> :: OutputsRead(map[], acts, log)
    {
    }

    /** From entry n of the log on the success checkpoint was seen, and the last thing done was to drain events. */
    ghost predicate SucceededSince(n: nat, log: seq<Happening>) {
      && log != [] && log[|log| - 1] == Clean()
      && exists j :: n <= j < |log| && log[j] == Heard(AskCheckpoint(cap.successCheckpoint), true)
    }

    lemma SuccessThenDrained(p: nat, a: seq<Happening>, b: seq<Happening>, c: seq<Happening>, d: seq<Happening>)
      requires p < |cap.steps| && SeenSince(p, CheckpointHolds(cap.successCheckpoint), a, b)
      requires b <= c && d == c + [Clean()]
      ensures SucceededSince(|a|, d)
    {
      assert d[|b| - 1] == b[|b| - 1];
    }

    /** Adds one output, or skips it when it is optional and simply was not there. */
    method OneOutput(p: nat, i: nat, outputs: map<ParamName, OutputValue>)
      returns (r: Exit<map<ParamName, OutputValue>>)
      requires Valid() && MayAct() && p < |cap.steps| && i < |cap.outputs| && OutputsSound(outputs, i)
      requires OutputsRead(outputs, surface.acts, surface.log)
      modifies this, surface, gated
      ensures Spends(cap, Around(), WaitMost(cap, p, OUTPUT_TIMEOUT_MS), old(Now()), Now(), p, r)
      ensures r.Done? ==> OutputsSound(r.value, i + 1) && OutputsRead(r.value, surface.acts, surface.log)
      ensures Kept(r.Crashed?)
      ensures r.Done? ==>
        ReadOrSkipped(i, outputs, r.value, old(surface.log), surface.log, recoveries[|old(recoveries)|..])
    {
      hide ValidCapability, AttemptsSound, RecordsSound, Told, OutcomeCodes, Rows, GuardedActs, OtherGuardedActs;
      hide ReadOrSkipped, IrreversibleRenamed, GoodHandback, HandBacks, Pauses, Unverified, StopFits, Inside, Carries;
      hide Ends, Quiet, OutputsSound, OutputsRead, ReadAs, ClicksPaid, Because;
      ghost var v0, env := Now(), Around();
      QuietSelf(cap, env, v0, p);
      var spec := cap.outputs[i];
      var before := |recoveries|;
      var one := ReadOutput(p, spec);
      ghost var v1 := Now();
      InsideMonotone(cap, v0, v1, p);
      OutputsStillRead(outputs, v0, v1);
      if one.Done? {
        ReadHasParse(spec, one.value, v1.log);
        OutputsAdd(outputs, i, one.value);
        OneMoreRead(outputs, v1, i, one.value);
        InsideGrows(cap, v0, v1, p);
        WasAdded(i, outputs, one.value, v0.log, v1.log, recoveries[before..]);
        Goes(cap, env, v0, v0, v1, p, one);
        Finishes(cap, env, v0, v1, p, outputs[spec.name := one.value]);
        return Done(outputs[spec.name := one.value]);
      }
      Fails<OutputValue, map<ParamName, OutputValue>>(cap, env, v0, v0, v1, p, one);
      r := one.PropagateFailure();
      if one.Stopped? {
        InsideGrows(cap, v0, v1, p);
        var failed := AnyFailedSince(before);
        if spec.name !in cap.requiresOutputs && one.stop.status.StopHard?
           && one.stop.code.OutputExtractionFailed? && !failed {
          Skips(cap, env, v0, v1, p, one.stop, outputs);
          OutputsSkip(outputs, i);
          WasSkipped(i, outputs, v0.log, v1.log, before, recoveries);
          r := Done(outputs);
        }
      }
    }

    /**
     * The output was read and added; or nothing was added: it is optional, it was looked for or read, unless a
     * detector held, and no recovery failed meanwhile.
     */
    ghost predicate ReadOrSkipped(
      i: nat, was: map<ParamName, OutputValue>, now: map<ParamName, OutputValue>, logWas: seq<Happening>,
      log: seq<Happening>, since: seq<RecoveryRecord>)
      requires i < |cap.outputs|
    {
      var spec := cap.outputs[i];
      || (spec.name in now && now == was[spec.name := now[spec.name]] && ReadAs(spec, now[spec.name], log, calendar))
      || (now == was && spec.name !in cap.requiresOutputs && Sought(spec.name, logWas, log)
          && forall j :: 0 <= j < |since| && since[j].Automatic? ==> since[j].succeeded)
    }

    lemma WasSkipped(
      i: nat, outputs: map<ParamName, OutputValue>, was: seq<Happening>, log: seq<Happening>, n: nat,
      rs: seq<RecoveryRecord>)
      requires i < |cap.outputs| && cap.outputs[i].name !in cap.requiresOutputs && n <= |rs|
      requires Sought(cap.outputs[i].name, was, log)
      requires !(exists j :: n <= j < |rs| && rs[j].Automatic? && !rs[j].succeeded)
      ensures ReadOrSkipped(i, outputs, outputs, was, log, rs[n..])
    {
      hide ReadAs, Sought;
    }

    lemma WasAdded(
      i: nat, outputs: map<ParamName, OutputValue>, v: OutputValue, was: seq<Happening>, log: seq<Happening>,
      since: seq<RecoveryRecord>)
      requires i < |cap.outputs| && ReadAs(cap.outputs[i], v, log, calendar)
      ensures ReadOrSkipped(i, outputs, outputs[cap.outputs[i].name := v], was, log, since)
    {
      hide ReadAs, Sought;
    }

    lemma OutputsSkip(outputs: map<ParamName, OutputValue>, n: nat)
      requires n < |cap.outputs| && OutputsSound(outputs, n) && cap.outputs[n].name !in cap.requiresOutputs
      ensures OutputsSound(outputs, n + 1)
    {
    }

    /** Every step is behind the run; what is left is the success check and the outputs. */
    ghost predicate AtFinish(v: View) {
      WithinStep(|cap.steps|, v) && Accounted(v) && v.pending == {} && Went(|cap.steps|, v)
    }

    /** What finishing once did: it is to be done again, after one more pause at least, or it is over. */
    ghost predicate Rounds(a: View, b: View, again: bool, r: Exit<map<ParamName, OutputValue>>)
      requires successStep < |cap.steps|
    {
      && a.pauses <= b.pauses
      && (if again then
            && r.HandedBack? && AtFinish(b) && a.pauses < b.pauses
            && RoundsPay(cap, successStep, Asleep(b) - Asleep(a), b.pauses - a.pauses)
          else
            && FinishEnds(b, r)
            && RoundsPay(cap, successStep, Asleep(b) - Asleep(a) - FinishCost(cap, successStep), b.pauses - a.pauses))
    }

    /** How finishing ends: in a break, or with everything a success claims. */
    ghost predicate FinishEnds(v: View, r: Exit<map<ParamName, OutputValue>>) {
      && WithinStep(|cap.steps|, v) && Breaks(v, r)
      && (r.Done? ==> OutputsSound(r.value, |cap.outputs|) && Accounted(v) && Earned(v, r.value))
    }

    /** Finishes once, and re-verifies the hand-back it led to, if it did. */
    method Round() returns (r: Exit<map<ParamName, OutputValue>>, again: bool)
      requires Valid() && AtFinish(Now())
      modifies this, surface, gated
      ensures Rounds(old(Now()), Now(), again, r)
      ensures Kept(r.Crashed?)
    {
      hide ValidCapability, AttemptsSound, RecordsSound, Told, ClicksPaid, Because, AtFinish, Rounds, Finished;
      hide ReverifiedAll, WithinStep, GoodHandback, FinishCost;
      ghost var u0 := Now();
      FinishMeans(u0);
      Mark();
      ghost var v0 := Now();
      r := Finish();
      ghost var v1 := Now();
      FinishTaken(u0, v0, v1, r);
      again := false;
      if r.HandedBack? {
        var handed := r.handback;
        var looked := ReverifyAll(successStep, |cap.steps|, handed);
        again := looked.Done?;
        r := if again then HandedBack(handed) else looked.PropagateFailure();
        FinishReverified(u0, v0, v1, Now(), looked, again, r);
      }
    }

    lemma FinishMeans(v: View)
      requires AtFinish(v)
      ensures !v.reverifying
    {
      hide PassedUpTo, ActsSound, Went, Accounted;
    }

    /** What finishing once left: it is over, or a hand-back is to be re-verified. */
    lemma FinishTaken(u: View, a: View, b: View, e: Exit<map<ParamName, OutputValue>>)
      requires successStep < |cap.steps| && AtFinish(u) && a == u.(since := a.since) && Finished(a, b, e)
      ensures !e.HandedBack? ==> Rounds(u, b, false, e)
      ensures e.HandedBack? ==>
        && WithinStep(|cap.steps|, b) && GoodHandback(e.handback) && surface.attached && b.pending == {}
        && Went(|cap.steps|, b) && u.pauses < b.pauses && Asleep(b) - Asleep(a) <= FinishCost(cap, successStep)
    {
      hide ActsSound, PassedUpTo, WentThrough, RoundsPay, FinishCost, Because, HandBacks, Unverified, StopFits;
      hide GoodHandback, IrreversibleRenamed, GuardedActs, OutputsSound, OutputsRead, SucceededSince;
      hide SucceededInOrder, Inside, Ends;
      FinishParts(a, b, e);
      ActsSame(|cap.steps|, a.acts, b.acts, a.renamed, b.renamed);
      WentKept(|cap.steps|, a, b);
      if e.Done? { FlowThenSuccess(a, b); }
      if !e.HandedBack? {
        NoRoundPays(0);
        FinishPays(0, Asleep(b) - Asleep(u), 0, b.pauses - u.pauses);
      }
    }

    lemma NoRoundPays(n: nat)
      requires successStep < |cap.steps|
      ensures RoundsPay(cap, successStep, 0, n)
    {
      NoLookPays(0, n);
      LooksPayRounds(cap, successStep, 0, n);
    }

    lemma FinishReverified(u: View, a: View, b: View, c: View, looked: Exit<()>, again: bool,
      r: Exit<map<ParamName, OutputValue>>)
      requires successStep < |cap.steps| && AtFinish(u) && a == u.(since := a.since)
      requires Asleep(b) - Asleep(a) <= FinishCost(cap, successStep)
      requires Went(|cap.steps|, b) && u.pauses < b.pauses && ReverifiedAll(successStep, |cap.steps|, b, c, looked)
      requires again == looked.Done? && if again then r.HandedBack? else r == looked.PropagateFailure()
      ensures Rounds(u, c, again, r)
    {
      hide ActsSound, PassedUpTo, WentThrough, RoundsPay, FinishCost, Because, HandBacks, Unverified, GuardedActs;
      hide IrreversibleRenamed, Asked, LooksPay, OutputsSound, Earned, StopFits, HandoffStop, Escapes;
      NoRoundPays(0);
      RoundPays(cap, successStep, 0, Asleep(b) - Asleep(u), Asleep(c) - Asleep(b),
                0, b.pauses - u.pauses, c.pauses - b.pauses);
      if again {
        WentOnce(b, c);
      } else {
        FinishPays(Asleep(c) - Asleep(u), 0, c.pauses - u.pauses, c.pauses - u.pauses);
      }
    }

    /** Finishes the run, once more after every hand-back: in the end everything a success claims was earned. */
    method FinishWithHandbacks() returns (r: Exit<map<ParamName, OutputValue>>)
      requires AtStep(|cap.steps|)
      modifies this, surface, gated
      ensures FinishEnds(Now(), r) && old(pauses) <= pauses
      ensures RoundsPay(cap, successStep,
        surface.Slept() - old(surface.Slept()) - FinishCost(cap, successStep), pauses - old(pauses))
      ensures Kept(r.Crashed?)
    {
      hide ValidCapability, AttemptsSound, RecordsSound, Told, ClicksPaid, Because, Between, AtFinish, FinishEnds;
      hide Rounds, RoundsPay, FinishCost;
      ghost var v0 := Now();
      FinishBegins(v0);
      NoRoundPays(0);
      while true
        invariant Valid() && AtFinish(Now()) && v0.pauses <= pauses
        invariant RoundsPay(cap, successStep, surface.Slept() - Asleep(v0), pauses - v0.pauses)
        decreases MAX_HUMAN_PAUSES - pauses
      {
        ghost var v1 := Now();
        var again: bool;
        r, again := Round();
        RoundAdds(v0, v1, Now(), again, r);
        if !again { return; }
      }
    }

    lemma FinishBegins(v: View)
      requires ValidCapability(cap) && Between(|cap.steps|, v)
      ensures AtFinish(v)
    {
      hide PassedUpTo, WentThrough, Accounted, ActsSound;
      StepsExist();
    }

    lemma RoundAdds(a: View, b: View, c: View, again: bool, r: Exit<map<ParamName, OutputValue>>)
      requires successStep < |cap.steps| && a.pauses <= b.pauses && Rounds(b, c, again, r)
      requires RoundsPay(cap, successStep, Asleep(b) - Asleep(a), b.pauses - a.pauses)
      ensures a.pauses <= c.pauses && b.pauses <= c.pauses
      ensures if again then
        && !r.Crashed? && AtFinish(c) && b.pauses < c.pauses
        && RoundsPay(cap, successStep, Asleep(c) - Asleep(a), c.pauses - a.pauses)
        else
        && FinishEnds(c, r)
        && RoundsPay(cap, successStep, Asleep(c) - Asleep(a) - FinishCost(cap, successStep), c.pauses - a.pauses)
    {
      hide AtFinish, FinishEnds, RoundsPay, FinishCost;
      var more := Asleep(c) - Asleep(b) - if again then 0 else FinishCost(cap, successStep);
      RoundsPayMore(cap, successStep, Asleep(b) - Asleep(a), more, b.pauses - a.pauses, c.pauses - b.pauses);
    }

    /** What a successful run has done: every step, then the success checkpoint, and every output it returns. */
    ghost predicate Earned(v: View, outputs: map<ParamName, OutputValue>) {
      && Went(|cap.steps|, v)
      && v.held[AskCheckpoint(cap.successCheckpoint)] > 0
      && SucceededInOrder(v.log, HandBacks(v.recoveries))
      && OutputsRead(outputs, v.acts, v.log)
    }

    /** A hand-back only loosens what is asked of the steps behind the run. */
    lemma WentOnce(a: View, b: View)
      requires Went(|cap.steps|, a) && a.acts <= b.acts && a.held <= b.held && HandBacks(b.recoveries) > 0
      ensures Went(|cap.steps|, b)
    {
      hide HandBacks, Flowed;
    }

    lemma FinishPays(s: int, finish: int, n: nat, m: nat)
      requires successStep < |cap.steps| && RoundsPay(cap, successStep, s, n) && finish <= FinishCost(cap, successStep)
      requires n <= m
      ensures RoundsPay(cap, successStep, s + finish - FinishCost(cap, successStep), m)
    {
      hide FinishCost, LookAgainCost;
      RoundsPayLess(cap, successStep, s, n, m);
    }

    /**
     * The success checkpoint was seen, without hand-backs after every step was, and events were drained
     * last of all.
     */
    ghost predicate SucceededInOrder(log: seq<Happening>, handBacks: nat) {
      exists n: nat :: SucceededSince(n, log) && (handBacks == 0 ==> Flowed(cap, |cap.steps|, log, n))
    }

    lemma FlowThenSuccess(a: View, b: View)
      requires Went(|cap.steps|, a) && a.log <= b.log && HandBacks(b.recoveries) == HandBacks(a.recoveries)
      requires SucceededSince(|a.log|, b.log)
      ensures SucceededInOrder(b.log, HandBacks(b.recoveries))
    {
      hide HandBacks, SucceededSince, Flowed;
      if HandBacks(b.recoveries) == 0 { FlowedStill(cap, |cap.steps|, a.log, b.log, |a.log|, |a.log|); }
    }

    lemma StepsExist()
      requires ValidCapability(cap)
      ensures |cap.steps| > 0
    {
    }

    lemma FinishParts<T>(a: View, b: View, e: Exit<T>)
      requires successStep < |cap.steps|
      requires Inside(cap, a, b, successStep) && Ends(cap, Around(), a, b, e)
      ensures TraceKept(a, b) && b.reverifying == a.reverifying && a.pauses <= b.pauses
      ensures GuardedActs(cap, b.acts) == GuardedActs(cap, a.acts)
      ensures HandBacks(b.recoveries) == HandBacks(a.recoveries)
      ensures a.acts <= b.acts && a.held <= b.held && a.log <= b.log
      ensures e.Done? || e.Stopped? || e.HandedBack? ==> b.pending == a.pending
      ensures IrreversibleRenamed(cap, b.renamed) == IrreversibleRenamed(cap, a.renamed)
      ensures e.Done? ==>
        Unverified(b.recoveries) == Unverified(a.recoveries) && b.refused == a.refused && b.denied == a.denied
      ensures e.Stopped? ==>
        && StopFits(cap, surface.attached, e.stop) && Because(cap, b.log, 0, e.stop.code)
        && (b.refused == a.refused || ReportsRefusal(e.stop)) && (b.denied == a.denied || ReportsDenial(e.stop))
      ensures e.HandedBack? ==> GoodHandback(e.handback) && a.pauses < b.pauses
      ensures e.HandedBack? || e.ControlLost? || e.Crashed? ==> surface.attached
    {
      if e.Stopped? { BecauseStill(cap, b.log, b.log, b.since, 0, e.stop.code); }
    }

    // ---- the run ---------------------------------------------------------------------------------

    /** What the whole flow did: where it ended, how, and the pauses that pay for its sleep. */
    ghost predicate FlowRan(i: nat, a: View, b: View, r: Exit<map<ParamName, OutputValue>>)
      requires successStep < |cap.steps|
    {
      && WithinStep(i, b) && (r.Done? ==> i == |cap.steps|) && Breaks(b, r)
      && a.pauses <= b.pauses && FlowPays(cap, successStep, Asleep(b) - Asleep(a), b.pauses - a.pauses)
      && (r.Done? ==> OutputsSound(r.value, |cap.outputs|) && Accounted(b) && Earned(b, r.value))
    }

    /** Every step of the flow, then the success check and the outputs. */
    method RunFlow() returns (r: Exit<map<ParamName, OutputValue>>, ghost at: nat)
      requires AtStep(0)
      modifies this, surface, gated
      ensures successStep < |cap.steps| && FlowRan(at, old(Now()), Now(), r)
      ensures Kept(r.Crashed?)
    {
      hide ValidCapability, AttemptsSound, RecordsSound, Told, ClicksPaid, Because, Between, FlowRan, Stepped;
      hide FinishEnds, Flowing, RoundsPay, FinishCost;
      ghost var v0 := Now();
      FlowStarts(v0);
      for i := 0 to |cap.steps|
        invariant AtStep(i) && Flowing(i, v0, Now())
      {
        ghost var v1 := Now();
        var one := StepWithHandbacks(i);
        FlowsOn(i, v0, v1, Now(), one);
        if one.IsFailure() {
          at := i;
          return one.PropagateFailure(), at;
        }
      }
      ghost var v2 := Now();
      r := FinishWithHandbacks();
      at := |cap.steps|;
      FlowEnds(v0, v2, Now(), r);
    }

    /** The sleep of the first i steps, and the pauses that pay for the looks. */
    ghost predicate Flowing(i: nat, a: View, b: View) {
      && i <= |cap.steps| && a.pauses <= b.pauses
      && LooksPay(cap, Asleep(b) - Asleep(a) - StepsCost(cap, i), b.pauses - a.pauses)
    }

    lemma FlowStarts(a: View)
      ensures Flowing(0, a, a)
    {
      hide LooksPay, StepsCost;
      NoLookPays(0, 0);
      NoStepsCost(cap);
    }

    lemma FlowsOn(i: nat, a: View, b: View, c: View, one: Exit<()>)
      requires i < |cap.steps| && successStep < |cap.steps| && Flowing(i, a, b) && Stepped(i, b, c, one)
      ensures Flowing(i + 1, a, c) && (one.Done? ==> Between(i + 1, c))
      ensures one.IsFailure() ==> FlowRan(i, a, c, one.PropagateFailure())
    {
      hide LooksPay, StepsCost, StepCost, FlowPays, Between, WithinStep, StopFits, HandoffStop, Escapes, HandBacks;
      hide Because, OutputsSound, Accounted, Earned;
      StepsCostNext(cap, i);
      LooksPayMore(cap, Asleep(b) - Asleep(a) - StepsCost(cap, i), Asleep(c) - Asleep(b) - StepCost(cap, i),
                   b.pauses - a.pauses, c.pauses - b.pauses);
      FlowPaysEarly(cap, successStep, i + 1, Asleep(c) - Asleep(a), c.pauses - a.pauses);
    }

    lemma FlowEnds(a: View, b: View, c: View, r: Exit<map<ParamName, OutputValue>>)
      requires successStep < |cap.steps| && Flowing(|cap.steps|, a, b) && FinishEnds(c, r) && b.pauses <= c.pauses
      requires RoundsPay(cap, successStep, Asleep(c) - Asleep(b) - FinishCost(cap, successStep), c.pauses - b.pauses)
      ensures FlowRan(|cap.steps|, a, c, r)
    {
      hide LooksPay, StepsCost, FlowPays, RoundsPay, FinishCost, WithinStep, Breaks, OutputsSound, Accounted, Earned;
      var n := |cap.steps|;
      LooksPayRounds(cap, successStep, Asleep(b) - Asleep(a) - StepsCost(cap, n), b.pauses - a.pauses);
      RoundsPayMore(cap, successStep, Asleep(b) - Asleep(a) - StepsCost(cap, n),
                    Asleep(c) - Asleep(b) - FinishCost(cap, successStep), b.pauses - a.pauses, c.pauses - b.pauses);
      FlowPaysWhole(cap, successStep, Asleep(c) - Asleep(a), c.pauses - a.pauses);
    }

    /** A human took the session under a running step. */
    function ControlLostStop(): (s: RunStopped)
      reads this
    {
      RunStopped(OperatorAborted, SessionTaken(), HoldsTheSession(), SessionTaken(),
                 if interventionPath.Some? then StopEscalated else StopHard, [], interventionPath, reached, [])
    }

    method RecordUnfinishedStep()
      requires Valid()
      modifies this`records, this`current
      ensures Valid() && current.None?
      ensures old(current).None? ==> records == old(records)
      ensures old(current).Some? && old(current).value.step < |cap.steps| ==>
        && |records| == |old(records)| + 1 && records[..|old(records)|] == old(records)
        && records[|old(records)|].stepId == cap.steps[old(current).value.step].id && !records[|old(records)|].passed
        && records[|old(records)|].attempts >= 1
    {
      if current.Some? && current.value.step < |cap.steps| {
        records := records + [StepRecord(
          cap.steps[current.value.step].id, false, if current.value.attempts >= 1 then current.value.attempts else 1)];
      }
      current := None;
    }

    function StopResult(stop: RunStopped): ReplayResult
      reads this
    {
      ReplayResult(StatusOf(stop.status), cap.id, cap.version, map[], Some(stop.code), stop.fieldErrors, reached,
                   stop.expected, stop.observed, records, recoveries, stop.interventionPath)
    }

    function SuccessResult(outputs: map<ParamName, OutputValue>): ReplayResult
      reads this
    {
      ReplayResult(if recoveries != [] then RecoveredThenSuccess else Success, cap.id, cap.version, outputs, None, [],
                   reached, "", "", records, recoveries, None)
    }

    /** The records are those of the first steps of the flow, in order, all passed but possibly the last. */
    static ghost predicate FlowPrefix(cap: Capability, rs: seq<StepRecord>) {
      && 0 < |rs| <= |cap.steps|
      && forall j :: 0 <= j < |rs| ==>
           rs[j].stepId == cap.steps[j].id && rs[j].attempts >= 1 && (j < |rs| - 1 ==> rs[j].passed)
    }

    static ghost predicate AllPassed(cap: Capability, rs: seq<StepRecord>) {
      |rs| == |cap.steps| && forall j :: 0 <= j < |rs| ==> rs[j].passed
    }

    /** No recovery of the whole run was started more often than its limit allows. */
    ghost predicate StartedWithinLimits(started: multiset<Key>) {
      forall p, d :: 0 <= p < |cap.steps| && 0 <= d < |cap.detectors| ==>
        started[KeyOf(cap, p, d)] <= Limit(cap.detectors[d])
    }

    /** Every way a run can end, and what then holds of it. */
    ghost predicate ResultSound(r: ReplayResult)
      reads this, surface, gated
    {
      && StatusInvariants(r)
      && (FitsCapability(r, cap) <==> FitsIfHandoff(r, cap))
      && FlowPrefix(cap, r.steps) && r.stepReached == Some(r.steps[|r.steps| - 1].stepId)
      && (Succeeded(r.status) ==> AllPassed(cap, r.steps))
      && r.recoveries == recoveries
      && (!Succeeded(r.status) ==> r.outcomeCode.Some? && Accounts(r.outcomeCode.value))
      && (Succeeded(r.status) && (surface.refused || gated.denied) ==>
            exists i :: 0 <= i < |r.recoveries| && IsHandBack(r.recoveries[i]))
    }

    /**
     * What happened in the run accounts for this code; or a human took the session; or the screen a hand-back
     * left did not verify.
     */
    ghost predicate Accounts(code: Code)
      reads this, surface
    {
      || Because(cap, surface.log, 0, code)
      || (code.OperatorAborted? && surface.attached)
      || (code.PostHandoffCheckpointFailed? && HandBacks(recoveries) > 0)
    }

    /** With nobody to ask: the full contract, verified recoveries, and nothing refused passed over. */
    ghost predicate UnattendedSound(r: ReplayResult)
      reads this, surface, gated
    {
      && FitsCapability(r, cap) && !r.status.Escalated?
      && (Succeeded(r.status) ==> forall i :: 0 <= i < |r.recoveries| ==> Verified(r.recoveries[i]))
      && (surface.refused ==>
            r.status.HardFailed? && (r.outcomeCode == Some(PolicyBlocked) || r.outcomeCode == Some(UnexpectedDialog)))
      && (gated.denied ==>
            r.status.HardFailed?
            && (r.outcomeCode == Some(PolicyBlocked) || r.outcomeCode == Some(ConfirmationRequired)))
    }

    lemma WithinLimits()
      requires Limited()
      ensures StartedWithinLimits(started) && hooks == pauses <= MAX_HUMAN_PAUSES
      ensures ClicksPaid(cap, surface.acts, started) && (gated.irreversible > 0 ==> gated.Permitted())
    {
      forall p, d | 0 <= p < |cap.steps| && 0 <= d < |cap.detectors|
        ensures started[KeyOf(cap, p, d)] <= Limit(cap.detectors[d])
      {
        assert started[KeyOf(cap, p, d)] == Used(attempts, KeyOf(cap, p, d));
      }
    }

    lemma RecoveriesKnown()
      requires Valid()
      ensures forall rec :: rec in recoveries && rec.Automatic? ==> rec.detectorId in DetectorIds(cap.detectors)
    {
    }

    /** A stop that fits gives a result that fits; a hand-off stop only when it says why. */
    lemma StopResultSound(stop: RunStopped)
      requires Valid() && reached.Some?
      requires StopFits(cap, surface.attached, stop) || HandoffStop(cap, surface.attached, stop)
      ensures StatusInvariants(StopResult(stop)) <==> stop.status.StopBusiness? || SaysWhy(stop)
      ensures StopFits(cap, surface.attached, stop) ==>
        StatusInvariants(StopResult(stop)) && FitsCapability(StopResult(stop), cap)
      ensures FitsCapability(StopResult(stop), cap) <==> FitsIfHandoff(StopResult(stop), cap)
    {
      RecoveriesKnown();
      HandoffCodeFits(cap, StatusOf(stop.status));
    }

    /** A finished flow gives a successful result that keeps the whole contract. */
    lemma SuccessSound(outputs: map<ParamName, OutputValue>)
      requires Valid() && WithinStep(|cap.steps|, Now()) && Accounted(Now()) && OutputsSound(outputs, |cap.outputs|)
      ensures ResultSound(SuccessResult(outputs)) && Succeeded(SuccessResult(outputs).status)
      ensures !surface.attached ==> UnattendedSound(SuccessResult(outputs))
    {
      hide AttemptsSound, RecordsSound, Told, OutcomeCodes, ActsSound, ClicksPaid, Because, ValidCapability;
      hide FitsCapability, FitsIfHandoff, StatusInvariants, Accounts;
      NoUnverified(recoveries);
      SomeHandBack(recoveries);
      SuccessFits(outputs);
    }

    lemma SuccessFits(outputs: map<ParamName, OutputValue>)
      requires Valid() && Accounted(Now()) && OutputsSound(outputs, |cap.outputs|) && reached.Some?
      ensures var r := SuccessResult(outputs);
        StatusInvariants(r) && FitsCapability(r, cap) && FitsIfHandoff(r, cap)
    {
      hide AttemptsSound, RecordsSound, Told, OutcomeCodes, ActsSound, ClicksPaid, Because;
      RecoveriesKnown();
      NoUnverified(recoveries);
      SomeHandBack(recoveries);
      if recoveries != [] && HandBacks(recoveries) == 0 { assert Vouches(recoveries[0]); }
      forall n | n in cap.requiresOutputs ensures n in outputs {
        assert n in OutputNames(cap.outputs);
      }
    }

    /** Where the run broke off, the records are a prefix of the flow that ends at the step reached. */
    lemma TraceSound(i: nat, before: seq<StepRecord>, wasCurrent: Option<Progress>)
      requires i <= |cap.steps| && PassedUpTo(before, i) && (i == |cap.steps| ==> i > 0)
      requires if i < |cap.steps| then wasCurrent.Some? && wasCurrent.value.step == i else wasCurrent.None?
      requires reached == Some(cap.steps[if i < |cap.steps| then i else i - 1].id)
      requires wasCurrent.None? ==> records == before
      requires wasCurrent.Some? ==>
        && |records| == |before| + 1 && records[..|before|] == before
        && records[|before|].stepId == cap.steps[i].id && records[|before|].attempts >= 1
      ensures FlowPrefix(cap, records) && reached == Some(records[|records| - 1].stepId)
    {
      forall j | 0 <= j < |records|
        ensures records[j].stepId == cap.steps[j].id && records[j].attempts >= 1
        ensures (j < |records| - 1 ==> records[j].passed)
      {
        if j < |before| { assert records[..|before|][j] == records[j]; }
      }
    }

    /** Ends the run with the result of a stop, unless that result would break its own rules. */
    method Conclude(stop: RunStopped, ghost i: nat) returns (end: RunEnd)
      requires Valid() && WithinStep(i, Now())
      requires StopFits(cap, surface.attached, stop) || (surface.attached && HandoffStop(cap, surface.attached, stop))
      requires !surface.attached ==>
        (surface.refused ==> ReportsRefusal(stop)) && (gated.denied ==> ReportsDenial(stop))
      requires Accounts(stop.code)
      modifies this`records, this`current
      ensures Valid()
      ensures end.Returned? || end.InvalidResult?
      ensures end.Returned? ==> ResultSound(end.result)
      ensures end.Returned? ==>
        end.result.outcomeCode == Some(stop.code) && !Succeeded(end.result.status)
        && end.result.recoveries == recoveries
      ensures !surface.attached ==> end.Returned? && UnattendedSound(end.result)
      ensures end.InvalidResult? ==>
        surface.attached && end.stop.code.PostHandoffCheckpointFailed? && !SaysWhy(end.stop) && AnswersBusiness(cap)
    {
      hide ValidCapability, AttemptsSound, RecordsSound, Told, OutcomeCodes, Rows, GuardedActs, OtherGuardedActs;
      hide IrreversibleRenamed, PassedUpTo, ActsSound, StopFits, HandoffStop, FitsCapability, StatusInvariants;
      hide FlowPrefix, ClicksPaid, Because;
      ghost var before, wasCurrent := records, current;
      RecordUnfinishedStep();
      TraceSound(i, before, wasCurrent);
      StopResultSound(stop);
      StopParts(stop);
      var result := StopResult(stop);
      end := if StatusInvariants(result) then Returned(result) else InvalidResult(stop);
    }

    lemma StopParts(stop: RunStopped)
      requires StopFits(cap, surface.attached, stop) || HandoffStop(cap, surface.attached, stop)
      ensures stop.status.StopEscalated? ==> surface.attached
      ensures HandoffStop(cap, surface.attached, stop) ==>
        stop.code.PostHandoffCheckpointFailed? && (SaysWhy(stop) || AnswersBusiness(cap))
      ensures !stop.status.StopBusiness? && !SaysWhy(stop) ==> HandoffStop(cap, surface.attached, stop)
      ensures stop.status.StopBusiness? ==> StopFits(cap, surface.attached, stop)
    {
    }

    lemma LostSound()
      requires Valid()
      ensures surface.attached ==>
        StopFits(cap, surface.attached, ControlLostStop()) && Accounts(ControlLostStop().code)
    {
    }

    lemma BrokeOff<T>(r: Exit<T>)
      requires Breaks(Now(), r)
      ensures r.Stopped? ==>
        && (StopFits(cap, surface.attached, r.stop) || (surface.attached && HandoffStop(cap, surface.attached, r.stop)))
        && (!surface.attached ==>
              (surface.refused ==> ReportsRefusal(r.stop)) && (gated.denied ==> ReportsDenial(r.stop)))
      ensures r.Stopped? ==> Accounts(r.stop.code)
      ensures r.HandedBack? ==> Escapes(r.handback)
      ensures r.ControlLost? || r.Crashed? ==> surface.attached
      ensures r.Done? || r.Stopped? ==> pending == {}
    {
    }

    /** What the flow left, for its result. */
    lemma RanMeans(i: nat, was: View, r: Exit<map<ParamName, OutputValue>>)
      requires successStep < |cap.steps| && Limited() && FlowRan(i, was, Now(), r)
      ensures WithinStep(i, Now()) && ActsSound(surface.acts, surface.renamed, |cap.steps|)
      ensures was.pauses == 0 ==> Asleep(Now()) - Asleep(was) <= RunCost(cap, successStep)
      ensures r.Done? ==>
        && WithinStep(|cap.steps|, Now()) && OutputsSound(r.value, |cap.outputs|) && Accounted(Now())
        && Earned(Now(), r.value)
      ensures r.Stopped? ==>
        && (StopFits(cap, surface.attached, r.stop) || (surface.attached && HandoffStop(cap, surface.attached, r.stop)))
        && (!surface.attached ==>
              (surface.refused ==> ReportsRefusal(r.stop)) && (gated.denied ==> ReportsDenial(r.stop)))
        && Accounts(r.stop.code)
      ensures r.HandedBack? ==> Escapes(r.handback)
      ensures r.ControlLost? || r.Crashed? ==> surface.attached
      ensures r.Done? || r.Stopped? ==> pending == {}
    {
      hide PassedUpTo, ActsSound, OutputsSound, Earned, FlowPays, StopFits, HandoffStop, Accounts, Escapes, RunCost;
      hide AttemptsSound, ClicksPaid, Accounted, Because;
      BrokeOff(r);
      if was.pauses == 0 { RunPays(cap, successStep, Asleep(Now()) - Asleep(was), pauses); }
    }

    /** A fresh engine is at the first step. */
    lemma Fresh()
      requires Valid() && records == [] && recoveries == [] && current.None? && !reverifying && pending == {}
      requires surface.acts == multiset{} && surface.renamed == {} && !surface.refused && !gated.denied
      ensures AtStep(0)
    {
      NothingFlowed(cap, surface.log);
    }

    /** What the counts of guarded acts say of the steps themselves. */
    lemma ActsMean()
      requires ActsSound(surface.acts, surface.renamed, |cap.steps|)
      ensures forall s :: s in cap.steps && Guarded(s) ==> OwnActs(surface.acts, s) <= 1
      ensures forall s :: s in cap.steps && s.risk == Irreversible && !gated.confirm ==> OwnActs(surface.acts, s) == 0
    {
    }

    lemma SuccessMeans(r: ReplayResult)
      requires ResultSound(r) && Succeeded(r.status) && Earned(Now(), r.outputs)
      requires ActsSound(surface.acts, surface.renamed, |cap.steps|)
      requires r.status.Success? ==> Told(started, r.recoveries, {})
      ensures forall name :: name in r.outputs ==> Vouched(cap, name, r.outputs[name], surface.log, calendar)
      ensures surface.log != [] && surface.log[|surface.log| - 1] == Clean()
      ensures NoHandBack(r.recoveries) ==> FlowedThenSucceeded(cap, surface.log)
      ensures NoHandBack(r.recoveries) ==>
        && !surface.refused && !gated.denied
        && (forall s :: s in cap.steps ==> OwnActs(surface.acts, s) >= 1 && surface.held[WaitQuery(s)] > 0)
        && (forall s :: s in cap.steps && Guarded(s) ==> OwnActs(surface.acts, s) == 1)
      ensures r.status.Success? ==> forall k :: started[k] == 0
    {
      SomeHandBack(r.recoveries);
    }

    lemma FailureMeans(r: ReplayResult)
      requires ResultSound(r) && !Succeeded(r.status)
      ensures r.outcomeCode.Some?
      ensures || Because(cap, surface.log, 0, r.outcomeCode.value)
              || (surface.attached && r.outcomeCode.value.OperatorAborted?)
              || (r.outcomeCode.value.PostHandoffCheckpointFailed? && !NoHandBack(r.recoveries))
    {
      SomeHandBack(r.recoveries);
    }

    /** One run, from the first step to its result. */
    method Run() returns (end: RunEnd)
      requires AtStep(0)
      modifies this, surface, gated
      ensures ActsSound(surface.acts, surface.renamed, |cap.steps|)
      ensures StartedWithinLimits(started) && hooks <= MAX_HUMAN_PAUSES
      ensures ClicksPaid(cap, surface.acts, started) && (gated.irreversible > 0 ==> gated.Permitted())
      ensures end.Returned? ==> ResultSound(end.result)
      ensures !surface.attached ==> end.Returned? && UnattendedSound(end.result)
      ensures end.Returned? && Succeeded(end.result.status) ==> Earned(Now(), end.result.outputs)
      ensures end.Returned? && (end.result.outcomeCode != Some(OperatorAborted) || !surface.attached) ==>
        Told(started, end.result.recoveries, {})
      ensures end.EscapedHandback? ==>
        surface.attached && end.reason.IrreversibleNeedsHuman? && gated.handling.HandleEscalate? && Recovers(cap)
      ensures end.InvalidResult? ==>
        surface.attached && end.stop.code.PostHandoffCheckpointFailed? && !SaysWhy(end.stop) && AnswersBusiness(cap)
      ensures end.HookFailed? ==> surface.attached
      ensures old(pauses) == 0 ==> surface.Slept() - old(surface.Slept()) <= RunCost(cap, successStep)
    {
      hide ValidCapability, AttemptsSound, RecordsSound, Told, OutcomeCodes, Rows, GuardedActs, OtherGuardedActs;
      hide IrreversibleRenamed, GoodHandback, Pauses, Unverified, HandBacks, StopFits, HandoffStop, ActsSound;
      hide PassedUpTo, OutputsSound, ResultSound, UnattendedSound, StartedWithinLimits, Breaks, Earned, Succeeded;
      hide WithinStep, AtStep, Accounted, FlowPays, RunCost, ClicksPaid, Because, Accounts, FlowRan;
      ghost var v0 := Now();
      var flow, i := RunFlow();
      RanMeans(i, v0, flow);
      WithinLimits();
      match flow
      case Done(outputs) =>
        SuccessSound(outputs);
        end := Returned(SuccessResult(outputs));
      case Stopped(stop) =>
        end := Conclude(stop, i);
      case ControlLost =>
        LostSound();
        end := Conclude(ControlLostStop(), i);
      case HandedBack(h) =>
        end := EscapedHandback(h.intervention.reason);
      case Crashed =>
        end := HookFailed;
    }
  }

  /** How often a step's own action reached the application. */
  ghost function OwnActs(acts: multiset<ActBy>, s: Step): nat {
    acts[Own(s.id)]
  }

  ghost predicate NoHandBack(rs: seq<RecoveryRecord>) {
    forall i :: 0 <= i < |rs| ==> !IsHandBack(rs[i])
  }

  /** A fresh engine on a fresh surface. */
  method Prepare(cap: Capability, attached: bool, handling: Handling, confirm: bool,
    calendar: string -> Option<string>) returns (engine: ReplayEngine)
    requires ValidCapability(cap)
    ensures fresh(engine) && fresh(engine.gated) && fresh(engine.surface)
    ensures engine.cap == cap && engine.successStep == ReplayEngine.SuccessStep(cap) && engine.calendar == calendar
    ensures engine.surface.attached == attached
    ensures engine.gated.handling == handling && engine.gated.confirm == confirm
    ensures engine.AtStep(0) && engine.pauses == 0
  {
    hide ValidCapability;
    var surface := new Surface(attached);
    var gated := new GatedSurface(surface, handling, confirm);
    engine := new ReplayEngine(cap, gated, calendar);
    engine.Fresh();
  }

  /**
   * A whole replay on a fresh engine and surface. Whatever the surface answers, a guarded step acts at
   * most once and an irreversible one only with standing permission; a result keeps its own rules, and
   * its records are a prefix of the flow. A success without hand-backs means that every step acted, each
   * guarded one exactly once, that the success checkpoint was seen, and that a plain success needed no
   * recovery at all. Any other result has a code that something in the run accounts for. No recovery clicks
   * more often than it was started, and nothing that the gate judges irreversible acts without permission.
   * With nobody attached there always is a result, and it fits the capability.
   */
  method Replay(cap: Capability, attached: bool, handling: Handling, confirm: bool, calendar: string -> Option<string>)
    returns (end: RunEnd, ghost acts: multiset<ActBy>, ghost held: multiset<Query>, ghost started: multiset<Key>,
      ghost hooks: nat, ghost slept: int, ghost log: seq<Happening>, ghost refused: bool, ghost denied: bool,
      ghost irreversible: nat)
    requires ValidCapability(cap)
    ensures forall s :: s in cap.steps && Guarded(s) ==> OwnActs(acts, s) <= 1
    ensures forall s :: s in cap.steps && s.risk == Irreversible && !confirm ==> OwnActs(acts, s) == 0
    ensures end.Returned? ==>
      && StatusInvariants(end.result)
      && ReplayEngine.FlowPrefix(cap, end.result.steps)
      && (FitsCapability(end.result, cap) <==> FitsIfHandoff(end.result, cap))
    ensures end.Returned? && Succeeded(end.result.status) ==>
      && ReplayEngine.AllPassed(cap, end.result.steps)
      && held[AskCheckpoint(cap.successCheckpoint)] > 0
      && log != [] && log[|log| - 1] == Clean()
      && (forall name :: name in end.result.outputs ==> Vouched(cap, name, end.result.outputs[name], log, calendar))
    ensures end.Returned? && Succeeded(end.result.status) && NoHandBack(end.result.recoveries) ==>
      && !refused && !denied
      && (forall s :: s in cap.steps ==> OwnActs(acts, s) >= 1 && held[WaitQuery(s)] > 0)
      && (forall s :: s in cap.steps && Guarded(s) ==> OwnActs(acts, s) == 1)
      && FlowedThenSucceeded(cap, log)
    ensures end.Returned? && end.result.status.Success? ==> forall k :: started[k] == 0
    ensures end.Returned? && !Succeeded(end.result.status) ==>
      && end.result.outcomeCode.Some?
      && (|| Because(cap, log, 0, end.result.outcomeCode.value)
          || (attached && end.result.outcomeCode.value.OperatorAborted?)
          || (end.result.outcomeCode.value.PostHandoffCheckpointFailed? && !NoHandBack(end.result.recoveries)))
    ensures !(confirm && handling.HandleConfirm?) ==> irreversible == 0
    ensures ClicksPaid(cap, acts, started)
    ensures !attached ==> end.Returned? && !end.result.status.Escalated? && FitsCapability(end.result, cap)
    ensures !attached && Succeeded(end.result.status) ==>
      forall i :: 0 <= i < |end.result.recoveries| ==> Verified(end.result.recoveries[i])
    ensures !attached && refused ==>
      end.Returned? && end.result.status.HardFailed?
      && (end.result.outcomeCode == Some(PolicyBlocked) || end.result.outcomeCode == Some(UnexpectedDialog))
    ensures !attached && denied ==>
      end.Returned? && end.result.status.HardFailed?
      && (end.result.outcomeCode == Some(PolicyBlocked) || end.result.outcomeCode == Some(ConfirmationRequired))
    ensures end.EscapedHandback? ==>
      attached && end.reason.IrreversibleNeedsHuman? && handling.HandleEscalate? && Recovers(cap)
    ensures end.InvalidResult? ==>
      attached && end.stop.code.PostHandoffCheckpointFailed? && !SaysWhy(end.stop) && AnswersBusiness(cap)
    ensures end.HookFailed? ==> attached
    ensures slept <= RunCost(cap, ReplayEngine.SuccessStep(cap))
    ensures hooks <= MAX_HUMAN_PAUSES
    ensures forall p, d :: 0 <= p < |cap.steps| && 0 <= d < |cap.detectors| ==>
      started[KeyOf(cap, p, d)] <= Limit(cap.detectors[d])
  {
    hide ValidCapability, FitsCapability, FitsIfHandoff, FlowedThenSucceeded, Vouched, RunCost, Told, Recovers;
    hide AnswersBusiness, NoHandBack, SaysWhy, KeyOf, Limit, WaitQuery, ClicksPaid, Because, OwnActs;
    hide ReplayEngine.FlowPrefix, ReplayEngine.AllPassed, ReplayEngine.AtStep;
    var engine := Prepare(cap, attached, handling, confirm, calendar);
    ghost var surface, gated := engine.surface, engine.gated;
    ghost var asleep := surface.Slept();
    end := engine.Run();
    acts, held, started, hooks := surface.acts, surface.held, engine.started, engine.hooks;
    slept := surface.Slept() - asleep;
    log, refused, denied, irreversible := surface.log, surface.refused, gated.denied, gated.irreversible;
    engine.ActsMean();
    if end.Returned? && Succeeded(end.result.status) { engine.SuccessMeans(end.result); }
    if end.Returned? && !Succeeded(end.result.status) { engine.FailureMeans(end.result); }
  }

  /** How a run can end: with a result, or with one of three exceptions. */
  datatype RunEnd =
    | Returned(result: ReplayResult)
    | EscapedHandback(reason: ReasonCode)
    | InvalidResult(stop: RunStopped)
    | HookFailed
}
