/** What a wait looks for, what looking leaves in the log, and what in the log accounts for a stop. */
module Looks {
  import opened Vocab
  import opened Schema
  import opened Enforce

  /** What a wait looks for on every tick. */
  datatype Awaited =
    | TargetResolves(of: TargetOf, failureCode: Option<Code>)
    | PageSettles
    | UrlMatches
    | CheckpointHolds(checkpoint: CheckpointId)

  datatype Seen = Found(target: Resolved) | Passed

  /** How a tick of a wait ends when nothing is raised: it saw what it awaits, picked a detector, or slept. */
  datatype TickEnd = Saw(seen: Seen) | Picked(detector: nat) | Slept(ms: nat)

  /** A resolved target is reported as changed exactly when the surface last found it so. */
  ghost predicate SeenTruly(aw: Awaited, seen: Seen, stale: set<TargetOf>) {
    seen.Found? ==> aw.TargetResolves? && (aw.of in stale <==> seen.target.identityChanged)
  }

  /** The question a wait asks on every tick. */
  function QueryOf(step: StepId, aw: Awaited): Query {
    match aw
    case TargetResolves(of, _) => AskTarget(of)
    case PageSettles => AskQuiet(step)
    case UrlMatches => AskUrl(step)
    case CheckpointHolds(cp) => AskCheckpoint(cp)
  }

  /** What a step's own wait waits for. */
  function AwaitedBy(step: Step): Awaited {
    match step.waitFor
    case CheckpointWait(cp, _) => CheckpointHolds(cp)
    case SettleWait(_, _) => PageSettles
    case UrlChangeWait(_) => UrlMatches
  }

  function WaitQuery(step: Step): Query {
    QueryOf(step.id, AwaitedBy(step))
  }

  predicate Eligible(cap: Capability, p: nat, i: nat, skip: set<nat>, timeouts: bool)
    requires p < |cap.steps| && i < |cap.detectors|
  {
    var d := cap.detectors[i];
    InScope(d, cap.steps[p].id) && i !in skip && (d.timeouts != [] <==> timeouts)
  }

  // ---- what looking leaves in the log ------------------------------------------------------------

  /** The first n detectors that are looked for, asked in order, all with the answer no. */
  ghost function AllNo(cap: Capability, p: nat, skip: set<nat>, timeouts: bool, n: nat): seq<Happening>
    requires p < |cap.steps| && n <= |cap.detectors|
  {
    if n == 0 then []
    else
      var sofar := AllNo(cap, p, skip, timeouts, n - 1);
      if Eligible(cap, p, n - 1, skip, timeouts) then sofar + [Heard(AskDetector(cap.detectors[n - 1].id), false)]
      else sofar
  }

  /** One pass over a step's detectors: every eligible one before the first that holds was asked and did not. */
  ghost function Scan(cap: Capability, p: nat, skip: set<nat>, timeouts: bool, found: Option<nat>): seq<Happening>
    requires p < |cap.steps| && (found.Some? ==> found.value < |cap.detectors|)
  {
    if found.None? then AllNo(cap, p, skip, timeouts, |cap.detectors|)
    else AllNo(cap, p, skip, timeouts, found.value) + [Heard(AskDetector(cap.detectors[found.value].id), true)]
  }

  /** A look: no eligible detector held, and then what is awaited was asked for. */
  ghost function LookLog(cap: Capability, p: nat, aw: Awaited, windows: set<nat>, yes: bool): seq<Happening>
    requires p < |cap.steps|
  {
    Scan(cap, p, windows, false, None) + [Heard(QueryOf(cap.steps[p].id, aw), yes)]
  }

  /** What a look adds to the log: a detector that holds ends it before what is awaited is asked for. */
  ghost function AroundLog(cap: Capability, p: nat, aw: Awaited, windows: set<nat>, end: Option<TickEnd>)
    : seq<Happening>
    requires p < |cap.steps| && (end.Some? && end.value.Picked? ==> end.value.detector < |cap.detectors|)
  {
    if end.Some? && end.value.Picked? then Scan(cap, p, windows, false, Some(end.value.detector))
    else LookLog(cap, p, aw, windows, end.Some?)
  }

  /** What a tick adds to the log: events were drained, none refused, and then it looked around. */
  ghost function TickLog(cap: Capability, p: nat, aw: Awaited, windows: set<nat>, end: Option<TickEnd>): seq<Happening>
    requires p < |cap.steps| && (end.Some? && end.value.Picked? ==> end.value.detector < |cap.detectors|)
  {
    [Clean()] + AroundLog(cap, p, aw, windows, end)
  }

  /** A look of a wait: events were drained, none refused, no eligible detector held, and the awaited was asked for. */
  ghost function Looked(cap: Capability, p: nat, aw: Awaited, windows: set<nat>, yes: bool): seq<Happening>
    requires p < |cap.steps|
  {
    [Clean()] + LookLog(cap, p, aw, windows, yes)
  }

  /** The last look of a wait that passed: what it awaited held. */
  ghost function LastLook(cap: Capability, p: nat, aw: Awaited, windows: set<nat>): seq<Happening>
    requires p < |cap.steps|
  {
    Looked(cap, p, aw, windows, true)
  }

  /** The last look of a wait that gave up at its deadline, and then the timeout detectors of its checkpoint. */
  ghost function LastChance(cap: Capability, p: nat, aw: Awaited): seq<Happening>
    requires p < |cap.steps|
  {
    Looked(cap, p, aw, {}, false) + if aw.CheckpointHolds? then Scan(cap, p, {}, true, None) else []
  }

  predicate DetectorHolds(h: Happening) {
    h.Heard? && h.query.AskDetector? && h.yes
  }

  /** No detector was answered yes from entry n of the log on. */
  ghost predicate NoneHeld(log: seq<Happening>, n: nat) {
    forall i :: n <= i < |log| ==> !DetectorHolds(log[i])
  }

  lemma HeldSince(n: nat, log: seq<Happening>, after: seq<Happening>)
    requires n < |log| && DetectorHolds(log[|log| - 1]) && log <= after
    ensures !NoneHeld(after, n)
  {
    assert DetectorHolds(after[|log| - 1]);
  }

  lemma NoneHeldBefore(n: nat, log: seq<Happening>, after: seq<Happening>)
    requires NoneHeld(after, n) && log <= after
    ensures NoneHeld(log, n)
  {
    forall i | n <= i < |log| ensures !DetectorHolds(log[i]) { assert log[i] == after[i]; }
  }

  // ---- sequences that end in a given way ---------------------------------------------------------

  ghost predicate EndsWith<T>(whole: seq<T>, tail: seq<T>) {
    |tail| <= |whole| && whole[|whole| - |tail|..] == tail
  }

  lemma EndsWithTail<T>(whole: seq<T>, tail: seq<T>)
    ensures EndsWith(whole + tail, tail)
  {
  }

  /** What was appended ends with tail. */
  ghost predicate EndsSince<T>(was: seq<T>, now: seq<T>, tail: seq<T>) {
    was <= now && |was| + |tail| <= |now| && EndsWith(now, tail)
  }

  lemma EndsSinceTail<T>(was: seq<T>, tail: seq<T>)
    ensures EndsSince(was, was + tail, tail)
  {
  }

  lemma EndsSinceBefore<T>(was: seq<T>, mid: seq<T>, now: seq<T>, tail: seq<T>)
    requires was <= mid && EndsSince(mid, now, tail)
    ensures EndsSince(was, now, tail)
  {
  }

  // ---- what accounts for a stop ------------------------------------------------------------------

  /** Somebody tried something, and it was neither refused nor kept from the surface, but failed. */
  predicate FailedPlainly(h: Happening) {
    h.Gone? || (h.Did? && !h.ok && !h.blocking && !h.dialog)
  }

  /** An attempt at something, however it went. */
  predicate IsAttempt(h: Happening, why: ActBy) {
    (h.Did? || h.Denied? || h.Gone?) && h.why == why
  }

  /** One thing that happened and by itself accounts for a stop of this code. */
  ghost predicate Explains(cap: Capability, h: Happening, code: Code) {
    match code
    case PolicyBlocked => ((h.Drained? || h.Did?) && h.blocking) || (h.Denied? && h.code.ActBlocked?)
    case UnexpectedDialog => (h.Drained? || h.Did?) && h.dialog
    case ConfirmationRequired => h.Denied? && h.code.ActNeedsConfirmation?
    case ActionFailed => FailedPlainly(h) && h.why.Own?
    case OutputExtractionFailed => (h.Did? || h.Gone?) && h.why.Reading?
    case TargetChanged => h.Heard? && h.query.AskTarget? && h.query.target.StepTarget? && h.yes
    case _ => DetectorHolds(h) && DeclaresCode(cap, h.query.detector, code)
  }

  ghost predicate DeclaresCode(cap: Capability, id: DetectorId, code: Code) {
    exists d :: 0 <= d < |cap.detectors| && cap.detectors[d].id == id && cap.detectors[d].outcome.code == code
  }

  /**
   * The codes a wait's own timeout may have: for a target its failure code, or that it was not found
   * or not unique.
   */
  predicate OwnTimeout(aw: Awaited, code: Code) {
    if !aw.TargetResolves? then code.CheckpointTimeout?
    else if aw.failureCode.Some? then code == aw.failureCode.value
    else code.TargetNotFound? || code.TargetAmbiguous?
  }

  /** At entry n of the log a wait took its last look and gave up. */
  ghost predicate GaveUpAt(cap: Capability, log: seq<Happening>, n: nat, p: nat, aw: Awaited)
    requires p < |cap.steps|
  {
    n + |LastChance(cap, p, aw)| <= |log| && log[n..n + |LastChance(cap, p, aw)|] == LastChance(cap, p, aw)
  }

  /** From entry n of the log on, a wait whose own timeout may have this code took its last look. */
  ghost predicate GaveUp(cap: Capability, log: seq<Happening>, n: nat, code: Code) {
    exists i: nat, p: nat, aw: Awaited ::
      n <= i && p < |cap.steps| && GaveUpAt(cap, log, i, p, aw) && OwnTimeout(aw, code)
  }

  /** From entry n of the log on, something happened that accounts for a stop of this code. */
  ghost predicate Because(cap: Capability, log: seq<Happening>, n: nat, code: Code) {
    (exists i: nat :: n <= i < |log| && Explains(cap, log[i], code)) || GaveUp(cap, log, n, code)
  }

  lemma BecauseOf(cap: Capability, log: seq<Happening>, n: nat, i: nat, code: Code)
    requires n <= i < |log| && Explains(cap, log[i], code)
    ensures Because(cap, log, n, code)
  {
  }

  lemma BecauseStill(cap: Capability, was: seq<Happening>, now: seq<Happening>, n: nat, m: nat, code: Code)
    requires Because(cap, was, n, code) && was <= now && m <= n
    ensures Because(cap, now, m, code)
  {
    hide Explains, GaveUp;
    if i: nat :| n <= i < |was| && Explains(cap, was[i], code) {
      assert Explains(cap, now[i], code);
    } else {
      GaveUpStill(cap, was, now, n, m, code);
    }
  }

  lemma GaveUpStill(cap: Capability, was: seq<Happening>, now: seq<Happening>, n: nat, m: nat, code: Code)
    requires GaveUp(cap, was, n, code) && was <= now && m <= n
    ensures GaveUp(cap, now, m, code)
  {
    hide LastChance, OwnTimeout;
    var i: nat, p: nat, aw: Awaited :|
      n <= i && p < |cap.steps| && GaveUpAt(cap, was, i, p, aw) && OwnTimeout(aw, code);
    var k := i + |LastChance(cap, p, aw)|;
    assert was[i..k] == now[i..k];
    assert GaveUpAt(cap, now, i, p, aw);
  }

  /** Detector d was answered yes from entry n of the log on. */
  ghost predicate Fired(cap: Capability, log: seq<Happening>, n: nat, d: nat)
    requires d < |cap.detectors|
  {
    exists i: nat :: n <= i < |log| && log[i] == Heard(AskDetector(cap.detectors[d].id), true)
  }

  lemma FiredStill(cap: Capability, was: seq<Happening>, now: seq<Happening>, n: nat, d: nat)
    requires d < |cap.detectors| && was <= now && Fired(cap, was, n, d)
    ensures Fired(cap, now, n, d)
  {
    var i: nat :| n <= i < |was| && was[i] == Heard(AskDetector(cap.detectors[d].id), true);
    assert now[i] == was[i];
  }

  lemma ScanFires(cap: Capability, was: seq<Happening>, now: seq<Happening>, n: nat, p: nat, skip: set<nat>,
    timeouts: bool, d: nat)
    requires p < |cap.steps| && d < |cap.detectors| && n <= |was|
    requires now == was + Scan(cap, p, skip, timeouts, Some(d))
    ensures Fired(cap, now, n, d)
  {
    hide AllNo;
    FiredNow(cap, now, n, d);
  }

  lemma FiredNow(cap: Capability, log: seq<Happening>, n: nat, d: nat)
    requires d < |cap.detectors| && n < |log| && log[|log| - 1] == Heard(AskDetector(cap.detectors[d].id), true)
    ensures Fired(cap, log, n, d)
  {
  }

  /** A detector that was answered yes accounts for its own code, which is never one of the engine's. */
  lemma BecauseFired(cap: Capability, log: seq<Happening>, n: nat, d: nat)
    requires ValidCapability(cap) && d < |cap.detectors| && Fired(cap, log, n, d)
    ensures Because(cap, log, n, cap.detectors[d].outcome.code)
  {
    var i: nat :| n <= i < |log| && log[i] == Heard(AskDetector(cap.detectors[d].id), true);
    assert DetectorSound(cap, cap.detectors[d]);
    assert DeclaresCode(cap, cap.detectors[d].id, cap.detectors[d].outcome.code);
    assert Explains(cap, log[i], cap.detectors[d].outcome.code);
  }

  /** Every detector of a set was answered yes from entry n of the log on. */
  ghost predicate AllFired(cap: Capability, log: seq<Happening>, n: nat, ds: set<nat>) {
    forall d :: d in ds && d < |cap.detectors| ==> Fired(cap, log, n, d)
  }

  lemma AllFiredStill(cap: Capability, was: seq<Happening>, now: seq<Happening>, n: nat, ds: set<nat>)
    requires was <= now && AllFired(cap, was, n, ds)
    ensures AllFired(cap, now, n, ds)
  {
    hide Fired;
    forall d | d in ds && d < |cap.detectors| ensures Fired(cap, now, n, d) { FiredStill(cap, was, now, n, d); }
  }

  lemma AllFiredMore(cap: Capability, log: seq<Happening>, n: nat, ds: set<nat>, d: nat, more: set<nat>)
    requires d < |cap.detectors| && AllFired(cap, log, n, ds) && Fired(cap, log, n, d) && more <= ds + {d}
    ensures AllFired(cap, log, n, more)
  {
    hide Fired;
  }

  /** What was just done, from entry n of the log on, was to look for what is awaited, in vain. */
  ghost predicate JustLooked(cap: Capability, log: seq<Happening>, n: nat, p: nat, aw: Awaited, windows: set<nat>)
    requires p < |cap.steps|
  {
    n + |Looked(cap, p, aw, windows, false)| <= |log| && EndsWith(log, Looked(cap, p, aw, windows, false))
  }

  /** What was just done, from entry n of the log on, was the last look of a wait that gives up. */
  ghost predicate JustGaveUp(cap: Capability, log: seq<Happening>, n: nat, p: nat, aw: Awaited)
    requires p < |cap.steps|
  {
    n + |LastChance(cap, p, aw)| <= |log| && EndsWith(log, LastChance(cap, p, aw))
  }

  lemma LooksNow(cap: Capability, was: seq<Happening>, n: nat, p: nat, aw: Awaited, windows: set<nat>)
    requires p < |cap.steps| && n <= |was|
    ensures JustLooked(cap, was + Looked(cap, p, aw, windows, false), n, p, aw, windows)
  {
    hide Looked;
  }

  lemma GivesUpNow(cap: Capability, was: seq<Happening>, now: seq<Happening>, n: nat, p: nat, aw: Awaited)
    requires p < |cap.steps| && JustLooked(cap, was, n, p, aw, {})
    requires now == was + if aw.CheckpointHolds? then Scan(cap, p, {}, true, None) else []
    ensures JustGaveUp(cap, now, n, p, aw)
  {
    hide Looked, Scan;
    var look := Looked(cap, p, aw, {}, false);
    assert was == was[..|was| - |look|] + look;
    assert now == was[..|was| - |look|] + LastChance(cap, p, aw);
  }

  /** A wait that just gave up accounts for the codes of its own timeout. */
  lemma BecauseGaveUp(cap: Capability, log: seq<Happening>, n: nat, p: nat, aw: Awaited, code: Code)
    requires p < |cap.steps| && JustGaveUp(cap, log, n, p, aw) && OwnTimeout(aw, code)
    ensures Because(cap, log, n, code)
  {
    hide LastChance, Explains, OwnTimeout;
    assert GaveUpAt(cap, log, |log| - |LastChance(cap, p, aw)|, p, aw);
  }
}
