/**
 * The surface as an oracle, and the only route to its act: the gated surface.
 *
 * The surface answers anything it likes, in its own time. What it did is kept in ghost fields.
 */
module Enforce {
  import opened Vocab
  import opened Gate

  /** Why an action reached the surface: a step's own action, a recovery's click, or reading an output. */
  datatype ActBy = Own(step: StepId) | RecoveryClick(detector: DetectorId) | Reading(output: ParamName)

  datatype EventKind =
    | NavigationBlocked | RedirectBlocked | RedirectOffPolicy | RequestBlocked | NavigationOffPolicy
    | PopupClosed | DownloadBlocked | DialogAnswered | DialogRefused | DialogUnexpected

  predicate IsBlocking(k: EventKind) {
    !k.DialogAnswered? && !k.DialogUnexpected?
  }

  datatype SurfaceEvent = SurfaceEvent(kind: EventKind, detail: string, url: string)

  /** The first event of a batch that the caller must not miss, blocking ones before dialogs. */
  predicate HasBlocking(es: seq<SurfaceEvent>) {
    exists i :: 0 <= i < |es| && IsBlocking(es[i].kind)
  }

  predicate HasUnexpectedDialog(es: seq<SurfaceEvent>) {
    exists i :: 0 <= i < |es| && es[i].kind.DialogUnexpected?
  }

  predicate HasRefusal(es: seq<SurfaceEvent>) {
    HasBlocking(es) || HasUnexpectedDialog(es)
  }

  lemma NoEvents()
    ensures !HasBlocking([]) && !HasUnexpectedDialog([]) && !HasAnsweredDialog([])
  {
  }

  datatype ActCode = ActFailed | ActBlocked | ActNeedsConfirmation

  datatype ActResult = ActResult(
    ok: bool, code: Option<ActCode>, message: string, text: Option<string>, events: seq<SurfaceEvent>)

  datatype Resolved = Resolved(rung: nat, identityChanged: bool)

  /** Whose target is resolved. */
  datatype TargetOf = StepTarget(step: StepId) | RecoveryTarget(detector: DetectorId) | OutputTarget(output: ParamName)

  /** A question about the screen. */
  datatype Query =
    | AskDetector(detector: DetectorId)
    | AskCheckpoint(checkpoint: CheckpointId)
    | AskUrl(step: StepId)
    | AskQuiet(step: StepId)
    | AskCalm(detector: DetectorId)
    | AskTarget(target: TargetOf)

  /** One thing the surface was asked or did, with its answer. */
  datatype Happening =
    | Heard(query: Query, yes: bool)
    | Drained(blocking: bool, dialog: bool)
    | Did(why: ActBy, ok: bool, text: Option<string>, blocking: bool, dialog: bool)
    | Denied(why: ActBy, code: ActCode)
    | Gone(why: ActBy)
    | Showed(text: Option<string>)

  /** Events were drained, and none reported a refusal or a dialog nobody expected. */
  function Clean(): Happening {
    Drained(false, false)
  }

  /** The entry an attempt leaves: it was done, or the gate denied it, or its target was gone. */
  function EntryOf(why: ActBy, acted: bool, decided: bool, act: ActResult): Happening {
    if acted then Did(why, act.ok, act.text, HasBlocking(act.events), HasUnexpectedDialog(act.events))
    else if decided && act.code.Some? then Denied(why, act.code.value)
    else Gone(why)
  }

  /** What becomes of a dialog the action declares: none opened, or the guard let it through, or stopped it. */
  datatype DialogOutcome = NoneOpened | LetThrough | Kept(reason: string)

  predicate HasAnsweredDialog(es: seq<SurfaceEvent>) {
    exists i :: 0 <= i < |es| && es[i].kind.DialogAnswered?
  }

  function FirstBlocking(es: seq<SurfaceEvent>): (e: SurfaceEvent)
    requires HasBlocking(es)
    ensures e in es && IsBlocking(e.kind)
  {
    if IsBlocking(es[0].kind) then es[0] else FirstBlocking(es[1..])
  }

  function FirstDialog(es: seq<SurfaceEvent>): (e: SurfaceEvent)
    requires HasUnexpectedDialog(es)
    ensures e in es && e.kind.DialogUnexpected?
  {
    if es[0].kind.DialogUnexpected? then es[0] else FirstDialog(es[1..])
  }

  /** What an act comes back with: a refusal or a dialog nobody expected outweighs how it went. */
  function AnswerTo(es: seq<SurfaceEvent>, failure: string, read: Option<string>): (a: ActResult)
    requires forall e :: e in es ==> e.detail != ""
    ensures a.events == es && a.text == read && (a.ok <==> a.code.None?) && (!a.ok ==> a.message != "")
    ensures a.ok <==> !HasRefusal(es) && failure == ""
    ensures a.code != Some(ActNeedsConfirmation) && (a.code == Some(ActBlocked) <==> HasBlocking(es))
  {
    if HasBlocking(es) then ActResult(false, Some(ActBlocked), FirstBlocking(es).detail, read, es)
    else if HasUnexpectedDialog(es) then ActResult(false, Some(ActFailed), "unexpected dialog", read, es)
    else if failure != "" then ActResult(false, Some(ActFailed), failure, read, es)
    else ActResult(true, None, "", read, es)
  }

  /** A call that needs the session either answers or finds that a human holds it. */
  datatype Controlled<+T> = Held(value: T) | Lost

  class Surface {
    /** Whether an operator channel watches this run, so that a session file can exist. */
    const attached: bool

    /** Milliseconds on a monotonic clock, and how many of them passed outside a requested sleep. */
    var clock: nat
    ghost var drift: nat

    /** Every action that reached the application, who asked, and which steps acted on a renamed target. */
    ghost var acts: multiset<ActBy>
    ghost var renamed: set<StepId>

    /** Whether a blocking event or an unexpected dialog was ever delivered to the caller. */
    ghost var refused: bool

    /** Every question that was answered yes, each time it was. */
    ghost var held: multiset<Query>

    /** Every question with its answer, every batch of events, every act and every message read, in order. */
    ghost var log: seq<Happening>

    /** The targets that no longer looked as recorded when they last resolved. */
    ghost var stale: set<TargetOf>

    /** All the sleep that was ever requested: the time that passed, but for what passed otherwise. */
    ghost function Slept(): int
      reads this`clock, this`drift
    {
      clock - drift
    }

    constructor (attached: bool)
      ensures this.attached == attached
      ensures acts == multiset{} && renamed == {} && !refused && held == multiset{} && log == []
    {
      this.attached := attached;
      var start: nat :| true;
      clock := start;
      drift, acts, renamed, refused, held, log, stale := 0, multiset{}, {}, false, multiset{}, [], {};
    }

    /** Any time at all may pass in a call. */
    method Elapse()
      modifies this`clock, this`drift
      ensures clock - old(clock) == drift - old(drift) >= 0
    {
      var d: nat :| true;
      clock, drift := clock + d, drift + d;
    }

    method Sleep(ms: nat)
      modifies this`clock, this`drift
      ensures clock - old(clock) - ms == drift - old(drift) >= 0
    {
      Elapse();
      clock := clock + ms;
    }

    method ControlIsLost() returns (lost: bool)
      modifies this`clock, this`drift
      ensures clock - old(clock) == drift - old(drift) >= 0
      ensures lost ==> attached
    {
      Elapse();
      lost := *;
      lost := lost && attached;
    }

    /** Whether a condition holds right now. */
    method Holds(q: Query) returns (r: Controlled<bool>)
      modifies this`clock, this`drift, this`held, this`log
      ensures clock - old(clock) == drift - old(drift) >= 0
      ensures held == old(held) + if r == Held(true) then multiset{q} else multiset{}
      ensures log == old(log) + if r.Held? then [Heard(q, r.value)] else []
      ensures r.Lost? ==> attached
    {
      var lost := ControlIsLost();
      var answer: bool := *;
      if !lost { held, log := held + (if answer then multiset{q} else multiset{}), log + [Heard(q, answer)]; }
      r := if lost then Lost else Held(answer);
    }

    /** Whether what an action is about is still on the page. */
    method IsThere() returns (r: Controlled<bool>)
      modifies this`clock, this`drift
      ensures clock - old(clock) == drift - old(drift) >= 0
      ensures r.Lost? ==> attached
    {
      var lost := ControlIsLost();
      var answer: bool := *;
      r := if lost then Lost else Held(answer);
    }

    /** Exactly one element for a target, or none. */
    method Resolve(t: TargetOf) returns (r: Controlled<Option<Resolved>>)
      modifies this`clock, this`drift, this`held, this`log, this`stale
      ensures clock - old(clock) == drift - old(drift) >= 0
      ensures held == old(held) + if r.Held? && r.value.Some? then multiset{AskTarget(t)} else multiset{}
      ensures log == old(log) + if r.Held? then [Heard(AskTarget(t), r.value.Some?)] else []
      ensures r.Held? && r.value.Some? ==> (t in stale <==> r.value.value.identityChanged)
      ensures r.Lost? ==> attached
    {
      var lost := ControlIsLost();
      var found: bool, changed: bool := *, *;
      var rung: nat :| true;
      if !lost { log := log + [Heard(AskTarget(t), found)]; }
      if !lost && found {
        held, stale := held + multiset{AskTarget(t)}, if changed then stale + {t} else stale - {t};
      }
      r := if lost then Lost else Held(if found then Some(Resolved(rung, changed)) else None);
    }

    /** Text on the screen, if it can be read. */
    method Read() returns (r: Controlled<Option<string>>)
      modifies this`clock, this`drift
      ensures clock - old(clock) == drift - old(drift) >= 0
      ensures r.Lost? ==> attached
    {
      var lost := ControlIsLost();
      var found: bool, text: string := *, *;
      r := if lost then Lost else Held(if found then Some(text) else None);
    }

    /** The text a business answer is made of, if it can be read. */
    method ReadMessage() returns (r: Controlled<Option<string>>)
      modifies this`clock, this`drift, this`log
      ensures clock - old(clock) == drift - old(drift) >= 0
      ensures log == old(log) + if r.Held? then [Showed(r.value)] else []
      ensures r.Lost? ==> attached
    {
      r := Read();
      if r.Held? { log := log + [Showed(r.value)]; }
    }

    /** Waits for the page to go quiet. A failed wait has taken time. */
    method Settle(q: Query) returns (r: Controlled<bool>)
      modifies this`clock, this`drift, this`held, this`log
      ensures clock - old(clock) == drift - old(drift) >= 0
      ensures held == old(held) + if r == Held(true) then multiset{q} else multiset{}
      ensures log == old(log) + if r.Held? then [Heard(q, r.value)] else []
      ensures r.Lost? ==> attached
      ensures r == Held(false) ==> clock > old(clock)
    {
      var lost := ControlIsLost();
      var quiet: bool := *;
      if !quiet { clock, drift := clock + 1, drift + 1; }
      if !lost { held, log := held + (if quiet then multiset{q} else multiset{}), log + [Heard(q, quiet)]; }
      r := if lost then Lost else Held(quiet);
    }

    method DrainEvents() returns (events: seq<SurfaceEvent>)
      modifies this`clock, this`drift, this`refused, this`log
      ensures clock - old(clock) == drift - old(drift) >= 0
      ensures log == old(log) + [Drained(HasBlocking(events), HasUnexpectedDialog(events))]
      ensures refused == (old(refused) || HasRefusal(events))
      ensures forall e :: e in events ==> e.detail != ""
    {
      Elapse();
      events := Events();
      refused, log := refused || HasRefusal(events), log + [Drained(HasBlocking(events), HasUnexpectedDialog(events))];
    }

    /** Any events but those of a dialog that an action declares. */
    method Events() returns (events: seq<SurfaceEvent>)
      ensures forall e :: e in events ==> e.detail != "" && !e.kind.DialogAnswered? && !e.kind.DialogRefused?
    {
      events := [];
      var more: bool := *;
      var fuel: nat :| true;
      while more && fuel > 0
        invariant forall e :: e in events ==> e.detail != "" && !e.kind.DialogAnswered? && !e.kind.DialogRefused?
        decreases fuel
      {
        var kind: EventKind, detail: string, url: string := *, *, *;
        if detail != "" && !kind.DialogAnswered? && !kind.DialogRefused? {
          events := events + [SurfaceEvent(kind, detail, url)];
        }
        more, fuel := *, fuel - 1;
      }
    }

    /** The events of an act: what became of its dialog, if one opened, and whatever else happened. */
    function WithDialog(others: seq<SurfaceEvent>, dialog: DialogOutcome): (events: seq<SurfaceEvent>)
      requires dialog.Kept? ==> dialog.reason != ""
      requires forall e :: e in others ==> e.detail != "" && !e.kind.DialogAnswered? && !e.kind.DialogRefused?
      ensures forall e :: e in events ==> e.detail != ""
      ensures HasAnsweredDialog(events) <==> dialog.LetThrough?
      ensures dialog.Kept? ==> HasBlocking(events)
    {
      match dialog
      case NoneOpened => others
      case LetThrough =>
        var one := SurfaceEvent(DialogAnswered, "answered", "");
        assert ([one] + others)[0] == one;
        [one] + others
      case Kept(reason) =>
        var one := SurfaceEvent(DialogRefused, reason, "");
        assert ([one] + others)[0] == one;
        [one] + others
    }

    /**
     * Performs an action, unless a human holds the session. The act may have reached the application
     * even when it failed; ok means it did, with nothing refused and no dialog nobody expected.
     */
    method Act(why: ActBy, aimed: Option<TargetOf>, dialog: DialogOutcome) returns (r: Controlled<ActResult>)
      requires dialog.Kept? ==> dialog.reason != ""
      modifies this`clock, this`drift, this`acts, this`renamed, this`refused, this`log
      ensures clock - old(clock) == drift - old(drift) >= 0
      ensures r.Lost? ==>
        attached && acts == old(acts) && renamed == old(renamed) && refused == old(refused) && log == old(log)
      ensures r.Held? ==>
        && acts == old(acts) + multiset{why}
        && log == old(log) + [EntryOf(why, true, true, r.value)]
        && (HasAnsweredDialog(r.value.events) ==> dialog.LetThrough?)
        && (dialog.Kept? ==> HasBlocking(r.value.events))
        && renamed == old(renamed) + (if why.Own? && aimed.Some? && aimed.value in stale then {why.step} else {})
        && refused == (old(refused) || HasRefusal(r.value.events))
        && (HasRefusal(r.value.events) ==> !r.value.ok)
        && (r.value.ok <==> r.value.code.None?)
        && r.value.code != Some(ActNeedsConfirmation)
        && (r.value.code == Some(ActBlocked) <==> HasBlocking(r.value.events))
        && (!r.value.ok ==> r.value.message != "")
    {
      hide HasBlocking, HasUnexpectedDialog, HasAnsweredDialog, EntryOf;
      var lost := ControlIsLost();
      if lost { return Lost; }
      acts := acts + multiset{why};
      if why.Own? && aimed.Some? && aimed.value in stale { renamed := renamed + {why.step}; }
      var answer := Outcome(dialog);
      refused, log := refused || HasRefusal(answer.events), log + [EntryOf(why, true, true, answer)];
      r := Held(answer);
    }

    /** How an act may go: any failure, any text, and any events besides those of its dialog. */
    method Outcome(dialog: DialogOutcome) returns (a: ActResult)
      requires dialog.Kept? ==> dialog.reason != ""
      ensures HasAnsweredDialog(a.events) ==> dialog.LetThrough?
      ensures dialog.Kept? ==> HasBlocking(a.events)
      ensures HasRefusal(a.events) ==> !a.ok
      ensures (a.ok <==> a.code.None?) && (!a.ok ==> a.message != "")
      ensures a.code != Some(ActNeedsConfirmation) && (a.code == Some(ActBlocked) <==> HasBlocking(a.events))
    {
      hide HasBlocking, HasUnexpectedDialog, HasAnsweredDialog, AnswerTo;
      var others := Events();
      var events := WithDialog(others, dialog);
      var failure: string, found: bool, text: string := *, *, *;
      a := AnswerTo(events, failure, if found then Some(text) else None);
    }
  }

  /** A decision about an action declared at a risk: never lower, and naming the way it is handled. */
  ghost predicate DecidedFor(d: Option<Decision>, risk: RiskClass, handling: Handling) {
    d.Some? ==>
      && RiskRank(risk) <= RiskRank(RiskOf(d.value))
      && (d.value.RequiresConfirmation? ==> d.value.handling == handling)
  }

  /** A decision that lets an action through: nothing irreversible without permission that counts. */
  ghost predicate Licensed(d: Option<Decision>, risk: RiskClass, permission: bool, handling: Handling) {
    && d.Some? && Refusal(d.value, permission).None?
    && (risk == Irreversible || RiskOf(d.value) == Irreversible ==> permission && handling == HandleConfirm)
  }

  /** What an action came back with, given the decision: it acted exactly when it might, and says so. */
  ghost predicate FitsDecision(d: Option<Decision>, permission: bool, acted: bool, a: ActResult) {
    && (acted ==> d.Some?)
    && (d.Some? ==> (acted <==> Refusal(d.value, permission).None?))
    && (d.Some? && !acted ==> a.code == Some(if d.value.Block? then ActBlocked else ActNeedsConfirmation))
    && (d.None? ==> a.code == Some(ActFailed))
    && (!acted ==> !HasRefusal(a.events))
    && (a.ok ==> acted && !HasRefusal(a.events) && a.code.None?)
    && (!a.ok ==> a.code.Some? && a.message != "")
    && (HasBlocking(a.events) ==> a.code == Some(ActBlocked))
    && (acted && a.code == Some(ActBlocked) ==> HasBlocking(a.events))
    && (a.code == Some(ActNeedsConfirmation) ==>
          !acted && !HasRefusal(a.events) && d.Some? && d.value.RequiresConfirmation?)
  }

  /** The guard asked the gate about a dialog at the action's own risk, and the gate let it through. */
  ghost predicate DialogPassed(asked: Option<Proposal>, risk: RiskClass, permission: bool, handling: Handling) {
    && asked.Some? && asked.value.phase.DialogPhase? && asked.value.declaredRisk == risk
    && Refusal(Check(asked.value, handling), permission).None?
  }

  lemma ActFits(d: Option<Decision>, risk: RiskClass, permission: bool, handling: Handling, a: ActResult)
    requires Licensed(d, risk, permission, handling)
    requires (a.ok <==> a.code.None?) && (!a.ok ==> a.message != "") && (HasRefusal(a.events) ==> !a.ok)
    requires a.code != Some(ActNeedsConfirmation) && (a.code == Some(ActBlocked) <==> HasBlocking(a.events))
    ensures FitsDecision(d, permission, true, a)
  {
    hide HasBlocking, HasUnexpectedDialog, Refusal;
  }

  lemma RefusedFits(d: Option<Decision>, permission: bool, a: ActResult)
    requires d.Some? ==> Refusal(d.value, permission).Some? && !d.value.Allow?
    requires !a.ok && a.message != "" && a.events == []
    requires a.code == if d.None? then Some(ActFailed)
                       else if d.value.Block? then Some(ActBlocked) else Some(ActNeedsConfirmation)
    ensures FitsDecision(d, permission, false, a)
  {
    hide HasBlocking, HasUnexpectedDialog, HasAnsweredDialog, Refusal;
    NoEvents();
  }

  class GatedSurface {
    const surface: Surface
    const handling: Handling
    /** The standing permission to do irreversible things, under confirm handling only. */
    const confirm: bool

    /** Whether that permission counts. */
    ghost predicate Permitted() {
      confirm && handling.HandleConfirm?
    }

    var lastDecision: Option<Decision>
    var declared: RiskClass
    var confirmedNow: bool

    /** The gate's risk for the action judged last, if its target was there to be judged. */
    ghost var judged: Option<RiskClass>

    /** Whether the gate ever kept an action from the surface. */
    ghost var denied: bool

    /** How many acts the gate judged irreversible. */
    ghost var irreversible: nat

    /** What the gate was asked about a dialog last. */
    ghost var dialogAsked: Option<Proposal>

    constructor (surface: Surface, handling: Handling, confirm: bool)
      ensures this.surface == surface && this.handling == handling && this.confirm == confirm
      ensures lastDecision.None? && !confirmedNow && !denied && irreversible == 0
    {
      this.surface, this.handling, this.confirm := surface, handling, confirm;
      lastDecision, declared, confirmedNow := None, Safe, false;
      judged, denied, irreversible, dialogAsked := None, false, 0, None;
    }

    /** What the gate is asked about an action. None when the target is gone. */
    method Propose(phase: Phase, risk: RiskClass) returns (r: Controlled<Option<Proposal>>)
      modifies surface`clock, surface`drift
      ensures surface.clock - old(surface.clock) == surface.drift - old(surface.drift) >= 0
      ensures r.Lost? ==> surface.attached
      ensures r.Held? && r.value.Some? ==> r.value.value.declaredRisk == risk && r.value.value.phase == phase
    {
      var there := surface.IsThere();
      if there.Lost? { return Lost; }
      if !there.value { return Held(None); }
      var proposed := AnyProposal(phase, risk);
      r := Held(Some(proposed));
    }

    /** The policy's lists and patterns may say anything about an action. */
    method AnyProposal(phase: Phase, risk: RiskClass) returns (p: Proposal)
      ensures p.declaredRisk == risk && p.phase == phase
    {
      var allowed: bool, exempt: bool, irreversible: bool, reversible: bool := *, *, *, *;
      var frame: Option<string>, destination: Option<string>, subresource: Option<string> := *, *, *;
      p := Proposal(phase, risk, allowed, exempt, frame, destination, subresource, irreversible, reversible);
    }

    /** The gate's risk for an action, without acting; None when the target is gone. */
    method Judge(risk: RiskClass) returns (r: Controlled<Option<RiskClass>>)
      modifies this`judged, surface`clock, surface`drift
      ensures r.Held? ==> judged == r.value
      ensures r.Lost? ==> judged == old(judged)
      ensures surface.clock - old(surface.clock) == surface.drift - old(surface.drift) >= 0
      ensures r.Lost? ==> surface.attached
      ensures r.Held? && r.value.Some? ==> RiskRank(risk) <= RiskRank(r.value.value)
    {
      var proposed := Propose(ActionPhase, risk);
      if proposed.Lost? { return Lost; }
      r := Held(if proposed.value.None? then None else Some(RiskOf(Check(proposed.value.value, handling))));
      judged := r.value;
    }

    /**
     * Judges, then acts. The surface acts at most once, only on a decision that lets the action
     * through, and never on anything irreversible without permission; one-off permission does not
     * outlive the call.
     */
    method Perform(why: ActBy, aimed: Option<TargetOf>, risk: RiskClass, expects: bool, confirmed: bool := false)
      returns (r: Controlled<ActResult>, ghost acted: bool)
      modifies this`lastDecision, this`declared, this`confirmedNow, this`denied, this`irreversible, this`dialogAsked
      modifies surface`clock, surface`drift, surface`acts, surface`renamed, surface`refused, surface`log
      ensures surface.clock - old(surface.clock) == surface.drift - old(surface.drift) >= 0
      ensures r.Lost? ==> surface.attached && !acted
      ensures surface.acts == old(surface.acts) + (if acted then multiset{why} else multiset{})
      ensures acted ==> r.Held?
      ensures surface.log == old(surface.log) +
        if r.Held? then [EntryOf(why, acted, lastDecision.Some?, r.value)] else []
      ensures irreversible == old(irreversible) +
        (if acted && lastDecision.Some? && RiskOf(lastDecision.value) == Irreversible then 1 else 0)
      ensures surface.renamed == old(surface.renamed) +
        (if acted && why.Own? && aimed.Some? && aimed.value in surface.stale then {why.step} else {})
      ensures denied == (old(denied) || (r.Held? && lastDecision.Some? && !acted))
      ensures DecidedFor(lastDecision, risk, handling)
      ensures acted ==> Licensed(lastDecision, risk, confirm || confirmed, handling)
      ensures r.Held? ==> FitsDecision(lastDecision, confirm || confirmed, acted, r.value)
      ensures r.Held? && HasAnsweredDialog(r.value.events) ==>
        expects && DialogPassed(dialogAsked, risk, confirm || confirmed, handling)
      ensures surface.refused == (old(surface.refused) || (acted && HasRefusal(r.value.events)))
      ensures !confirmedNow || confirmedNow == old(confirmedNow)
    {
      hide Check, Refusal, HasBlocking, HasUnexpectedDialog, HasAnsweredDialog, FitsDecision, DialogPassed, EntryOf;
      hide Licensed, DecidedFor, RiskOf;
      acted := false;
      var stopped := Admit(risk, confirmed);
      if stopped.Lost? { return Lost, false; }
      if stopped.value.Some? {
        surface.log := surface.log + [EntryOf(why, false, lastDecision.Some?, stopped.value.value)];
        NoEvents();
        return Held(stopped.value.value), false;
      }
      r := Let(why, aimed, risk, expects);
      acted := r.Held?;
    }

    /** The acting half: the surface acts, unless a human holds the session, and the guard answers its dialog. */
    method Let(why: ActBy, aimed: Option<TargetOf>, risk: RiskClass, expects: bool) returns (r: Controlled<ActResult>)
      requires Licensed(lastDecision, risk, confirm || confirmedNow, handling)
      modifies this`declared, this`confirmedNow, this`irreversible, this`dialogAsked
      modifies surface`clock, surface`drift, surface`acts, surface`renamed, surface`refused, surface`log
      ensures surface.clock - old(surface.clock) == surface.drift - old(surface.drift) >= 0
      ensures r.Lost? ==> surface.attached
      ensures surface.acts == old(surface.acts) + (if r.Held? then multiset{why} else multiset{})
      ensures surface.log == old(surface.log) + if r.Held? then [EntryOf(why, true, true, r.value)] else []
      ensures surface.renamed == old(surface.renamed) +
        (if r.Held? && why.Own? && aimed.Some? && aimed.value in surface.stale then {why.step} else {})
      ensures surface.refused == (old(surface.refused) || (r.Held? && HasRefusal(r.value.events)))
      ensures irreversible == old(irreversible) +
        (if r.Held? && lastDecision.Some? && RiskOf(lastDecision.value) == Irreversible then 1 else 0)
      ensures r.Held? ==> FitsDecision(lastDecision, confirm || old(confirmedNow), true, r.value)
      ensures r.Held? && HasAnsweredDialog(r.value.events) ==>
        expects && DialogPassed(dialogAsked, risk, confirm || old(confirmedNow), handling)
      ensures !confirmedNow
    {
      hide Check, Refusal, HasBlocking, HasUnexpectedDialog, HasAnsweredDialog, FitsDecision, DialogPassed, EntryOf;
      hide Licensed, DecidedFor, RiskOf;
      declared := risk;
      var dialog := DialogOf(expects);
      r := surface.Act(why, aimed, dialog);
      if r.Held? {
        if lastDecision.Some? && RiskOf(lastDecision.value) == Irreversible { irreversible := irreversible + 1; }
        ActFits(lastDecision, risk, confirm || confirmedNow, handling, r.value);
      }
      confirmedNow := false;
    }

    /** What becomes of the dialog an action declares, should it open: the guard decides. */
    method DialogOf(expects: bool) returns (dialog: DialogOutcome)
      modifies this`dialogAsked
      ensures dialog.Kept? ==> dialog.reason != ""
      ensures !expects ==> dialog.NoneOpened?
      ensures dialog.LetThrough? ==> DialogPassed(dialogAsked, declared, confirm || confirmedNow, handling)
    {
      hide Check, Refusal;
      var opens: bool := *;
      dialog := NoneOpened;
      if expects && opens {
        var refusal := DialogGuard();
        dialog := if refusal.None? then LetThrough else Kept(refusal.value);
      }
    }

    /** The judging half of an action: None when it may go ahead, else the answer that it may not. */
    method Admit(risk: RiskClass, confirmed: bool) returns (r: Controlled<Option<ActResult>>)
      modifies this`lastDecision, this`confirmedNow, this`denied, surface`clock, surface`drift
      ensures surface.clock - old(surface.clock) == surface.drift - old(surface.drift) >= 0
      ensures r.Lost? ==>
        surface.attached && lastDecision.None? && denied == old(denied) && confirmedNow == old(confirmedNow)
      ensures DecidedFor(lastDecision, risk, handling)
      ensures r.Held? && r.value.None? ==>
        confirmedNow == confirmed && lastDecision.Some?
        && Licensed(lastDecision, risk, confirm || confirmed, handling)
      ensures r.Held? && r.value.Some? ==>
        && (confirmedNow ==> old(confirmedNow))
        && FitsDecision(lastDecision, confirm || confirmed, false, r.value.value) && r.value.value.events == []
      ensures r.Held? ==> denied == (old(denied) || (r.value.Some? && lastDecision.Some?))
    {
      hide Check, FitsDecision;
      lastDecision := None;
      var proposed := Propose(ActionPhase, risk);
      if proposed.Lost? { return Lost; }
      if proposed.value.None? {
        var gone := ActResult(false, Some(ActFailed), "the target is gone", None, []);
        RefusedFits(None, confirm || confirmed, gone);
        return Held(Some(gone));
      }
      var decision := Check(proposed.value.value, handling);
      lastDecision, confirmedNow := Some(decision), confirmed;
      var refusal := Refusal(decision, confirm || confirmedNow);
      if refusal.None? { return Held(None); }
      confirmedNow, denied := false, true;
      var code := if decision.Block? then ActBlocked else ActNeedsConfirmation;
      var kept := ActResult(false, Some(code), refusal.value, None, []);
      RefusedFits(lastDecision, confirm || confirmed, kept);
      r := Held(Some(kept));
    }

    /** Whether the dialog of the current action may be answered as declared; the refusal's reason if not. */
    method DialogGuard() returns (refusal: Option<string>)
      modifies this`dialogAsked
      ensures dialogAsked.Some? && dialogAsked.value.phase.DialogPhase? && dialogAsked.value.declaredRisk == declared
      ensures refusal == Refusal(Check(dialogAsked.value, handling), confirm || confirmedNow)
      ensures refusal.Some? ==> refusal.value != ""
      ensures refusal.None? && declared == Irreversible ==> (confirm || confirmedNow) && handling == HandleConfirm
    {
      var proposed := AnyProposal(DialogPhase, declared);
      dialogAsked := Some(proposed);
      refusal := Refusal(Check(proposed, handling), confirm || confirmedNow);
    }
  }
}
