/** The policy gate's decision for one proposed action. */
module Gate {
  import opened Vocab

  datatype Phase = ActionPhase | NavigationPhase | SubresourcePhase | DialogPhase

  datatype Handling = HandleConfirm | HandleEscalate | HandleBlock

  /**
   * What the policy's lists and patterns say about a proposal: why each URL involved is off policy,
   * if it is, and whether any risk rule matches. frameExempt is the about:blank frame of a navigate.
   */
  datatype Proposal = Proposal(
    phase: Phase, declaredRisk: RiskClass, actionAllowed: bool,
    frameExempt: bool, frameBlocked: Option<string>, destinationBlocked: Option<string>,
    subresourceBlocked: Option<string>,
    matchesIrreversible: bool, matchesReversible: bool)

  datatype Decision =
    | Allow(risk: RiskClass)
    | Block(reason: string, risk: RiskClass)
    | RequiresConfirmation(reason: string, handling: Handling)

  function RiskOf(d: Decision): RiskClass {
    if d.RequiresConfirmation? then Irreversible else d.risk
  }

  function Classify(p: Proposal): RiskClass {
    if p.matchesIrreversible then Irreversible else if p.matchesReversible then Reversible else Safe
  }

  predicate OffPolicy(p: Proposal) {
    !p.actionAllowed || (!p.frameExempt && p.frameBlocked.Some?) || p.destinationBlocked.Some?
  }

  /**
   * The gate never lowers a declared risk, allows exactly what is on policy and not irreversible,
   * and asks for confirmation exactly for what is on policy, irreversible and not blocked outright.
   */
  function Check(p: Proposal, handling: Handling): (d: Decision)
    ensures !p.phase.SubresourcePhase? ==>
      && RiskRank(p.declaredRisk) <= RiskRank(RiskOf(d)) && RiskRank(Classify(p)) <= RiskRank(RiskOf(d))
      && (d.Allow? <==> !OffPolicy(p) && p.declaredRisk != Irreversible && !p.matchesIrreversible)
      && (d.RequiresConfirmation? <==>
            !OffPolicy(p) && (p.declaredRisk == Irreversible || p.matchesIrreversible) && !handling.HandleBlock?)
    ensures d.Allow? ==> d.risk != Irreversible
    ensures p.phase.SubresourcePhase? ==> (d.Allow? <==> p.subresourceBlocked.None?) && !d.RequiresConfirmation?
    ensures d.RequiresConfirmation? ==> d.handling == handling
    ensures !d.Allow? ==> d.reason != ""
  {
    if p.phase.SubresourcePhase? then
      if p.subresourceBlocked.None? then Allow(Safe) else Block("subresource " + p.subresourceBlocked.value, Safe)
    else
      var risk := MaxRisk(p.declaredRisk, Classify(p));
      if !p.actionAllowed then Block("action is not in actions_allow", risk)
      else if !p.frameExempt && p.frameBlocked.Some? then Block("frame " + p.frameBlocked.value, risk)
      else if p.destinationBlocked.Some? then Block("destination " + p.destinationBlocked.value, risk)
      else if risk == Irreversible then
        var reason := if p.matchesIrreversible then "matches an irreversible rule"
          else "declared irreversible by the artifact";
        if handling.HandleBlock? then Block("irreversible action blocked by policy: " + reason, risk)
        else RequiresConfirmation(reason, handling)
      else Allow(risk)
  }

  /**
   * Why a decision stops an action, or None when it may go ahead. confirmed is the caller's standing
   * or one-off permission; it counts only under confirm handling.
   */
  function Refusal(d: Decision, confirmed: bool): Option<string> {
    match d
    case Allow(_) => None
    case Block(reason, _) => Some(reason)
    case RequiresConfirmation(reason, handling) =>
      if handling.HandleConfirm? && confirmed then None else Some("requires confirmation: " + reason)
  }

  /** Without permission nothing irreversible goes ahead, in any phase but a subresource request. */
  lemma NothingIrreversibleUnconfirmed(p: Proposal, handling: Handling, confirmed: bool)
    requires !p.phase.SubresourcePhase?
    ensures Refusal(Check(p, handling), confirmed).None? &&
            (p.declaredRisk == Irreversible || p.matchesIrreversible) ==>
              confirmed && handling == HandleConfirm && !OffPolicy(p)
  {
  }
}
