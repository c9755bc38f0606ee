/** How a run is told to stop, and how a human gives it back. */
module Stops {
  import opened Vocab
  import opened Result
  import opened Wording

  datatype StopStatus = StopBusiness | StopHard | StopEscalated

  datatype RunStopped = RunStopped(
    code: Code, message: string, expected: string, observed: string, status: StopStatus,
    fieldErrors: seq<FieldError>, interventionPath: Option<string>, stepId: Option<StepId>,
    recoveries: seq<RecoveryRecord>)

  /** A stop as most places raise it: a hard failure about the screen. */
  function Failure(code: Code, message: string, expected: string, observed: string): RunStopped {
    RunStopped(code, message, expected, observed, StopHard, [], None, None, [])
  }

  /** The pause's record and evidence when control came back to the run. */
  datatype Handback = Handback(intervention: RecoveryRecord, interventionPath: string)

  /** What the engine records once it has re-verified the screen the operator left. */
  function Confirmed(h: Handback, reverified: bool): RecoveryRecord
    requires h.intervention.Human?
  {
    h.intervention.(reverified := reverified)
  }

  /** The escalation hook's answer: a stop, a hand-back, or an exception of its own. */
  datatype HookAnswer = EndsRun(stop: RunStopped) | GivesBack(handback: Handback) | Breaks

  /** The hook's answer without a channel: the same stop, still a hard failure. */
  function NoOperator(stop: RunStopped, reason: ReasonCode): RunStopped {
    Failure(stop.code, NoChannel(stop.message), stop.expected, stop.observed)
  }
}
