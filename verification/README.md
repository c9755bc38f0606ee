# Verified model of record and replay

The system replays a recorded capability, a typed list of steps with named checkpoints and outcome
detectors, against a live application, and returns one structured result. Around it stand a policy gate
that every action passes, a session file through which a run and human operators hand the browser to each
other, a redactor, version rules for capabilities, tenant patches, and the parser of the accessibility
snapshot. This project models those parts in Dafny and proves what they promise.

## How it is modelled

* `Enforce.Surface` is an oracle. Detectors, conditions, targets, acts and drained events are answered
  arbitrarily, any call may take any time, and when an operator channel is attached any call may find that
  a human holds the session. Ghost fields keep what happened: a log of every question with its answer,
  every batch of events and every answered attempt at an action, done, denied or gone; what was answered yes;
  every act on a target that no longer looked as recorded; whether anything was refused on the page or denied
  by the gate; how many acts the gate called irreversible.
* `Engine.ReplayEngine` is the engine, method by method, over that oracle. Exceptions are the datatype
  `EngineState.Exit`; `View`, `Inside`, `Carries`, `Works`, `Ends` and `Raises` say once what any piece of the
  engine may change and how it may end, and small lemmas over views compose them, so that a method's own proof
  is little more than its calls. `Looks` says what looking leaves in the log and what in it accounts for a
  stop. All methods terminate, the recursion from a wait through a recovery back into a step included. The
  sleep asked of the surface is the time that passed but for what drifted otherwise, so bounds on it are
  statements about the clock.
* `Session` and `Interleaving` are the session file and the transition system of one run and any number of
  operator command lines that write it; checking control and acting are separate steps there.
* `Operators` is the operator channel, with operators writing while it sleeps.
* The remaining modules are kernels: `SchemaCheck`, `Result`, `Gate`, `Base64`, `Scrub`, `Versioning`,
  `Paths`, `Overrides`, `Snapshot`, `ClickTargets` and `Extraction`.

Assumptions about what lies outside: the clock counts whole milliseconds and never goes back; a sleep lasts
at least as long as asked; settling and waiting for an operator are not sleep, and a settle that fails has
taken time; the surface's failure messages and event details are not empty; an act is `ok` exactly when it
carries no code, is never `ok` when it was refused, and reports a block exactly when a blocking event came
with it; without an operator channel there is no session file, so control is never lost.

## What the code does not do

Each of these is a lemma or a clause of a contract below.

* An operator who aborts before anyone took control leaves a pause record without `taken_at`, which breaks
  the record's own rules, so the escalation hook raises (`Operators.BreaksOnlyOnAbortBeforeTaking`,
  `Operators.OperatorChannel.Call`).
* Taking control gives an operator the whole window only if a poll of this wait finds a human at the controls
  and no poll of an earlier wait ever did (`Operators.FullWindowExactly`). Taking it between the last poll and
  the deadline gives no window: the pause is answered as expired with the session in the operator's hands
  (`Operators.TakenBetweenLooks`).
* `POST_HANDOFF_CHECKPOINT_FAILED` is not an engine code, so a result with it fits its capability exactly if
  some detector declares that code with a kind that fits the status (`Result.HandoffCodeFits`,
  `Result.HandoffFitsOnlyIfDeclared`). When the failure stems from a business outcome the stop says nothing
  about what was expected and is not a valid result; that takes an operator channel and a detector with a
  business outcome (`Engine.ReplayEngine.Run`, end `InvalidResult`).
* A hand-back for an irreversible action inside a re-verification leaves the run as an exception. That takes
  an operator channel, escalate handling, and a detector that recovers by a click or by re-running steps
  (`Run`, end `EscapedHandback`).
* Waits that a lost session cuts off leave no record of the recoveries they had started (`Run`).
* The amount printer writes negative amounts in a form the parser refuses (`Extraction.MoneyRoundTrip`).
* Saving a version below an existing one checks it against its lower neighbour only, so two versions of one
  major can break each other's contract (`Versioning.SavingBetweenCanBreak`).
* A form that is part of the word `REDACTED` is never scrubbed (`Scrub.ScrubCompleteExactly`), and one with a
  bracket can come back (`Scrub.BracketedFormSurvives`).
* A patch that puts a scalar or a list in place of `target` or `fingerprint` passes the locked-path check and
  loses the locked fields below it (`Overrides.LocksSurvive`, `Overrides.LockLostBelowScalar`); whether the
  resolved artifact is refused is then up to its schema check, a parameter here.

## Model

| member | source | states |
|---|---|---|
| Engine.Replay | src/cua/replay/engine.py:275-312 | Over every behaviour of the surface: a guarded step acts at most once, an irreversible one never without standing permission; recoveries start within their limits and none clicks more often than it was started, nothing the gate calls irreversible acts without permission that counts, the hook is called at most three times and the run sleeps no longer than a bound computed from the capability, however it ends; a result obeys its status rules, fits the capability exactly unless its code is an undeclared hand-off code, and its records are a flow prefix; a result that is no success has a code that something in the run accounts for, a lost session or a hand-back that did not verify apart; success means the success checkpoint was seen, events were drained last of all and every output is what the parser makes of a text read through the gate; success without hand-backs means nothing was refused or denied, and the steps acted and were seen to pass in flow order, then the success checkpoint, each guarded one acting exactly once; plain success means no recovery ever started; unattended, there is always a result, it fits the capability, all its recoveries verified if it succeeded, and anything refused on the page or denied by the gate ends it with that code; an exception needs an operator channel and what the exception names |
| Engine.ReplayEngine.Run | src/cua/replay/engine.py:275-359 | The same on an engine's own state, failing results and their reasons included, plus: nothing irreversible acts on a renamed target, every recovery started is recorded unless the session was lost, and for each of the three exceptions what it takes |
| Engine.ReplayEngine.Conclude | src/cua/replay/engine.py:291-302 | A stop becomes a sound result under its own code, which something accounts for, except a hand-off stop that says nothing, which takes a detector with a business outcome |
| Engine.ReplayEngine.RunFlow | src/cua/replay/engine.py:287-290 | The flow runs every step and then the success check; where it breaks off, the records are the steps before, the stop fits the contract and what happened since its step began accounts for it; its sleep is paid for by steps, finish and pauses |
| Engine.ReplayEngine.StepWithHandbacks | src/cua/replay/engine.py:363-376 | One step leaves exactly one passed record however many hand-backs interrupted it, and its checkpoint was seen; without a hand-back it acted and its wait was seen after it and after every step before; each hand-back pays for one more look |
| Engine.ReplayEngine.ReverifyAll | src/cua/replay/engine.py:375-376 | Re-verifying for as long as operators hand back ends, never performs a guarded act, and leaves the step passed and its checkpoint seen |
| Engine.ReplayEngine.Reverify | src/cua/replay/engine.py:378-418 | One re-verification: a passed record and no current step, another hand-back after a fresh pause, or a hand-off stop; the interrupted action is not repeated |
| Engine.ReplayEngine.LookAgain | src/cua/replay/engine.py:391-412 | While re-verifying the hook is called for irreversible actions only; the flag is down again afterwards; a checkpoint step that passes was seen to hold, any other had its detectors asked once |
| Engine.ReplayEngine.AskAgain | src/cua/replay/engine.py:399-410 | A failed re-verification asks for a human in its own name and ends in a hand-off stop or another hand-back |
| Engine.ReplayEngine.FinishWithHandbacks | src/cua/replay/engine.py:420-430 | The success check and the outputs, repeated after hand-backs, end with everything a success claims, and each hand-back pays for one more round |
| Engine.ReplayEngine.Round | src/cua/replay/engine.py:421-430 | Finishing once is over, or a hand-back was re-verified and it is to be done again, for which at least one more pause pays |
| Engine.ReplayEngine.DetectorsOnce | src/cua/replay/engine.py:432-444 | Events are drained and the step's detectors asked in order up to the first that holds, and if none does nothing else happens; afterwards nothing started is unrecorded |
| Engine.ReplayEngine.LookOnce | src/cua/replay/engine.py:432-440 | The same pass, with whatever it started among what it opened |
| Engine.ReplayEngine.RunStep | src/cua/replay/engine.py:446-508 | A step that comes back acted and, unless skipped, its wait was seen to pass after that; one that stops does so for something that happened since the flow's step began, and reports a hard failure to act only when it may not be tried again; a guarded step's action reaches the application at most once, an irreversible one only with permission; a flow step leaves one passed record or stays current; a re-run touches no trace; it sleeps no longer than the step may cost |
| Engine.ReplayEngine.ActAndWait | src/cua/replay/engine.py:464-503 | The action came back ok before, in the log, the wait was seen to pass |
| Engine.ReplayEngine.ActInTime | src/cua/replay/engine.py:464-501 | The retry loop ends, within the step's time, one pause and one wait; it acts at least once to come back, a guarded step takes exactly one try, and it gives up in a hard failure to act only when the step is guarded, the gate called it irreversible or its time is over |
| Engine.ReplayEngine.TryAgain | src/cua/replay/engine.py:465-501 | Each try counts one attempt; a failed one is for unguarded steps only and leaves less of the step's time |
| Engine.ReplayEngine.TryThenPause | src/cua/replay/engine.py:466-501 | The pause after a failed try leaves less of the step's time, and tries and pauses together sleep no longer than the step's time and one pause |
| Engine.ReplayEngine.TryAction | src/cua/replay/engine.py:466-499 | A plain failure to act is tried again or ends the step; tried again only for a step that is not guarded, that the gate does not call irreversible, and within its time; reported as a hard failure only when one of the three does not hold |
| Engine.ReplayEngine.AimAndAct | src/cua/replay/engine.py:466-483 | At most one own act per attempt, at exactly the larger of the declared and the judged risk; a plain failure is told by the log |
| Engine.ReplayEngine.Aim | src/cua/replay/engine.py:466-482 | A step with a target resolved it in this attempt; what is declared or judged irreversible is never aimed at a target that no longer looks as recorded |
| Engine.ReplayEngine.FindOwn | src/cua/replay/engine.py:467-477 | A step's own target is resolved in this attempt, and is called changed exactly when it last looked other than recorded |
| Engine.ReplayEngine.EffectiveRisk | src/cua/replay/engine.py:527-532 | Exactly the larger of the declared risk and the gate's, if the gate can tell |
| Engine.ReplayEngine.ActOnce | src/cua/replay/engine.py:483-486 | An act that is ok reached the application; one that is not failed plainly, and the log tells; acts of guarded steps are counted |
| Engine.ReplayEngine.Perform | src/cua/replay/engine.py:561-607 | Exactly one act when it acted, none otherwise, nothing irreversible without permission; every answered attempt is one entry of the log; it comes back only with an act that was ok or plainly failed, never with anything refused on the page or denied by the gate; a recovery's click needs a start that was not yet clicked |
| Engine.ReplayEngine.PerformAside | src/cua/replay/engine.py:561-607 | The same for recovery clicks and reads, which leave the acts of guarded steps alone |
| Engine.ReplayEngine.Answered | src/cua/replay/engine.py:582-607 | A block raises POLICY_BLOCKED and a missing confirmation CONFIRMATION_REQUIRED or a hand-back, an unexpected dialog raises too, and only ok and plain failures come back; a human is asked exactly when the gate leaves it to one and a pause is allowed |
| Engine.ReplayEngine.LeaveToHuman | src/cua/replay/engine.py:590-598 | An irreversible action left to a human ends in its own code or in a hand-back for it, never in an act |
| Engine.StopFor | src/cua/replay/engine.py:582-606 | The stop for each kind of refusal, and none for a plain failure |
| Engine.ReplayEngine.StepFailure | src/cua/replay/engine.py:609-613 | Keeps the code, which something must account for; asks for a human exactly when the step says so and a pause is still allowed |
| Engine.ReplayEngine.Escalate | src/cua/replay/engine.py:615-644 | The hook is called exactly when not re-verifying (or for an irreversible step) and fewer than three pauses were made; what it returns keeps code, expected and observed |
| Engine.ReplayEngine.Pause | src/cua/replay/engine.py:636-644 | Exactly one call of the hook, counted by the hook, one more pause; a hand-back carries the reason asked for |
| Engine.ReplayEngine.AskHuman | src/cua/replay/engine.py:165-182 | Counts itself; without a channel the answer is the stop itself; with one, an escalated stop with its record, a hand-back, or an exception |
| Engine.ReplayEngine.RaiseOnEvents | src/cua/replay/engine.py:874-898 | Any blocking event or unexpected dialog that is drained raises, under the code of what was drained |
| Engine.ReplayEngine.Matching | src/cua/replay/engine.py:902-930 | The log gains exactly the eligible detectors in order, all answered no, up to the first that is answered yes, if any |
| Engine.ReplayEngine.Handle | src/cua/replay/engine.py:932-993 | Costs at most one attempt of exactly this detector; a stop without an attempt carries its code; a window opens at no time and for its full budget; a click or re-run comes back only after it was carried out and the page was left to settle, and restarts the wait, once and just then; it ends the wait only if it is not recoverable, has no attempt left, or acted and failed; only acting may sleep, up to its cost; nothing but this detector is newly open, and everything started is |
| Engine.ReplayEngine.EndRun | src/cua/replay/engine.py:938-960 | A business or hard outcome raises its own code, and asks for a human exactly when it escalates and a pause is allowed |
| Engine.ReplayEngine.Recover | src/cua/replay/engine.py:961-991 | The same for a recoverable outcome, within its limit; past the limit its own code is raised |
| Engine.ReplayEngine.Start | src/cua/replay/engine.py:973 | Counts exactly one attempt of this detector, which pays for one click |
| Engine.ReplayEngine.Restart | src/cua/replay/engine.py:986-993 | Acting on a recovery leaves this and later steps' attempts alone, sleeps no longer than the steps it re-runs may cost, and is followed by a settle as the last thing in the log; what was carried out is the click, if its target was there, or the named steps in order |
| Engine.ReplayEngine.RecoverByClick | src/cua/replay/engine.py:995-1008 | The target is looked for, and exactly if it is there the click is put to the gate; no guarded act, nothing started, no sleep |
| Engine.ReplayEngine.RecoverBySteps | src/cua/replay/engine.py:1010-1023 | When it comes back, the log falls into pieces in which the named steps acted once more in order, each but the last then seen to pass; no guarded step acted; it sleeps no longer than those steps may cost |
| Engine.ReplayEngine.Rerun | src/cua/replay/engine.py:1015-1023 | A stop of a re-run step is the recovering detector's code, or one that is no mere failure to do the step; so no wait ends in a hard failure to act |
| Engine.ReplayEngine.Unverifiable | src/cua/replay/engine.py:1025-1032 | The failure belongs to the first recovery that acted, else to the first of the windows that end last |
| Engine.ReplayEngine.Exhausted | src/cua/replay/engine.py:1034-1053 | The detector's code; a human is asked exactly when it escalates and a pause is allowed |
| Engine.ReplayEngine.Close | src/cua/replay/engine.py:1055-1070 | One record per opened recovery, in order, with the given outcome |
| Engine.ReplayEngine.CloseWait | src/cua/replay/engine.py:840-872 | After it, nothing the wait started is untold |
| Engine.ReplayEngine.Poll | src/cua/replay/engine.py:817-872 | On the surface's clock it sleeps at most its timeout plus, for each recovery its step started meanwhile, that recovery's cost, and nothing of its own between settles; a wait that fails with nothing refused and no detector seen had its whole timeout, to the millisecond if nothing else took time, and ended with a last look and the checkpoint's timeout detectors; any other wait that fails with nothing refused had each window it opened run for its whole budget and, without windows, its whole timeout since it began and since a click or re-run last restarted it, unless a detector that was answered yes broke it off: one that is not recoverable, one without an attempt left, or one whose click or re-run failed; passing means the awaited was seen last, after drained events and every eligible detector answered no; what it opened ends up recorded, verified exactly when it passed |
| Engine.ReplayEngine.PollLoop | src/cua/replay/engine.py:828-867 | The same for the loop, with termination |
| Engine.ReplayEngine.TimedOn | src/cua/replay/engine.py:833-836 | A click or re-run renews the whole timeout from when it was done, a window leaves the deadline alone, and no window is cut short |
| Engine.ReplayEngine.BreaksOff | src/cua/replay/engine.py:833-836 | A detector breaks a wait off only if it is not recoverable, has no attempt left, or acted and failed |
| Engine.ReplayEngine.RenewsOnce | src/cua/replay/engine.py:986-993 | A wait is restarted at most once for each attempt counted, and exactly once by a recovery that came back |
| Engine.ReplayEngine.Tick | src/cua/replay/engine.py:830-867 | A tick sees, picks a detector that was answered yes, or sleeps up to the end of the first live window to close, or the deadline if none is live; one that ends the wait looked first |
| Engine.ReplayEngine.Watch | src/cua/replay/engine.py:831-841 | The log shows events drained first, then the eligible detectors, then what is awaited |
| Engine.ReplayEngine.LookAround | src/cua/replay/engine.py:832-839 | The log shows what is awaited asked for only after every eligible detector was answered no |
| Engine.ReplayEngine.Linger | src/cua/replay/engine.py:842-867 | Gives up only with no window live and the deadline come or windows opened, else sleeps up to the end of the first live window to close, or the deadline |
| Engine.ReplayEngine.GiveUp | src/cua/replay/engine.py:844-863 | A wait gives up at its deadline only after all eligible timeout detectors of its checkpoint were answered no; the first answered yes is picked instead |
| Engine.ReplayEngine.HopeEnds | src/cua/replay/engine.py:857-860 | The failure is that of what the wait opened, if anything, else a code of its own timeout |
| Engine.LivePause | src/cua/replay/engine.py:843-850 | None exactly when no window is live |
| Engine.PauseIsShortest | src/cua/replay/engine.py:843-850 | The pause is the shortest poll interval of the live windows, cut at the end of each, so none lets the wait sleep less and none is slept past |
| Engine.ReplayEngine.OnTimeout | src/cua/replay/engine.py:669-680 | CHECKPOINT_TIMEOUT, or for a target its failure code, TARGET_NOT_FOUND or TARGET_AMBIGUOUS, and only right after the last look of a wait that gave up |
| Engine.ReplayEngine.Look | src/cua/replay/engine.py:736-776 | One question of the wait's own kind; an unsettled page has taken time |
| Engine.ReplayEngine.ResolveTarget | src/cua/replay/engine.py:648-695 | A target comes back only if it resolved to one element as the last thing seen in this wait; a wait that stops without a refusal looked for it in vain or met a detector |
| Engine.ReplayEngine.Wait | src/cua/replay/engine.py:736-783 | Passing means the step's own condition was the last thing seen in this wait, which sleeps no longer than a wait of the step may |
| Engine.ReplayEngine.WaitForCheckpoint | src/cua/replay/engine.py:785-815 | Passing means the checkpoint was the last thing seen in this wait |
| Engine.ReplayEngine.Finish | src/cua/replay/engine.py:1088-1115 | The success checkpoint was seen, every returned output is what the parser makes of a text read through the gate, every required one is there, and last of all events were drained, none refused |
| Engine.ReplayEngine.OneOutput | src/cua/replay/engine.py:1096-1112 | The output was read and added; or it is optional, nothing was added, it was looked for or read unless a detector held meanwhile, and no recovery failed meanwhile |
| Engine.ReplayEngine.ReadOutput | src/cua/replay/engine.py:1117-1147 | The value is what the parser makes of the text that a read through the gate came back with; OUTPUT_EXTRACTION_FAILED is raised only after the output was looked for or read, or a detector held |
| Engine.ReplayEngine.BusinessStop | src/cua/replay/engine.py:938-952 | A business outcome carries its code, as message the text that was read or else the description, and an error for exactly its declared field |
| Engine.ReplayEngine.DetectorStop | src/cua/replay/engine.py:953-960 | A detector's own code in a stop that fits the result contract, for a detector that was answered yes |
| Engine.ReplayEngine.SuccessStep | src/cua/replay/engine.py:262-271 | The first step that waits on the success checkpoint, else the last |
| Engine.ReplayEngine.RecordUnfinishedStep | src/cua/replay/engine.py:522-525 | One failed record for the current step, none without one |
| Engine.ReplayEngine.StopResultSound | src/cua/replay/engine.py:350-359 | A stop that fits gives a valid result that fits the capability; a hand-off stop gives a valid one exactly when it says why, and one that fits exactly when its code is declared |
| Engine.ReplayEngine.SuccessSound | src/cua/replay/engine.py:346-349 | A finished flow gives a result that keeps the whole contract |
| Engine.ReplayEngine.ActsStep | src/cua/replay/engine.py:487-492 | One step's acts extend the at-most-once count of the flow |
| Engine.ReplayEngine.HandledCounts | src/cua/replay/engine.py:832-837 | Handling a detector charges the wait exactly the cost of the recovery its step started, and uses up one attempt |
| EngineState.StartKeepsSound | src/cua/replay/engine.py:963-973 | Counting an attempt keeps the table equal to what was started and within every limit |
| EngineState.StartIsOneMore | src/cua/replay/engine.py:973 | Starting a recovery changes one entry of its step and no later step |
| EngineState.OneMoreCharges | src/cua/replay/engine.py:969-993 | One more recovery charges exactly its own cost |
| EngineState.ChargesWithin | src/cua/replay/engine.py:963-973 | Within the limits of recoveries, no wait sleeps longer than a bound computed from the capability |
| EngineState.ToldAfterWait | src/cua/replay/engine.py:1055-1070 | A wait that recorded what it opened leaves no recovery of its step untold |
| EngineState.PaceHandles | src/cua/replay/engine.py:834-837 | Handling a detector pays for a window at once, or for the wait's full timeout and what acting slept |
| EngineState.PaceTicks | src/cua/replay/engine.py:846-867 | A sleep is paid for by the time left before the horizon, which shrinks |
| EngineState.RunPays | src/cua/replay/engine.py:287-290 | The sleep of a whole run stays within a bound computed from the capability: its steps, and one more look and finish for each of at most three pauses |
| EngineState.Skips | src/cua/replay/engine.py:1099-1112 | A passed-over stop hides no refusal and no failed recovery |
| EngineState.StartPays | src/cua/replay/engine.py:973 | One more start of a recovery, at any step, pays for one more click of its detector |
| Looks.BecauseFired | src/cua/replay/engine.py:932-960 | A detector that was answered yes accounts for its own code, which is never one the engine raises by itself |
| Looks.BecauseGaveUp | src/cua/replay/engine.py:844-863 | A wait that just took its last look accounts for the codes of its own timeout |
| Looks.BecauseStill | src/cua/replay/engine.py:874-898 | What accounts for a stop still does while the log grows |
| Schema.Position | src/cua/artifact/schema.py:871-872 | The dictionary by id gives the last step with it |
| Schema.CodeTableAgrees | src/cua/artifact/schema.py:862-865 | The code table gives every detector's code that detector's own kind |
| Schema.RerunGoesBack | src/cua/artifact/schema.py:1042-1061 | A recovery re-runs only steps strictly before the one it serves, and never a guarded one |
| SchemaCheck.CrossReferences | src/cua/artifact/schema.py:867-964 | Finds nothing exactly when every cross-reference rule holds |
| SchemaCheck.DuplicateProblems | src/cua/artifact/schema.py:877-886 | Finds nothing exactly when names of each kind are distinct |
| SchemaCheck.StepProblems | src/cua/artifact/schema.py:896-898 | Finds nothing exactly when every awaited checkpoint exists |
| SchemaCheck.DetectorProblems | src/cua/artifact/schema.py:917-941 | Finds nothing exactly when the detector's references, code, field and recovery are sound |
| SchemaCheck.TimeoutScopeProblems | src/cua/artifact/schema.py:1026-1040 | Finds nothing exactly when every scoped step waits on the checkpoint watched |
| SchemaCheck.RunStepsProblems | src/cua/artifact/schema.py:1042-1068 | Finds nothing exactly when re-run steps are in flow order, before the whole scope, repeatable, and the scope re-verifiable |
| SchemaCheck.CodeProblems | src/cua/artifact/schema.py:916-932 | Finds nothing exactly when equal codes have equal kinds |
| Result.ContractProblems | src/cua/replay/result.py:235-274 | Lists exactly the disagreements, and none exactly when the result fits |
| Result.NoProblemsMeansFit | src/cua/replay/result.py:235-274 | A result fits its capability exactly when no kind of problem applies |
| Result.HandoffCodeFits | src/cua/replay/result.py:241-249 | The hand-off code fits a status exactly when a detector declares it with a fitting kind |
| Result.HandoffFitsOnlyIfDeclared | src/cua/replay/engine.py:401-410 | The same hand-off result misfits a capability without detectors, and fits it once one declares the code |
| Gate.Check | src/cua/policy/gate.py:73-101 | Never lowers a declared risk; allows exactly what is on policy and not irreversible; asks for confirmation exactly for what is on policy, irreversible and not blocked outright |
| Gate.NothingIrreversibleUnconfirmed | src/cua/policy/enforce.py:60-67 | Nothing irreversible goes ahead without permission and confirm handling, or off policy |
| Enforce.Surface.Act | src/cua/surface/base.py:329-335 | The oracle of an act: one act counted and logged unless control was lost; a dialog it declares is answered only as the guard said |
| Enforce.GatedSurface.Perform | src/cua/policy/enforce.py:94-120 | Acts exactly when the gate's decision, never below the declared risk, lets it through and a human does not hold the session, and at most once; nothing declared or judged irreversible without permission that counts; a declared dialog is answered only if the gate let it through at the action's own risk; a refusal's code says which; one-off permission does not outlive the call; every answered attempt is one entry of the log |
| Enforce.GatedSurface.Admit | src/cua/policy/enforce.py:94-117 | The judging half: it lets an action go ahead exactly on a decision that permits it, and otherwise answers in the gate's words without touching the page |
| Enforce.GatedSurface.Let | src/cua/policy/enforce.py:114-120 | The acting half: one act, counted as irreversible exactly when judged so, and permission for this action only ends with it |
| Enforce.GatedSurface.DialogOf | src/cua/policy/enforce.py:131-141 | A dialog is let through only on the gate's decision for it at the action's declared risk, and no action answers a dialog it does not declare |
| Enforce.GatedSurface.Judge | src/cua/policy/enforce.py:89-92 | The gate's risk, never below the declared one, without acting |
| Enforce.GatedSurface.DialogGuard | src/cua/policy/enforce.py:131-141 | Exactly the gate's answer for the action that opened the dialog; one of an irreversible action is answered only with permission |
| Session.AdvanceKeepsInvariant | src/cua/session/state.py:150-200 | Every accepted transition keeps the invariant, adds one record, moves the version by one, and never leaves finished |
| Session.ResumingMeansTaken | src/cua/session/state.py:40-59 | After a pause, resuming is reached only through a take_control |
| Session.StateStore.Create | src/cua/session/state.py:251-256 | Creates the file once |
| Session.StateStore.Transition | src/cua/session/state.py:258-285 | A compare-and-swap: writes only at the expected version, and appends exactly one record |
| Interleaving.StepKeepsInvariant | src/cua/session/operator.py:186-203 | Every step of the run or of an operator keeps the inductive invariant |
| Interleaving.MutualExclusion | src/cua/session/state.py:203-223 | In every interleaving, from the control check that admits an act to its end, the session is never paused for or held by a human |
| Interleaving.OnlyAbortDuringAct | src/cua/session/state.py:40-71 | During an act the file changes at most once, by an operator's abort |
| Interleaving.SwapIsExclusive | src/cua/session/state.py:269-285 | Two writes that insist on one version never both succeed |
| Interleaving.FinishedIsAbsorbing | src/cua/session/state.py:40-59 | A finished session file never changes |
| Interleaving.FileInvariant | src/cua/session/state.py:150-200 | In every interleaving: versions count the history, phases chain, history only grows, hand-backs come from the latest taker, and running is regained only by a verified checkpoint right after a hand-back |
| Operators.OperatorChannel.Call | src/cua/session/operator.py:118-130 | One pause from beginning to end: over before twice the wait plus one sleep; it raises exactly if nobody took control since and an operator aborted, or handed back a session taken before; the latter never if the session could be paused, was new or had ended; a hand-back means the session is resuming and was taken during this pause |
| Operators.Answer | src/cua/session/operator.py:123-130 | A stop keeps code, expected and observed and carries one well-shaped record; a hand-back's record is well shaped either way |
| Operators.TakerFinds | src/cua/session/operator.py:494-503 | A take_control since the pause is found |
| Operators.ResumingHasTaker | src/cua/session/operator.py:123-130 | A session resuming after this pause was taken during it |
| Operators.EndedShape | src/cua/session/operator.py:448-462 | The record of an ended pause is well shaped unless it was aborted and nobody had taken it |
| Operators.BreaksOnlyOnAbortBeforeTaking | src/cua/session/operator.py:118-130 | The channel raises in exactly one case: an abort before anyone took control |
| Operators.BreaksExactly | src/cua/session/operator.py:118-130 | Whatever state a wait ends in, the exact condition for the exception |
| Operators.FullWindowExactly | src/cua/session/operator.py:241-260 | A taker gets the whole window exactly if a poll of this wait found a human at the controls and no poll of an earlier wait did |
| Operators.TakenBetweenLooks | src/cua/session/operator.py:268-283 | A concrete take between the last poll and the deadline: not expired in the file, and answered as expired all the same |
| Operators.OperatorChannel.PauseSession | src/cua/session/operator.py:186-203 | Pauses a running or resuming session with one stamped record under the new intervention, and otherwise leaves it |
| Operators.OperatorChannel.WaitForOperator | src/cua/session/operator.py:238-283 | Ends before twice its wait plus one sleep after the request; expires only at or after the deadline its own polls decide, right after a poll that found the session neither resuming nor finished; otherwise ends with the session resuming, finished or lost; remembers a held session exactly if some poll saw one; a finished session ends it at once |
| Extraction.ParseValue | src/cua/replay/extract.py:27-47 | A parsed value has the kind asked for |
| Extraction.MoneyGrammar | src/cua/replay/extract.py:17-39 | An amount is accepted exactly if it is spelled as the pattern says with matching brackets, and every spelling is read as its value |
| Extraction.MoneyRoundTrip | mock_app/data.py:104-105 | Reading a printed amount gives it back exactly when it is not negative |
| Extraction.CommasReadBack | src/cua/replay/extract.py:17-19 | A number printed with any number of comma groups is grouped and reads back |
| Extraction.NegativeForms | src/cua/replay/extract.py:34-39 | A leading minus or brackets around a printed amount negate it |
| Extraction.UnmatchedBracketRefused | src/cua/replay/extract.py:34-37 | A bracket on one side only is refused |
| Extraction.IntegerRoundTrip | src/cua/replay/extract.py:40-43 | A whole number printed with commas, with or without a minus, reads back |
| Base64.EncodesBits | src/cua/policy/redact.py:75 | Encoding three bytes at a time is encoding six bits at a time, zero-filled and padded (RFC 4648, section 4) |
| Base64.UrlFormOfEncoding | src/cua/policy/redact.py:78 | Translating two characters gives the encoding of section 5 of RFC 4648 |
| Base64.CoreOccurs | src/cua/policy/redact.py:67-79 | For all bytes before and after a value, the encoding of the whole holds the core for its offset, at the stated index, in both alphabets |
| Base64.CoreIsWhatIsFixed | src/cua/policy/redact.py:68-72 | Of the characters that carry a bit of the value, exactly the core's are the same for all surroundings |
| Base64.Base64Forms | src/cua/policy/redact.py:73-79 | Exactly the cores that are long enough, in both alphabets |
| Scrub.ScrubComplete | src/cua/policy/redact.py:177-189 | After the loop no form that cannot overlap the mark occurs anywhere, for every text and every order |
| Scrub.ScrubCompleteExactly | src/cua/policy/redact.py:177-189 | For forms without brackets: no text keeps any of them if and only if none is part of the word REDACTED |
| Scrub.BracketedFormSurvives | src/cua/policy/redact.py:177-189 | With brackets that condition is not enough |
| Scrub.WholeFormReplaced | src/cua/policy/redact.py:130-131 | Longest first, a text that is a form becomes exactly one mark |
| Scrub.ScrubLeavesAlone | src/cua/policy/redact.py:188-189 | A text without any form is unchanged |
| Scrub.ScrubNeverEmpties | src/cua/policy/redact.py:188-189 | Scrubbing never empties a text |
| Scrub.MaskAddsNone | src/cua/policy/redact.py:179-181 | Masking whatever the token pattern matched brings no form back |
| Scrub.EncodedCredentialHidden | src/cua/policy/redact.py:136-144 | No base64 stream that holds a credential, at any offset, in either alphabet, comes through |
| Scrub.Redactor.Add | src/cua/policy/redact.py:126-134 | Keeps forms distinct, non-empty and longest first; adds exactly the new ones |
| Scrub.Redactor.AddCredential | src/cua/policy/redact.py:136-144 | Refuses values under four characters; short ones become tokens, longer ones substrings, and base64 cores always substrings |
| Scrub.Redactor.Scrub | src/cua/policy/redact.py:171-181 | The two passes in order; no form that cannot overlap the mark is left |
| Versioning.ActualBump | src/cua/artifact/versioning.py:40-48 | Fails exactly when the version went backwards (section 11 of Semantic Versioning 2.0.0) |
| Versioning.BumpsCompose | src/cua/artifact/versioning.py:40-48 | Two bumps in a row are the larger one |
| Versioning.ContractBreaks | src/cua/artifact/versioning.py:59-102 | Lists exactly the breaks, and none exactly when the contract is kept |
| Versioning.NoBreakMeansKept | src/cua/artifact/versioning.py:59-102 | The absence of every kind of break is keeping the contract |
| Versioning.StripDecidesWording | src/cua/artifact/versioning.py:51-56 | Stripped values are equal exactly when the values differ at most under wording keys |
| Versioning.KeepsContractComposes | src/cua/artifact/versioning.py:59-102 | Keeping a contract is transitive |
| Versioning.RequiredSubadditive | src/cua/artifact/versioning.py:112-121 | Two changes need no more than the larger of what each needs |
| Versioning.PassesComposes | src/cua/artifact/versioning.py:124-135 | Acceptance composes |
| Versioning.ChainPasses | src/cua/artifact/versioning.py:124-135 | Along any accepted chain every pair is acceptable, and two versions of one major break no contract |
| Versioning.CheckChange | src/cua/artifact/versioning.py:124-135 | The check over the list of breaks is the check, and reports the breaks exactly when a major bump is missing |
| Versioning.CoerceInputs | src/cua/artifact/inputs.py:51-74 | No problems exactly when the call is accepted; every unmet input is named |
| Versioning.CallsStayAccepted | src/cua/artifact/versioning.py:60-78 | If the contract is kept, every call the old version accepts is accepted by the new one |
| Versioning.SavedStaysCoherent | src/cua/artifact/catalog.py:153-161 | A saved version keeps every pair acceptable exactly when it passes against its neighbours on both sides |
| Versioning.SavingBetweenCanBreak | src/cua/artifact/catalog.py:153-161 | Checking the lower neighbour only is not enough |
| Paths.Normalize | src/cua/policy/gate.py:43-66 | The stack loop computes the normal form of the decoded path, or refuses |
| Paths.NormalIsCanonical | src/cua/policy/gate.py:56-66 | Every result is absolute, with no empty, "." or ".." segment |
| Paths.NormalizeIdempotent | src/cua/policy/gate.py:43-66 | An accepted path normalizes to itself |
| Paths.NormalIsUnambiguous | src/cua/policy/gate.py:49-55 | Resolving segments brings back nothing that would be refused |
| Paths.NormalIsRemoveDotSegments | src/cua/policy/gate.py:56-66 | On decoded absolute paths without "//" the loop is remove_dot_segments of section 5.2.4 of RFC 3986 |
| Overrides.DeepMerge | src/cua/artifact/overrides.py:19-26 | The loop computes the merge |
| Overrides.MergeIdempotent | src/cua/artifact/overrides.py:19-26 | Applying a patch twice is applying it once |
| Overrides.UnsetPathSurvives | src/cua/artifact/overrides.py:19-26 | A patch that does not set a path leaves its value exactly when nothing was there or it cuts nothing on the way |
| Overrides.PatchPaths | src/cua/artifact/schema.py:801-807 | Exactly the dotted paths a patch sets |
| Overrides.LockedPaths | src/cua/artifact/schema.py:946-953 | Exactly the patch's paths at or below a lock |
| Overrides.CheckIsExact | src/cua/artifact/schema.py:943-955 | For keys without dots the string check refuses exactly the patches that set a locked field |
| Overrides.LocksSurvive | src/cua/artifact/schema.py:783-798 | A passing patch leaves a locked field alone, always for one-component locks, and for the others exactly unless it replaces an object on the way |
| Overrides.LockLostBelowScalar | src/cua/artifact/schema.py:783-798 | A concrete patch that passes the check and loses a locked field |
| Overrides.ResolveForTenant | src/cua/artifact/overrides.py:37-73 | Each error exactly where it belongs: unknown tenant, entry URL without a web surface, merged artifact invalid, credential target lost; otherwise the result is the merged artifact |
| Overrides.MergedIsPatched | src/cua/artifact/overrides.py:50-60 | The merged artifact is the only one whose every step and checkpoint is the base one or its merge, with no overrides left |
| Overrides.PatchSteps | src/cua/artifact/overrides.py:50-53 | Every step with a patch for its id is merged with it, every other is unchanged |
| Overrides.ResolvingKeepsLocks | src/cua/artifact/schema.py:819-823 | A tenant's capability has the same steps in the same order with the same ids and top-level locked fields |
| Snapshot.ParseSnapshot | src/cua/surface/snapshot.py:62-120 | Every node gets the frame and offset of its innermost enclosing iframe by indentation |
| Snapshot.Innermost | src/cua/surface/snapshot.py:81-83 | The latest line that encloses another, or none encloses it |
| Snapshot.NodeIn | src/cua/surface/snapshot.py:96-110 | A control's value never becomes text |
| ClickTargets.Owner | src/cua/surface/snapshot.py:145-154 | The smallest, then deepest, then earliest node that holds the center, or none does |
| ClickTargets.MergeClickTargets | src/cua/surface/snapshot.py:133-176 | Every node of the result comes from the tree, flagged exactly as its handlers say, or is one handler's own |
| ClickTargets.NothingLost | src/cua/surface/snapshot.py:133-176 | Every tree node is kept once and in order; every handler flags exactly its owner or adds exactly one node |
| ClickTargets.MarkedForAReason | src/cua/surface/snapshot.py:173-174 | A kept node changes in nothing but its mark, which it gets only from a handler that flags it |
| ClickTargets.AddedFollowsOwner | src/cua/surface/snapshot.py:160-175 | An added node stands after its owner, or the last node, with only added ones between |

## Left out

- Extraction.MoneyRoundTrip: the parser is modelled on text without Unicode digits or spaces, as the printer produces it.
- Interleaving.MutualExclusion: one run per session file, as the browser belongs to one process.
- Engine.ReplayEngine.AskHuman: the channel's answer starts from any session state at all, so more endings are allowed than one pause can reach.
- Engine.ReplayEngine.TryAction: giving up is tied to its condition where it is reported as a hard failure, not where a human was asked about it.
- Scrub.Redactor.Scrub: account-number masking and the token pattern are regular expressions; the pattern is a parameter and the masking is left out.
- Paths.NormalizePath: percent-decoding is a parameter that is only assumed to leave text without encoded bytes alone.
- Snapshot.ParseSnapshot: lines are taken as parsed; the line patterns, quoting and JSON strings are library work.
- SchemaCheck.StepProblems: template references in a step's texts are left out.
- SchemaCheck.DetectorProblems: template references in a detector's conditions are left out.
- Extraction.ParseValue: dates are a parameter, the calendar library; only kinds are in its own contract, amounts are in MoneyGrammar.
- SchemaCheck.CrossReferences: template references, conditions inside checkpoints, desktop surfaces and overrides; the locked paths are in `Overrides`.
- Versioning.Capability: the JSON dump is a field of its own, not computed from the other fields; version strings are taken as parsed.
- Regular expressions, conditions and locator ladders: uninterpreted answers of the surface.
- Warnings, durations, screenshots, evidence files, logging, manifests and human action capture: they carry no decision.
- The request guard of the gated surface, routing, and dialogs an action does not declare: only their events reach the model.
- Real files, locks and renames: a locked read-modify-write is one step.
- The order of messages in error lists built from dictionaries or sets.
- Discovery, prompts, the command line, the demo application and time zones.
