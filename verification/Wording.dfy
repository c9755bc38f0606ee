/** The fixed texts of stops. What matters about them is that they are never empty. */
module Wording {
  function InsidePolicy(): (s: string) ensures s != "" { "every request inside the policy" }

  function BlockedAt(url: string): (s: string) ensures s != "" { "blocked " + url }

  function DialogDismissed(detail: string): (s: string)
    ensures s != ""
  {
    "an unexpected dialog was dismissed: " + detail
  }

  function NoDialog(): (s: string) ensures s != "" { "no dialog, or the one the step declares" }

  function SeenAt(place: string): (s: string) ensures s != "" { "at " + place }

  function Unavailable(): (s: string) ensures s != "" { "frame unavailable" }

  function TakesEffect(): (s: string) ensures s != "" { "the step to take effect" }

  function AllowedByPolicy(): (s: string) ensures s != "" { "action allowed by the policy" }

  function NotConfirmed(message: string): (s: string) {
    message + " Replay does not confirm irreversible actions on its own."
  }

  function NoLongerRecorded(): (s: string) ensures s != "" { "the target no longer looks like the recorded element" }

  function RecordedElement(): (s: string) ensures s != "" { "the recorded element" }

  function RenamedElement(): (s: string) ensures s != "" { "a renamed element found by a fallback rung" }

  function OneElement(): (s: string) ensures s != "" { "exactly one element" }

  function NotResolved(): (s: string) { "the target did not resolve to exactly one element in time" }

  function WaitTimedOut(): (s: string) { "the wait did not pass in time" }

  function ActionDidFail(message: string): (s: string) { "the action failed: " + message }

  function NotBroughtBack(description: string): (s: string) {
    description + " The recovery did not bring the flow back."
  }

  function StillNotVerified(message: string): (s: string) { "still does not verify after the hand-back: " + message }

  function Readable(): (s: string) ensures s != "" { "output readable as its type" }

  function NoText(): (s: string) ensures s != "" { "no text" }

  function DoesNotParse(): (s: string) ensures s != "" { "text that does not parse" }

  function SessionTaken(): (s: string) ensures s != "" { "a human took the session away from the run" }

  function HoldsTheSession(): (s: string) ensures s != "" { "automation holding the session for the rest of the run" }

  function NoChannel(message: string): string { message + " This needs a human, but no operator channel is attached." }

  function PausedTooOften(message: string): string {
    message + " The run paused too often, so it stops rather than asking again."
  }

  function HumanWasAsked(message: string): string { message + " A human was asked for." }
}
