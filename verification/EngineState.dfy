/** What a replay keeps while it runs, and what each part of it may change. */
module EngineState {
  import opened Vocab
  import opened Schema
  import opened Result
  import opened Enforce
  import opened Looks
  import opened Stops

  const MAX_HUMAN_PAUSES := 3
  const OUTPUT_TIMEOUT_MS := 2000

  /** A call returns a value, or unwinds: with a stop, a hand-back, lost control, or the hook's own exception. */
  datatype Exit<+T> =
    | Done(value: T) | Stopped(stop: RunStopped) | HandedBack(handback: Handback) | ControlLost | Crashed
  {
    predicate IsFailure() { !Done? }

    function PropagateFailure<U>(): Exit<U>
      requires IsFailure()
    {
      match this
      case Stopped(s) => Stopped(s)
      case HandedBack(h) => HandedBack(h)
      case ControlLost => ControlLost
      case Crashed => Crashed
    }
  }

  datatype Progress = Progress(step: nat, attempts: nat, acted: bool)

  /** A recovery a wait has opened; a wait_retry one has a window, the others have acted. */
  datatype OpenRecovery = OpenRecovery(detector: nat, attempts: nat, windowEnds: Option<int>)

  type Key = (StepId, DetectorId)

  function Used(attempts: map<Key, nat>, k: Key): nat {
    if k in attempts then attempts[k] else 0
  }

  function KeyOf(cap: Capability, p: nat, d: nat): Key
    requires p < |cap.steps| && d < |cap.detectors|
  {
    (cap.steps[p].id, cap.detectors[d].id)
  }

  /** How often one step may start detector d's recovery: a window once, anything else as often as declared. */
  function Limit(d: Detector): nat {
    if !d.outcome.Recoverable? then 0
    else match d.outcome.recovery
      case WaitRetryRecovery(_, _) => 1
      case ClickRecovery(n) => n
      case RunStepsRecovery(_, n) => n
  }

  /** The attempts table counts what was started, and never passes a limit. */
  ghost predicate AttemptsSound(cap: Capability, attempts: map<Key, nat>, started: multiset<Key>) {
    && (forall k :: started[k] == Used(attempts, k))
    && (forall p, d :: 0 <= p < |cap.steps| && 0 <= d < |cap.detectors| ==>
          Used(attempts, KeyOf(cap, p, d)) <= Limit(cap.detectors[d]))
  }

  lemma {:induction false} KeyInjective(cap: Capability, p: nat, d: nat, q: nat, e: nat)
    requires ValidCapability(cap)
    requires p < |cap.steps| && q < |cap.steps| && d < |cap.detectors| && e < |cap.detectors|
    requires KeyOf(cap, p, d) == KeyOf(cap, q, e)
    ensures p == q && d == e
  {
    assert StepIds(cap.steps)[p] == StepIds(cap.steps)[q];
    assert DetectorIds(cap.detectors)[d] == DetectorIds(cap.detectors)[e];
  }

  /** How often the first n steps started the recovery of the detector with this id. */
  ghost function StartsOf(cap: Capability, started: multiset<Key>, id: DetectorId, n: nat): nat
    requires n <= |cap.steps|
  {
    if n == 0 then 0 else StartsOf(cap, started, id, n - 1) + started[(cap.steps[n - 1].id, id)]
  }

  ghost function AllStartsOf(cap: Capability, started: multiset<Key>, id: DetectorId): nat {
    StartsOf(cap, started, id, |cap.steps|)
  }

  /** No recovery clicked more often than it was started. */
  ghost predicate ClicksPaid(cap: Capability, acts: multiset<ActBy>, started: multiset<Key>) {
    forall id :: acts[RecoveryClick(id)] <= AllStartsOf(cap, started, id)
  }

  /** A click of detector d was started and is yet to be made. */
  ghost predicate ClickDue(cap: Capability, acts: multiset<ActBy>, started: multiset<Key>, d: nat)
    requires d < |cap.detectors|
  {
    acts[RecoveryClick(cap.detectors[d].id)] < AllStartsOf(cap, started, cap.detectors[d].id)
  }

  lemma {:induction false} StartsOfMore(
    cap: Capability, started: multiset<Key>, p: nat, detector: DetectorId, id: DetectorId, n: nat)
    requires Distinct(StepIds(cap.steps)) && p < |cap.steps| && n <= |cap.steps|
    ensures StartsOf(cap, started + multiset{(cap.steps[p].id, detector)}, id, n) ==
      StartsOf(cap, started, id, n) + if id == detector && p < n then 1 else 0
  {
    if n > 0 {
      StartsOfMore(cap, started, p, detector, id, n - 1);
      assert StepIds(cap.steps)[n - 1] == StepIds(cap.steps)[p] ==> p == n - 1;
    }
  }

  /** One more start pays for one more click. */
  lemma StartPays(cap: Capability, acts: multiset<ActBy>, started: multiset<Key>, p: nat, d: nat)
    requires ValidCapability(cap) && p < |cap.steps| && d < |cap.detectors| && ClicksPaid(cap, acts, started)
    ensures ClicksPaid(cap, acts, started + multiset{KeyOf(cap, p, d)})
    ensures ClickDue(cap, acts, started + multiset{KeyOf(cap, p, d)}, d)
  {
    var k := KeyOf(cap, p, d);
    StartsOfMore(cap, started, p, k.1, k.1, |cap.steps|);
    assert acts[RecoveryClick(k.1)] <= AllStartsOf(cap, started, k.1);
    forall id ensures acts[RecoveryClick(id)] <= AllStartsOf(cap, started + multiset{k}, id) {
      StartsOfMore(cap, started, p, k.1, id, |cap.steps|);
    }
  }

  // ---- how much recovering is left ---------------------------------------------------------------

  /** The recovery attempts step p still has among the first n detectors. */
  ghost function Remaining(cap: Capability, attempts: map<Key, nat>, p: nat, n: nat): int
    requires p < |cap.steps| && n <= |cap.detectors|
  {
    if n == 0 then 0
    else Remaining(cap, attempts, p, n - 1) + Limit(cap.detectors[n - 1]) - Used(attempts, KeyOf(cap, p, n - 1))
  }

  ghost function RemainingAt(cap: Capability, attempts: map<Key, nat>, p: nat): int
    requires p < |cap.steps|
  {
    Remaining(cap, attempts, p, |cap.detectors|)
  }

  /** The part of the attempts table that belongs to steps from p on. */
  ghost function Rows(cap: Capability, attempts: map<Key, nat>, p: nat): map<(nat, nat), nat> {
    map q: nat, d: nat | p <= q < |cap.steps| && d < |cap.detectors| :: (q, d) := Used(attempts, KeyOf(cap, q, d))
  }

  lemma RowsWeaken(cap: Capability, a: map<Key, nat>, b: map<Key, nat>, p: nat, q: nat)
    requires p <= q && Rows(cap, a, p) == Rows(cap, b, p)
    ensures Rows(cap, a, q) == Rows(cap, b, q)
  {
    forall r: nat, d: nat | q <= r < |cap.steps| && d < |cap.detectors|
      ensures Used(a, KeyOf(cap, r, d)) == Used(b, KeyOf(cap, r, d))
    {
      assert (r, d) in Rows(cap, a, p);
      assert Rows(cap, a, p)[(r, d)] == Rows(cap, b, p)[(r, d)];
    }
  }

  lemma {:induction false} RemainingSame(cap: Capability, a: map<Key, nat>, b: map<Key, nat>, p: nat, n: nat)
    requires p < |cap.steps| && n <= |cap.detectors| && Rows(cap, a, p) == Rows(cap, b, p)
    ensures Remaining(cap, a, p, n) == Remaining(cap, b, p, n)
  {
    if n > 0 {
      RemainingSame(cap, a, b, p, n - 1);
      assert (p, n - 1) in Rows(cap, a, p);
      assert Rows(cap, a, p)[(p, n - 1)] == Rows(cap, b, p)[(p, n - 1)];
    }
  }

  lemma {:induction false} RemainingNonNegative(
    cap: Capability, attempts: map<Key, nat>, started: multiset<Key>, p: nat, n: nat)
    requires p < |cap.steps| && n <= |cap.detectors| && AttemptsSound(cap, attempts, started)
    ensures Remaining(cap, attempts, p, n) >= 0
  {
    if n > 0 {
      RemainingNonNegative(cap, attempts, started, p, n - 1);
      assert Used(attempts, KeyOf(cap, p, n - 1)) <= Limit(cap.detectors[n - 1]);
    }
  }

  /** Step p started detector d's recovery once more, and none of its others. */
  ghost predicate OneMore(cap: Capability, p: nat, d: nat, was: map<Key, nat>, now: map<Key, nat>)
    requires p < |cap.steps|
  {
    forall e :: 0 <= e < |cap.detectors| ==>
      Used(now, KeyOf(cap, p, e)) == Used(was, KeyOf(cap, p, e)) + if e == d then 1 else 0
  }

  /** Counting one attempt of a step changes no other row and no later step. */
  lemma {:induction false} StartIsOneMore(cap: Capability, attempts: map<Key, nat>, p: nat, d: nat)
    requires ValidCapability(cap) && p < |cap.steps| && d < |cap.detectors|
    ensures var k := KeyOf(cap, p, d);
      var after := attempts[k := Used(attempts, k) + 1];
      && OneMore(cap, p, d, attempts, after)
      && Rows(cap, after, p + 1) == Rows(cap, attempts, p + 1)
      && (forall k: Key :: Used(attempts, k) <= Used(after, k))
  {
    var k := KeyOf(cap, p, d);
    var after := attempts[k := Used(attempts, k) + 1];
    forall e | 0 <= e < |cap.detectors|
      ensures Used(after, KeyOf(cap, p, e)) == Used(attempts, KeyOf(cap, p, e)) + if e == d then 1 else 0
    {
      if KeyOf(cap, p, e) == k { KeyInjective(cap, p, d, p, e); }
    }
    forall q: nat, e: nat | p + 1 <= q < |cap.steps| && e < |cap.detectors|
      ensures Used(after, KeyOf(cap, q, e)) == Used(attempts, KeyOf(cap, q, e))
    {
      if KeyOf(cap, q, e) == k { KeyInjective(cap, p, d, q, e); }
    }
  }

  lemma OneMoreKept(cap: Capability, p: nat, d: nat, a: map<Key, nat>, b: map<Key, nat>, c: map<Key, nat>)
    requires p < |cap.steps| && OneMore(cap, p, d, a, b) && Rows(cap, c, p) == Rows(cap, b, p)
    ensures OneMore(cap, p, d, a, c)
  {
    forall e | 0 <= e < |cap.detectors| ensures Used(c, KeyOf(cap, p, e)) == Used(b, KeyOf(cap, p, e)) {
      assert (p, e) in Rows(cap, b, p);
      assert Rows(cap, b, p)[(p, e)] == Rows(cap, c, p)[(p, e)];
    }
  }

  /** Starting a recovery costs its step exactly one attempt. */
  lemma {:induction false} OneMoreCosts(cap: Capability, p: nat, d: nat, was: map<Key, nat>, now: map<Key, nat>, n: nat)
    requires p < |cap.steps| && d < |cap.detectors| && n <= |cap.detectors| && OneMore(cap, p, d, was, now)
    ensures Remaining(cap, now, p, n) == Remaining(cap, was, p, n) - (if d < n then 1 else 0)
  {
    if n > 0 { OneMoreCosts(cap, p, d, was, now, n - 1); }
  }

  lemma StartKeepsSound(cap: Capability, attempts: map<Key, nat>, started: multiset<Key>, p: nat, d: nat)
    requires ValidCapability(cap) && p < |cap.steps| && d < |cap.detectors|
    requires AttemptsSound(cap, attempts, started)
    requires Used(attempts, KeyOf(cap, p, d)) < Limit(cap.detectors[d])
    ensures var k := KeyOf(cap, p, d);
      AttemptsSound(cap, attempts[k := Used(attempts, k) + 1], started + multiset{k})
  {
    var k := KeyOf(cap, p, d);
    var after := attempts[k := Used(attempts, k) + 1];
    forall q, e | 0 <= q < |cap.steps| && 0 <= e < |cap.detectors|
      ensures Used(after, KeyOf(cap, q, e)) <= Limit(cap.detectors[e])
    {
      if KeyOf(cap, q, e) == k { KeyInjective(cap, p, d, q, e); }
    }
  }

  // ---- what was done -----------------------------------------------------------------------------

  /** How often each guarded step's own action reached the application. */
  ghost function GuardedActs(cap: Capability, acts: multiset<ActBy>): map<nat, nat> {
    map q: nat | q < |cap.steps| && Guarded(cap.steps[q]) :: acts[Own(cap.steps[q].id)]
  }

  /** The same, for every guarded step but one. */
  ghost function OtherGuardedActs(cap: Capability, acts: multiset<ActBy>, p: nat): map<nat, nat> {
    map q: nat | q < |cap.steps| && q != p && Guarded(cap.steps[q]) :: acts[Own(cap.steps[q].id)]
  }

  /** The irreversible steps that were ever performed on a target that no longer looked as recorded. */
  ghost function IrreversibleRenamed(cap: Capability, renamed: set<StepId>): set<StepId> {
    set s | s in cap.steps && s.risk == Irreversible && s.id in renamed :: s.id
  }

  /** An act by anybody but a guarded step leaves the counts of guarded steps alone. */
  lemma ActKeepsGuarded(cap: Capability, acts: multiset<ActBy>, why: ActBy)
    requires forall q :: 0 <= q < |cap.steps| && Guarded(cap.steps[q]) ==> why != Own(cap.steps[q].id)
    ensures GuardedActs(cap, acts + multiset{why}) == GuardedActs(cap, acts)
  {
  }

  lemma OwnActKeepsOthers(cap: Capability, acts: multiset<ActBy>, p: nat)
    requires ValidCapability(cap) && p < |cap.steps|
    ensures OtherGuardedActs(cap, acts + multiset{Own(cap.steps[p].id)}, p) == OtherGuardedActs(cap, acts, p)
    ensures !Guarded(cap.steps[p]) ==> GuardedActs(cap, acts + multiset{Own(cap.steps[p].id)}) == GuardedActs(cap, acts)
  {
    forall q: nat | q < |cap.steps| && cap.steps[q].id == cap.steps[p].id ensures q == p {
      assert StepIds(cap.steps)[q] == StepIds(cap.steps)[p];
    }
  }

  /**
   * What one run of step p may add to the acts: at most one own act if the step is guarded, none if it
   * is irreversible and nobody confirmed, and nothing by any other guarded step.
   */
  ghost predicate ActsWithin(cap: Capability, confirm: bool, p: nat, a: multiset<ActBy>, b: multiset<ActBy>)
    requires p < |cap.steps|
  {
    var own := Own(cap.steps[p].id);
    && OtherGuardedActs(cap, b, p) == OtherGuardedActs(cap, a, p)
    && (Guarded(cap.steps[p]) ==> a[own] <= b[own] <= a[own] + 1)
    && (cap.steps[p].risk == Irreversible && !confirm ==> b[own] == a[own])
    && (!Guarded(cap.steps[p]) ==> GuardedActs(cap, b) == GuardedActs(cap, a))
  }

  lemma ActsNone(cap: Capability, confirm: bool, p: nat, a: multiset<ActBy>, b: multiset<ActBy>)
    requires p < |cap.steps| && GuardedActs(cap, a) == GuardedActs(cap, b)
    ensures ActsWithin(cap, confirm, p, a, b)
  {
    GuardedSplit(cap, a, b, p);
  }

  lemma ActsOwn(cap: Capability, confirm: bool, p: nat, a: multiset<ActBy>)
    requires ValidCapability(cap) && p < |cap.steps| && (cap.steps[p].risk == Irreversible ==> confirm)
    ensures ActsWithin(cap, confirm, p, a, a + multiset{Own(cap.steps[p].id)})
  {
    OwnActKeepsOthers(cap, a, p);
  }

  lemma ActsAfter(cap: Capability, confirm: bool, p: nat, a: multiset<ActBy>, b: multiset<ActBy>, c: multiset<ActBy>)
    requires p < |cap.steps| && GuardedActs(cap, a) == GuardedActs(cap, b) && ActsWithin(cap, confirm, p, b, c)
    ensures ActsWithin(cap, confirm, p, a, c)
    ensures !Guarded(cap.steps[p]) ==> GuardedActs(cap, a) == GuardedActs(cap, c)
  {
    GuardedSplit(cap, a, b, p);
  }

  lemma ActsThen(cap: Capability, confirm: bool, p: nat, a: multiset<ActBy>, b: multiset<ActBy>, c: multiset<ActBy>)
    requires p < |cap.steps| && ActsWithin(cap, confirm, p, a, b) && GuardedActs(cap, b) == GuardedActs(cap, c)
    ensures ActsWithin(cap, confirm, p, a, c)
  {
    GuardedSplit(cap, b, c, p);
  }

  lemma GuardedSplit(cap: Capability, a: multiset<ActBy>, b: multiset<ActBy>, p: nat)
    requires p < |cap.steps| && GuardedActs(cap, a) == GuardedActs(cap, b)
    ensures OtherGuardedActs(cap, a, p) == OtherGuardedActs(cap, b, p)
    ensures Guarded(cap.steps[p]) ==> a[Own(cap.steps[p].id)] == b[Own(cap.steps[p].id)]
  {
    forall q: nat | q < |cap.steps| && Guarded(cap.steps[q])
      ensures a[Own(cap.steps[q].id)] == b[Own(cap.steps[q].id)]
    {
      assert q in GuardedActs(cap, a);
      assert GuardedActs(cap, a)[q] == GuardedActs(cap, b)[q];
    }
  }

  // ---- recoveries --------------------------------------------------------------------------------

  predicate Verified(r: RecoveryRecord) {
    r.Automatic? && r.succeeded
  }

  predicate IsHandBack(r: RecoveryRecord) {
    r.Human? && r.outcome.WasHandedBack?
  }

  /** How many recoveries did not verify; how many pauses are recorded; how many ended in a hand-back. */
  ghost function Unverified(rs: seq<RecoveryRecord>): nat {
    if rs == [] then 0 else Unverified(rs[..|rs| - 1]) + if Verified(rs[|rs| - 1]) then 0 else 1
  }

  ghost function Pauses(rs: seq<RecoveryRecord>): nat {
    if rs == [] then 0 else Pauses(rs[..|rs| - 1]) + if rs[|rs| - 1].Human? then 1 else 0
  }

  ghost function HandBacks(rs: seq<RecoveryRecord>): nat {
    if rs == [] then 0 else HandBacks(rs[..|rs| - 1]) + if IsHandBack(rs[|rs| - 1]) then 1 else 0
  }

  lemma CountsAppend(rs: seq<RecoveryRecord>, r: RecoveryRecord)
    ensures Unverified(rs + [r]) == Unverified(rs) + if Verified(r) then 0 else 1
    ensures Pauses(rs + [r]) == Pauses(rs) + if r.Human? then 1 else 0
    ensures HandBacks(rs + [r]) == HandBacks(rs) + if IsHandBack(r) then 1 else 0
  {
    assert (rs + [r])[..|rs|] == rs;
  }

  lemma {:induction false} NoUnverified(rs: seq<RecoveryRecord>)
    ensures Unverified(rs) == 0 <==> forall i :: 0 <= i < |rs| ==> Verified(rs[i])
  {
    if rs != [] {
      var n := |rs| - 1;
      NoUnverified(rs[..n]);
      assert forall i :: 0 <= i < n ==> rs[..n][i] == rs[i];
    }
  }

  lemma {:induction false} SomeHandBack(rs: seq<RecoveryRecord>)
    ensures HandBacks(rs) > 0 <==> exists i :: 0 <= i < |rs| && IsHandBack(rs[i])
  {
    if rs != [] {
      var n := |rs| - 1;
      SomeHandBack(rs[..n]);
      assert forall i :: 0 <= i < n ==> rs[..n][i] == rs[i];
      assert forall i :: 0 <= i < n ==> (IsHandBack(rs[i]) <==> IsHandBack(rs[..n][i]));
    }
  }

  /** If a suffix adds no pause and no failed recovery, it adds nothing unverified. */
  lemma {:induction false} CleanSuffix(rs: seq<RecoveryRecord>, n: nat)
    requires n <= |rs| && Pauses(rs) == Pauses(rs[..n])
    requires forall i :: n <= i < |rs| && rs[i].Automatic? ==> rs[i].succeeded
    ensures Unverified(rs) == Unverified(rs[..n])
  {
    if n == |rs| {
      assert rs[..n] == rs;
    } else {
      var m := |rs| - 1;
      assert rs[..m][..n] == rs[..n];
      PausesGrow(rs[..m], n);
      assert !rs[m].Human?;
      CleanSuffix(rs[..m], n);
    }
  }

  lemma {:induction false} PausesGrow(rs: seq<RecoveryRecord>, n: nat)
    requires n <= |rs|
    ensures Pauses(rs[..n]) <= Pauses(rs)
  {
    if n == |rs| {
      assert rs[..n] == rs;
    } else {
      var m := |rs| - 1;
      assert rs[..m][..n] == rs[..n];
      PausesGrow(rs[..m], n);
    }
  }

  /** Every record names a detector of the capability, or is a well-shaped pause. */
  ghost predicate RecordsSound(cap: Capability, rs: seq<RecoveryRecord>) {
    forall i :: 0 <= i < |rs| ==>
      if rs[i].Automatic? then rs[i].attempts >= 1 && rs[i].detectorId in DetectorIds(cap.detectors)
      else OutcomeShape(rs[i])
  }

  lemma RecordsAppend(cap: Capability, rs: seq<RecoveryRecord>, r: RecoveryRecord)
    requires RecordsSound(cap, rs)
    requires if r.Automatic? then r.attempts >= 1 && r.detectorId in DetectorIds(cap.detectors) else OutcomeShape(r)
    ensures RecordsSound(cap, rs + [r])
  {
  }

  // ---- every recovery that was started is told ---------------------------------------------------

  predicate Tells(r: RecoveryRecord, k: Key) {
    r.Automatic? && r.stepId == k.0 && r.detectorId == k.1
  }

  /** Every recovery ever started is recorded, unless a wait still in progress will record it. */
  ghost predicate Told(started: multiset<Key>, rs: seq<RecoveryRecord>, pending: set<Key>) {
    forall k :: started[k] > 0 ==> k in pending || exists i :: 0 <= i < |rs| && Tells(rs[i], k)
  }

  lemma ToldAppends(started: multiset<Key>, rs: seq<RecoveryRecord>, r: RecoveryRecord, pending: set<Key>)
    requires Told(started, rs, pending)
    ensures Told(started, rs + [r], pending)
  {
    forall k | started[k] > 0 && k !in pending ensures exists i :: 0 <= i < |rs + [r]| && Tells((rs + [r])[i], k) {
      var i :| 0 <= i < |rs| && Tells(rs[i], k);
      assert (rs + [r])[i] == rs[i];
    }
  }

  lemma ToldStarts(started: multiset<Key>, rs: seq<RecoveryRecord>, k: Key, pending: set<Key>)
    requires Told(started, rs, pending) && k in pending
    ensures Told(started + multiset{k}, rs, pending)
  {
  }

  lemma ToldWaits(started: multiset<Key>, rs: seq<RecoveryRecord>, pending: set<Key>, more: set<Key>)
    requires Told(started, rs, pending)
    ensures Told(started, rs, pending + more)
  {
  }

  /** The recoveries of step p. */
  ghost function KeysOf(cap: Capability, p: nat): set<Key>
    requires p < |cap.steps|
  {
    set d | 0 <= d < |cap.detectors| :: KeyOf(cap, p, d)
  }

  /** A wait of step p that opened every recovery it started, and recorded what it opened, leaves none untold. */
  lemma ToldAfterWait(
    cap: Capability, p: nat, begun: set<nat>,
    was: map<Key, nat>, now: map<Key, nat>, startedWas: multiset<Key>, startedNow: multiset<Key>,
    rsWas: seq<RecoveryRecord>, rsNow: seq<RecoveryRecord>, pending: set<Key>)
    requires p < |cap.steps| && AttemptsSound(cap, was, startedWas) && AttemptsSound(cap, now, startedNow)
    requires Told(startedWas, rsWas, pending) && Told(startedNow, rsNow, pending + KeysOf(cap, p)) && rsWas <= rsNow
    requires forall e :: 0 <= e < |cap.detectors| && Used(now, KeyOf(cap, p, e)) > Used(was, KeyOf(cap, p, e)) ==>
      e in begun
    requires forall e :: e in begun && e < |cap.detectors| ==>
      exists i :: 0 <= i < |rsNow| && Tells(rsNow[i], KeyOf(cap, p, e))
    ensures Told(startedNow, rsNow, pending)
  {
    forall k | startedNow[k] > 0 && k !in pending ensures exists i :: 0 <= i < |rsNow| && Tells(rsNow[i], k) {
      if k in KeysOf(cap, p) {
        var e :| 0 <= e < |cap.detectors| && k == KeyOf(cap, p, e);
        if e !in begun {
          assert startedWas[k] > 0;
          var i :| 0 <= i < |rsWas| && Tells(rsWas[i], k);
          assert rsNow[i] == rsWas[i];
        }
      }
    }
  }

  // ---- stops -------------------------------------------------------------------------------------

  function StatusOf(s: StopStatus): Status {
    match s
    case StopBusiness => BusinessAnswer
    case StopHard => HardFailed
    case StopEscalated => Escalated
  }

  /** The parts of a stop that do not depend on its code. */
  ghost predicate StopShaped(cap: Capability, attached: bool, s: RunStopped) {
    && (!s.status.StopBusiness? ==> s.fieldErrors == [])
    && (forall e :: e in s.fieldErrors ==> e.field in cap.inputs)
    && (s.status.StopEscalated? <==> s.interventionPath.Some?)
    && (s.status.StopEscalated? ==> attached)
  }

  ghost predicate CodeFitsStop(cap: Capability, s: RunStopped) {
    !IsPreRunCode(s.code) && CodeFits(StatusOf(s.status), s.code, OutcomeCodes(cap.detectors))
  }

  predicate SaysWhy(s: RunStopped) {
    s.expected != "" && s.observed != ""
  }

  /** A stop the result contract can carry. */
  ghost predicate StopFits(cap: Capability, attached: bool, s: RunStopped) {
    StopShaped(cap, attached, s) && CodeFitsStop(cap, s) && (!s.status.StopBusiness? ==> SaysWhy(s))
  }

  lemma EngineStopFits(cap: Capability, attached: bool, s: RunStopped)
    requires IsEngineCode(s.code) && !IsPreRunCode(s.code) && s.status.StopHard? && SaysWhy(s)
    requires s.fieldErrors == [] && s.interventionPath.None?
    ensures StopFits(cap, attached, s)
  {
  }

  /** A detector's own code fits a stop of its own kind. */
  lemma DetectorCodeFits(cap: Capability, d: nat, s: RunStopped)
    requires ValidCapability(cap) && d < |cap.detectors| && s.code == cap.detectors[d].outcome.code
    requires s.status.StopBusiness? <==> cap.detectors[d].outcome.BusinessOutcome?
    ensures CodeFitsStop(cap, s)
  {
    assert DetectorSound(cap, cap.detectors[d]);
    CodeTableAgrees(cap.detectors, d);
  }

  /** Escalating keeps a stop's code and what it says. */
  lemma EscalatedFits(cap: Capability, attached: bool, s: RunStopped, t: RunStopped)
    requires StopFits(cap, attached, s) && !s.status.StopBusiness?
    requires t.code == s.code && t.expected == s.expected && t.observed == s.observed
    requires StopShaped(cap, attached, t) && !t.status.StopBusiness?
    ensures StopFits(cap, attached, t)
  {
  }

  /** The stops that report something refused. */
  predicate ReportsRefusal(s: RunStopped) {
    s.status.StopHard? && (s.code.PolicyBlocked? || s.code.UnexpectedDialog?)
  }

  /** The stops that report an action the gate refused. */
  predicate ReportsDenial(s: RunStopped) {
    !s.status.StopBusiness? && (s.code.PolicyBlocked? || s.code.ConfirmationRequired?)
  }

  /** Some recovery of the capability acts: by a click or by re-running steps. */
  ghost predicate Recovers(cap: Capability) {
    exists d :: 0 <= d < |cap.detectors| && ActsToRecover(cap.detectors[d])
  }

  predicate ActsToRecover(d: Detector) {
    d.outcome.Recoverable? && !d.outcome.recovery.WaitRetryRecovery?
  }

  /** Some detector ends the run with a business answer. */
  ghost predicate AnswersBusiness(cap: Capability) {
    exists d :: 0 <= d < |cap.detectors| && cap.detectors[d].outcome.BusinessOutcome?
  }

  /** The operator was asked to do an irreversible step, which is not done again. */
  predicate ForIrreversible(h: Handback) {
    h.intervention.Human? && h.intervention.reason.IrreversibleNeedsHuman?
  }

  ghost predicate GoodHandback(h: Handback) {
    && IsHandBack(h.intervention)
    && OutcomeShape(Confirmed(h, true)) && OutcomeShape(Confirmed(h, false))
  }

  // ---- one step of the engine, seen from outside -------------------------------------------------

  /** Everything the engine's contracts speak of. */
  datatype View = View(
    records: seq<StepRecord>, current: Option<Progress>, reached: Option<StepId>, reverifying: bool,
    recoveries: seq<RecoveryRecord>, pauses: nat, attempts: map<Key, nat>,
    clock: nat, drift: nat, acts: multiset<ActBy>, renamed: set<StepId>, refused: bool, denied: bool,
    held: multiset<Query>, log: seq<Happening>, since: nat, hooks: nat, ordinary: nat, pending: set<Key>,
    restarts: Restarts)

  /** How often each step's wait started over after a recovery, and when one last did. */
  datatype Restarts = Restarts(of: multiset<Key>, at: int)

  /** No wait is restarted that no attempt was counted for. */
  ghost predicate Repays(a: View, b: View) {
    && (forall k: Key ::
          && a.restarts.of[k] <= b.restarts.of[k]
          && b.restarts.of[k] - a.restarts.of[k] <= Used(b.attempts, k) - Used(a.attempts, k))
    && (b.restarts.of == a.restarts.of ==> b.restarts.at == a.restarts.at)
  }

  lemma RepaysThen(a: View, b: View, c: View)
    requires Repays(a, b) && Repays(b, c)
    ensures Repays(a, c)
  {
    if c.restarts.of == a.restarts.of {
      forall k: Key ensures b.restarts.of[k] == a.restarts.of[k] { assert c.restarts.of[k] == a.restarts.of[k]; }
      assert b.restarts.of == a.restarts.of;
    }
  }

  /** Without an attempt no wait is restarted. */
  lemma RepaysNone(a: View, b: View)
    requires Repays(a, b) && b.attempts == a.attempts
    ensures b.restarts == a.restarts
  {
    forall k: Key ensures b.restarts.of[k] == a.restarts.of[k] {}
    assert b.restarts.of == a.restarts.of;
  }

  /**
   * What does not change during a call: whether an operator channel watches the run, who decides irreversible
   * actions, and whether the call belongs to a wait, whose re-runs report no hard failure to act of their own.
   */
  datatype Env = Env(attached: bool, escalates: bool, waiting: bool)

  /** A step's own action failed, and nobody was asked about it. */
  predicate FailedToAct(s: RunStopped) {
    s.status.StopHard? && s.code.ActionFailed?
  }

  /** What running at step p may change besides the step trace: later steps keep their attempts. */
  ghost predicate Carries(cap: Capability, a: View, b: View, p: nat) {
    && b.reverifying == a.reverifying && b.since == a.since
    && a.clock <= b.clock && a.drift <= b.drift
    && a.acts <= b.acts && a.held <= b.held && a.log <= b.log
    && a.recoveries <= b.recoveries && Repays(a, b)
    && HandBacks(b.recoveries) == HandBacks(a.recoveries)
    && a.pauses <= b.pauses
    && (a.reverifying ==> b.ordinary == a.ordinary)
    && Rows(cap, b.attempts, p + 1) == Rows(cap, a.attempts, p + 1)
    && IrreversibleRenamed(cap, b.renamed) == IrreversibleRenamed(cap, a.renamed)
  }

  ghost predicate TraceKept(a: View, b: View) {
    b.records == a.records && b.current == a.current && b.reached == a.reached
  }

  /** Work inside a step: the step trace and the guarded acts are untouched. */
  ghost predicate Inside(cap: Capability, a: View, b: View, p: nat) {
    Carries(cap, a, b, p) && TraceKept(a, b) && GuardedActs(cap, b.acts) == GuardedActs(cap, a.acts)
  }

  /** How a call may end, given where it started. */
  ghost predicate Ends<T>(cap: Capability, env: Env, a: View, b: View, e: Exit<T>) {
    match e
    case Done(_) =>
      && b.refused == a.refused && b.denied == a.denied && b.pending == a.pending
      && Unverified(b.recoveries) == Unverified(a.recoveries) && Pauses(b.recoveries) == Pauses(a.recoveries)
    case Stopped(s) =>
      && StopFits(cap, env.attached, s) && b.pending == a.pending
      && Because(cap, b.log, b.since, s.code) && (env.waiting ==> !FailedToAct(s))
      && (b.refused == a.refused || ReportsRefusal(s))
      && (b.denied == a.denied || ReportsDenial(s))
      && (s.status.StopHard? ==> Pauses(b.recoveries) == Pauses(a.recoveries))
    case HandedBack(h) =>
      && env.attached && a.pauses < b.pauses && b.refused == a.refused && b.pending == a.pending && GoodHandback(h)
      && (if ForIrreversible(h) then env.escalates && (a.reverifying ==> Recovers(cap))
          else !a.reverifying && b.denied == a.denied)
    case ControlLost => env.attached
    case Crashed => env.attached
  }

  /** A call that makes the stop its caller raises. */
  ghost predicate Raises(cap: Capability, env: Env, a: View, b: View, e: Exit<RunStopped>) {
    && !e.Stopped?
    && b.denied == a.denied
    && (e.HandedBack? ==> !ForIrreversible(e.handback))
    && if e.Done? then b.refused == a.refused && Ends<()>(cap, env, a, b, Stopped(e.value))
       else Ends(cap, env, a, b, e)
  }

  /** Work inside a step that has come to no end yet. */
  ghost predicate Quiet(cap: Capability, env: Env, a: View, b: View, p: nat) {
    Inside(cap, a, b, p) && Ends<()>(cap, env, a, b, Done(()))
  }

  lemma QuietSelf(cap: Capability, env: Env, a: View, p: nat)
    ensures Quiet(cap, env, a, a, p)
  {
  }

  lemma QuietMonotone(cap: Capability, env: Env, a: View, b: View, p: nat)
    requires Quiet(cap, env, a, b, p)
    ensures a.clock <= b.clock && a.drift <= b.drift
    ensures TraceKept(a, b) && b.reverifying == a.reverifying && a.recoveries <= b.recoveries
    ensures a.held <= b.held && a.acts <= b.acts && a.log <= b.log && b.pending == a.pending
  {
    hide Repays;
  }

  /** Only time passed, and questions were asked. */
  ghost predicate OnlyTime(a: View, b: View) {
    && b == a.(clock := b.clock, drift := b.drift, held := b.held, log := b.log)
    && a.clock <= b.clock && a.drift <= b.drift && a.held <= b.held && a.log <= b.log
  }

  lemma Idle(cap: Capability, env: Env, a: View, b: View, c: View, p: nat)
    requires Quiet(cap, env, a, b, p) && OnlyTime(b, c)
    ensures Quiet(cap, env, a, c, p)
  {
    RepaysThen(a, b, c);
  }

  /** A call that came back: the work so far and the call make one piece of quiet work. */
  lemma Goes<T>(cap: Capability, env: Env, a: View, b: View, c: View, p: nat, e: Exit<T>)
    requires Quiet(cap, env, a, b, p) && Inside(cap, b, c, p) && Ends(cap, env, b, c, e)
    requires e.Done?
    ensures Quiet(cap, env, a, c, p)
  {
    RepaysThen(a, b, c);
    hide Repays, Rows, GuardedActs, IrreversibleRenamed, HandBacks, Unverified, Pauses, StopFits, GoodHandback;
    hide Because;
  }

  /** A call that unwound: it unwinds its caller in the same way. */
  lemma Fails<T, U>(cap: Capability, env: Env, a: View, b: View, c: View, p: nat, e: Exit<T>)
    requires Quiet(cap, env, a, b, p) && Inside(cap, b, c, p) && Ends(cap, env, b, c, e)
    requires e.IsFailure()
    ensures Inside(cap, a, c, p) && Ends<U>(cap, env, a, c, e.PropagateFailure())
  {
    RepaysThen(a, b, c);
    hide Repays, Rows, GuardedActs, IrreversibleRenamed, HandBacks, Unverified, Pauses, StopFits, GoodHandback;
    hide Because;
  }

  /** Quiet work up to b, where b is only later than a quiet point, then a call. */
  lemma Chains<T>(cap: Capability, env: Env, a: View, b: View, c: View, p: nat, e: Exit<T>)
    requires Quiet(cap, env, a, b, p) && Inside(cap, b, c, p) && Ends(cap, env, b, c, e)
    ensures Inside(cap, a, c, p) && Ends(cap, env, a, c, e)
  {
    RepaysThen(a, b, c);
    hide Repays, Rows, GuardedActs, IrreversibleRenamed, HandBacks, Unverified, Pauses, StopFits, GoodHandback;
    hide Because;
  }

  function Thrown<U>(e: Exit<RunStopped>): Exit<U>
    requires !e.Stopped?
  {
    if e.Done? then Stopped(e.value) else e.PropagateFailure()
  }

  /** A call that made the stop its caller raises. */
  lemma Throws<U>(cap: Capability, env: Env, a: View, b: View, c: View, p: nat, e: Exit<RunStopped>)
    requires Quiet(cap, env, a, b, p) && Inside(cap, b, c, p)
    requires if e.ControlLost? then env.attached else Raises(cap, env, b, c, e)
    ensures Inside(cap, a, c, p) && !e.Stopped? && Ends<U>(cap, env, a, c, Thrown(e))
  {
    RepaysThen(a, b, c);
    hide Repays, Rows, GuardedActs, IrreversibleRenamed, HandBacks, Unverified, Pauses, StopFits, GoodHandback;
    hide Because;
  }

  lemma RaisesAfter(cap: Capability, env: Env, a: View, b: View, c: View, p: nat, e: Exit<RunStopped>)
    requires Quiet(cap, env, a, b, p) && Inside(cap, b, c, p) && Raises(cap, env, b, c, e)
    ensures Inside(cap, a, c, p) && Raises(cap, env, a, c, e)
  {
    RepaysThen(a, b, c);
    hide Repays, Rows, GuardedActs, IrreversibleRenamed, HandBacks, Unverified, Pauses, StopFits, GoodHandback;
    hide Because;
  }

  lemma InsideThen(cap: Capability, a: View, b: View, c: View, p: nat)
    requires Inside(cap, a, b, p) && Inside(cap, b, c, p)
    ensures Inside(cap, a, c, p)
    ensures a.pauses <= b.pauses <= c.pauses && c.reverifying == b.reverifying == a.reverifying
  {
    hide Repays, Rows, GuardedActs, IrreversibleRenamed, HandBacks;
    RepaysThen(a, b, c);
  }

  /** A re-run step's failure was taken for "not recovered", and the recovery's own stop replaces it. */
  lemma ThrowsAfterFailure<U>(
    cap: Capability, env: Env, a: View, b: View, c: View, d: View, p: nat, s: RunStopped, e: Exit<RunStopped>)
    requires Quiet(cap, env, a, b, p) && Inside(cap, b, c, p) && Inside(cap, c, d, p)
    requires Ends<()>(cap, env.(waiting := false), b, c, Stopped(s))
    requires s.status.StopHard? && !ReportsRefusal(s) && !ReportsDenial(s)
    requires if e.ControlLost? then env.attached else Raises(cap, env, c, d, e)
    ensures Inside(cap, a, d, p) && !e.Stopped? && Ends<U>(cap, env, a, d, Thrown(e))
  {
    hide Inside, GoodHandback, HandBacks, Unverified, Pauses, StopFits, Because;
    InsideThen(cap, a, b, c, p);
    InsideThen(cap, a, c, d, p);
  }

  /** Work at an earlier step, seen from a later one. */
  lemma InsideLater(cap: Capability, a: View, b: View, q: nat, p: nat)
    requires Carries(cap, a, b, q) && TraceKept(a, b) && GuardedActs(cap, b.acts) == GuardedActs(cap, a.acts) && q < p
    ensures Inside(cap, a, b, p) && Rows(cap, b.attempts, p) == Rows(cap, a.attempts, p)
  {
    hide Repays, Rows, GuardedActs, IrreversibleRenamed, HandBacks;
    RowsWeaken(cap, b.attempts, a.attempts, q + 1, p);
    RowsWeaken(cap, b.attempts, a.attempts, q + 1, p + 1);
  }

  lemma InsideParts(cap: Capability, a: View, b: View, p: nat)
    requires Inside(cap, a, b, p)
    ensures Carries(cap, a, b, p) && TraceKept(a, b) && GuardedActs(cap, b.acts) == GuardedActs(cap, a.acts)
  {
    hide Repays;
  }

  lemma InsideGrows(cap: Capability, a: View, b: View, p: nat)
    requires Inside(cap, a, b, p)
    ensures a.recoveries <= b.recoveries
  {
    hide Repays;
  }

  lemma PendingKept<T>(cap: Capability, env: Env, a: View, b: View, e: Exit<T>)
    requires Ends(cap, env, a, b, e) && (e.Done? || e.Stopped? || e.HandedBack?)
    ensures b.pending == a.pending
  {
  }

  /**
   * A wait, seen from outside: while it ran its step's recoveries were pending, and when it came to an
   * end of its own it recorded what it had opened.
   */
  lemma WaitEnds<T>(cap: Capability, env: Env, a: View, b: View, c: View, d: View, p: nat, e: Exit<T>)
    requires b == a.(pending := b.pending) && Inside(cap, b, c, p) && Ends(cap, env, b, c, e)
    requires if e.Done? || e.Stopped? || e.HandedBack? then
      && d == c.(recoveries := d.recoveries, pending := a.pending) && c.recoveries <= d.recoveries
      && HandBacks(d.recoveries) == HandBacks(c.recoveries) && Pauses(d.recoveries) == Pauses(c.recoveries)
      && (e.Done? ==> Unverified(d.recoveries) == Unverified(c.recoveries))
      else d == c
    ensures Inside(cap, a, d, p) && Ends(cap, env, a, d, e)
  {
    hide Rows, GuardedActs, IrreversibleRenamed, HandBacks, Unverified, Pauses, StopFits, GoodHandback, Because;
  }

  /** A hard stop that reports nothing refused and left no failed recovery may be passed over. */
  lemma Skips<T>(cap: Capability, env: Env, a: View, b: View, p: nat, s: RunStopped, value: T)
    requires Inside(cap, a, b, p) && Ends<T>(cap, env, a, b, Stopped(s))
    requires s.status.StopHard? && !ReportsRefusal(s) && !ReportsDenial(s)
    requires forall i :: |a.recoveries| <= i < |b.recoveries| && b.recoveries[i].Automatic? ==>
      b.recoveries[i].succeeded
    ensures Ends(cap, env, a, b, Done(value))
  {
    assert b.recoveries[..|a.recoveries|] == a.recoveries;
    CleanSuffix(b.recoveries, |a.recoveries|);
  }

  /** A call within a step: how it ended, and that it slept no more than this. */
  ghost predicate Spends<T>(cap: Capability, env: Env, cost: int, a: View, b: View, p: nat, e: Exit<T>) {
    Inside(cap, a, b, p) && Ends(cap, env, a, b, e) && Asleep(b) - Asleep(a) <= cost
  }

  /** A call that came back, and then another. */
  lemma SpendsThen<T, U>(
    cap: Capability, env: Env, cost: int, more: int, a: View, b: View, c: View, p: nat, e: Exit<T>, f: Exit<U>)
    requires Spends(cap, env, cost, a, b, p, e) && e.Done? && Spends(cap, env, more, b, c, p, f)
    ensures Spends(cap, env, cost + more, a, c, p, f) && a.log <= b.log <= c.log && a.since == b.since == c.since
    ensures a.held <= b.held <= c.held && a.acts <= b.acts <= c.acts && c.reverifying == b.reverifying == a.reverifying
    ensures a.recoveries <= b.recoveries <= c.recoveries
  {
    RepaysThen(a, b, c);
    hide Repays, Rows, GuardedActs, IrreversibleRenamed, HandBacks, Unverified, Pauses, StopFits, GoodHandback;
    hide Because;
  }

  /** The same call, for a caller that makes something else of its value or unwinds with it. */
  lemma SpendsAs<T, U>(cap: Capability, env: Env, cost: int, a: View, b: View, p: nat, e: Exit<T>, f: Exit<U>)
    requires Spends(cap, env, cost, a, b, p, e) && if e.Done? then f.Done? else f == e.PropagateFailure()
    ensures Spends(cap, env, cost, a, b, p, f) && a.log <= b.log && a.since == b.since && a.recoveries <= b.recoveries
    ensures a.held <= b.held && a.acts <= b.acts && b.reverifying == a.reverifying
  {
    hide Repays, Rows, GuardedActs, IrreversibleRenamed, HandBacks, Unverified, Pauses, StopFits, GoodHandback;
    hide Because;
  }

  /** A question to the surface. */
  lemma AskingSpends<T>(cap: Capability, env: Env, a: View, b: View, p: nat, e: Exit<T>)
    requires OnlyTime(a, b) && Asleep(b) == Asleep(a) && (e.Done? || (e.ControlLost? && env.attached))
    ensures Spends(cap, env, 0, a, b, p, e)
  {
  }

  /** A stop raised on the spot. */
  lemma StopSpends<T>(cap: Capability, env: Env, a: View, p: nat, s: RunStopped)
    requires StopFits(cap, env.attached, s) && Because(cap, a.log, a.since, s.code)
    requires env.waiting ==> !FailedToAct(s)
    ensures Spends<T>(cap, env, 0, a, a, p, Stopped(s))
  {
  }

  /** A stop that the call made for its caller to raise. */
  lemma RaisingSpends<T>(cap: Capability, env: Env, a: View, b: View, p: nat, e: Exit<RunStopped>)
    requires Inside(cap, a, b, p) && Asleep(b) == Asleep(a)
    requires if e.ControlLost? then env.attached else Raises(cap, env, a, b, e)
    ensures !e.Stopped? && Spends<T>(cap, env, 0, a, b, p, Thrown(e))
  {
    hide Repays, Rows, GuardedActs, IrreversibleRenamed, HandBacks, Unverified, Pauses, StopFits, GoodHandback;
    hide Because, Inside;
  }

  /** Work of a step that has come to no end yet and performed no guarded act. */
  ghost predicate Ready(cap: Capability, env: Env, a: View, b: View, p: nat) {
    Carries(cap, a, b, p) && Ends<()>(cap, env, a, b, Done(())) && GuardedActs(cap, b.acts) == GuardedActs(cap, a.acts)
  }

  /** Work of a step that came to an end, with no more acts than one run of it may perform. */
  ghost predicate Works<T>(cap: Capability, env: Env, confirm: bool, a: View, b: View, p: nat, e: Exit<T>)
    requires p < |cap.steps|
  {
    Carries(cap, a, b, p) && Ends(cap, env, a, b, e) && ActsWithin(cap, confirm, p, a.acts, b.acts)
  }

  lemma ReadySelf(cap: Capability, env: Env, a: View, b: View, p: nat)
    requires b == a.(records := b.records, current := b.current, reached := b.reached)
    ensures Ready(cap, env, a, b, p)
  {
  }

  lemma ReadyInside<T>(cap: Capability, env: Env, a: View, b: View, p: nat, e: Exit<T>)
    requires Inside(cap, a, b, p) && Ends(cap, env, a, b, e) && e.Done?
    ensures Ready(cap, env, a, b, p)
  {
    hide Repays, Rows, GuardedActs, IrreversibleRenamed, HandBacks, Unverified, Pauses;
  }

  lemma ReadyGrows(cap: Capability, env: Env, a: View, b: View, p: nat)
    requires Ready(cap, env, a, b, p)
    ensures a.clock <= b.clock && a.drift <= b.drift && a.acts <= b.acts && a.log <= b.log
  {
    hide Repays;
  }

  lemma ReadyThen<T>(cap: Capability, env: Env, confirm: bool, a: View, b: View, c: View, p: nat, e: Exit<T>)
    requires p < |cap.steps| && Ready(cap, env, a, b, p) && Works(cap, env, confirm, b, c, p, e)
    ensures Works(cap, env, confirm, a, c, p, e)
    ensures e.Done? && !Guarded(cap.steps[p]) ==> Ready(cap, env, a, c, p)
  {
    RepaysThen(a, b, c);
    hide Repays, Rows, GuardedActs, IrreversibleRenamed, HandBacks, Unverified, Pauses, StopFits, GoodHandback;
    hide Because, ActsWithin;
    ActsAfter(cap, confirm, p, a.acts, b.acts, c.acts);
  }

  lemma InsideWorks<T>(cap: Capability, env: Env, confirm: bool, a: View, b: View, p: nat, e: Exit<T>)
    requires p < |cap.steps| && Inside(cap, a, b, p) && Ends(cap, env, a, b, e)
    ensures Works(cap, env, confirm, a, b, p, e)
  {
    hide Repays, ActsWithin, Ends;
    ActsNone(cap, confirm, p, a.acts, b.acts);
  }

  /** A step's work went on with something that performs no guarded act. */
  lemma WorksThen<T, U>(
    cap: Capability, env: Env, confirm: bool, a: View, b: View, c: View, p: nat, e: Exit<T>, f: Exit<U>)
    requires p < |cap.steps| && Works(cap, env, confirm, a, b, p, e) && e.Done?
    requires Inside(cap, b, c, p) && Ends(cap, env, b, c, f)
    ensures Works(cap, env, confirm, a, c, p, f)
  {
    RepaysThen(a, b, c);
    hide Repays, Rows, GuardedActs, IrreversibleRenamed, HandBacks, Unverified, Pauses, StopFits, GoodHandback;
    hide Because, ActsWithin;
    ActsThen(cap, confirm, p, a.acts, b.acts, c.acts);
  }

  lemma WorksThrow<T, U>(
    cap: Capability, env: Env, confirm: bool, a: View, b: View, c: View, p: nat, e: Exit<T>, f: Exit<RunStopped>)
    requires p < |cap.steps| && Works(cap, env, confirm, a, b, p, e) && e.Done?
    requires Inside(cap, b, c, p) && Raises(cap, env, b, c, f)
    ensures !f.Stopped? && Works<U>(cap, env, confirm, a, c, p, Thrown(f))
  {
    RepaysThen(a, b, c);
    hide Repays, Rows, GuardedActs, IrreversibleRenamed, HandBacks, Unverified, Pauses, StopFits, GoodHandback;
    hide Because, ActsWithin;
    ActsThen(cap, confirm, p, a.acts, b.acts, c.acts);
  }

  /** A pause, and what the engine notes about its steps, belong to the step's work. */
  lemma WorksOn<T>(cap: Capability, env: Env, confirm: bool, a: View, b: View, c: View, p: nat, e: Exit<T>)
    requires p < |cap.steps| && Works(cap, env, confirm, a, b, p, e)
    requires OnlyTime(b.(records := c.records, current := c.current, reached := c.reached), c) && c.log == b.log
    ensures Works(cap, env, confirm, a, c, p, e)
  {
    RepaysThen(a, b, c);
    hide Rows, IrreversibleRenamed, HandBacks, Unverified, Pauses, StopFits, GoodHandback, Because, ActsWithin;
  }

  /** The same work, for a caller that makes something else of its value or unwinds with it. */
  lemma WorksAs<T, U>(cap: Capability, env: Env, confirm: bool, a: View, b: View, p: nat, e: Exit<T>, f: Exit<U>)
    requires p < |cap.steps| && Works(cap, env, confirm, a, b, p, e)
    requires if e.Done? then f.Done? else f == e.PropagateFailure()
    ensures Works(cap, env, confirm, a, b, p, f)
  {
    hide Carries, HandBacks, Unverified, Pauses, StopFits, GoodHandback, Because, ActsWithin;
  }

  lemma WorksOutside<T>(cap: Capability, env: Env, confirm: bool, a: View, b: View, p: nat, e: Exit<T>)
    requires p < |cap.steps| && Works(cap, env, confirm, a, b, p, e)
    ensures Works(cap, env.(waiting := false), confirm, a, b, p, e)
  {
    hide Carries, Ends, ActsWithin;
    EndsOutside(cap, env, a, b, e);
  }

  lemma WorksParts<T>(cap: Capability, env: Env, confirm: bool, a: View, b: View, p: nat, e: Exit<T>)
    requires p < |cap.steps| && Works(cap, env, confirm, a, b, p, e)
    ensures Carries(cap, a, b, p) && Ends(cap, env, a, b, e) && ActsWithin(cap, confirm, p, a.acts, b.acts)
    ensures a.clock <= b.clock && a.drift <= b.drift && a.acts <= b.acts && a.held <= b.held && a.log <= b.log
    ensures b.reverifying == a.reverifying && b.since == a.since
  {
    hide Repays;
  }

  lemma LosesControl<U>(cap: Capability, env: Env, a: View, b: View, c: View, p: nat)
    requires Quiet(cap, env, a, b, p) && OnlyTime(b, c) && env.attached
    ensures Inside(cap, a, c, p) && Ends<U>(cap, env, a, c, ControlLost)
  {
    RepaysThen(a, b, c);
  }

  lemma Finishes<T>(cap: Capability, env: Env, a: View, b: View, p: nat, value: T)
    requires Quiet(cap, env, a, b, p)
    ensures Inside(cap, a, b, p) && Ends(cap, env, a, b, Done(value))
  {
    hide Repays;
  }

  /** Starting a recovery of step p changes only the table's row of that step. */
  lemma Attempts(cap: Capability, env: Env, a: View, b: View, c: View, p: nat)
    requires Quiet(cap, env, a, b, p)
    requires c == b.(attempts := c.attempts) && Rows(cap, c.attempts, p + 1) == Rows(cap, b.attempts, p + 1)
    requires forall k: Key :: Used(b.attempts, k) <= Used(c.attempts, k)
    ensures Quiet(cap, env, a, c, p)
  {
    RepaysThen(a, b, c);
  }

  /** How a call in a wait may end, a call of a step may end too. */
  lemma EndsOutside<T>(cap: Capability, env: Env, a: View, b: View, e: Exit<T>)
    requires Ends(cap, env, a, b, e)
    ensures Ends(cap, env.(waiting := false), a, b, e)
  {
    hide HandBacks, Unverified, Pauses, StopFits, GoodHandback, Because;
  }

  /** A step's call that did not end in a hard failure to act may end a wait. */
  lemma EndsInWait<T>(cap: Capability, env: Env, a: View, b: View, e: Exit<T>)
    requires Ends(cap, env.(waiting := false), a, b, e) && (e.Stopped? ==> !FailedToAct(e.stop))
    ensures Ends(cap, env, a, b, e)
  {
    hide HandBacks, Unverified, Pauses, StopFits, GoodHandback, Because;
  }

  lemma InsideMonotone(cap: Capability, a: View, b: View, p: nat)
    requires Inside(cap, a, b, p)
    ensures a.clock <= b.clock && a.drift <= b.drift && a.acts <= b.acts && a.held <= b.held && a.log <= b.log
    ensures b.reverifying == a.reverifying && b.since == a.since
  {
    hide Repays;
  }

  // ---- the time a wait sleeps --------------------------------------------------------------------

  /** All the sleep requested so far. */
  ghost function Asleep(v: View): int {
    v.clock - v.drift
  }

  /** What re-running the first n of ids may sleep on behalf of step p: each of them is a step before p. */
  ghost function RerunCost(cap: Capability, p: nat, ids: seq<StepId>, n: nat): nat
    requires p < |cap.steps| && n <= |ids|
    decreases p, 0, n
  {
    if n == 0 then 0
    else if HasStep(cap.steps, ids[n - 1]) && Position(cap.steps, ids[n - 1]) < p then
      RerunCost(cap, p, ids, n - 1) + StepCost(cap, Position(cap.steps, ids[n - 1]))
    else RerunCost(cap, p, ids, n - 1)
  }

  /** What acting on detector d for step p may itself sleep. */
  ghost function ActingCost(cap: Capability, p: nat, d: nat): nat
    requires p < |cap.steps| && d < |cap.detectors|
    decreases p, 1
  {
    var o := cap.detectors[d].outcome;
    if o.Recoverable? && o.recovery.RunStepsRecovery? then
      RerunCost(cap, p, o.recovery.stepIds, |o.recovery.stepIds|)
    else 0
  }

  /** What one more recovery of detector d may add to the sleep of a wait: its window, or the timeout anew. */
  ghost function RecoveryCost(cap: Capability, p: nat, d: nat, timeoutMs: nat, paced: bool): nat
    requires p < |cap.steps| && d < |cap.detectors|
    decreases p, 2
  {
    var o := cap.detectors[d].outcome;
    ActingCost(cap, p, d)
    + if !o.Recoverable? || !paced then 0
      else if o.recovery.WaitRetryRecovery? then o.recovery.maxTotalMs else timeoutMs
  }

  /** The most a wait of step p may sleep, whatever it recovers from: its first n detectors, up to their limits. */
  ghost function WaitCost(cap: Capability, p: nat, timeoutMs: nat, n: nat): nat
    requires p < |cap.steps| && n <= |cap.detectors|
    decreases p, 3, n
  {
    if n == 0 then timeoutMs
    else WaitCost(cap, p, timeoutMs, n - 1) + Limit(cap.detectors[n - 1]) * RecoveryCost(cap, p, n - 1, timeoutMs, true)
  }

  ghost function WaitMost(cap: Capability, p: nat, timeoutMs: nat): nat
    requires p < |cap.steps|
    decreases p, 4
  {
    WaitCost(cap, p, timeoutMs, |cap.detectors|)
  }

  /** The most one run of a step may sleep: retrying its action in time, resolving its target, and its wait. */
  ghost function StepCost(cap: Capability, p: nat): nat
    requires p < |cap.steps|
    decreases p, 5
  {
    var t := cap.steps[p].waitFor.timeoutMs;
    t + POLL_MS + 2 * WaitMost(cap, p, t)
  }

  ghost function StepsCost(cap: Capability, n: nat): nat
    requires n <= |cap.steps|
  {
    if n == 0 then 0 else StepsCost(cap, n - 1) + StepCost(cap, n - 1)
  }

  /** The most it may sleep to look at any one of the first n steps again. */
  ghost function LooksCost(cap: Capability, n: nat): nat
    requires n <= |cap.steps|
  {
    if n == 0 then 0 else LooksCost(cap, n - 1) + WaitMost(cap, n - 1, cap.steps[n - 1].waitFor.timeoutMs)
  }

  ghost function LookAgainCost(cap: Capability): nat {
    LooksCost(cap, |cap.steps|)
  }

  /** The most the success check and the outputs may sleep at step p. */
  ghost function FinishCost(cap: Capability, p: nat): nat
    requires p < |cap.steps|
  {
    WaitMost(cap, p, cap.steps[p].waitFor.timeoutMs) + |cap.outputs| * WaitMost(cap, p, OUTPUT_TIMEOUT_MS)
  }

  /** The most a whole run may sleep: every step, and at every hand-back one more look and one more finish. */
  ghost function RunCost(cap: Capability, p: nat): nat
    requires p < |cap.steps|
  {
    StepsCost(cap, |cap.steps|) + FinishCost(cap, p) + MAX_HUMAN_PAUSES * (LookAgainCost(cap) + FinishCost(cap, p))
  }

  /** Sleep that n looks pay for. */
  ghost predicate LooksPay(cap: Capability, slept: int, n: int) {
    slept <= n * LookAgainCost(cap)
  }

  /** Sleep that n rounds of looking again and finishing pay for. */
  ghost predicate RoundsPay(cap: Capability, p: nat, slept: int, n: int)
    requires p < |cap.steps|
  {
    slept <= n * (LookAgainCost(cap) + FinishCost(cap, p))
  }

  /** What a flow with n pauses may sleep. */
  ghost predicate FlowPays(cap: Capability, p: nat, slept: int, n: int)
    requires p < |cap.steps|
  {
    RoundsPay(cap, p, slept - StepsCost(cap, |cap.steps|) - FinishCost(cap, p), n)
  }

  lemma LooksPayMore(cap: Capability, s: int, t: int, n: int, m: int)
    requires LooksPay(cap, s, n) && LooksPay(cap, t, m)
    ensures LooksPay(cap, s + t, n + m)
  {
    Apart(n, m, LookAgainCost(cap));
  }

  lemma LooksPayLess(cap: Capability, s: int, t: int, n: int, m: int)
    requires LooksPay(cap, s, n) && t <= s && 0 <= n <= m
    ensures LooksPay(cap, t, m)
  {
    hide LookAgainCost;
    TimesMonotone(n, m, LookAgainCost(cap));
  }

  /** A look at one step is paid for by one look. */
  lemma OneLookPays(cap: Capability, p: nat, slept: int)
    requires p < |cap.steps| && slept <= WaitMost(cap, p, cap.steps[p].waitFor.timeoutMs)
    ensures LooksPay(cap, slept, 1)
  {
    hide WaitMost;
    OneLookCost(cap, p, |cap.steps|);
  }

  lemma LooksPayRounds(cap: Capability, p: nat, s: int, n: nat)
    requires p < |cap.steps| && LooksPay(cap, s, n)
    ensures RoundsPay(cap, p, s, n)
  {
    hide LookAgainCost, FinishCost;
    MoreTimes(n, LookAgainCost(cap), LookAgainCost(cap) + FinishCost(cap, p));
  }

  /**
   * The rounds before, the finish a hand-back cut off, and the looks that followed it: the pause it took
   * pays for the finish and for one look more than there were pauses since.
   */
  lemma RoundPays(cap: Capability, p: nat, s: int, finish: int, looks: int, n: nat, m: nat, l: nat)
    requires p < |cap.steps| && RoundsPay(cap, p, s, n) && finish <= FinishCost(cap, p) && LooksPay(cap, looks, l + 1)
    requires m >= 1
    ensures RoundsPay(cap, p, s + finish + looks, n + m + l)
  {
    hide LookAgainCost, FinishCost;
    var look, k := LookAgainCost(cap), LookAgainCost(cap) + FinishCost(cap, p);
    Apart(n, m + l, k);
    Apart(m, l, k);
    Apart(l, 1, look);
    MoreTimes(l, look, k);
    TimesMonotone(1, m, k);
  }

  lemma RoundsPayLess(cap: Capability, p: nat, s: int, n: nat, m: nat)
    requires p < |cap.steps| && RoundsPay(cap, p, s, n) && n <= m
    ensures RoundsPay(cap, p, s, m)
  {
    hide LookAgainCost, FinishCost;
    TimesMonotone(n, m, LookAgainCost(cap) + FinishCost(cap, p));
  }

  lemma RoundsPayMore(cap: Capability, p: nat, s: int, t: int, n: int, m: int)
    requires p < |cap.steps| && RoundsPay(cap, p, s, n) && RoundsPay(cap, p, t, m)
    ensures RoundsPay(cap, p, s + t, n + m)
  {
    Apart(n, m, LookAgainCost(cap) + FinishCost(cap, p));
  }

  lemma {:induction false} StepsCostGrows(cap: Capability, n: nat, m: nat)
    requires n <= m <= |cap.steps|
    ensures StepsCost(cap, n) <= StepsCost(cap, m)
  {
    hide StepCost;
    if n < m { StepsCostGrows(cap, n, m - 1); }
  }

  /** A flow that broke off at its step i slept no more than the whole flow may. */
  lemma FlowPaysEarly(cap: Capability, p: nat, i: nat, slept: int, n: nat)
    requires p < |cap.steps| && i <= |cap.steps| && LooksPay(cap, slept - StepsCost(cap, i), n)
    ensures FlowPays(cap, p, slept, n)
  {
    hide LookAgainCost, FinishCost, StepsCost;
    StepsCostGrows(cap, i, |cap.steps|);
    LooksPayRounds(cap, p, slept - StepsCost(cap, i), n);
  }

  lemma FlowPaysWhole(cap: Capability, p: nat, slept: int, n: nat)
    requires p < |cap.steps| && RoundsPay(cap, p, slept - StepsCost(cap, |cap.steps|) - FinishCost(cap, p), n)
    ensures FlowPays(cap, p, slept, n)
  {
  }

  lemma NoStepsCost(cap: Capability)
    ensures StepsCost(cap, 0) == 0
  {
  }

  lemma StepsCostNext(cap: Capability, i: nat)
    requires i < |cap.steps|
    ensures StepsCost(cap, i + 1) == StepsCost(cap, i) + StepCost(cap, i)
  {
  }

  lemma RunPays(cap: Capability, p: nat, slept: int, n: nat)
    requires p < |cap.steps| && FlowPays(cap, p, slept, n) && n <= MAX_HUMAN_PAUSES
    ensures slept <= RunCost(cap, p)
  {
    hide LookAgainCost, FinishCost, StepsCost;
    TimesMonotone(n, MAX_HUMAN_PAUSES, LookAgainCost(cap) + FinishCost(cap, p));
  }

  lemma {:induction false} OneLookCost(cap: Capability, p: nat, n: nat)
    requires p < n <= |cap.steps|
    ensures WaitMost(cap, p, cap.steps[p].waitFor.timeoutMs) <= LooksCost(cap, n)
  {
    hide WaitMost;
    if p < n - 1 { OneLookCost(cap, p, n - 1); }
  }

  lemma {:induction false} RerunCostGrows(cap: Capability, p: nat, ids: seq<StepId>, n: nat, m: nat)
    requires p < |cap.steps| && n <= m <= |ids|
    ensures RerunCost(cap, p, ids, n) <= RerunCost(cap, p, ids, m)
  {
    hide StepCost;
    if n < m { RerunCostGrows(cap, p, ids, n, m - 1); }
  }

  /** What the recoveries step p started in between may add to the sleep of a wait. */
  ghost function Charges(
    cap: Capability, p: nat, timeoutMs: nat, paced: bool, was: map<Key, nat>, now: map<Key, nat>, n: nat): int
    requires p < |cap.steps| && n <= |cap.detectors|
  {
    if n == 0 then 0
    else
      var more := Used(now, KeyOf(cap, p, n - 1)) - Used(was, KeyOf(cap, p, n - 1));
      Charges(cap, p, timeoutMs, paced, was, now, n - 1) + more * RecoveryCost(cap, p, n - 1, timeoutMs, paced)
  }

  lemma {:induction false} NoCharges(cap: Capability, p: nat, timeoutMs: nat, paced: bool, was: map<Key, nat>, n: nat)
    requires p < |cap.steps| && n <= |cap.detectors|
    ensures Charges(cap, p, timeoutMs, paced, was, was, n) == 0
  {
    if n > 0 { NoCharges(cap, p, timeoutMs, paced, was, n - 1); }
  }

  lemma Apart(x: int, y: int, c: int)
    ensures (x + y) * c == x * c + y * c
    ensures c * (x + y) == c * x + c * y
  {
  }

  lemma Product(n: nat, c: nat)
    ensures n * c >= 0 && (n >= 1 ==> n * c >= c)
  {
    if n >= 1 { Apart(n - 1, 1, c); }
  }

  lemma TimesMonotone(x: int, y: int, cost: nat)
    requires x <= y
    ensures x * cost <= y * cost
    ensures x < y ==> x * cost + cost <= y * cost
  {
    Apart(x, y - x, cost);
    Product(y - x, cost);
  }

  /** More recoveries charge more, and one more of detector d at least its cost. */
  lemma {:induction false} ChargesGrow(
    cap: Capability, p: nat, timeoutMs: nat, paced: bool, was: map<Key, nat>, before: map<Key, nat>, now: map<Key, nat>,
    d: nat, n: nat)
    requires p < |cap.steps| && d < |cap.detectors| && n <= |cap.detectors|
    requires forall e :: 0 <= e < |cap.detectors| ==> Used(before, KeyOf(cap, p, e)) <= Used(now, KeyOf(cap, p, e))
    ensures Charges(cap, p, timeoutMs, paced, was, now, n) >= Charges(cap, p, timeoutMs, paced, was, before, n) +
      if d < n && Used(before, KeyOf(cap, p, d)) < Used(now, KeyOf(cap, p, d))
      then RecoveryCost(cap, p, d, timeoutMs, paced)
      else 0
  {
    hide RecoveryCost;
    if n > 0 {
      ChargesGrow(cap, p, timeoutMs, paced, was, before, now, d, n - 1);
      var k := KeyOf(cap, p, n - 1);
      TimesMonotone(Used(before, k) - Used(was, k), Used(now, k) - Used(was, k),
                    RecoveryCost(cap, p, n - 1, timeoutMs, paced));
    }
  }

  /** Exactly one more recovery of detector d charges exactly its cost. */
  lemma {:induction false} OneMoreCharges(
    cap: Capability, p: nat, timeoutMs: nat, paced: bool, was: map<Key, nat>, before: map<Key, nat>, now: map<Key, nat>,
    d: nat, n: nat)
    requires p < |cap.steps| && d < |cap.detectors| && n <= |cap.detectors| && OneMore(cap, p, d, before, now)
    ensures Charges(cap, p, timeoutMs, paced, was, now, n) == Charges(cap, p, timeoutMs, paced, was, before, n) +
      if d < n then RecoveryCost(cap, p, d, timeoutMs, paced) else 0
  {
    hide RecoveryCost;
    if n > 0 {
      OneMoreCharges(cap, p, timeoutMs, paced, was, before, now, d, n - 1);
      var k, cost := KeyOf(cap, p, n - 1), RecoveryCost(cap, p, n - 1, timeoutMs, paced);
      var x: int, y: int := Used(before, k) - Used(was, k), Used(now, k) - Used(was, k);
      if d == n - 1 { Apart(x, 1, cost); }
    }
  }

  /** Within the limits of its recoveries, a wait's timeout and charges never pass the most it may sleep. */
  lemma {:induction false} ChargesWithin(
    cap: Capability, p: nat, timeoutMs: nat, paced: bool, was: map<Key, nat>, now: map<Key, nat>,
    started: multiset<Key>, n: nat)
    requires p < |cap.steps| && n <= |cap.detectors| && AttemptsSound(cap, now, started)
    ensures (if paced then timeoutMs else 0) + Charges(cap, p, timeoutMs, paced, was, now, n)
      <= WaitCost(cap, p, timeoutMs, n)
  {
    hide RecoveryCost, Limit;
    if n > 0 {
      ChargesWithin(cap, p, timeoutMs, paced, was, now, started, n - 1);
      var k, d := KeyOf(cap, p, n - 1), cap.detectors[n - 1];
      CheaperUnpaced(cap, p, n - 1, timeoutMs, paced);
      assert Used(now, k) <= Limit(d);
      TimesMonotone(Used(now, k) - Used(was, k), Limit(d), RecoveryCost(cap, p, n - 1, timeoutMs, paced));
      MoreTimes(Limit(d), RecoveryCost(cap, p, n - 1, timeoutMs, paced), RecoveryCost(cap, p, n - 1, timeoutMs, true));
    }
  }

  lemma CheaperUnpaced(cap: Capability, p: nat, d: nat, timeoutMs: nat, paced: bool)
    requires p < |cap.steps| && d < |cap.detectors|
    ensures RecoveryCost(cap, p, d, timeoutMs, paced) <= RecoveryCost(cap, p, d, timeoutMs, true)
  {
  }

  lemma MoreTimes(n: nat, x: nat, y: nat)
    requires x <= y
    ensures n * x <= n * y
  {
  }

  function Left(horizon: int, now: int): nat {
    if horizon > now then horizon - now else 0
  }

  /**
   * The account of a wait: what it slept and, if it sleeps between its looks, what it may still sleep before
   * the horizon is covered by its timeout and its charges. Until it handled its first detector, its deadline
   * is the one it began with.
   */
  ghost predicate Pace(
    slept: int, charged: int, untouched: bool, timeoutMs: nat, begin: int, clock: int, deadline: int, horizon: int,
    paced: bool)
  {
    && (if paced then slept + Left(horizon, clock) <= timeoutMs + charged else slept <= charged)
    && begin + timeoutMs <= deadline <= horizon && begin <= clock
    && (untouched ==> charged == 0 && deadline == horizon == begin + timeoutMs)
  }

  lemma PaceStarts(timeoutMs: nat, begin: int, paced: bool)
    ensures Pace(0, 0, true, timeoutMs, begin, begin, begin + timeoutMs, begin + timeoutMs, paced)
  {
  }

  /** Time that passes otherwise than by sleeping costs nothing. */
  lemma PaceIdles(
    slept: int, charged: int, untouched: bool, timeoutMs: nat, begin: int, clock: int, clock': int, deadline: int,
    horizon: int,
    paced: bool)
    requires Pace(slept, charged, untouched, timeoutMs, begin, clock, deadline, horizon, paced) && clock <= clock'
    ensures Pace(slept, charged, untouched, timeoutMs, begin, clock', deadline, horizon, paced)
    ensures Left(horizon, clock') <= Left(horizon, clock)
  {
  }

  /** A sleep that begins at now and stays before the horizon is paid for by the time left, which shrinks. */
  lemma PaceTicks(
    slept: int, charged: int, untouched: bool, timeoutMs: nat, begin: int, clock: int, clock': int, deadline: int,
    horizon: int,
    paced: bool, now: int, ms: nat)
    requires Pace(slept, charged, untouched, timeoutMs, begin, clock, deadline, horizon, paced)
    requires ms > 0 && clock <= now && now + ms <= horizon
    requires clock' >= now + (if paced then ms else 0) && clock' > clock
    ensures Pace(slept + (if paced then ms else 0), charged, untouched,
                 timeoutMs, begin, clock', deadline, horizon, paced)
    ensures Left(horizon, clock') < Left(horizon, clock)
  {
  }

  function DeadlineAfter(deadline: int, isWindow: bool, clock: int, timeoutMs: nat): int {
    if isWindow then deadline else clock + timeoutMs
  }

  function HorizonAfter(horizon: int, isWindow: bool, window: nat, clock: int, timeoutMs: nat): (h: int)
    ensures horizon <= h && (isWindow ==> clock + window <= h)
  {
    var end := clock + if isWindow then window else timeoutMs;
    if horizon >= end then horizon else end
  }

  /** Handling a detector keeps the account: a window is paid for at once, and anything else restarts the wait. */
  lemma PaceHandles(
    slept: int, charged: int, untouched: bool, timeoutMs: nat, begin: int, clock: int, clock': int, deadline: int,
    horizon: int,
    paced: bool, isWindow: bool, window: nat, acting: int, cost: nat)
    requires Pace(slept, charged, untouched, timeoutMs, begin, clock, deadline, horizon, paced)
    requires clock <= clock' && acting <= cost && (isWindow ==> clock' == clock)
    ensures Pace(slept + acting, charged + cost + (if !paced then 0 else if isWindow then window else timeoutMs), false,
                 timeoutMs, begin, clock', DeadlineAfter(deadline, isWindow, clock', timeoutMs),
                 HorizonAfter(horizon, isWindow, window, clock', timeoutMs), paced)
  {
  }
}
