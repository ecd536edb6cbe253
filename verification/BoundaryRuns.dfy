/**
 What invocations through the boundary amount to: when the provider is called and
 on what judgment, which records each way out leaves, what stays running, and
 what a sequence of invocations does to the limits.
 */
module BoundaryRuns {
  import opened Wrappers
  import opened ExecutionIdentity
  import opened Canonical
  import opened History
  import opened Distinction
  import opened UseAdmission
  import opened Stores
  import opened Dispatch
  import opened Boundary
  import DispatchProtocol
  import CB = CircuitBreaker
  import R = Reliability

  // ---------------------------------------------------------- the way to the exit

  /** New records get ids of their own; the step may be one the run already has. */
  predicate NewIds(c: Circumstances, s: BoundaryState) {
    c.attemptId !in s.records.attempts && c.actionId !in s.records.actions
  }

  /** Admitted, offered by selection, and permitted. */
  predicate LetThrough(c: Circumstances, k: Controls, s: BoundaryState) {
    RefusalFor(c, k, s).None? && Offered(c, k, s) && c.permitIssued
  }

  /** What the last checks find. */
  function Met(c: Circumstances, s: BoundaryState): Domain {
    Domain(s.journal, Precommitted(c, s.records).attempts)
  }

  /** Nothing stands between this invocation and the provider. */
  predicate GoesOut(c: Circumstances, k: Controls, s: BoundaryState) {
    && LetThrough(c, k, s)
    && (c.request.sideEffect ==> Recorded(c))
    && c.accountingWorks && c.providerFound
    && CheckCode(c, Met(c, s)).None?
  }

  predicate CallsOut(exit: Exit) {
    exit.Done? || exit.Fenced? || exit.ResultNotCommitted? || exit.Cut?
  }

  /** The state in which the last checks are made. */
  function Counted(c: Circumstances, k: Controls, s: BoundaryState): BoundaryState {
    var assessed := Used(s, R.Assessed(c.assessedAt, c.request)).(blockReason := RefusalFor(c, k, s));
    Used(assessed.(records := Precommitted(c, s.records), signals := Asked(c, s.signals)), R.Recorded(c.request, c.countedAt, c.stampedAt))
  }

  /**
   The provider is called once or not at all. Its breaker is asked by selection, if
   the request is admitted and the provider healthy, and hears of a call and its
   outcome exactly when there is one.
   */
  lemma CalledExactly(c: Circumstances, k: Controls, s: BoundaryState)
    ensures var (exit, after) := ExecuteSpec(c, k, s);
      && (CallsOut(exit) <==> GoesOut(c, k, s))
      && after.calls == s.calls + (if GoesOut(c, k, s) then 1 else 0)
      && after.signals == (if RefusalFor(c, k, s).None? then Asked(c, s.signals) else s.signals)
                          + (if GoesOut(c, k, s) then Signals(c) else [])
  {
    hide CommitDispatch, R.Assess, R.Run, PermitFailure, Precommitted, Evaluate, Signals, CB.Tripped, Asked;
    assert s.signals + [] == s.signals && Asked(c, s.signals) + [] == Asked(c, s.signals);
  }

  // ------------------------------------------------------------------ the breaker

  function InvokeAll(k: Controls, start: BoundaryState, cs: seq<Circumstances>): BoundaryState {
    if cs == [] then start else ExecuteSpec(cs[|cs| - 1], k, InvokeAll(k, start, cs[..|cs| - 1])).1
  }

  /** Whether, and how, this invocation ends a call that the breaker hears of as failed. */
  predicate FailsOut(c: Circumstances, k: Controls, s: BoundaryState) {
    GoesOut(c, k, s) && (c.answer.Raised? || c.answer == Returned(ResultFailed))
  }

  predicate SucceedsOut(c: Circumstances, k: Controls, s: BoundaryState) {
    GoesOut(c, k, s) && c.answer == Returned(ResultSucceeded)
  }

  /** The failed calls since the last one that succeeded, counted over the invocations alone. */
  function FailuresInARow(k: Controls, start: BoundaryState, cs: seq<Circumstances>): nat {
    if cs == [] then CB.TrailingFailures(start.signals)
    else
      var prefix, last := cs[..|cs| - 1], cs[|cs| - 1];
      if FailsOut(last, k, InvokeAll(k, start, prefix)) then FailuresInARow(k, start, prefix) + 1
      else if SucceedsOut(last, k, InvokeAll(k, start, prefix)) then 0
      else FailuresInARow(k, start, prefix)
  }

  /** When the last failed call came back. */
  function LastFailureAt(k: Controls, start: BoundaryState, cs: seq<Circumstances>): Option<real> {
    if cs == [] then CB.LastFailure(start.signals)
    else
      var prefix, last := cs[..|cs| - 1], cs[|cs| - 1];
      if FailsOut(last, k, InvokeAll(k, start, prefix)) then Some(last.returnedAt) else LastFailureAt(k, start, prefix)
  }

  lemma OneMoreSignal(signals: seq<CB.Call>, call: CB.Call)
    ensures CB.TrailingFailures(signals + [call])
         == match call case Succeed(_) => 0 case Failed(_) => CB.TrailingFailures(signals) + 1 case _ => CB.TrailingFailures(signals)
    ensures CB.LastFailure(signals + [call])
         == match call case Failed(now) => Some(now) case _ => CB.LastFailure(signals)
  {
    assert (signals + [call])[..|signals|] == signals;
  }

  lemma AskingCountsNothing(c: Circumstances, signals: seq<CB.Call>)
    ensures CB.TrailingFailures(Asked(c, signals)) == CB.TrailingFailures(signals)
    ensures CB.LastFailure(Asked(c, signals)) == CB.LastFailure(signals)
  {
    OneMoreSignal(signals, CB.Ask(c.askedAt));
  }

  lemma CallingCounts(c: Circumstances, signals: seq<CB.Call>)
    ensures var failed := c.answer.Raised? || c.answer == Returned(ResultFailed);
      && CB.TrailingFailures(signals + Signals(c))
         == (if failed then CB.TrailingFailures(signals) + 1
             else if c.answer == Returned(ResultSucceeded) then 0 else CB.TrailingFailures(signals))
      && CB.LastFailure(signals + Signals(c)) == if failed then Some(c.returnedAt) else CB.LastFailure(signals)
  {
    hide CB.TrailingFailures, CB.LastFailure;
    var read := signals + [CB.Read(c.calledAt)];
    OneMoreSignal(signals, CB.Read(c.calledAt));
    var told := read + OutcomeSignal(c);
    if OutcomeSignal(c) == [] {
      assert told == read;
    } else {
      OneMoreSignal(read, OutcomeSignal(c)[0]);
      assert OutcomeSignal(c) == [OutcomeSignal(c)[0]];
    }
    OneMoreSignal(told, CB.Read(c.returnedAt));
    assert signals + Signals(c) == if c.answer.Interrupted? then told else told + [CB.Read(c.returnedAt)];
  }

  /** What the breaker counts is what the invocations amount to, for all its being asked and read in between. */
  lemma {:induction false} BreakerCountsFailedCalls(k: Controls, start: BoundaryState, cs: seq<Circumstances>)
    ensures CB.TrailingFailures(InvokeAll(k, start, cs).signals) == FailuresInARow(k, start, cs)
    ensures CB.LastFailure(InvokeAll(k, start, cs).signals) == LastFailureAt(k, start, cs)
  {
    hide ExecuteSpec, GoesOut, Signals, Asked, CB.TrailingFailures, CB.LastFailure, RefusalFor;
    if cs != [] {
      var prefix, last := cs[..|cs| - 1], cs[|cs| - 1];
      var before := InvokeAll(k, start, prefix);
      BreakerCountsFailedCalls(k, start, prefix);
      CalledExactly(last, k, before);
      AskingCountsNothing(last, before.signals);
      var asked := if RefusalFor(last, k, before).None? then Asked(last, before.signals) else before.signals;
      CallingCounts(last, asked);
      assert asked + [] == asked;
    }
  }

  /**
   In a sequence of invocations the breaker stands in the way of the next one
   exactly while enough calls in a row have failed and the last failure is recent.
   */
  lemma {:induction false} BreakerStopsExactly(k: Controls, start: BoundaryState, cs: seq<Circumstances>, c: Circumstances)
    ensures var failures, last := FailuresInARow(k, start, cs), LastFailureAt(k, start, cs);
      && (Offered(c, k, InvokeAll(k, start, cs))
          <==> c.healthy && !(failures >= 1 && failures >= k.settings.failureThreshold
                              && last.Some? && c.askedAt - last.value < k.settings.recoveryTimeout))
      && (failures >= 1 && failures >= k.settings.failureThreshold
          && last.Some? && c.askedAt - last.value < k.settings.recoveryTimeout ==>
            InvokeAll(k, start, cs + [c]).calls == InvokeAll(k, start, cs).calls)
  {
    hide ExecuteSpec, CB.TrailingFailures, CB.LastFailure, FailuresInARow, LastFailureAt, RefusalFor, CheckCode;
    BreakerCountsFailedCalls(k, start, cs);
    CalledExactly(c, k, InvokeAll(k, start, cs));
    assert (cs + [c])[..|cs|] == cs;
  }

  // ----------------------------------------------------------- judged at the exit

  /** Both rechecks find the same against a judgment, and nothing only if it is the one the permit was issued from. */
  lemma RechecksAgree(reference: Judgment, permit: Permit, current: Judgment)
    requires IssuedFrom(permit, reference)
    ensures PermitFailure(permit, current) == RecheckFailure(reference, current)
    ensures PermitFailure(permit, current).None? <==>
      current.status == reference.status && current.requirement == reference.requirement && current.snapshot == reference.snapshot
  {
  }

  /** The provider is called only while the judgment the permit was issued from still stands. */
  lemma CalledUnderTheSameJudgment(c: Circumstances, k: Controls, s: BoundaryState, reference: Judgment)
    requires GoesOut(c, k, s) && IssuedFrom(c.permit, reference)
    ensures var current := JudgedNow(c, s.journal);
      && current.status == reference.status && current.requirement == reference.requirement
      && current.snapshot == reference.snapshot && RecheckFailure(reference, current).None?
  {
    hide Evaluate, PermitFailure, RecheckFailure, CommitDispatch;
    RechecksAgree(reference, c.permit, JudgedNow(c, s.journal));
  }

  /** The judgment is the one the permit was issued under. */
  predicate Stands(permit: Permit, current: Judgment) {
    && current.status == (if permit.applicable then Allowed else NotApplicable)
    && current.requirement == Some(permit.requirement) && current.snapshot == Some(permit.snapshot)
  }

  function AttemptOf(c: Circumstances): Option<string> {
    if Recorded(c) then Some(c.attemptId) else None
  }

  /** The target can be captured, and the journal takes the dispatch that names it. */
  predicate Dispatchable(c: Circumstances, journal: Journal) {
    && CaptureTarget(c.target, c.permit, c.requestId).Some?
    && var (binding, authority) := CaptureTarget(c.target, c.permit, c.requestId).value;
    && Append(journal, DispatchEvent(c.requestId, c.permit, AttemptOf(c), binding, authority)).Ok?
  }

  /** The last checks pass exactly when the facts and the judgment still stand and, where it applies, the dispatch can be written. */
  lemma ChecksPassExactly(c: Circumstances, s: BoundaryState)
    ensures CheckCode(c, Met(c, s)).None?
       <==> && c.qualificationHolds && Stands(c.permit, JudgedNow(c, s.journal))
            && (c.permit.applicable ==> Dispatchable(c, s.journal))
  {
    hide Evaluate, CaptureTarget, Append, Precommitted, DispatchEvent, Recorded;
    FreshAttemptTakesMarks(c, s);
    DispatchProtocol.RefusalsNeverCommit(s.journal, c.resolution, c.permit);
  }

  lemma FreshAttemptTakesMarks(c: Circumstances, s: BoundaryState)
    ensures Recorded(c) ==> c.attemptId in Met(c, s).attempts && Met(c, s).attempts[c.attemptId].marks == NO_MARKS
  {
  }

  /** The dispatch this invocation left in the journal. */
  ghost predicate DispatchWritten(c: Circumstances, journal: Journal, e: Event) {
    && e in journal && e.body.DispatchCommitted?
    && e.body.dispatch.requirement == c.permit.requirement && e.body.dispatch.snapshot == c.permit.snapshot
    && e.body.dispatch.permitDigest == c.permit.requestDigest && e.body.dispatch.requestId == c.requestId
    && e.body.dispatch.attemptRef == AttemptOf(c)
  }

  /**
   Where governance applies, a call means: the journal folds to a configuration in
   which the use is permitted under the permit's digests, a dispatch for exactly
   this invocation has been written, and the attempt on record refers to it.
   */
  lemma CalledIsJustified(c: Circumstances, k: Controls, s: BoundaryState)
    requires GoesOut(c, k, s) && c.permit.applicable
    ensures c.resolution.Bound?
    ensures var r := c.resolution.requirement;
      && c.permit.requirement == RequirementOf(r)
      && Judged(s.journal, r.schemeId)
      && var config := Reconstruct(s.journal).value.configuration;
      && Usable(config, r.schemeId, r.use)
      && c.permit.snapshot == SnapshotOf(config.states[r.schemeId], config.obligations, r)
    ensures var after := ExecuteSpec(c, k, s).1;
      exists e :: DispatchWritten(c, after.journal, e)
        && (Recorded(c) ==>
              && c.attemptId in after.records.attempts
              && after.records.attempts[c.attemptId].marks.commitRef.Some?
              && e.id == DispatchId(after.records.attempts[c.attemptId].marks.commitRef.value))
  {
    hide Evaluate, PermitFailure, CommitDispatch, Judged, Usable, SnapshotOf, RequirementOf, Reconstruct, ExecuteSpec, Authorize;
    var t := Counted(c, k, s);
    assert DomainOf(t) == Met(c, s);
    var e := CommittedAtExit(c, t);
    KeptToTheEnd(c, k, s);
    assert DispatchWritten(c, ExecuteSpec(c, k, s).1.journal, e);
  }

  lemma CommittedAtExit(c: Circumstances, t: BoundaryState) returns (e: Event)
    requires CheckCode(c, DomainOf(t)).None? && c.permit.applicable
    ensures c.resolution.Bound? && c.permit.requirement == RequirementOf(c.resolution.requirement)
    ensures var r := c.resolution.requirement;
      && Judged(t.journal, r.schemeId)
      && var config := Reconstruct(t.journal).value.configuration;
      && Usable(config, r.schemeId, r.use)
      && c.permit.snapshot == SnapshotOf(config.states[r.schemeId], config.obligations, r)
    ensures DispatchWritten(c, Checked(c, t).journal, e)
    ensures Recorded(c) ==>
      && c.attemptId in Checked(c, t).records.attempts
      && Checked(c, t).records.attempts[c.attemptId].marks.commitRef.Some?
      && e.id == DispatchId(Checked(c, t).records.attempts[c.attemptId].marks.commitRef.value)
  {
    hide Evaluate, PermitFailure, CommitDispatch, Judged, Usable, SnapshotOf, Reconstruct, Authorize, CaptureTarget, RequirementOf,
      Append;
    var attempt, w := if Recorded(c) then Some(c.attemptId) else None, DomainOf(t);
    CommitKeepsStatuses(w, c.requestId, c.permit, c.resolution, attempt, c.target);
    var binding, authority := DispatchProtocol.CommitFacts(w, c.requestId, c.permit, c.resolution, attempt, c.target);
    DispatchProtocol.AuthorizedIsJustified(t.journal, c.resolution, c.permit);
    e := DispatchEvent(c.requestId, c.permit, attempt, binding, authority);
    AppendAdds(t.journal, e);
  }

  /** Past the checks nothing touches the journal or the marks of the attempt. */
  lemma KeptToTheEnd(c: Circumstances, k: Controls, s: BoundaryState)
    requires GoesOut(c, k, s)
    ensures var checked, after := Checked(c, Counted(c, k, s)), ExecuteSpec(c, k, s).1;
      && after.journal == checked.journal
      && after.records.attempts.Keys == checked.records.attempts.Keys
      && (Recorded(c) && c.attemptId in checked.records.attempts ==>
            after.records.attempts[c.attemptId].marks == checked.records.attempts[c.attemptId].marks)
  {
    hide Checked, CheckCode, Precommitted, R.Assess, R.Run;
    PrecommittedFacts(c, s.records);
    CheckKeepsAttempts(c, Counted(c, k, s));
  }

  // --------------------------------------------------------------- records left

  ghost predicate AllThree(c: Circumstances, r: Records, status: ExecutionStatus) {
    && c.stepId in r.steps && r.steps[c.stepId] == status
    && c.attemptId in r.attempts && r.attempts[c.attemptId].status == status
    && c.actionId in r.actions && r.actions[c.actionId] == status
  }

  /** What a side effect leaves behind on each way out. */
  ghost predicate LeavesBehind(c: Circumstances, exit: Exit, before: BoundaryState, after: BoundaryState) {
    match exit
    case ReliabilityBlocked(_) => after.records == before.records && after.journal == before.journal
    case StoppedBeforePermit => after.records == before.records && after.journal == before.journal
    case PrecommitFailed => after.records == before.records && after.journal == before.journal
    case AccountingFailed => AllThree(c, after.records, Running)
    case LookupFailed => AllThree(c, after.records, Running)
    case AbortFailed(_) => AllThree(c, after.records, Running)
    case Aborted(_) => AllThree(c, after.records, Cancelled)
    case Done(status) => AllThree(c, after.records, Projected(status))
    case ResultNotCommitted => AllThree(c, after.records, Running)
    case Cut => AllThree(c, after.records, Running)
    case Fenced =>
      && c.stepId in after.records.steps
      && after.records.steps[c.stepId] == (if c.demotion.AcceptsNeither? then Running else Unknown)
      && c.attemptId in after.records.attempts
      && after.records.attempts[c.attemptId].status == (if c.demotion.AcceptsBoth? then Unknown else Running)
      && c.actionId in after.records.actions && after.records.actions[c.actionId] == Running
  }

  /** Nothing but the invocation's own step, attempt and action is touched. */
  ghost predicate OthersUntouched(c: Circumstances, before: Records, after: Records) {
    && (forall id | id != c.stepId :: (id in before.steps <==> id in after.steps)
          && (id in before.steps ==> after.steps[id] == before.steps[id]))
    && (forall id | id != c.attemptId :: (id in before.attempts <==> id in after.attempts)
          && (id in before.attempts ==> after.attempts[id] == before.attempts[id]))
    && (forall id | id != c.actionId :: (id in before.actions <==> id in after.actions)
          && (id in before.actions ==> after.actions[id] == before.actions[id]))
  }

  lemma PrecommittedFacts(c: Circumstances, r: Records)
    ensures Recorded(c) ==>
      && c.stepId in Precommitted(c, r).steps && Precommitted(c, r).steps[c.stepId] == Running
      && c.attemptId in Precommitted(c, r).attempts && Precommitted(c, r).attempts[c.attemptId].status == Running
    ensures Recorded(c) && c.request.sideEffect ==> AllThree(c, Precommitted(c, r), Running)
    ensures !Recorded(c) ==> Precommitted(c, r).attempts == r.attempts && Precommitted(c, r).actions == r.actions
    ensures c.request.sideEffect && !Recorded(c) ==> Precommitted(c, r) == r
    ensures OthersUntouched(c, r, Precommitted(c, r))
  {
  }

  lemma UntouchedTwice(c: Circumstances, a: Records, b: Records, d: Records)
    requires OthersUntouched(c, a, b) && OthersUntouched(c, b, d)
    ensures OthersUntouched(c, a, d)
  {
  }

  /** From the exit on: every way out with the records it leaves. */
  lemma LeavingLeaves(c: Circumstances, before: BoundaryState, t: BoundaryState)
    requires c.request.sideEffect && Recorded(c) && AllThree(c, t.records, Running)
    ensures LeavesBehind(c, LeaveSpec(c, t).0, before, LeaveSpec(c, t).1)
  {
    hide Checked, CheckCode, Recorded;
    CheckKeepsAttempts(c, t);
  }

  lemma WritesTouchOwn(c: Circumstances, r: Records, withAction: bool, status: ExecutionStatus)
    requires c.attemptId in r.attempts
    ensures OthersUntouched(c, r, Settled(c, r, withAction, status)) && OthersUntouched(c, r, Demoted(c, r))
  {
  }

  lemma ChecksTouchOwn(c: Circumstances, t: BoundaryState)
    ensures OthersUntouched(c, t.records, Checked(c, t).records)
  {
    hide Checked, Recorded;
    CheckKeepsAttempts(c, t);
  }

  lemma EndingTouchesOwn(c: Circumstances, t: BoundaryState, code: Code, status: ResultStatus)
    requires Recorded(c) ==> c.attemptId in t.records.attempts
    ensures OthersUntouched(c, t.records, AbortSpec(c, code, t).1.records)
    ensures OthersUntouched(c, t.records, ConcludeSpec(c, status, t).1.records)
  {
    hide OthersUntouched, Settled, Demoted, Recorded;
    SameIsUntouched(c, t.records);
    if Recorded(c) {
      WritesTouchOwn(c, t.records, c.request.sideEffect, Cancelled);
      WritesTouchOwn(c, t.records, true, Projected(status));
    }
  }

  lemma LeavingTouchesOwn(c: Circumstances, t: BoundaryState)
    requires Recorded(c) ==> c.attemptId in t.records.attempts
    ensures OthersUntouched(c, t.records, LeaveSpec(c, t).1.records)
  {
    hide Checked, CheckCode, Recorded, OthersUntouched, AbortSpec, ConcludeSpec, Invoked;
    var checked, code := Checked(c, t), CheckCode(c, DomainOf(t));
    CheckKeepsAttempts(c, t);
    ChecksTouchOwn(c, t);
    SameIsUntouched(c, t.records);
    InvokingKeepsRecords(c, checked);
    if c.providerFound {
      var status := if c.answer.Interrupted? then ResultUnknown else ResultOf(c.answer);
      EndingTouchesOwn(c, checked, if code.Some? then code.value else GovernanceChanged, status);
      EndingTouchesOwn(c, Invoked(c, checked), GovernanceChanged, status);
      UntouchedTwice(c, t.records, checked.records, LeaveSpec(c, t).1.records);
    }
  }

  /** Every way out of a side effect leaves its three records as stated, and of everything no other record changes. */
  lemma RecordsLeft(c: Circumstances, k: Controls, s: BoundaryState)
    ensures var (exit, after) := ExecuteSpec(c, k, s);
      && (c.request.sideEffect ==> LeavesBehind(c, exit, s, after))
      && OthersUntouched(c, s.records, after.records)
  {
    hide LeaveSpec, Precommitted, R.Assess, R.Run, Recorded, OthersUntouched;
    var t := Counted(c, k, s);
    PrecommittedFacts(c, s.records);
    SameIsUntouched(c, s.records);
    LeavingTouchesOwn(c, t);
    UntouchedTwice(c, s.records, t.records, LeaveSpec(c, t).1.records);
    if c.request.sideEffect && Recorded(c) {
      LeavingLeaves(c, s, t);
    }
  }

  lemma SameIsUntouched(c: Circumstances, r: Records)
    ensures OthersUntouched(c, r, r)
  {
  }

  predicate Has(r: Records, attemptId: string, status: ExecutionStatus) {
    attemptId in r.attempts && r.attempts[attemptId].status == status
  }

  /** The attempt is on record as succeeded exactly when the provider was called, said so, was still fenced in, and the store took it. */
  lemma SucceededExactly(c: Circumstances, k: Controls, s: BoundaryState)
    requires NewIds(c, s)
    ensures Has(ExecuteSpec(c, k, s).1.records, c.attemptId, Succeeded)
       <==> && GoesOut(c, k, s) && Recorded(c) && c.answer == Returned(ResultSucceeded)
            && !FencedOff(c) && c.projectionAccepted
  {
    hide LeaveSpec, CheckCode, Precommitted, R.Assess, R.Run, Recorded, FencedOff;
    PrecommittedFacts(c, s.records);
    LeavingSucceeds(c, Counted(c, k, s));
  }

  lemma LeavingSucceeds(c: Circumstances, t: BoundaryState)
    requires if Recorded(c) then Has(t.records, c.attemptId, Running) else c.attemptId !in t.records.attempts
    ensures Has(LeaveSpec(c, t).1.records, c.attemptId, Succeeded)
       <==> && Recorded(c) && c.providerFound && CheckCode(c, DomainOf(t)).None?
            && c.answer == Returned(ResultSucceeded) && !FencedOff(c) && c.projectionAccepted
  {
    hide Checked, CheckCode, Recorded;
    CheckKeepsAttempts(c, t);
  }

  /** Where the call ended without the attempt becoming final. */
  predicate LeftOpenByCall(c: Circumstances) {
    c.answer.Interrupted? || if FencedOff(c) then !c.demotion.AcceptsBoth? else !c.projectionAccepted
  }

  /**
   The attempt is left running exactly when it was put on record and then the
   accounting or the lookup failed, or a failed check could not be recorded, or the
   call ended without its result being recorded.
   */
  lemma LeftRunningExactly(c: Circumstances, k: Controls, s: BoundaryState)
    requires NewIds(c, s)
    ensures Has(ExecuteSpec(c, k, s).1.records, c.attemptId, Running)
       <==> && LetThrough(c, k, s) && Recorded(c)
            && (|| !c.accountingWorks || !c.providerFound
                || if CheckCode(c, Met(c, s)).Some? then !c.abortAccepted else LeftOpenByCall(c))
  {
    hide LeaveSpec, CheckCode, Precommitted, LeftOpenByCall, R.Assess, R.Run, Recorded;
    PrecommittedFacts(c, s.records);
    LeavingLeavesOpen(c, Counted(c, k, s));
  }

  lemma LeavingLeavesOpen(c: Circumstances, t: BoundaryState)
    requires if Recorded(c) then Has(t.records, c.attemptId, Running) else c.attemptId !in t.records.attempts
    ensures Has(LeaveSpec(c, t).1.records, c.attemptId, Running)
       <==> Recorded(c) && (!c.providerFound || if CheckCode(c, DomainOf(t)).Some? then !c.abortAccepted else LeftOpenByCall(c))
  {
    hide Checked, CheckCode, Recorded;
    CheckKeepsAttempts(c, t);
  }

  predicate StepIs(r: Records, stepId: string, status: ExecutionStatus) {
    stepId in r.steps && r.steps[stepId] == status
  }

  /**
   Likewise its step, where a demotion of the step alone suffices; and the step of
   an observation whose attempt the store refused stays running on every way out.
   */
  lemma StepLeftRunningExactly(c: Circumstances, k: Controls, s: BoundaryState)
    requires !StepIs(s.records, c.stepId, Running)
    ensures StepIs(ExecuteSpec(c, k, s).1.records, c.stepId, Running)
       <==> && LetThrough(c, k, s)
            && if Recorded(c) then
                 || !c.accountingWorks || !c.providerFound
                 || if CheckCode(c, Met(c, s)).Some? then !c.abortAccepted
                    else c.answer.Interrupted? || if FencedOff(c) then c.demotion.AcceptsNeither? else !c.projectionAccepted
               else c.durableWork && c.precommit.AcceptsStepOnly? && !c.request.sideEffect
  {
    hide Checked, CheckCode, R.Assess, R.Run;
    CheckKeepsAttempts(c, Counted(c, k, s));
  }

  // ---------------------------------------------------------- two that stay running

  const UNTOUCHED := BoundaryState(Records(map[], map[], map[]), [], [], [], 0, None)

  const ROOMY := Controls(R.Limits(10, 10, 10, 10, 10, 0.0), 0.0, CB.Settings(5, 30.0, 1))

  /** A harmless side effect, ungoverned, permitted and recorded, whose provider can no longer be looked up. */
  const LOST := Circumstances(
    R.HARMLESS, "q", 0.0, 0.0, 0.0, 0.0, 0.0, 0.0, true, true,
    Permit(false, "p", "d", "", NotBoundRequirement, NotBoundSnapshot, 0),
    true, AcceptsBoth, "s", "a", "x", true, false, true, NotBound, None, true, Returned(ResultSucceeded),
    false, true, AcceptsBoth, true)

  /** An observation whose step the store takes and whose attempt it does not; all else goes well. */
  const HALF_RECORDED := LOST.(request := R.HARMLESS.(sideEffect := false), precommit := AcceptsStepOnly, providerFound := true)

  lemma NothingStandsInTheWay(c: Circumstances)
    requires c.request.blastRadius == 1 && c.request.exposure.None? && !c.request.irreversible && !c.request.enhancedProfile
    requires c.healthy && c.permitIssued
    ensures LetThrough(c, ROOMY, UNTOUCHED)
  {
    assert UNTOUCHED.uses == [];
    assert CountersOf(ROOMY, UNTOUCHED) == R.NEW_COUNTERS;
    assert R.Recent(R.NEW_COUNTERS.timestamps, c.assessedAt) == [];
  }

  /** No call, and nothing that would finish the three records. */
  lemma LostProviderLeavesRunning()
    ensures var (exit, after) := ExecuteSpec(LOST, ROOMY, UNTOUCHED);
      && exit == LookupFailed && after.calls == 0 && AllThree(LOST, after.records, Running)
  {
    hide RefusalFor, Offered, CheckCode, Checked, Precommitted;
    NothingStandsInTheWay(LOST);
    RecordsLeft(LOST, ROOMY, UNTOUCHED);
    CalledExactly(LOST, ROOMY, UNTOUCHED);
  }

  /** Called and answered, yet its step still runs. */
  lemma HalfRecordedStepStays()
    ensures var (exit, after) := ExecuteSpec(HALF_RECORDED, ROOMY, UNTOUCHED);
      && exit == Done(ResultSucceeded) && after.calls == 1
      && StepIs(after.records, "s", Running) && "a" !in after.records.attempts
  {
    hide RefusalFor, Offered, Checked, CheckCode;
    NothingStandsInTheWay(HALF_RECORDED);
    StepLeftRunningExactly(HALF_RECORDED, ROOMY, UNTOUCHED);
    UngovernedPasses();
    CalledExactly(HALF_RECORDED, ROOMY, UNTOUCHED);
    CheckKeepsAttempts(HALF_RECORDED, Counted(HALF_RECORDED, ROOMY, UNTOUCHED));
  }

  lemma UngovernedPasses()
    ensures CheckCode(HALF_RECORDED, Met(HALF_RECORDED, UNTOUCHED)).None?
  {
    ChecksPassExactly(HALF_RECORDED, UNTOUCHED);
  }

  // ------------------------------------------------------------------- the limits

  lemma LeavingReleases(c: Circumstances, s: BoundaryState)
    requires Recorded(c) ==> c.attemptId in s.records.attempts
    ensures LeaveSpec(c, s).1.uses == Released(c, s).uses
  {
    hide CheckCode, CommitDispatch, HoldsStill;
  }

  function CountedUses(c: Circumstances, s: BoundaryState): seq<R.Event> {
    s.uses + [R.Assessed(c.assessedAt, c.request)] + [R.Recorded(c.request, c.countedAt, c.stampedAt)]
  }

  /** What one invocation tells the controls. */
  lemma UsesOf(c: Circumstances, k: Controls, s: BoundaryState)
    ensures var after := ExecuteSpec(c, k, s).1;
      after.uses ==
        if RefusalFor(c, k, s).Some? then s.uses + [R.Assessed(c.assessedAt, c.request)]
        else if LetThrough(c, k, s) && (c.request.sideEffect ==> Recorded(c)) && c.accountingWorks then
          if c.request.sideEffect then CountedUses(c, s) + [R.Completed(true)] else CountedUses(c, s)
        else s.uses + [R.Assessed(c.assessedAt, c.request)] + [R.Abandoned(c.request)]
  {
    hide R.Assess, R.Run, LeaveSpec, Offered, Asked;
    LeavingReleases(c, Counted(c, k, s));
  }

  /** Whatever happens, afterwards as many side effects count as active as before. */
  lemma ActiveRestored(c: Circumstances, k: Controls, s: BoundaryState)
    ensures CountersOf(k, ExecuteSpec(c, k, s).1).active == CountersOf(k, s).active
  {
    hide ExecuteSpec, R.Decide, R.Run;
    UsesOf(c, k, s);
    var l, start := k.limits, k.start;
    var one := s.uses + [R.Assessed(c.assessedAt, c.request)];
    R.RunExtends(l, start, s.uses, R.Assessed(c.assessedAt, c.request));
    R.RunExtends(l, start, one, R.Abandoned(c.request));
    R.RunExtends(l, start, one, R.Recorded(c.request, c.countedAt, c.stampedAt));
    R.RunExtends(l, start, CountedUses(c, s), R.Completed(true));
  }

  /** Nobody is awaiting recording, and what was told to the controls so far came one request at a time, by then. */
  ghost predicate Quiet(k: Controls, s: BoundaryState, now: real) {
    && R.Orderly(k.limits, k.start, s.uses, 1)
    && R.Run(k.limits, k.start, s.uses).pending == multiset{}
    && R.Run(k.limits, k.start, s.uses).clock <= now
  }

  /** An invocation that begins when nobody else is on the way leaves it so. */
  lemma InvocationStaysOrderly(c: Circumstances, k: Controls, s: BoundaryState)
    requires Quiet(k, s, c.assessedAt) && c.assessedAt <= c.countedAt <= c.stampedAt
    ensures Quiet(k, ExecuteSpec(c, k, s).1, c.stampedAt)
  {
    hide ExecuteSpec, R.Decide, R.Run, R.Orderly, R.RecordAction;
    UsesOf(c, k, s);
    var l, start, q := k.limits, k.start, c.request;
    var one := s.uses + [R.Assessed(c.assessedAt, q)];
    R.OrderlyExtends(l, start, s.uses, 1, R.Assessed(c.assessedAt, q));
    if RefusalFor(c, k, s).None? {
      R.OrderlyExtends(l, start, one, 1, R.Abandoned(q));
      R.OrderlyExtends(l, start, one, 1, R.Recorded(q, c.countedAt, c.stampedAt));
      R.OrderlyExtends(l, start, CountedUses(c, s), 1, R.Completed(true));
    }
  }

  /** Each invocation is over before the next begins. */
  predicate InSequence(now: real, cs: seq<Circumstances>) {
    && (forall i | 0 <= i < |cs| :: now <= cs[i].assessedAt <= cs[i].countedAt <= cs[i].stampedAt)
    && (forall i, j | 0 <= i < j < |cs| :: cs[i].stampedAt <= cs[j].assessedAt)
  }

  lemma {:induction false} SequencesAreOrderly(k: Controls, start: BoundaryState, now: real, cs: seq<Circumstances>)
    requires Quiet(k, start, now) && InSequence(now, cs)
    ensures Quiet(k, InvokeAll(k, start, cs), if cs == [] then now else cs[|cs| - 1].stampedAt)
    ensures CountersOf(k, InvokeAll(k, start, cs)).active == CountersOf(k, start).active
  {
    hide ExecuteSpec, R.Orderly;
    if cs != [] {
      var prefix, last := cs[..|cs| - 1], cs[|cs| - 1];
      SequencesAreOrderly(k, start, now, prefix);
      QuietLater(k, InvokeAll(k, start, prefix), if prefix == [] then now else prefix[|prefix| - 1].stampedAt, last.assessedAt);
      InvocationStaysOrderly(last, k, InvokeAll(k, start, prefix));
      ActiveRestored(last, k, InvokeAll(k, start, prefix));
    }
  }

  lemma QuietLater(k: Controls, s: BoundaryState, now: real, later: real)
    requires Quiet(k, s, now) && now <= later
    ensures Quiet(k, s, later)
  {
  }

  /** Controls that have not been used yet are quiet. */
  lemma UnusedIsQuiet(k: Controls, s: BoundaryState)
    requires s.uses == []
    ensures Quiet(k, s, k.start) && CountersOf(k, s).active == 0
  {
  }

  /**
   Invocations in sequence, however each of them ends: of all that was ever counted
   no sixty-second window exceeds the rate, no action falls into a cooldown, the
   budgets hold, and as many side effects count as active as did before.
   */
  lemma {:induction false} SequencesStayWithinLimits(k: Controls, start: BoundaryState, now: real, cs: seq<Circumstances>)
    requires Quiet(k, start, now) && InSequence(now, cs)
    ensures var l, actions := k.limits, R.Actions(InvokeAll(k, start, cs).uses);
      && (forall i, j | 0 <= i <= j < |actions| && actions[j].at - actions[i].at < R.WINDOW :: j - i + 1 <= l.maxActionRate)
      && (forall i, j | 0 <= i < j < |actions| && actions[i].request.sideEffect ::
            actions[j].at - actions[i].stampedAt >= l.cooldown)
      && R.SideEffectsIn(actions) <= R.Max(0, l.sideEffectBudget)
      && R.ExposureIn(actions) <= R.Max(0, l.exposureBudget)
    ensures CountersOf(k, InvokeAll(k, start, cs)).active == CountersOf(k, start).active <= R.Max(0, k.limits.maxParallel)
  {
    hide InvokeAll, R.Orderly, R.Run, R.Actions, R.SideEffectsIn, R.ExposureIn;
    SequencesAreOrderly(k, start, now, cs);
    var uses := InvokeAll(k, start, cs).uses;
    R.BudgetsHold(k.limits, k.start, uses);
    forall i, j | 0 <= i <= j < |R.Actions(uses)| && R.Actions(uses)[j].at - R.Actions(uses)[i].at < R.WINDOW
      ensures j - i + 1 <= k.limits.maxActionRate
    {
      R.EveryWindowWithinRate(k.limits, k.start, uses, i, j);
    }
    forall i, j | 0 <= i < j < |R.Actions(uses)| && R.Actions(uses)[i].request.sideEffect
      ensures R.Actions(uses)[j].at - R.Actions(uses)[i].stampedAt >= k.limits.cooldown
    {
      R.NothingWithinCooldown(k.limits, k.start, uses, i, j);
    }
  }
}
