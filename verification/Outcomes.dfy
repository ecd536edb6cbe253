/**
 How an invocation ends on record: the status of its attempt, its step and its
 action for every course it can take, and the code it is refused with.
 */
module Outcomes {
  import opened Wrappers
  import opened ExecutionIdentity
  import opened Canonical
  import opened UseAdmission
  import opened Stores
  import opened Dispatch
  import opened Boundary
  import opened BoundaryRuns
  import DispatchProtocol
  import R = Reliability
  import CB = CircuitBreaker

  // ----------------------------------------------------------------- final statuses

  /** Whether the call came to an end that the store could record as the provider's answer. */
  predicate AnswerTaken(c: Circumstances) {
    !c.answer.Interrupted? && !(c.runBound && !c.fencingHolds) && c.projectionAccepted
  }

  predicate AnsweredWith(c: Circumstances, status: ResultStatus) {
    c.answer.Returned? && c.answer.status == status
  }

  /** The provider failed in one way or another, or wants more before it can do anything. */
  predicate AnsweredBadly(c: Circumstances) {
    || c.answer.Raised?
    || AnsweredWith(c, ResultFailed) || AnsweredWith(c, ResultUnavailable) || AnsweredWith(c, NeedsInput)
  }

  /** The call was made and came back, but the run had lost its lease meanwhile. */
  predicate CameBackFenced(c: Circumstances) {
    !c.answer.Interrupted? && c.runBound && !c.fencingHolds
  }

  /** What becomes of a running record, given what the last checks said and whether a demotion reaches it. */
  function Ending(c: Circumstances, code: Option<Code>, demoted: bool): ExecutionStatus {
    if !c.providerFound then Running
    else if code.Some? then (if c.abortAccepted then Cancelled else Running)
    else if CameBackFenced(c) then (if demoted then Unknown else Running)
    else if !AnswerTaken(c) then Running
    else if AnsweredWith(c, ResultSucceeded) then Succeeded
    else if AnsweredWith(c, ResultCancelled) then Cancelled
    else if AnsweredWith(c, ResultUnknown) then Unknown
    else Failed
  }

  lemma LeavingEndsAttempt(c: Circumstances, t: BoundaryState)
    requires Recorded(c) && Has(t.records, c.attemptId, Running)
    ensures Has(LeaveSpec(c, t).1.records, c.attemptId, Ending(c, CheckCode(c, DomainOf(t)), c.demotion.AcceptsBoth?))
  {
    hide Checked, CheckCode, Recorded;
    CheckKeepsAttempts(c, t);
  }

  lemma LeavingEndsStep(c: Circumstances, t: BoundaryState)
    requires Recorded(c) && c.attemptId in t.records.attempts && StepIs(t.records, c.stepId, Running)
    ensures StepIs(LeaveSpec(c, t).1.records, c.stepId, Ending(c, CheckCode(c, DomainOf(t)), !c.demotion.AcceptsNeither?))
  {
    hide Checked, CheckCode, Recorded;
    CheckKeepsAttempts(c, t);
  }

  predicate ActionIs(r: Records, actionId: string, status: ExecutionStatus) {
    actionId in r.actions && r.actions[actionId] == status
  }

  lemma LeavingEndsAction(c: Circumstances, t: BoundaryState)
    requires Recorded(c) && c.attemptId in t.records.attempts
    requires if c.request.sideEffect then ActionIs(t.records, c.actionId, Running) else c.actionId !in t.records.actions
    ensures var after, code := LeaveSpec(c, t).1.records, CheckCode(c, DomainOf(t));
      if c.request.sideEffect then ActionIs(after, c.actionId, Ending(c, code, false))
      else if c.providerFound && code.None? && AnswerTaken(c) then ActionIs(after, c.actionId, Ending(c, code, false))
      else c.actionId !in after.actions
  {
    hide Checked, CheckCode, Recorded;
    CheckKeepsAttempts(c, t);
  }

  lemma LeavingUnrecorded(c: Circumstances, t: BoundaryState)
    requires !Recorded(c) && c.attemptId !in t.records.attempts && c.actionId !in t.records.actions
    ensures c.attemptId !in LeaveSpec(c, t).1.records.attempts && c.actionId !in LeaveSpec(c, t).1.records.actions
  {
    hide Checked, CheckCode, Recorded;
    CheckKeepsAttempts(c, t);
  }

  /** How the attempt and the step end: not at all unless they were put on record, else as the course of the invocation says. */
  lemma EndsExactly(c: Circumstances, k: Controls, s: BoundaryState)
    requires NewIds(c, s)
    ensures var after, code := ExecuteSpec(c, k, s).1.records, CheckCode(c, Met(c, s));
      if LetThrough(c, k, s) && Recorded(c) then
        && Has(after, c.attemptId, if c.accountingWorks then Ending(c, code, c.demotion.AcceptsBoth?) else Running)
        && StepIs(after, c.stepId, if c.accountingWorks then Ending(c, code, !c.demotion.AcceptsNeither?) else Running)
      else c.attemptId !in after.attempts
  {
    hide LeaveSpec, CheckCode, Precommitted, R.Assess, R.Run, Recorded, Ending;
    var t := Counted(c, k, s);
    PrecommittedFacts(c, s.records);
    if Recorded(c) {
      LeavingEndsAttempt(c, t);
      LeavingEndsStep(c, t);
    } else {
      LeavingUnrecorded(c, t);
    }
  }

  lemma PrecommittedAction(c: Circumstances, r: Records)
    requires c.actionId !in r.actions
    ensures Recorded(c) && c.request.sideEffect ==> ActionIs(Precommitted(c, r), c.actionId, Running)
    ensures !(Recorded(c) && c.request.sideEffect) ==> c.actionId !in Precommitted(c, r).actions
  {
  }

  /** How the action ends; that of an observation appears only with the provider's answer. */
  lemma ActionEndsExactly(c: Circumstances, k: Controls, s: BoundaryState)
    requires NewIds(c, s)
    ensures var after, code := ExecuteSpec(c, k, s).1.records, CheckCode(c, Met(c, s));
      if LetThrough(c, k, s) && Recorded(c) && c.request.sideEffect then
        ActionIs(after, c.actionId, if c.accountingWorks then Ending(c, code, false) else Running)
      else if GoesOut(c, k, s) && Recorded(c) && AnswerTaken(c) then ActionIs(after, c.actionId, Ending(c, code, false))
      else c.actionId !in after.actions
  {
    hide LeaveSpec, CheckCode, Precommitted, R.Assess, R.Run, Recorded, Ending, AnswerTaken;
    var t := Counted(c, k, s);
    PrecommittedFacts(c, s.records);
    PrecommittedAction(c, s.records);
    if Recorded(c) {
      LeavingEndsAction(c, t);
    } else {
      LeavingUnrecorded(c, t);
    }
  }

  /** The checks failed after the invocation was counted, and its records could be cancelled. */
  predicate CalledOff(c: Circumstances, k: Controls, s: BoundaryState) {
    && LetThrough(c, k, s) && c.accountingWorks && c.providerFound
    && CheckCode(c, Met(c, s)).Some? && c.abortAccepted
  }

  /** Attempt, step and action are unknown exactly when the provider said so, or the lease was lost and the demotion reached them. */
  lemma UnknownExactly(c: Circumstances, k: Controls, s: BoundaryState)
    requires NewIds(c, s) && Recorded(c) && c.request.sideEffect && !StepIs(s.records, c.stepId, Unknown)
    ensures var after, answered := ExecuteSpec(c, k, s).1.records, AnsweredWith(c, ResultUnknown) && AnswerTaken(c);
      && (Has(after, c.attemptId, Unknown)
          <==> GoesOut(c, k, s) && (answered || (CameBackFenced(c) && c.demotion.AcceptsBoth?)))
      && (StepIs(after, c.stepId, Unknown)
          <==> GoesOut(c, k, s) && (answered || (CameBackFenced(c) && !c.demotion.AcceptsNeither?)))
      && (ActionIs(after, c.actionId, Unknown) <==> GoesOut(c, k, s) && answered)
  {
    hide ExecuteSpec, CheckCode, Recorded, RefusalFor, Offered;
    EndsExactly(c, k, s);
    ActionEndsExactly(c, k, s);
    UnpermittedLeavesStep(c, k, s);
  }

  /** They are cancelled exactly when the provider said so, or the invocation was called off before it. */
  lemma CancelledExactly(c: Circumstances, k: Controls, s: BoundaryState)
    requires NewIds(c, s) && Recorded(c) && c.request.sideEffect && !StepIs(s.records, c.stepId, Cancelled)
    ensures var after := ExecuteSpec(c, k, s).1.records;
      var cancelled := CalledOff(c, k, s) || (GoesOut(c, k, s) && AnsweredWith(c, ResultCancelled) && AnswerTaken(c));
      && (Has(after, c.attemptId, Cancelled) <==> cancelled)
      && (StepIs(after, c.stepId, Cancelled) <==> cancelled)
      && (ActionIs(after, c.actionId, Cancelled) <==> cancelled)
  {
    hide ExecuteSpec, CheckCode, Recorded, RefusalFor, Offered;
    EndsExactly(c, k, s);
    ActionEndsExactly(c, k, s);
    UnpermittedLeavesStep(c, k, s);
  }

  /** They have failed exactly when the provider raised, failed, was unavailable or wanted input. */
  lemma FailedExactly(c: Circumstances, k: Controls, s: BoundaryState)
    requires NewIds(c, s) && Recorded(c) && c.request.sideEffect && !StepIs(s.records, c.stepId, ExecutionStatus.Failed)
    ensures var after, failed := ExecuteSpec(c, k, s).1.records, GoesOut(c, k, s) && AnsweredBadly(c) && AnswerTaken(c);
      && (Has(after, c.attemptId, ExecutionStatus.Failed) <==> failed)
      && (StepIs(after, c.stepId, ExecutionStatus.Failed) <==> failed)
      && (ActionIs(after, c.actionId, ExecutionStatus.Failed) <==> failed)
  {
    hide ExecuteSpec, CheckCode, Recorded, RefusalFor, Offered;
    EndsExactly(c, k, s);
    ActionEndsExactly(c, k, s);
    UnpermittedLeavesStep(c, k, s);
  }

  lemma UnpermittedLeavesStep(c: Circumstances, k: Controls, s: BoundaryState)
    ensures !LetThrough(c, k, s) ==> ExecuteSpec(c, k, s).1.records == s.records
  {
    hide LeaveSpec, R.Assess, R.Run, Precommitted, Offered;
  }

  // ------------------------------------------------------------------- refusal codes

  /** The code an invocation is called off with. */
  lemma CodesExactly(c: Circumstances, s: BoundaryState)
    ensures var code, current := CheckCode(c, Met(c, s)), JudgedNow(c, s.journal);
      && (code == Some(QualificationChanged) <==> !c.qualificationHolds)
      && (code == Some(GovernanceStale) <==> c.qualificationHolds && current.status == Stale)
      && (code == Some(GovernanceUnavailable) <==>
            && c.qualificationHolds
            && (current.status == Unavailable
                || (Stands(c.permit, current) && c.permit.applicable && !Dispatchable(c, s.journal))))
      && (code == Some(GovernanceChanged) <==>
            c.qualificationHolds && current.status != Stale && current.status != Unavailable && !Stands(c.permit, current))
  {
    hide Evaluate, CaptureTarget, Append, Precommitted, DispatchEvent, Recorded;
    FreshAttemptTakesMarks(c, s);
  }

  /** What a dispatch that is not committed is refused with, whatever the journal it meets, and as which code that comes out. */
  lemma DispatchRefusedExactly(
    w: Domain, requestId: string, permit: Permit, resolution: Resolution, attemptId: Option<string>, target: Option<Target>
  )
    ensures var status, current := CommitDispatch(w, requestId, permit, resolution, attemptId, target).0.status,
                                   Evaluate(resolution, Some(w.journal), Some(w.journal));
      && (status == DispatchNotApplicable <==> !permit.applicable)
      && (status == DispatchStale <==> permit.applicable && current.status == Stale)
      && (status == DispatchBlocked <==> permit.applicable && current.status == Blocked)
      && (status == DispatchChanged <==>
            && permit.applicable && (current.status == NotApplicable || current.status == Allowed) && !Stands(permit, current))
      && (status == DispatchUnavailable || status == DispatchCommittedNow <==>
            permit.applicable && (current.status == Unavailable || Stands(permit, current)))
      && (current.status == Unavailable ==> status != DispatchCommittedNow)
      && (DispatchCode(status) == GovernanceStale <==> status == DispatchStale)
      && (DispatchCode(status) == GovernanceUnavailable <==> status == DispatchUnavailable)
  {
    hide Evaluate, CaptureTarget, MarkAttempt, Append;
  }

  /** The same codes stop an invocation that would be permitted after routing. */
  lemma RecheckCodesExactly(reference: Judgment, current: Judgment)
    ensures var code := RecheckFailure(reference, current);
      && (code == Some(GovernanceUnavailable) <==> current.status == Unavailable)
      && (code == Some(GovernanceStale) <==> current.status == Stale)
      && (code.None? <==>
            && (current.status == Allowed || current.status == NotApplicable) && current.status == reference.status
            && current.requirement == reference.requirement && current.snapshot == reference.snapshot)
      && code != Some(QualificationChanged)
  {
  }

  // ------------------------------------------------------------ what the breaker hears

  /**
   An admitted request has a healthy provider's breaker asked, and no other; a call
   has its state read before and after, and in between it hears of a success, of a
   failure or an exception, and of nothing else.
   */
  lemma SignalsExactly(c: Circumstances, k: Controls, s: BoundaryState)
    ensures ExecuteSpec(c, k, s).1.signals ==
      s.signals
      + (if RefusalFor(c, k, s).None? && c.healthy then [CB.Ask(c.askedAt)] else [])
      + (if !GoesOut(c, k, s) then []
         else
           [CB.Read(c.calledAt)]
           + (if AnsweredWith(c, ResultSucceeded) then [CB.Succeed(c.returnedAt)]
              else if AnsweredWith(c, ResultFailed) || c.answer.Raised? then [CB.Failed(c.returnedAt)]
              else [])
           + (if c.answer.Interrupted? then [] else [CB.Read(c.returnedAt)]))
  {
    hide ExecuteSpec, GoesOut, RefusalFor;
    CalledExactly(c, k, s);
  }

  // --------------------------------------------------------------- what is committed

  /** The commitment names the request, what it was permitted under, and what was captured of the provider. */
  function CommitmentOf(
    requestId: string, permit: Permit, attemptId: Option<string>, binding: Option<Binding>, authority: Option<Authority>
  ): DispatchIdentity {
    DispatchIdentity(
      "governance-dispatch-commit-v1", requestId, permit.providerId, attemptId, permit.requestDigest, permit.requirement,
      permit.snapshot, if binding.Some? then Some(binding.value.id) else None,
      if authority.Some? then Some(authority.value.id) else None)
  }

  function CommitmentEvent(
    requestId: string, permit: Permit, attemptId: Option<string>, binding: Option<Binding>, authority: Option<Authority>
  ): Event {
    Event(
      DispatchId(CommitmentOf(requestId, permit, attemptId, binding, authority)), requestId,
      "distinction-governance-history-v1", "distinction-governance-1.0",
      DispatchCommitted(DispatchPayload(
        "governance-dispatch-commit-v1", requestId, permit.providerId, attemptId, permit.requestDigest,
        permit.qualificationDigest, permit.requirement, permit.snapshot, permit.leaseGeneration,
        if binding.Some? then Some(binding.value.id) else None, binding,
        if authority.Some? then Some(authority.value.id) else None, authority)))
  }

  /** An attempt marked with a commitment; refs that were not captured stay what they were. */
  function AttemptAfter(
    attempt: Attempt, requestId: string, permit: Permit, attemptId: Option<string>, binding: Option<Binding>,
    authority: Option<Authority>
  ): Attempt {
    Attempt(
      attempt.stepId, attempt.status,
      DispatchMarks(
        Some(CommitmentOf(requestId, permit, attemptId, binding, authority)), Some(permit.requirement), Some(permit.snapshot),
        Some(permit.requestDigest), if binding.Some? then Some(binding.value.id) else attempt.marks.bindingRef,
        if authority.Some? then Some(authority.value.id) else attempt.marks.authorityRef))
  }

  /** A commit that succeeds adds exactly its event, marks exactly its attempt, and returns exactly what it wrote. */
  lemma DispatchWrittenExactly(
    w: Domain, requestId: string, permit: Permit, resolution: Resolution, attemptId: Option<string>, target: Option<Target>
  )
    requires CommitDispatch(w, requestId, permit, resolution, attemptId, target).0.status == DispatchCommittedNow
    ensures exists binding, authority ::
      var (decision, after) := CommitDispatch(w, requestId, permit, resolution, attemptId, target);
      var e := CommitmentEvent(requestId, permit, attemptId, binding, authority);
      && (binding.Some? <==> target.Some?) && (authority.Some? ==> binding.Some?)
      && decision.commitRef == Some(CommitmentOf(requestId, permit, attemptId, binding, authority))
      && decision.snapshot == Some(permit.snapshot)
      && decision.bindingRef == (if binding.Some? then Some(binding.value.id) else None)
      && decision.authorityRef == (if authority.Some? then Some(authority.value.id) else None)
      && after.journal == (if e in w.journal then w.journal else w.journal + [e])
      && after.attempts.Keys == w.attempts.Keys
      && (forall id | id in w.attempts ::
            after.attempts[id] ==
              if attemptId == Some(id) then AttemptAfter(w.attempts[id], requestId, permit, attemptId, binding, authority)
              else w.attempts[id])
      && (attemptId.Some? ==> attemptId.value in w.attempts)
  {
    hide Authorize, CaptureTarget, Evaluate;
    DispatchProtocol.RefusalsNeverCommit(w.journal, resolution, permit);
    var captured := CaptureTarget(target, permit, requestId);
    var binding, authority := captured.value.0, captured.value.1;
    CapturedTogether(target, permit, requestId);
    assert DispatchEvent(requestId, permit, attemptId, binding, authority)
        == CommitmentEvent(requestId, permit, attemptId, binding, authority);
  }

  lemma CapturedTogether(target: Option<Target>, permit: Permit, requestId: string)
    ensures var captured := CaptureTarget(target, permit, requestId);
      captured.Some? ==> (captured.value.0.Some? <==> target.Some?) && (captured.value.1.Some? ==> captured.value.0.Some?)
  {
  }
}
