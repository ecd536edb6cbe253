/**
 The reality boundary from the reliability stage on: select, precommit, account,
 check once more, commit the dispatch, call the provider, project the result. What one
 invocation does is a function of its circumstances and of the state it meets;
 the live boundary is proved to compute it.
 */
module Boundary {
  import opened Wrappers
  import opened ExecutionIdentity
  import opened Canonical
  import opened UseAdmission
  import opened Stores
  import opened Dispatch
  import CB = CircuitBreaker
  import R = Reliability

  datatype ResultStatus = ResultSucceeded | ResultFailed | ResultUnavailable | NeedsInput | ResultCancelled | ResultUnknown

  datatype Answer = Returned(status: ResultStatus) | Raised | Interrupted

  /** Execution facts know four final statuses; anything else counts as failed. */
  function Projected(s: ResultStatus): ExecutionStatus {
    match s
    case ResultSucceeded => Succeeded
    case ResultCancelled => Cancelled
    case ResultUnknown => Unknown
    case _ => Failed
  }

  datatype Code = GovernanceUnavailable | GovernanceStale | GovernanceChanged | QualificationChanged

  /** How the invocation ended, as the caller sees it. */
  datatype Exit =
    | ReliabilityBlocked(reason: R.Refusal)
    | StoppedBeforePermit
    | PrecommitFailed
    | AccountingFailed
    | LookupFailed
    | Aborted(code: Code)
    | AbortFailed(code: Code)
    | Done(status: ResultStatus)
    | Fenced
    | ResultNotCommitted
    | Cut

  /** How far a step and its attempt get where they are not saved in one transaction. */
  datatype Acceptance = AcceptsBoth | AcceptsStepOnly | AcceptsNeither

  /**
   The request with everything around the boundary that this invocation meets.
   It is about one provider: `healthy` says that selection gets to ask this
   provider's breaker, `permitIssued` that it then picks the provider and that
   nothing else stands against a permit.
   */
  datatype Circumstances = Circumstances(
    request: R.Request,
    requestId: string,
    assessedAt: real, askedAt: real, countedAt: real, stampedAt: real, calledAt: real, returnedAt: real,
    healthy: bool,
    permitIssued: bool,
    permit: Permit,
    durableWork: bool,
    precommit: Acceptance,
    stepId: string, attemptId: string, actionId: string,
    accountingWorks: bool,
    providerFound: bool,
    qualificationHolds: bool,
    resolution: Resolution,
    target: Option<Target>,
    abortAccepted: bool,
    answer: Answer,
    runBound: bool,
    fencingHolds: bool,
    demotion: Acceptance,
    projectionAccepted: bool)

  // ------------------------------------------------------- governance rechecks

  /** What stands against leaving for reality under this permit. */
  function PermitFailure(permit: Permit, current: Judgment): Option<Code> {
    match current.status
    case Unavailable => Some(GovernanceUnavailable)
    case Stale => Some(GovernanceStale)
    case Blocked => Some(GovernanceChanged)
    case _ =>
      if permit.applicable != (current.status == Allowed)
         || current.requirement != Some(permit.requirement) || current.snapshot != Some(permit.snapshot)
      then Some(GovernanceChanged)
      else None
  }

  /** What stands against issuing the permit after routing. */
  function RecheckFailure(reference: Judgment, current: Judgment): Option<Code> {
    match current.status
    case Unavailable => Some(GovernanceUnavailable)
    case Stale => Some(GovernanceStale)
    case Blocked => Some(GovernanceChanged)
    case _ =>
      if current.status != reference.status || current.requirement != reference.requirement
         || current.snapshot != reference.snapshot
      then Some(GovernanceChanged)
      else None
  }

  /** The permit was issued from this judgment. */
  predicate IssuedFrom(permit: Permit, reference: Judgment) {
    && reference.status in {Allowed, NotApplicable}
    && reference.requirement == Some(permit.requirement) && reference.snapshot == Some(permit.snapshot)
    && permit.applicable == (reference.status == Allowed)
  }

  function DispatchCode(status: DispatchStatus): Code {
    match status
    case DispatchUnavailable => GovernanceUnavailable
    case DispatchStale => GovernanceStale
    case _ => GovernanceChanged
  }

  // --------------------------------------------------------------------- records

  datatype Records = Records(
    steps: map<string, ExecutionStatus>,
    attempts: map<string, Attempt>,
    actions: map<string, ExecutionStatus>)

  /** All three records of an invocation, saved in one transaction. */
  function Settled(c: Circumstances, r: Records, withAction: bool, status: ExecutionStatus): Records
    requires c.attemptId in r.attempts
  {
    Records(r.steps[c.stepId := status],
            r.attempts[c.attemptId := r.attempts[c.attemptId].(status := status)],
            if withAction then r.actions[c.actionId := status] else r.actions)
  }

  /** The invocation holds the ids of its records. */
  predicate Recorded(c: Circumstances) {
    c.durableWork && c.precommit.AcceptsBoth?
  }

  /** A side effect gets all its records in one transaction; an observation gets what the store takes. */
  function Precommitted(c: Circumstances, r: Records): Records {
    if Recorded(c) then
      Records(r.steps[c.stepId := Running],
              r.attempts[c.attemptId := Attempt(c.stepId, Running, NO_MARKS)],
              if c.request.sideEffect then r.actions[c.actionId := Running] else r.actions)
    else if c.durableWork && c.precommit.AcceptsStepOnly? && !c.request.sideEffect then r.(steps := r.steps[c.stepId := Running])
    else r
  }

  /** After failed fencing step and attempt are demoted one after the other, the action not at all. */
  function Demoted(c: Circumstances, r: Records): Records
    requires c.attemptId in r.attempts
  {
    match c.demotion
    case AcceptsNeither => r
    case AcceptsStepOnly => r.(steps := r.steps[c.stepId := Unknown])
    case AcceptsBoth =>
      r.(steps := r.steps[c.stepId := Unknown],
         attempts := r.attempts[c.attemptId := r.attempts[c.attemptId].(status := Unknown)])
  }

  // -------------------------------------------------------------- the invocation

  /** Records and journal, what was told to the controls and to the breaker, and how often the provider was called. */
  datatype BoundaryState = BoundaryState(
    records: Records,
    journal: Journal,
    uses: seq<R.Event>,
    signals: seq<CB.Call>,
    calls: nat,
    blockReason: Option<R.Refusal>)

  function Used(s: BoundaryState, e: R.Event): BoundaryState {
    s.(uses := s.uses + [e])
  }

  /** A side effect no longer counts as active. */
  function Released(c: Circumstances, s: BoundaryState): BoundaryState {
    if c.request.sideEffect then Used(s, R.Completed(true)) else s
  }

  function DomainOf(s: BoundaryState): Domain {
    Domain(s.journal, s.records.attempts)
  }

  function Dispatched(c: Circumstances, w: Domain): (DispatchDecision, Domain) {
    CommitDispatch(w, c.requestId, c.permit, c.resolution, if Recorded(c) then Some(c.attemptId) else None, c.target)
  }

  /** What is judged immediately before the exit. */
  function JudgedNow(c: Circumstances, journal: Journal): Judgment {
    Evaluate(c.resolution, Some(journal), Some(journal))
  }

  predicate HoldsStill(c: Circumstances, journal: Journal) {
    c.qualificationHolds && PermitFailure(c.permit, JudgedNow(c, journal)).None?
  }

  /** Why the provider must not be called, if so. */
  function CheckCode(c: Circumstances, w: Domain): Option<Code> {
    if !c.qualificationHolds then Some(QualificationChanged)
    else if PermitFailure(c.permit, JudgedNow(c, w.journal)).Some? then PermitFailure(c.permit, JudgedNow(c, w.journal))
    else
      var status := Dispatched(c, w).0.status;
      if status == DispatchCommittedNow || status == DispatchNotApplicable then None else Some(DispatchCode(status))
  }

  /** The checks write nothing but the dispatch. */
  function Checked(c: Circumstances, s: BoundaryState): BoundaryState {
    if !HoldsStill(c, s.journal) then s
    else
      var after := Dispatched(c, DomainOf(s)).1;
      s.(journal := after.journal, records := s.records.(attempts := after.attempts))
  }

  function AbortSpec(c: Circumstances, code: Code, s: BoundaryState): (Exit, BoundaryState)
    requires Recorded(c) ==> c.attemptId in s.records.attempts
  {
    var released := Released(c, s);
    if !Recorded(c) then (Aborted(code), released)
    else if !c.abortAccepted then (AbortFailed(code), released)
    else (Aborted(code), released.(records := Settled(c, s.records, c.request.sideEffect, Cancelled)))
  }

  function OutcomeSignal(c: Circumstances): seq<CB.Call> {
    match c.answer
    case Raised => [CB.Failed(c.returnedAt)]
    case Returned(ResultFailed) => [CB.Failed(c.returnedAt)]
    case Returned(ResultSucceeded) => [CB.Succeed(c.returnedAt)]
    case _ => []
  }

  /** The breaker's state is read before the call, told of the outcome, and read again unless the call was cut off. */
  function Signals(c: Circumstances): seq<CB.Call> {
    [CB.Read(c.calledAt)] + OutcomeSignal(c) + if c.answer.Interrupted? then [] else [CB.Read(c.returnedAt)]
  }

  function Invoked(c: Circumstances, s: BoundaryState): BoundaryState {
    Released(c, s).(calls := s.calls + 1, signals := s.signals + Signals(c))
  }

  function ResultOf(a: Answer): ResultStatus
    requires !a.Interrupted?
  {
    if a.Raised? then ResultFailed else a.status
  }

  predicate FencedOff(c: Circumstances) {
    c.runBound && !c.fencingHolds
  }

  function ConcludeSpec(c: Circumstances, status: ResultStatus, s: BoundaryState): (Exit, BoundaryState)
    requires Recorded(c) ==> c.attemptId in s.records.attempts
  {
    if FencedOff(c) then (Fenced, if Recorded(c) then s.(records := Demoted(c, s.records)) else s)
    else if !Recorded(c) then (Done(status), s)
    else if !c.projectionAccepted then (ResultNotCommitted, s)
    else (Done(status), s.(records := Settled(c, s.records, true, Projected(status))))
  }

  function LeaveSpec(c: Circumstances, s: BoundaryState): (Exit, BoundaryState)
    requires Recorded(c) ==> c.attemptId in s.records.attempts
  {
    if !c.providerFound then (LookupFailed, Released(c, s))
    else
      var checked := Checked(c, s);
      CheckKeepsAttempts(c, s);
      match CheckCode(c, DomainOf(s))
      case Some(code) => AbortSpec(c, code, checked)
      case None =>
        if c.answer.Interrupted? then (Cut, Invoked(c, checked))
        else ConcludeSpec(c, ResultOf(c.answer), Invoked(c, checked))
  }

  /** The controls with their limits, from whose events the counters follow, and the settings of the breaker. */
  datatype Controls = Controls(limits: R.Limits, start: real, settings: CB.Settings)

  function CountersOf(k: Controls, s: BoundaryState): R.Counters {
    R.Run(k.limits, k.start, s.uses).counters
  }

  function RefusalFor(c: Circumstances, k: Controls, s: BoundaryState): Option<R.Refusal> {
    R.Assess(k.limits, CountersOf(k, s), c.request, c.assessedAt).0
  }

  /** Selection may pick the provider: it is healthy, and its breaker, being asked, does not refuse. */
  predicate Offered(c: Circumstances, k: Controls, s: BoundaryState) {
    c.healthy && !CB.Tripped(k.settings, s.signals, c.askedAt)
  }

  /** Asking is itself a signal to the breaker. */
  function Asked(c: Circumstances, signals: seq<CB.Call>): seq<CB.Call> {
    if c.healthy then signals + [CB.Ask(c.askedAt)] else signals
  }

  function ExecuteSpec(c: Circumstances, k: Controls, s: BoundaryState): (Exit, BoundaryState) {
    var refusal := RefusalFor(c, k, s);
    var assessed := Used(s, R.Assessed(c.assessedAt, c.request)).(blockReason := refusal);
    var asked := assessed.(signals := Asked(c, s.signals));
    var precommitted := asked.(records := Precommitted(c, s.records));
    if refusal.Some? then (ReliabilityBlocked(refusal.value), assessed)
    else if !Offered(c, k, s) || !c.permitIssued then (StoppedBeforePermit, Used(asked, R.Abandoned(c.request)))
    else if c.request.sideEffect && !Recorded(c) then (PrecommitFailed, Used(precommitted, R.Abandoned(c.request)))
    else if !c.accountingWorks then (AccountingFailed, Used(precommitted, R.Abandoned(c.request)))
    else LeaveSpec(c, Used(precommitted, R.Recorded(c.request, c.countedAt, c.stampedAt)))
  }

  /** A dispatch commitment changes no status and marks only the attempt it is for. */
  lemma CommitKeepsStatuses(
    w: Domain, requestId: string, permit: Permit, resolution: Resolution, attemptId: Option<string>, target: Option<Target>
  )
    ensures var (decision, after) := CommitDispatch(w, requestId, permit, resolution, attemptId, target);
      && (decision.status == DispatchNotApplicable ==> !permit.applicable)
      && after.attempts.Keys == w.attempts.Keys
      && (forall id | id in w.attempts :: after.attempts[id].status == w.attempts[id].status)
      && (forall id | id in w.attempts && Some(id) != attemptId :: after.attempts[id] == w.attempts[id])
      && (decision.status == DispatchCommittedNow && attemptId.Some? ==>
            && attemptId.value in after.attempts
            && after.attempts[attemptId.value].marks.commitRef.Some?
            && after.attempts[attemptId.value].marks.requirement == Some(permit.requirement)
            && after.attempts[attemptId.value].marks.snapshot == Some(permit.snapshot))
  {
    hide Evaluate, CaptureTarget, Append;
  }

  lemma CheckKeepsAttempts(c: Circumstances, s: BoundaryState)
    ensures var after := Checked(c, s).records;
      && after.steps == s.records.steps && after.actions == s.records.actions
      && after.attempts.Keys == s.records.attempts.Keys
      && (forall id | id in s.records.attempts :: after.attempts[id].status == s.records.attempts[id].status)
      && (forall id | id in s.records.attempts && !(Recorded(c) && id == c.attemptId) ::
            after.attempts[id] == s.records.attempts[id])
  {
    hide CommitDispatch, HoldsStill;
    CommitKeepsStatuses(
      DomainOf(s), c.requestId, c.permit, c.resolution, if Recorded(c) then Some(c.attemptId) else None, c.target);
  }

  // --------------------------------------------------------------- the live object

  class RealityBoundary {
    const store: StateStore
    const committer: GovernanceDispatchCommitter
    const reliability: R.ReliabilityControls
    const breaker: CB.LiveBreaker
    ghost var calls: nat

    constructor (
      store: StateStore, committer: GovernanceDispatchCommitter,
      reliability: R.ReliabilityControls, breaker: CB.LiveBreaker
    )
      requires committer.store == store && reliability.Valid() && breaker.Valid() && store.bindingGate >= 0
      ensures this.store == store && this.committer == committer && this.reliability == reliability && this.breaker == breaker
      ensures calls == 0 && Ready()
    {
      this.store, this.committer, this.reliability, this.breaker := store, committer, reliability, breaker;
      calls := 0;
    }

    ghost predicate Ready()
      reads this, store, reliability, breaker
    {
      committer.store == store && reliability.Valid() && breaker.Valid() && store.bindingGate >= 0
    }

    ghost function Abs(): BoundaryState
      reads this, store, reliability, breaker
    {
      BoundaryState(Rows(), store.journal, reliability.events, breaker.calls, calls, reliability.lastBlockReason)
    }

    ghost function Rows(): Records
      reads store
    {
      Records(store.steps, store.attempts, store.actions)
    }

    ghost function Limiting(): Controls {
      Controls(reliability.limits, reliability.start, breaker.settings)
    }

    /** The breaker is asked about a healthy provider, whatever comes of it. */
    method Select(c: Circumstances) returns (offered: bool)
      requires breaker.Valid() && breaker.NotBefore(c.askedAt)
      modifies breaker
      ensures breaker.Valid() && breaker.NotBefore(c.askedAt)
      ensures breaker.calls == Asked(c, old(breaker.calls))
      ensures offered <==> c.healthy && !CB.Tripped(breaker.settings, old(breaker.calls), c.askedAt)
    {
      hide CB.LiveBreaker.Valid, CB.Tripped;
      offered := false;
      if c.healthy {
        offered := breaker.Allow(c.askedAt);
      }
    }

    /** Side effects need all three records before anything else happens; observations record what they can. */
    method Precommit(c: Circumstances) returns (failed: bool, recorded: bool)
      modifies store`steps, store`attempts, store`actions
      ensures Rows() == Precommitted(c, old(Rows()))
      ensures recorded <==> Recorded(c)
      ensures failed <==> c.request.sideEffect && !Recorded(c)
    {
      if c.request.sideEffect {
        if !c.durableWork || !c.precommit.AcceptsBoth? {
          return true, false;
        }
        store.steps := store.steps[c.stepId := Running];
        store.attempts := store.attempts[c.attemptId := Attempt(c.stepId, Running, NO_MARKS)];
        store.actions := store.actions[c.actionId := Running];
        return false, true;
      }
      if !c.durableWork || c.precommit.AcceptsNeither? {
        return false, false;
      }
      store.steps := store.steps[c.stepId := Running];
      if c.precommit.AcceptsStepOnly? {
        return false, false;
      }
      store.attempts := store.attempts[c.attemptId := Attempt(c.stepId, Running, NO_MARKS)];
      return false, true;
    }

    /** Either all records become final together or none does. */
    method SetAll(c: Circumstances, withAction: bool, status: ExecutionStatus, accepted: bool) returns (done: bool)
      requires c.attemptId in store.attempts
      modifies store`steps, store`attempts, store`actions
      ensures done == accepted
      ensures Rows() == if done then Settled(c, old(Rows()), withAction, status) else old(Rows())
    {
      if accepted {
        store.steps := store.steps[c.stepId := status];
        store.attempts := store.attempts[c.attemptId := store.attempts[c.attemptId].(status := status)];
        if withAction {
          store.actions := store.actions[c.actionId := status];
        }
      }
      return accepted;
    }

    /** Capacity held by a side effect is given back. */
    method Release(started: bool)
      requires Ready()
      modifies reliability
      ensures Ready() && reliability.lastBlockReason == old(reliability.lastBlockReason)
      ensures reliability.events == if started then old(reliability.events) + [R.Completed(true)] else old(reliability.events)
    {
      if started {
        reliability.CompleteOne(true);
      }
    }

    /** Gives up before the provider is called: capacity is released and the records are cancelled. */
    method AbortBeforeRealityExit(c: Circumstances, recorded: bool, code: Code) returns (exit: Exit)
      requires Ready() && (recorded <==> Recorded(c)) && (recorded ==> c.attemptId in store.attempts)
      modifies store`steps, store`attempts, store`actions, reliability
      ensures Ready() && (exit, Abs()) == AbortSpec(c, code, old(Abs()))
    {
      Release(c.request.sideEffect);
      if !recorded {
        return Aborted(code);
      }
      var done := SetAll(c, c.request.sideEffect, Cancelled, c.abortAccepted);
      return if done then Aborted(code) else AbortFailed(code);
    }

    /** Only a failure, an exception and a success are reported. */
    method Report(c: Circumstances)
      requires breaker.Valid() && breaker.NotBefore(c.returnedAt)
      modifies breaker
      ensures breaker.Valid() && breaker.NotBefore(c.returnedAt)
      ensures breaker.calls == old(breaker.calls) + OutcomeSignal(c)
    {
      hide CB.LiveBreaker.Valid;
      match c.answer {
        case Raised =>
          breaker.RecordFailure(c.returnedAt);
        case Returned(status) =>
          if status == ResultFailed {
            breaker.RecordFailure(c.returnedAt);
          } else if status == ResultSucceeded {
            breaker.RecordSuccess(c.returnedAt);
          }
        case Interrupted =>
      }
      assert old(breaker.calls) + [] == old(breaker.calls);
    }

    /** The provider is called, its answer reported to the breaker, and capacity released whatever happened. */
    method Invoke(c: Circumstances) returns (result: Option<ResultStatus>)
      requires Ready() && breaker.NotBefore(c.calledAt) && c.calledAt <= c.returnedAt
      modifies this`calls, breaker, reliability
      ensures Ready() && Abs() == Invoked(c, old(Abs()))
      ensures result == if c.answer.Interrupted? then None else Some(ResultOf(c.answer))
    {
      hide CB.LiveBreaker.Valid, R.ReliabilityControls.Valid, OutcomeSignal;
      var before := breaker.State(c.calledAt);
      calls := calls + 1;
      Report(c);
      Release(c.request.sideEffect);
      if c.answer.Interrupted? {
        return None;
      }
      var after := breaker.State(c.returnedAt);
      return Some(ResultOf(c.answer));
    }

    /** Qualification, governance, and the dispatch commitment; a code means the provider must not be called. */
    method FinalChecks(c: Circumstances, recorded: bool) returns (code: Option<Code>)
      requires Ready() && (recorded <==> Recorded(c))
      modifies store`journal, store`attempts, store`bindingGate
      ensures Ready() && store.bindingGate == old(store.bindingGate)
      ensures code == CheckCode(c, old(DomainOf(Abs()))) && Abs() == Checked(c, old(Abs()))
    {
      hide Evaluate, PermitFailure, CommitDispatch, R.ReliabilityControls.Valid, CB.LiveBreaker.Valid;
      if !c.qualificationHolds {
        return Some(QualificationChanged);
      }
      var failure := PermitFailure(c.permit, Evaluate(c.resolution, Some(store.journal), Some(store.journal)));
      if failure.Some? {
        return failure;
      }
      var decision := committer.Commit(
        c.requestId, c.permit, c.resolution, if recorded then Some(c.attemptId) else None, c.target);
      if decision.status == DispatchCommittedNow || decision.status == DispatchNotApplicable {
        return None;
      }
      return Some(DispatchCode(decision.status));
    }

    /** Post-call fencing, then the projection of the result. */
    method Conclude(c: Circumstances, recorded: bool, status: ResultStatus) returns (exit: Exit)
      requires Ready() && (recorded <==> Recorded(c)) && (recorded ==> c.attemptId in store.attempts)
      modifies store`steps, store`attempts, store`actions
      ensures Ready() && (exit, Abs()) == ConcludeSpec(c, status, old(Abs()))
    {
      if c.runBound && !c.fencingHolds {
        if recorded && !c.demotion.AcceptsNeither? {
          store.steps := store.steps[c.stepId := Unknown];
          if c.demotion.AcceptsBoth? {
            store.attempts := store.attempts[c.attemptId := store.attempts[c.attemptId].(status := Unknown)];
          }
        }
        return Fenced;
      }
      if recorded {
        var done := SetAll(c, true, Projected(status), c.projectionAccepted);
        if !done {
          return ResultNotCommitted;
        }
      }
      return Done(status);
    }

    /** From the moment a side effect counts as started until it no longer does. */
    method LeaveForReality(c: Circumstances, recorded: bool) returns (exit: Exit)
      requires Ready() && (recorded <==> Recorded(c)) && (recorded ==> c.attemptId in store.attempts)
      requires breaker.NotBefore(c.calledAt) && c.calledAt <= c.returnedAt
      modifies this`calls, store, breaker, reliability
      ensures Ready() && store.bindingGate == old(store.bindingGate)
      ensures (exit, Abs()) == LeaveSpec(c, old(Abs()))
    {
      hide CheckCode, Checked, Invoked, AbortSpec, ConcludeSpec, R.ReliabilityControls.Valid, CB.LiveBreaker.Valid;
      CheckKeepsAttempts(c, Abs());
      if !c.providerFound {
        Release(c.request.sideEffect);
        return LookupFailed;
      }
      var code := FinalChecks(c, recorded);
      if code.Some? {
        exit := AbortBeforeRealityExit(c, recorded, code.value);
        return;
      }
      InvokingKeepsRecords(c, Abs());
      var result := Invoke(c);
      if result.None? {
        return Cut;
      }
      exit := Conclude(c, recorded, result.value);
    }

    /** The whole invocation computes the specified exit and the specified state. */
    method Execute(c: Circumstances) returns (exit: Exit)
      requires Ready() && breaker.NotBefore(c.askedAt) && c.askedAt <= c.calledAt <= c.returnedAt
      modifies this`calls, store, breaker, reliability
      ensures Ready() && store.bindingGate == old(store.bindingGate)
      ensures (exit, Abs()) == ExecuteSpec(c, Limiting(), old(Abs()))
    {
      hide R.Assess, R.Run, LeaveSpec, CB.LiveBreaker.Valid, CB.Tripped;
      var refusal := reliability.AssessRequest(c.request, c.assessedAt);
      if refusal.Some? {
        return ReliabilityBlocked(refusal.value);
      }
      var offered := Select(c);
      if !offered || !c.permitIssued {
        reliability.Abandon(c.request);
        return StoppedBeforePermit;
      }
      var failed, recorded := Precommit(c);
      if failed {
        reliability.Abandon(c.request);
        return PrecommitFailed;
      }
      if !c.accountingWorks {
        reliability.Abandon(c.request);
        return AccountingFailed;
      }
      reliability.RecordOne(c.request, c.countedAt, c.stampedAt);
      exit := LeaveForReality(c, recorded);
    }
  }

  lemma InvokingKeepsRecords(c: Circumstances, s: BoundaryState)
    ensures Invoked(c, s).records == s.records
  {
  }
}
