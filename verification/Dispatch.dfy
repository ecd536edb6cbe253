/**
 Committing one dispatch: governance is judged again and the commitment written
 in the same linearized step, together with the provider binding captured then.
 */
module Dispatch {
  import opened Wrappers
  import opened Text
  import opened Distinction
  import opened ExecutionIdentity
  import opened Canonical
  import opened History
  import opened Durable
  import opened UseAdmission
  import opened Registry
  import opened Stores

  datatype Permit = Permit(
    applicable: bool,
    providerId: string,
    requestDigest: string,
    qualificationDigest: string,
    requirement: RequirementDigest,
    snapshot: SnapshotDigest,
    leaseGeneration: int)

  /** The registry that served the provider lookup, as it is now, and the object that lookup returned. */
  datatype Target = Target(registry: RegistryState, now: Descriptions, expected: Option<ProviderRef>)

  datatype DispatchStatus =
    | DispatchNotApplicable
    | DispatchCommittedNow
    | DispatchBlocked
    | DispatchChanged
    | DispatchUnavailable
    | DispatchStale

  datatype DispatchDecision = DispatchDecision(
    status: DispatchStatus,
    commitRef: Option<DispatchIdentity>,
    snapshot: Option<SnapshotDigest>,
    bindingRef: Option<BindingDigest>,
    authorityRef: Option<AuthorityDigest>)

  /** The records a dispatch commitment reads and writes. */
  datatype Domain = Domain(journal: Journal, attempts: map<string, Attempt>)

  function RefusedWith(status: DispatchStatus, snapshot: Option<SnapshotDigest>): DispatchDecision {
    DispatchDecision(status, None, snapshot, None, None)
  }

  /** Current governance, as far as it differs from what the permit was issued under. */
  function Authorize(journal: Journal, resolution: Resolution, permit: Permit): Outcome<DispatchDecision> {
    var current := Evaluate(resolution, Some(journal), Some(journal));
    match current.status
    case Unavailable => Fail(RefusedWith(DispatchUnavailable, current.snapshot))
    case Stale => Fail(RefusedWith(DispatchStale, current.snapshot))
    case Blocked => Fail(RefusedWith(DispatchBlocked, current.snapshot))
    case NotApplicable => Fail(RefusedWith(DispatchChanged, current.snapshot))
    case Allowed =>
      if current.requirement != Some(permit.requirement) || current.snapshot != Some(permit.snapshot) then
        Fail(RefusedWith(DispatchChanged, current.snapshot))
      else Pass
  }

  /** Binding and authority captured from the registry; a failed capture yields no value at all. */
  function CaptureTarget(target: Option<Target>, permit: Permit, requestId: string): Option<(Option<Binding>, Option<Authority>)> {
    match target
    case None => Some((None, None))
    case Some(t) =>
      match CaptureForReconciliation(t.registry, t.now, permit.providerId, requestId, t.expected)
      case Err(_) => None
      case Ok((_, binding, authority)) =>
        if binding.providerId != permit.providerId then None
        else if authority.Some? && (authority.value.bindingRef != binding.id || authority.value.subject != requestId) then None
        else Some((Some(binding), authority))
  }

  function RefOf<T, U>(o: Option<T>, f: T -> U): Option<U> {
    match o
    case Some(x) => Some(f(x))
    case None => None
  }

  function CommitRef(
    requestId: string, permit: Permit, attemptId: Option<string>,
    bindingRef: Option<BindingDigest>, authorityRef: Option<AuthorityDigest>
  ): DispatchIdentity {
    DispatchIdentity(DISPATCH_SCHEMA, requestId, permit.providerId, attemptId, permit.requestDigest,
                     permit.requirement, permit.snapshot, bindingRef, authorityRef)
  }

  function BindingRefOf(binding: Option<Binding>): Option<BindingDigest> {
    RefOf(binding, (b: Binding) => b.id)
  }

  function AuthorityRefOf(authority: Option<Authority>): Option<AuthorityDigest> {
    RefOf(authority, (a: Authority) => a.id)
  }

  function Payload(
    requestId: string, permit: Permit, attemptId: Option<string>, binding: Option<Binding>, authority: Option<Authority>
  ): DispatchPayload {
    DispatchPayload(DISPATCH_SCHEMA, requestId, permit.providerId, attemptId, permit.requestDigest,
                    permit.qualificationDigest, permit.requirement, permit.snapshot, permit.leaseGeneration,
                    BindingRefOf(binding), binding, AuthorityRefOf(authority), authority)
  }

  function DispatchEvent(
    requestId: string, permit: Permit, attemptId: Option<string>, binding: Option<Binding>, authority: Option<Authority>
  ): Event {
    HistoryEvent(DispatchId(CommitRef(requestId, permit, attemptId, BindingRefOf(binding), AuthorityRefOf(authority))),
                 requestId, DispatchCommitted(Payload(requestId, permit, attemptId, binding, authority)))
  }

  /** The new marks; binding and authority refs that are not captured leave what was there. */
  function Marked(marks: DispatchMarks, ref: DispatchIdentity, permit: Permit): DispatchMarks {
    DispatchMarks(Some(ref), Some(permit.requirement), Some(permit.snapshot), Some(permit.requestDigest),
                  if ref.bindingRef.Some? then ref.bindingRef else marks.bindingRef,
                  if ref.authorityRef.Some? then ref.authorityRef else marks.authorityRef)
  }

  /** An attempt that carries another commitment cannot be given this one. */
  function MarkAttempt(
    attempts: map<string, Attempt>, attemptId: Option<string>, ref: DispatchIdentity, permit: Permit
  ): Option<map<string, Attempt>> {
    match attemptId
    case None => Some(attempts)
    case Some(id) =>
      if id !in attempts then None
      else if attempts[id].marks.commitRef.Some? && attempts[id].marks.commitRef != Some(ref) then None
      else Some(attempts[id := attempts[id].(marks := Marked(attempts[id].marks, ref, permit))])
  }

  function CommitDispatch(
    w: Domain, requestId: string, permit: Permit, resolution: Resolution, attemptId: Option<string>, target: Option<Target>
  ): (DispatchDecision, Domain) {
    if !permit.applicable then (RefusedWith(DispatchNotApplicable, None), w)
    else
      match Authorize(w.journal, resolution, permit)
      case Fail(decision) => (decision, w)
      case Pass =>
        match CaptureTarget(target, permit, requestId)
        case None => (RefusedWith(DispatchUnavailable, None), w)
        case Some((binding, authority)) =>
          var e := DispatchEvent(requestId, permit, attemptId, binding, authority);
          match MarkAttempt(w.attempts, attemptId, e.id.dispatch, permit)
          case None => (RefusedWith(DispatchUnavailable, None), w)
          case Some(attempts) =>
            match Append(w.journal, e)
            case Err(_) => (RefusedWith(DispatchUnavailable, None), w)
            case Ok(journal) =>
              (DispatchDecision(DispatchCommittedNow, Some(e.id.dispatch), Some(permit.snapshot),
                                BindingRefOf(binding), AuthorityRefOf(authority)),
               Domain(journal, attempts))
  }

  datatype RecoveryMode = Uncommitted | IdempotentRetry | Reconcile | UnknownRecovery

  function RecoveryModeOf(effectSemantics: string, attempt: Attempt): RecoveryMode {
    if attempt.marks.commitRef.None? then Uncommitted
    else if effectSemantics in {"pure", "idempotent", "deduplicatable"} then IdempotentRetry
    else if effectSemantics == "reconcilable" then Reconcile
    else UnknownRecovery
  }

  class GovernanceDispatchCommitter {
    const store: StateStore

    constructor (store: StateStore)
      ensures this.store == store
    {
      this.store := store;
    }

    function Records(): Domain
      reads store
    {
      Domain(store.journal, store.attempts)
    }

    /** An attempt that carries another commitment cannot be given this one. */
    method MarkFor(attemptId: Option<string>, commitRef: DispatchIdentity, permit: Permit) returns (marked: bool)
      modifies store`attempts
      ensures marked <==> MarkAttempt(old(store.attempts), attemptId, commitRef, permit).Some?
      ensures store.attempts == if marked then MarkAttempt(old(store.attempts), attemptId, commitRef, permit).value
                                else old(store.attempts)
    {
      if attemptId.None? {
        return true;
      }
      if attemptId.value !in store.attempts {
        return false;
      }
      var attempt := store.attempts[attemptId.value];
      if attempt.marks.commitRef.Some? && attempt.marks.commitRef != Some(commitRef) {
        return false;
      }
      store.attempts := store.attempts[attemptId.value := attempt.(marks := Marked(attempt.marks, commitRef, permit))];
      return true;
    }

    /** The gate is open for exactly this append. */
    method AppendThroughGate(e: Event) returns (refused: bool)
      requires store.bindingGate >= 0 && e.body.DispatchCommitted?
      modifies store`journal, store`bindingGate
      ensures refused <==> Append(old(store.journal), e).Err?
      ensures store.journal == if refused then old(store.journal) else Append(old(store.journal), e).value
      ensures store.bindingGate == old(store.bindingGate)
    {
      store.bindingGate := store.bindingGate + 1;
      refused := store.AppendEvent(e);
      store.bindingGate := store.bindingGate - 1;
    }

    /** One linearized write: attempt and event are both recorded or neither is, and the gate is left as found. */
    method Commit(requestId: string, permit: Permit, resolution: Resolution, attemptId: Option<string>, target: Option<Target>)
      returns (decision: DispatchDecision)
      requires store.bindingGate >= 0
      modifies store`journal, store`attempts, store`bindingGate
      ensures (decision, Records()) == CommitDispatch(old(Records()), requestId, permit, resolution, attemptId, target)
      ensures store.bindingGate == old(store.bindingGate)
    {
      hide Authorize, CaptureTarget, Marked, MarkAttempt, Append;
      if !permit.applicable {
        return RefusedWith(DispatchNotApplicable, None);
      }
      var current := Authorize(store.journal, resolution, permit);
      if current.Fail? {
        return current.error;
      }
      var captured := CaptureTarget(target, permit, requestId);
      if captured.None? {
        return RefusedWith(DispatchUnavailable, None);
      }
      var (binding, authority) := captured.value;
      var e := DispatchEvent(requestId, permit, attemptId, binding, authority);
      var snapshot := store.attempts;
      var marked := MarkFor(attemptId, e.id.dispatch, permit);
      if !marked {
        return RefusedWith(DispatchUnavailable, None);
      }
      var refused;
      if binding.Some? {
        refused := AppendThroughGate(e);
      } else {
        refused := store.AppendEvent(e);
      }
      if refused {
        store.attempts := snapshot;
        return RefusedWith(DispatchUnavailable, None);
      }
      return DispatchDecision(DispatchCommittedNow, Some(e.id.dispatch), Some(permit.snapshot),
                              BindingRefOf(binding), AuthorityRefOf(authority));
    }
  }
}
