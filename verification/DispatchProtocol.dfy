/**
 Governance commits, registry changes, dispatch commits and record updates in
 any interleaving. Whatever the order, a dispatch in the journal was preceded by
 a history under which its use was permitted, and attempts and dispatches agree.
 */
module DispatchProtocol {
  import opened Wrappers
  import opened Text
  import opened Distinction
  import opened ExecutionIdentity
  import opened Canonical
  import opened History
  import opened Durable
  import opened Coherence
  import opened Runs
  import opened UseAdmission
  import opened Registry
  import opened Stores
  import opened Dispatch

  datatype Lookup = Lookup(now: Descriptions, expected: Option<ProviderRef>)

  datatype Step =
    | Govern(op: Operation)
    | Configure(change: RegistryOp)
    | StartAttempt(id: string, stepId: string)
    | SettleAttempt(id: string, status: ExecutionStatus)
    | TryDispatch(requestId: string, permit: Permit, resolution: Resolution, attemptId: Option<string>, lookup: Option<Lookup>)
    | AppendDirectly(event: Event)

  datatype World = World(governance: Durable, changes: seq<RegistryOp>, attempts: map<string, Attempt>)

  const START := World(EMPTY, [], map[])

  function TargetIn(w: World, lookup: Option<Lookup>): Option<Target> {
    match lookup
    case None => None
    case Some(l) => Some(Target(RegistryRun(w.changes), l.now, l.expected))
  }

  function Take(w: World, step: Step): World {
    match step
    case Govern(op) => if op.OtherEvent? then w else w.(governance := After(w.governance, op))
    case Configure(change) => w.(changes := w.changes + [change])
    case StartAttempt(id, stepId) =>
      if id in w.attempts then w else w.(attempts := w.attempts[id := Attempt(stepId, Running, NO_MARKS)])
    case SettleAttempt(id, status) =>
      if id !in w.attempts then w else w.(attempts := w.attempts[id := w.attempts[id].(status := status)])
    case TryDispatch(requestId, permit, resolution, attemptId, lookup) =>
      var (_, after) := CommitDispatch(
        Domain(w.governance.journal, w.attempts), requestId, permit, resolution, attemptId, TargetIn(w, lookup));
      World(w.governance.(journal := after.journal), w.changes, after.attempts)
    // The event's own gate, if it has one, may well be open; the one for bound dispatches is the committer's.
    case AppendDirectly(e) =>
      if CarriesBinding(e) then w else w.(governance := After(w.governance, OtherEvent(e)))
  }

  function Play(steps: seq<Step>): World {
    if steps == [] then START else Take(Play(steps[..|steps| - 1]), steps[|steps| - 1])
  }

  /** The dispatches appended past the committer; only unbound ones ever land. */
  ghost function Foreign(steps: seq<Step>): set<Event> {
    set i | 0 <= i < |steps| && steps[i].AppendDirectly? && steps[i].event.body.DispatchCommitted? :: steps[i].event
  }

  /** Dispatches that can only have come through the committer. */
  ghost predicate Committed(e: Event, foreign: set<Event>) {
    e.body.DispatchCommitted? && (CarriesBinding(e) || e !in foreign)
  }

  // ---------------------------------------------------------- what a dispatch rests on

  function RequirementIn(p: DispatchPayload): UseRequirement
    requires p.requirement.BoundRequirement?
  {
    UseRequirement(p.requirement.schemeId, UseContext(p.requirement.name, p.requirement.requestedScope))
  }

  /** The history so far folds to a configuration usable as required, with exactly the digests committed to. */
  ghost predicate Justified(earlier: Journal, p: DispatchPayload) {
    p.requirement.BoundRequirement? &&
    var r := RequirementIn(p);
    && p.requirement == RequirementOf(r)
    && Judged(earlier, r.schemeId)
    && var config := Reconstruct(earlier).value.configuration;
    && Usable(config, r.schemeId, r.use)
    && p.snapshot == SnapshotOf(config.states[r.schemeId], config.obligations, r)
  }

  /** Binding and authority stem from one and the same registration. */
  ghost predicate FromOneRegistration(registrations: seq<Registration>, p: DispatchPayload) {
    p.binding.Some? ==>
      exists g | g in registrations ::
        && g.binding == p.binding.value
        && (p.authority.Some? ==> g.contract.Some? && BuildAuthority(g.contract.value, p.requestId) == Ok(p.authority.value))
  }

  lemma AuthorizedIsJustified(journal: Journal, resolution: Resolution, permit: Permit)
    requires Authorize(journal, resolution, permit).Pass?
    ensures resolution.Bound? && permit.requirement == RequirementOf(resolution.requirement)
    ensures var r := resolution.requirement;
      && Judged(journal, r.schemeId)
      && var config := Reconstruct(journal).value.configuration;
      && Usable(config, r.schemeId, r.use)
      && permit.snapshot == SnapshotOf(config.states[r.schemeId], config.obligations, r)
  {
    hide Evaluate, Usable, SnapshotOf, Absorbs, Judge, GovernanceEvents;
    AllowedOnlyIfBound(resolution, journal);
    var r := resolution.requirement;
    VerdictExactlyWhenJudged(r, Some(journal), Some(journal));
    AllowedExactlyWhenUsable(r, journal, journal);
    JudgedFromHistory(r, journal, journal);
    var config := Reconstruct(journal).value.configuration;
    JudgeCarriesSnapshot(config.states[r.schemeId], config, r);
  }

  lemma AllowedOnlyIfBound(resolution: Resolution, journal: Journal)
    requires Evaluate(resolution, Some(journal), Some(journal)).status == Allowed
    ensures resolution.Bound?
  {
    hide Reconstruct, GovernanceEvents, Judge;
  }

  lemma RefusalsNeverCommit(journal: Journal, resolution: Resolution, permit: Permit)
    ensures Authorize(journal, resolution, permit).Fail? ==>
      Authorize(journal, resolution, permit).error.status != DispatchCommittedNow
  {
    hide Evaluate;
  }

  /** Every commitment the committer makes, spelled out. */
  lemma CommitFacts(
    w: Domain, requestId: string, permit: Permit, resolution: Resolution, attemptId: Option<string>, target: Option<Target>
  ) returns (binding: Option<Binding>, authority: Option<Authority>)
    requires CommitDispatch(w, requestId, permit, resolution, attemptId, target).0.status == DispatchCommittedNow
    ensures Authorize(w.journal, resolution, permit).Pass?
    ensures CaptureTarget(target, permit, requestId) == Some((binding, authority))
    ensures var e, after := DispatchEvent(requestId, permit, attemptId, binding, authority),
                            CommitDispatch(w, requestId, permit, resolution, attemptId, target).1;
      && Append(w.journal, e) == Ok(after.journal)
      && MarkAttempt(w.attempts, attemptId, e.id.dispatch, permit) == Some(after.attempts)
  {
    hide Authorize, CaptureTarget, MarkAttempt;
    RefusalsNeverCommit(w.journal, resolution, permit);
    var captured := CaptureTarget(target, permit, requestId);
    binding, authority := captured.value.0, captured.value.1;
  }

  lemma OtherwiseNothing(
    w: Domain, requestId: string, permit: Permit, resolution: Resolution, attemptId: Option<string>, target: Option<Target>
  )
    requires CommitDispatch(w, requestId, permit, resolution, attemptId, target).0.status != DispatchCommittedNow
    ensures CommitDispatch(w, requestId, permit, resolution, attemptId, target).1 == w
  {
    hide Authorize, CaptureTarget, MarkAttempt, Append;
  }

  /** Recomputing the identity from what was committed gives the event's id, whatever was captured. */
  lemma IdentityRecomputes(
    requestId: string, permit: Permit, attemptId: Option<string>, binding: Option<Binding>, authority: Option<Authority>
  )
    ensures var e := DispatchEvent(requestId, permit, attemptId, binding, authority);
      && e.id == DispatchId(IdentityFromPayload(e.body.dispatch))
      && Minted(e) && !IsGovernance(e)
      && (e.body.dispatch.bindingRef.Some? <==> binding.Some?)
      && (e.body.dispatch.authorityRef.Some? <==> authority.Some?)
  {
  }

  lemma CapturedIsSound(changes: seq<RegistryOp>, lookup: Option<Lookup>, permit: Permit, requestId: string)
    requires CaptureTarget(TargetIn(World(EMPTY, changes, map[]), lookup), permit, requestId).Some?
    ensures var (binding, authority) := CaptureTarget(TargetIn(World(EMPTY, changes, map[]), lookup), permit, requestId).value;
      && (binding.Some? ==> ValidBinding(binding.value) && binding.value.providerId == permit.providerId)
      && (authority.Some? ==>
            && binding.Some? && ValidAuthority(authority.value)
            && authority.value.bindingRef == binding.value.id && authority.value.subject == requestId)
      && (binding.Some? ==>
            exists g | g in Registrations(changes) ::
              && g.binding == binding.value
              && (authority.Some? ==> g.contract.Some? && BuildAuthority(g.contract.value, requestId) == Ok(authority.value)))
  {
    hide RegistryRun, Registrations, ValidBinding, BuildAuthority, ValidContract;
    if lookup.Some? {
      CapturedFromOneRegistration(changes, lookup.value.now, permit.providerId, requestId, lookup.value.expected);
      EveryRegistryRunIsConsistent(changes);
      var authority := CaptureTarget(TargetIn(World(EMPTY, changes, map[]), lookup), permit, requestId).value.1;
      if authority.Some? {
        BuiltAuthorityIsValid(RegistryRun(changes).contracts[permit.providerId], requestId);
      }
    }
  }

  predicate RepeatSafeAt(r: RegistryState, id: string) {
    id in r.contracts && r.contracts[id].mode == RepeatSafe
  }

  /**
   On every reachable registry the target is captured exactly when the provider
   is, and, where a repeat-safe contract is configured for it, the request id is
   a text without blanks around it: the authority would name another.
   */
  lemma CapturedExactly(changes: seq<RegistryOp>, lookup: Lookup, permit: Permit, requestId: string)
    ensures var r := RegistryRun(changes);
      CaptureTarget(Some(Target(r, lookup.now, lookup.expected)), permit, requestId).Some?
      <==>
      (&& Capture(r, lookup.now, permit.providerId, lookup.expected).Ok?
       && (RepeatSafeAt(r, permit.providerId) ==> requestId != "" && Strip(requestId) == requestId))
  {
    hide Strip, RegistryRun, ValidBinding, ValidContract;
    EveryRegistryRunIsConsistent(changes);
    if RepeatSafeAt(RegistryRun(changes), permit.providerId) && Strip(requestId) != "" {
      assert BuildAuthority(RegistryRun(changes).contracts[permit.providerId], requestId).value.subject == Strip(requestId);
    }
  }

  const STEADY := Descriptor("p", true, "s")

  /** One provider, registered with a repeat-safe contract. */
  const REGISTERED := [Add(RegistrationRequest(ProviderRef(0), STEADY, Some("i"), Some("c"),
                                               Some(RepeatabilityConfiguration("q", "1", RepeatSafe, "1")), ""))]

  /** There, the one blank before the request id decides. */
  lemma PaddedRequestsAreRefused(permit: Permit)
    requires permit.providerId == "p"
    ensures var r, now := RegistryRun(REGISTERED), (p: ProviderRef) => STEADY;
      && CaptureTarget(Some(Target(r, now, Some(ProviderRef(0)))), permit, "r").Some?
      && CaptureTarget(Some(Target(r, now, Some(ProviderRef(0)))), permit, " r").None?
  {
    var now := (p: ProviderRef) => STEADY;
    assert REGISTERED[..0] == [];
    assert Strip("i") == "i" && Strip("c") == "c" && Strip("r") == "r";
    assert Strip(" r") == "r" by {
      assert " r"[1..] == "r";
    }
    CapturedExactly(REGISTERED, Lookup(now, Some(ProviderRef(0))), permit, "r");
    CapturedExactly(REGISTERED, Lookup(now, Some(ProviderRef(0))), permit, " r");
  }

  lemma BuiltAuthorityIsValid(c: Contract, subject: string)
    requires BuildAuthority(c, subject).Ok?
    ensures ValidAuthority(BuildAuthority(c, subject).value) && BuildAuthority(c, subject).value.subject != ""
  {
  }

  /** A committed payload decodes to the very binding and authority that were captured. */
  lemma CommittedPayloadDecodes(
    changes: seq<RegistryOp>, lookup: Option<Lookup>, permit: Permit, requestId: string, attemptId: Option<string>
  )
    requires CaptureTarget(TargetIn(World(EMPTY, changes, map[]), lookup), permit, requestId).Some?
    ensures var (binding, authority) := CaptureTarget(TargetIn(World(EMPTY, changes, map[]), lookup), permit, requestId).value;
      var p := Payload(requestId, permit, attemptId, binding, authority);
      && BindingFromDispatch(p) == (if binding.Some? then Ok(binding.value) else Err(NoOriginalFact))
      && (requestId != "" ==>
            AuthorityFromDispatch(p, requestId) == (if authority.Some? then Ok(authority.value) else Err(NoOriginalFact)))
  {
    hide CaptureTarget, Registrations, ValidBinding, ValidAuthority, BuildAuthority;
    CapturedIsSound(changes, lookup, permit, requestId);
  }

  // -------------------------------------------------------------- world invariant

  ghost predicate AllJustified(journal: Journal, foreign: set<Event>) {
    forall i | 0 <= i < |journal| && Committed(journal[i], foreign) :: Justified(journal[..i], journal[i].body.dispatch)
  }

  ghost predicate AllFromRegistrations(journal: Journal, changes: seq<RegistryOp>) {
    forall e | e in journal && e.body.DispatchCommitted? && CarriesBinding(e) ::
      FromOneRegistration(Registrations(changes), e.body.dispatch)
  }

  /** The attempt a committed dispatch names carries that very commitment. */
  ghost predicate DispatchesMarked(journal: Journal, attempts: map<string, Attempt>, foreign: set<Event>) {
    forall e | e in journal && Committed(e, foreign) && e.body.dispatch.attemptRef.Some? ::
      && e.body.dispatch.attemptRef.value in attempts
      && attempts[e.body.dispatch.attemptRef.value].marks.commitRef == Some(IdentityFromPayload(e.body.dispatch))
  }

  /** A commitment an attempt carries is an event in the journal, made for that attempt. */
  ghost predicate MarksRecorded(journal: Journal, attempts: map<string, Attempt>) {
    forall id | id in attempts && attempts[id].marks.commitRef.Some? :: MarkRecorded(journal, id, attempts[id].marks.commitRef.value)
  }

  ghost predicate MarkRecorded(journal: Journal, id: string, ref: DispatchIdentity) {
    exists e | e in journal :: e.id == DispatchId(ref) && e.body.DispatchCommitted? && e.body.dispatch.attemptRef == Some(id)
  }

  ghost predicate Secure(w: World, foreign: set<Event>) {
    && Indexed(w.governance)
    && AllJustified(w.governance.journal, foreign)
    && AllFromRegistrations(w.governance.journal, w.changes)
    && DispatchesMarked(w.governance.journal, w.attempts, foreign)
    && MarksRecorded(w.governance.journal, w.attempts)
  }

  /** Events that are not committed dispatches disturb none of this. */
  lemma UncommittedEventsHarmless(
    j: Journal, longer: Journal, changes: seq<RegistryOp>, attempts: map<string, Attempt>, foreign: set<Event>
  )
    requires j <= longer && forall i | |j| <= i < |longer| :: !Committed(longer[i], foreign)
    requires AllJustified(j, foreign) && AllFromRegistrations(j, changes)
    requires DispatchesMarked(j, attempts, foreign) && MarksRecorded(j, attempts)
    ensures AllJustified(longer, foreign) && AllFromRegistrations(longer, changes)
    ensures DispatchesMarked(longer, attempts, foreign) && MarksRecorded(longer, attempts)
  {
    hide Justified, FromOneRegistration, Registrations;
    forall e | e in longer && Committed(e, foreign) ensures e in j {
      var i :| 0 <= i < |longer| && longer[i] == e;
      assert i < |j| && j[i] == e;
    }
    forall i | 0 <= i < |longer| && Committed(longer[i], foreign) ensures Justified(longer[..i], longer[i].body.dispatch) {
      assert longer[i] == j[i] && longer[..i] == j[..i];
    }
    forall id | id in attempts && attempts[id].marks.commitRef.Some?
      ensures MarkRecorded(longer, id, attempts[id].marks.commitRef.value)
    {
      MarkStaysRecorded(j, longer, id, attempts[id].marks.commitRef.value);
    }
  }

  lemma MarkStaysRecorded(j: Journal, longer: Journal, id: string, ref: DispatchIdentity)
    requires j <= longer && MarkRecorded(j, id, ref)
    ensures MarkRecorded(longer, id, ref)
  {
    var e :| e in j && e.id == DispatchId(ref) && e.body.DispatchCommitted? && e.body.dispatch.attemptRef == Some(id);
    assert e in longer;
  }

  lemma GovernSecure(w: World, op: Operation, foreign: set<Event>)
    requires Secure(w, foreign)
    requires op.OtherEvent? ==> !Committed(op.event, foreign)
    ensures Secure(w.(governance := After(w.governance, op)), foreign)
  {
    hide Indexed, AllJustified, AllFromRegistrations, DispatchesMarked, MarksRecorded, After;
    StepIndexed(w.governance, op);
    StepExtends(w.governance, op);
    UncommittedEventsHarmless(w.governance.journal, After(w.governance, op).journal, w.changes, w.attempts, foreign);
  }

  lemma ConfigureSecure(w: World, change: RegistryOp, foreign: set<Event>)
    requires Secure(w, foreign)
    ensures Secure(w.(changes := w.changes + [change]), foreign)
  {
    hide Indexed, AllJustified, DispatchesMarked, MarksRecorded, Prepare;
    var longer := w.changes + [change];
    assert longer[..|w.changes|] == w.changes;
    forall g | g in Registrations(w.changes) ensures g in Registrations(longer) {}
    forall e | e in w.governance.journal && e.body.DispatchCommitted? && CarriesBinding(e)
      ensures FromOneRegistration(Registrations(longer), e.body.dispatch)
    {
      assert FromOneRegistration(Registrations(w.changes), e.body.dispatch);
    }
  }

  lemma RecordsSecure(w: World, attempts: map<string, Attempt>, foreign: set<Event>)
    requires Secure(w, foreign)
    requires forall id | id in w.attempts :: id in attempts && attempts[id].marks == w.attempts[id].marks
    requires forall id | id in attempts && id !in w.attempts :: attempts[id].marks == NO_MARKS
    ensures Secure(w.(attempts := attempts), foreign)
  {
    hide Indexed, AllJustified, AllFromRegistrations, MarkRecorded;
  }

  // ---------------------------------------------------------------- a commitment

  lemma CommitJustified(j: Journal, e: Event, resolution: Resolution, permit: Permit, foreign: set<Event>)
    requires AllJustified(j, foreign) && Authorize(j, resolution, permit).Pass?
    requires e.body.DispatchCommitted? && e.body.dispatch.requirement == permit.requirement
    requires e.body.dispatch.snapshot == permit.snapshot
    ensures AllJustified(j + [e], foreign)
  {
    hide Authorize, Judged, Usable, SnapshotOf, Reconstruct;
    AuthorizedIsJustified(j, resolution, permit);
    assert Justified(j, e.body.dispatch);
    var longer := j + [e];
    forall i | 0 <= i < |longer| && Committed(longer[i], foreign) ensures Justified(longer[..i], longer[i].body.dispatch) {
      assert longer[..i] == if i < |j| then j[..i] else j;
    }
  }

  lemma CommitMarks(j: Journal, after: Journal, attempts: map<string, Attempt>, marked: map<string, Attempt>,
                    e: Event, permit: Permit, foreign: set<Event>)
    requires DispatchesMarked(j, attempts, foreign) && MarksRecorded(j, attempts)
    requires j <= after && e in after && forall x | x in after :: x in j || x == e
    requires e.body.DispatchCommitted? && e.id == DispatchId(IdentityFromPayload(e.body.dispatch))
    requires MarkAttempt(attempts, e.body.dispatch.attemptRef, IdentityFromPayload(e.body.dispatch), permit) == Some(marked)
    ensures DispatchesMarked(after, marked, foreign) && MarksRecorded(after, marked)
  {
    forall id | id in marked && marked[id].marks.commitRef.Some?
      ensures MarkRecorded(after, id, marked[id].marks.commitRef.value)
    {
      if id in attempts && attempts[id].marks.commitRef == marked[id].marks.commitRef {
        MarkStaysRecorded(j, after, id, marked[id].marks.commitRef.value);
      }
    }
  }

  lemma CommitFromRegistration(j: Journal, e: Event, changes: seq<RegistryOp>)
    requires AllFromRegistrations(j, changes) && e.body.DispatchCommitted?
    requires FromOneRegistration(Registrations(changes), e.body.dispatch)
    ensures AllFromRegistrations(j + [e], changes)
  {
    hide FromOneRegistration, Registrations;
  }

  lemma DispatchSecure(
    w: World, requestId: string, permit: Permit, resolution: Resolution, attemptId: Option<string>, lookup: Option<Lookup>,
    foreign: set<Event>
  )
    requires Secure(w, foreign)
    ensures Secure(Take(w, TryDispatch(requestId, permit, resolution, attemptId, lookup)), foreign)
  {
    hide Indexed, AllJustified, AllFromRegistrations, DispatchesMarked, MarksRecorded, MarkAttempt, CommitDispatch,
      CaptureTarget, Authorize, Append, Registrations, FromOneRegistration, Minted, Payload;
    var d, records := w.governance, Domain(w.governance.journal, w.attempts);
    var target := TargetIn(w, lookup);
    if CommitDispatch(records, requestId, permit, resolution, attemptId, target).0.status != DispatchCommittedNow {
      OtherwiseNothing(records, requestId, permit, resolution, attemptId, target);
    } else {
      var binding, authority := CommitFacts(records, requestId, permit, resolution, attemptId, target);
      var e := DispatchEvent(requestId, permit, attemptId, binding, authority);
      IdentityRecomputes(requestId, permit, attemptId, binding, authority);
      AppendAdds(d.journal, e);
      CommitMarks(d.journal, Append(d.journal, e).value, w.attempts,
                  CommitDispatch(records, requestId, permit, resolution, attemptId, target).1.attempts, e, permit, foreign);
      CommitKeepsIndex(d, e);
      if e !in d.journal {
        CommitJustified(d.journal, e, resolution, permit, foreign);
        CapturedHasRegistration(w.changes, lookup, permit, requestId, attemptId);
        CommitFromRegistration(d.journal, e, w.changes);
      }
    }
  }

  lemma CapturedHasRegistration(
    changes: seq<RegistryOp>, lookup: Option<Lookup>, permit: Permit, requestId: string, attemptId: Option<string>
  )
    requires CaptureTarget(TargetIn(World(EMPTY, changes, map[]), lookup), permit, requestId).Some?
    ensures var (binding, authority) := CaptureTarget(TargetIn(World(EMPTY, changes, map[]), lookup), permit, requestId).value;
      FromOneRegistration(Registrations(changes), Payload(requestId, permit, attemptId, binding, authority))
  {
    hide CaptureTarget, Registrations, BuildAuthority, ValidBinding, ValidAuthority;
    CapturedIsSound(changes, lookup, permit, requestId);
  }

  lemma CommitKeepsIndex(d: Durable, e: Event)
    requires Indexed(d) && Append(d.journal, e).Ok? && !IsGovernance(e) && Minted(e)
    ensures Indexed(d.(journal := Append(d.journal, e).value))
  {
    hide Indexed, Append;
    OtherEventIndexed(d, e);
  }

  lemma TakeSecure(w: World, step: Step, foreign: set<Event>)
    requires Secure(w, foreign)
    requires step.AppendDirectly? && step.event.body.DispatchCommitted? ==> step.event in foreign
    ensures Secure(Take(w, step), foreign)
  {
    hide Secure, CommitDispatch, After;
    match step
    case Govern(op) =>
      if !op.OtherEvent? {
        GovernSecure(w, op, foreign);
      }
    case Configure(change) => ConfigureSecure(w, change, foreign);
    case StartAttempt(id, stepId) => RecordsSecure(w, Take(w, step).attempts, foreign);
    case SettleAttempt(id, status) => RecordsSecure(w, Take(w, step).attempts, foreign);
    case TryDispatch(requestId, permit, resolution, attemptId, lookup) =>
      DispatchSecure(w, requestId, permit, resolution, attemptId, lookup, foreign);
    case AppendDirectly(e) =>
      if !CarriesBinding(e) {
        GovernSecure(w, OtherEvent(e), foreign);
      }
  }

  lemma StartIsSecure(foreign: set<Event>)
    ensures Secure(START, foreign)
  {
    EmptyIsCoherent();
    CoherentMeans(EMPTY);
  }

  lemma {:induction false} EveryPlayIsSecure(steps: seq<Step>, foreign: set<Event>)
    requires Foreign(steps) <= foreign
    ensures Secure(Play(steps), foreign)
  {
    hide Secure, Take;
    if steps == [] {
      StartIsSecure(foreign);
    } else {
      forall e | e in Foreign(steps[..|steps| - 1]) ensures e in Foreign(steps) {}
      EveryPlayIsSecure(steps[..|steps| - 1], foreign);
      TakeSecure(Play(steps[..|steps| - 1]), steps[|steps| - 1], foreign);
    }
  }

  // ------------------------------------------------------------------- theorems

  /**
   In every interleaving, a dispatch that names a binding sits at a position of
   the journal whose prefix permits its use with exactly its digests, and its
   binding and authority were registered together; an unbound one at least does
   the former unless it was appended past the committer.
   */
  lemma EveryDispatchIsJustified(steps: seq<Step>, i: nat)
    requires i < |Play(steps).governance.journal|
    requires Committed(Play(steps).governance.journal[i], Foreign(steps))
    ensures var w := Play(steps);
      Justified(w.governance.journal[..i], w.governance.journal[i].body.dispatch)
    ensures CarriesBinding(Play(steps).governance.journal[i]) ==>
      FromOneRegistration(Registrations(Play(steps).changes), Play(steps).governance.journal[i].body.dispatch)
  {
    hide Justified, FromOneRegistration, Play, Indexed, DispatchesMarked, MarksRecorded, Foreign;
    EveryPlayIsSecure(steps, Foreign(steps));
  }

  /** The commitment an attempt refers to is a dispatch in the journal, made for that attempt. */
  lemma CommitmentIsRecorded(steps: seq<Step>, id: string)
    requires id in Play(steps).attempts && Play(steps).attempts[id].marks.commitRef.Some?
    ensures exists e | e in Play(steps).governance.journal ::
      && e.id == DispatchId(Play(steps).attempts[id].marks.commitRef.value)
      && e.body.DispatchCommitted? && e.body.dispatch.attemptRef == Some(id)
  {
    hide Play, AllJustified, AllFromRegistrations, DispatchesMarked, Indexed;
    EveryPlayIsSecure(steps, Foreign(steps));
    assert MarkRecorded(Play(steps).governance.journal, id, Play(steps).attempts[id].marks.commitRef.value);
  }

  /** A dispatch made for an attempt is the one the attempt refers to, and it has no other. */
  lemma AttemptsAndDispatchesAgree(steps: seq<Step>, id: string, e: Event)
    requires var w := Play(steps);
      && e in w.governance.journal && Committed(e, Foreign(steps)) && e.body.dispatch.attemptRef == Some(id)
    ensures var w := Play(steps);
      && id in w.attempts && w.attempts[id].marks.commitRef.Some?
      && e.id == DispatchId(w.attempts[id].marks.commitRef.value)
      && (forall f | f in w.governance.journal && Committed(f, Foreign(steps))
                     && f.body.dispatch.attemptRef == Some(id) :: f == e)
  {
    hide Play, AllJustified, AllFromRegistrations, MarksRecorded, Foreign, Absorbs;
    EveryPlayIsSecure(steps, Foreign(steps));
    var w := Play(steps);
    forall f | f in w.governance.journal && Committed(f, Foreign(steps)) && f.body.dispatch.attemptRef == Some(id)
      ensures f.id == DispatchId(w.attempts[id].marks.commitRef.value)
    {
      assert Minted(f);
    }
    forall f, g | f in w.governance.journal && g in w.governance.journal && f.id == g.id ensures f == g {
      var i :| 0 <= i < |w.governance.journal| && w.governance.journal[i] == f;
      var k :| 0 <= k < |w.governance.journal| && w.governance.journal[k] == g;
    }
  }

  lemma StepKeepsMarks(w: World, step: Step, id: string)
    requires id in w.attempts && w.attempts[id].marks.commitRef.Some?
    ensures id in Take(w, step).attempts && Take(w, step).attempts[id].marks.commitRef == w.attempts[id].marks.commitRef
  {
    hide Authorize, CaptureTarget, Append, After;
  }

  /** Once an attempt is committed, nothing that happens later changes the commitment it refers to. */
  lemma {:induction false} CommitmentNeverChanges(steps: seq<Step>, more: seq<Step>, id: string)
    requires id in Play(steps).attempts && Play(steps).attempts[id].marks.commitRef.Some?
    ensures id in Play(steps + more).attempts
    ensures Play(steps + more).attempts[id].marks.commitRef == Play(steps).attempts[id].marks.commitRef
  {
    hide Take;
    if more == [] {
      assert steps + more == steps;
    } else {
      var prefix, last := more[..|more| - 1], more[|more| - 1];
      assert (steps + more)[..|steps + more| - 1] == steps + prefix;
      CommitmentNeverChanges(steps, prefix, id);
      StepKeepsMarks(Play(steps + prefix), last, id);
    }
  }
  // ------------------------------------------------------ what recovery can rely on

  /** A dispatch made for the attempt, by whomever. */
  predicate DispatchFor(e: Event, id: string) {
    e.body.DispatchCommitted? && e.body.dispatch.attemptRef == Some(id)
  }

  predicate HasCommitment(w: World, id: string) {
    id in w.attempts && w.attempts[id].marks.commitRef.Some?
  }

  /** The attempt knows of a dispatch for it if the journal does. */
  ghost predicate Tracked(w: World, id: string) {
    forall e | e in w.governance.journal && DispatchFor(e, id) :: HasCommitment(w, id)
  }

  /** A new unbound dispatch for an attempt without commitment is appended past the committer, and the store takes it. */
  predicate Misleads(w: World, step: Step, id: string) {
    && step.AppendDirectly? && DispatchFor(step.event, id) && !CarriesBinding(step.event)
    && Minted(step.event) && !IdTaken(w.governance.journal, step.event.id)
    && !HasCommitment(w, id)
  }

  lemma AppendedPast(d: Durable, e: Event)
    requires !IsGovernance(e)
    ensures After(d, OtherEvent(e)).journal == if Minted(e) && !IdTaken(d.journal, e.id) then d.journal + [e] else d.journal
  {
    hide Minted;
  }

  lemma GovernWritesNoDispatch(d: Durable, op: Operation, e: Event)
    requires !op.OtherEvent? && e in After(d, op).journal && e.body.DispatchCommitted?
    ensures e in d.journal
  {
    hide After;
    StepExtends(d, op);
    var longer := After(d, op).journal;
    var i :| 0 <= i < |longer| && longer[i] == e;
    assert i < |d.journal| ==> longer[i] == d.journal[i];
  }

  lemma DispatchIsTracked(
    w: World, requestId: string, permit: Permit, resolution: Resolution, attemptId: Option<string>, lookup: Option<Lookup>,
    id: string
  )
    requires Tracked(w, id)
    ensures Tracked(Take(w, TryDispatch(requestId, permit, resolution, attemptId, lookup)), id)
  {
    hide CommitDispatch, CaptureTarget, Authorize, Append;
    var records, target := Domain(w.governance.journal, w.attempts), TargetIn(w, lookup);
    if CommitDispatch(records, requestId, permit, resolution, attemptId, target).0.status != DispatchCommittedNow {
      OtherwiseNothing(records, requestId, permit, resolution, attemptId, target);
    } else {
      var binding, authority := CommitFacts(records, requestId, permit, resolution, attemptId, target);
      AppendAdds(w.governance.journal, DispatchEvent(requestId, permit, attemptId, binding, authority));
    }
  }

  lemma JournalsGrow(w: World, step: Step)
    ensures w.governance.journal <= Take(w, step).governance.journal
  {
    hide After, CommitDispatch, CaptureTarget, Authorize, Append;
    match step
    case Govern(op) => StepExtends(w.governance, op);
    case TryDispatch(requestId, permit, resolution, attemptId, lookup) =>
      var records, target := Domain(w.governance.journal, w.attempts), TargetIn(w, lookup);
      if CommitDispatch(records, requestId, permit, resolution, attemptId, target).0.status != DispatchCommittedNow {
        OtherwiseNothing(records, requestId, permit, resolution, attemptId, target);
      } else {
        var binding, authority := CommitFacts(records, requestId, permit, resolution, attemptId, target);
        AppendAdds(w.governance.journal, DispatchEvent(requestId, permit, attemptId, binding, authority));
      }
    case AppendDirectly(e) => StepExtends(w.governance, OtherEvent(e));
    case _ =>
  }

  /** A step loses track of the attempt's dispatches exactly when it appends such an event. */
  lemma StepTracksExactly(w: World, step: Step, id: string)
    requires Tracked(w, id)
    ensures Tracked(Take(w, step), id) <==> !Misleads(w, step, id)
  {
    hide After, CommitDispatch, IdTaken, Minted;
    match step
    case Govern(op) =>
      forall e | e in Take(w, step).governance.journal && DispatchFor(e, id) ensures HasCommitment(w, id) {
        if !op.OtherEvent? {
          GovernWritesNoDispatch(w.governance, op, e);
        }
      }
    case TryDispatch(requestId, permit, resolution, attemptId, lookup) =>
      DispatchIsTracked(w, requestId, permit, resolution, attemptId, lookup, id);
    case AppendDirectly(e) =>
      if !CarriesBinding(e) {
        if IsGovernance(e) {
          GovernancePastIsRefused(w.governance, e);
        } else {
          AppendedPast(w.governance, e);
        }
      }
    case _ =>
  }

  lemma GovernancePastIsRefused(d: Durable, e: Event)
    requires IsGovernance(e)
    ensures After(d, OtherEvent(e)) == d
  {
  }

  ghost predicate TrackedThroughout(steps: seq<Step>, id: string) {
    forall n | 0 <= n <= |steps| :: Tracked(Play(steps[..n]), id)
  }

  predicate NeverMisled(steps: seq<Step>, id: string) {
    forall n | 0 <= n < |steps| :: !Misleads(Play(steps[..n]), steps[n], id)
  }

  lemma OneMoreStep(steps: seq<Step>, n: nat)
    requires n < |steps|
    ensures Play(steps[..n + 1]) == Take(Play(steps[..n]), steps[n])
  {
    assert steps[..n + 1][..n] == steps[..n];
  }

  lemma {:induction false} TrackedSoFar(steps: seq<Step>, id: string, n: nat)
    requires NeverMisled(steps, id) && n <= |steps|
    ensures Tracked(Play(steps[..n]), id)
  {
    hide Take, Misleads;
    if n > 0 {
      TrackedSoFar(steps, id, n - 1);
      OneMoreStep(steps, n - 1);
      StepTracksExactly(Play(steps[..n - 1]), steps[n - 1], id);
    }
  }

  /** In any interleaving no dispatch for the attempt ever goes unnoticed exactly when no step appends one like that. */
  lemma TrackedThroughoutExactly(steps: seq<Step>, id: string)
    ensures TrackedThroughout(steps, id) <==> NeverMisled(steps, id)
  {
    hide Take, Misleads, Tracked;
    if NeverMisled(steps, id) {
      forall n | 0 <= n <= |steps| ensures Tracked(Play(steps[..n]), id) {
        TrackedSoFar(steps, id, n);
      }
    }
    if TrackedThroughout(steps, id) {
      forall n | 0 <= n < |steps| ensures !Misleads(Play(steps[..n]), steps[n], id) {
        assert Tracked(Play(steps[..n]), id) && Tracked(Play(steps[..n + 1]), id);
        OneMoreStep(steps, n);
        StepTracksExactly(Play(steps[..n]), steps[n], id);
      }
    }
  }

  /** Recovery takes the attempt for uncommitted exactly if the journal has no dispatch for it. */
  ghost predicate RecoversRightly(w: World, id: string, effectSemantics: string)
    requires id in w.attempts
  {
    RecoveryModeOf(effectSemantics, w.attempts[id]) == Uncommitted
    <==> forall e | e in w.governance.journal :: !DispatchFor(e, id)
  }

  lemma RecoversRightlyExactly(steps: seq<Step>, id: string, effectSemantics: string)
    requires id in Play(steps).attempts
    ensures RecoversRightly(Play(steps), id, effectSemantics) <==> Tracked(Play(steps), id)
  {
    hide Play;
    if HasCommitment(Play(steps), id) {
      CommitmentIsRecorded(steps, id);
    }
  }

  /** An attempt without commitment loses track for good with the first dispatch that escapes it. */
  lemma {:induction false} LostUntilCommitted(steps: seq<Step>, id: string, n: nat)
    requires n <= |steps| && !Tracked(Play(steps[..n]), id) && !HasCommitment(Play(steps), id)
    ensures !Tracked(Play(steps), id)
    decreases |steps| - n
  {
    hide Take;
    if n == |steps| {
      assert steps[..n] == steps;
    } else {
      OneMoreStep(steps, n);
      JournalsGrow(Play(steps[..n]), steps[n]);
      NotYetCommitted(steps, id, n + 1);
      var e :| e in Play(steps[..n]).governance.journal && DispatchFor(e, id);
      assert e in Play(steps[..n + 1]).governance.journal;
      LostUntilCommitted(steps, id, n + 1);
    }
  }

  lemma NotYetCommitted(steps: seq<Step>, id: string, n: nat)
    requires n <= |steps| && !HasCommitment(Play(steps), id)
    ensures !HasCommitment(Play(steps[..n]), id)
  {
    hide Play;
    assert steps[..n] + steps[n..] == steps;
    if HasCommitment(Play(steps[..n]), id) {
      CommitmentNeverChanges(steps[..n], steps[n..], id);
    }
  }

  /**
   At the end of any interleaving recovery is right about an attempt exactly when
   the attempt carries a commitment by then, or no step on the way misled it.
   */
  lemma RecoveryRightExactly(steps: seq<Step>, id: string, effectSemantics: string)
    requires id in Play(steps).attempts
    ensures RecoversRightly(Play(steps), id, effectSemantics) <==> HasCommitment(Play(steps), id) || NeverMisled(steps, id)
  {
    hide Play, Misleads, Tracked, RecoversRightly;
    RecoversRightlyExactly(steps, id, effectSemantics);
    assert steps[..|steps|] == steps;
    if NeverMisled(steps, id) {
      TrackedSoFar(steps, id, |steps|);
    } else if HasCommitment(Play(steps), id) {
      CommittedIsTracked(Play(steps), id);
    } else {
      TrackedThroughoutExactly(steps, id);
      var n :| 0 <= n <= |steps| && !Tracked(Play(steps[..n]), id);
      LostUntilCommitted(steps, id, n);
    }
  }

  lemma CommittedIsTracked(w: World, id: string)
    requires HasCommitment(w, id)
    ensures Tracked(w, id)
  {
  }

  /**
   What recovery does with an attempt at the end of any interleaving: one without a
   commitment counts as uncommitted; one with a commitment, which the journal then
   holds, is retried where its effect may be repeated, reconciled where it can be
   reconciled, and left unknown otherwise.
   */
  lemma RecoveryModesExactly(steps: seq<Step>, id: string, effectSemantics: string)
    requires id in Play(steps).attempts
    ensures var w := Play(steps);
      var mode, ref := RecoveryModeOf(effectSemantics, w.attempts[id]), w.attempts[id].marks.commitRef;
      var repeatable := effectSemantics == "pure" || effectSemantics == "idempotent" || effectSemantics == "deduplicatable";
      && (mode == Uncommitted <==> ref.None?)
      && (mode == IdempotentRetry <==> ref.Some? && repeatable)
      && (mode == Reconcile <==> ref.Some? && effectSemantics == "reconcilable")
      && (mode == UnknownRecovery <==> ref.Some? && !repeatable && effectSemantics != "reconcilable")
      && (mode != Uncommitted ==>
            exists e | e in w.governance.journal ::
              e.id == DispatchId(ref.value) && e.body.DispatchCommitted? && e.body.dispatch.attemptRef == Some(id))
  {
    hide Play;
    if HasCommitment(Play(steps), id) {
      CommitmentIsRecorded(steps, id);
    }
  }

  /** In particular where no dispatch for the attempt is ever offered past the committer. */
  lemma UncommittedExactly(steps: seq<Step>, id: string, effectSemantics: string)
    requires id in Play(steps).attempts && forall e | e in Foreign(steps) :: e.body.dispatch.attemptRef != Some(id)
    ensures RecoveryModeOf(effectSemantics, Play(steps).attempts[id]) == Uncommitted
       <==> forall e | e in Play(steps).governance.journal && e.body.DispatchCommitted? :: e.body.dispatch.attemptRef != Some(id)
  {
    hide Play, Minted, IdTaken;
    forall n | 0 <= n < |steps| ensures !Misleads(Play(steps[..n]), steps[n], id) {
      assert steps[n].AppendDirectly? && steps[n].event.body.DispatchCommitted? ==> steps[n].event in Foreign(steps);
    }
    RecoveryRightExactly(steps, id, effectSemantics);
  }

  /** Two steps that mislead it: an unbound dispatch appended for a started attempt leaves it uncommitted. */
  lemma ForeignDispatchMisleads(requestId: string, permit: Permit, id: string, stepId: string, effectSemantics: string)
    ensures var e := DispatchEvent(requestId, permit, Some(id), None, None);
      var w := Play([StartAttempt(id, stepId), AppendDirectly(e)]);
      && id in w.attempts && RecoveryModeOf(effectSemantics, w.attempts[id]) == Uncommitted
      && e in w.governance.journal && e.body.DispatchCommitted? && e.body.dispatch.attemptRef == Some(id)
  {
    var e := DispatchEvent(requestId, permit, Some(id), None, None);
    var one, two := [StartAttempt(id, stepId)], [StartAttempt(id, stepId), AppendDirectly(e)];
    assert one[..0] == [] && two[..1] == one;
    IdentityRecomputes(requestId, permit, Some(id), None, None);
    assert Play(one) == START.(attempts := map[id := Attempt(stepId, Running, NO_MARKS)]);
    assert Play(two) == Take(Play(one), AppendDirectly(e));
    assert !CarriesBinding(e) && Perform(EMPTY, OtherEvent(e)) == Ok(EMPTY.(journal := [] + [e]));
  }
}
