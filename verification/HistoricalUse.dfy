/**
 Binding one judgment to the exact experience it relied on: compared and written
 once, replayed identically ever after.
 */
module HistoricalUse {
  import opened Wrappers
  import opened Text
  import opened ExperienceUse
  import opened ExperienceSnapshot

  const USE_SCHEMA := "historical-experience-use-v1"
  const USE_ROLE := "historical-experience-use"
  const JUDGMENT_ROLE := "task-domain-judgment"

  /** `content` stands for everything an assertion says; its creation time is not part of it. */
  datatype Judgment = Judgment(id: string, version: int, role: string, content: string)

  datatype Record = AssertionRecord(judgment: Judgment) | OtherRecord(id: string)

  /** The digested identity, taken as what is digested. */
  datatype UseId = UseId(schema: string, role: string, judgmentRef: string, judgmentVersion: int)

  datatype UsePayload = UsePayload(
    schema: string,
    role: string,
    judgmentRef: string,
    judgmentVersion: int,
    requirementDigest: RequirementPayload,
    snapshotDigest: Snapshot,
    snapshot: Snapshot,
    selected: seq<string>,
    contract: string)

  datatype UseEvent = UseEvent(id: UseId, subject: string, payload: UsePayload)

  datatype Binding = Binding(
    id: UseId,
    judgmentRef: string,
    judgmentVersion: int,
    requirementDigest: RequirementPayload,
    snapshotDigest: Snapshot,
    snapshot: Snapshot,
    selected: seq<string>,
    contract: string)

  datatype Request = Request(
    judgment: Judgment,
    requirement: Requirement,
    expectedRequirement: RequirementPayload,
    expectedSnapshot: Snapshot,
    expectedContract: Option<string>)

  datatype UseError =
    | JudgmentUnusable
    | NotUseEvent
    | IdentityMismatch
    | SnapshotMismatch
    | ContractUnsupported
    | SelectionMalformed
    | RequirementMismatch
    | ProjectionSetMismatch
    | QualifiesItsOwnExperience
    | JudgmentMissing
    | JudgmentRebound
    | RequirementRebound
    | SnapshotRebound
    | ContractRebound
    | SelectionRebound
    | BackfillClosed
    | ContractChanged
    | NotAllowed(status: Status)
    | RequirementChanged
    | SnapshotChanged
    | GraphInvalid
    | WriteRefused

  datatype Store = Store(records: map<string, Record>, events: map<UseId, UseEvent>, exported: State)

  function IdFor(judgmentRef: string, version: int): UseId {
    UseId(USE_SCHEMA, USE_ROLE, judgmentRef, version)
  }

  predicate UsableJudgment(j: Judgment) {
    Strip(j.id) != "" && j.version >= 1 && j.role == JUDGMENT_ROLE
  }

  // ----------------------------------------------------------------- event and reader

  function EventFrom(j: Judgment, a: Admission): UseEvent {
    UseEvent(IdFor(j.id, j.version), j.id,
             UsePayload(USE_SCHEMA, USE_ROLE, j.id, j.version, a.requirementDigest, a.snapshot, a.snapshot,
                        a.snapshot.requirement.refs, a.contract))
  }

  function ProjectionIds(ps: seq<Projection>): seq<string> {
    seq(|ps|, i requires 0 <= i < |ps| => ps[i].id)
  }

  function ReadEvent(e: UseEvent): Result<Binding, UseError> {
    var p := e.payload;
    :- Need(p.schema == USE_SCHEMA && p.role == USE_ROLE && p.judgmentRef != "" && p.judgmentVersion >= 1, NotUseEvent);
    :- Need(e.subject == p.judgmentRef && e.id == IdFor(p.judgmentRef, p.judgmentVersion), IdentityMismatch);
    :- Need(p.snapshot == p.snapshotDigest, SnapshotMismatch);
    :- Need(p.contract == CURRENT_CONTRACT, ContractUnsupported);
    :- Need("" !in p.selected && p.selected == Sorted(Elements(p.selected)), SelectionMalformed);
    :- Need(p.snapshot.schema == SNAPSHOT_SCHEMA, SnapshotMismatch);
    :- Need(p.snapshot.requirement.schema == REQUIREMENT_SCHEMA, RequirementMismatch);
    :- Need(DigestOf(p.snapshot.requirement) == p.requirementDigest, RequirementMismatch);
    :- Need(p.snapshot.requirement.refs == p.selected, SelectionMalformed);
    :- Need(ProjectionIds(p.snapshot.projections) == p.selected, ProjectionSetMismatch);
    Ok(Binding(e.id, p.judgmentRef, p.judgmentVersion, p.requirementDigest, p.snapshotDigest, p.snapshot, p.selected, p.contract))
  }

  lemma AllowedResolvesSelection(state: State, r: Requirement)
    requires Evaluate(state, r).status == Allowed
    ensures ProjectionIds(Evaluate(state, r).snapshot.projections) == r.refs
  {
    hide FindingFor, ReasonsOf, StatusesOf, ProjectionsFor;
    AllowedFindsEverything(state, r.refs, r);
  }

  lemma EmbeddedRequirement(state: State, r: Requirement)
    ensures var a := Evaluate(state, r);
      && a.snapshot.schema == SNAPSHOT_SCHEMA
      && a.snapshot.requirement.schema == REQUIREMENT_SCHEMA
      && a.snapshot.requirement.refs == r.refs
      && DigestOf(a.snapshot.requirement) == a.requirementDigest
      && a.contract == CURRENT_CONTRACT
  {
    hide StatusOf, ReasonsOf, ProjectionsFor, ResolvedFor, DerivationsFor, RelationsFor, UnresolvedFor, QuietAll, QuietFound;
    DigestIsStable(PayloadOf(r));
  }

  /** Whatever is minted from an allowed admission, the reader accepts, and reads back what was admitted. */
  lemma MintedEventsRead(state: State, r: Requirement, j: Judgment)
    requires Evaluate(state, r).status == Allowed && CanonicalRefs(r.refs) && UsableJudgment(j)
    ensures var a := Evaluate(state, r);
      ReadEvent(EventFrom(j, a))
        == Ok(Binding(IdFor(j.id, j.version), j.id, j.version, a.requirementDigest, a.snapshot, a.snapshot, r.refs, a.contract))
  {
    hide Evaluate, ProjectionIds, DigestOf, Sorted;
    AllowedResolvesSelection(state, r);
    EmbeddedRequirement(state, r);
    BlankStaysBlank();
  }

  lemma BlankStaysBlank()
    ensures Strip("") == ""
  {
  }

  // ---------------------------------------------------------------- compare and bind

  predicate Qualifies(p: Projection, judgmentId: string) {
    judgmentId in p.judgments || judgmentId in p.assertions
  }

  /** A judgment may not be among what qualifies the experience it relies on. */
  predicate SeparateNow(state: State, j: Judgment, r: Requirement) {
    forall ref | ref in r.refs ::
      && var found := FindProjection(state, ref);
      (found.Some? && found.value.projection.Some? ==> !Qualifies(found.value.projection.value, j.id))
  }

  predicate SeparateIn(snapshot: Snapshot, j: Judgment) {
    forall p | p in snapshot.projections :: !Qualifies(p, j.id)
  }

  datatype Prepared = Prepared(binding: Binding, event: UseEvent, judgment: Judgment, replayed: bool)

  function Replay(s: Store, q: Request, e: UseEvent): Result<Prepared, UseError> {
    if q.judgment.id !in s.records || !s.records[q.judgment.id].AssertionRecord? then Err(JudgmentMissing)
    else if s.records[q.judgment.id].judgment != q.judgment then Err(JudgmentRebound)
    else
      match ReadEvent(e)
      case Err(error) => Err(error)
      case Ok(binding) =>
        if DigestOf(PayloadOf(q.requirement)) != binding.requirementDigest then Err(RequirementRebound)
        else if q.expectedRequirement != binding.requirementDigest then Err(RequirementRebound)
        else if q.expectedSnapshot != binding.snapshotDigest then Err(SnapshotRebound)
        else if q.expectedContract.Some? && q.expectedContract.value != binding.contract then Err(ContractRebound)
        else if q.requirement.refs != binding.selected then Err(SelectionRebound)
        else Ok(Prepared(binding, e, q.judgment, true))
  }

  function BindAnew(s: Store, q: Request): Result<Prepared, UseError> {
    if !SeparateNow(s.exported, q.judgment, q.requirement) then Err(QualifiesItsOwnExperience)
    else if q.judgment.id in s.records then Err(BackfillClosed)
    else if q.expectedContract.Some? && q.expectedContract.value != CURRENT_CONTRACT then Err(ContractChanged)
    else
      var a := Evaluate(s.exported, q.requirement);
      if a.status != Allowed then Err(NotAllowed(a.status))
      else if a.requirementDigest != q.expectedRequirement then Err(RequirementChanged)
      else if a.snapshot != q.expectedSnapshot then Err(SnapshotChanged)
      else if !SeparateIn(a.snapshot, q.judgment) then Err(QualifiesItsOwnExperience)
      else
        match ReadEvent(EventFrom(q.judgment, a))
        case Err(error) => Err(error)
        case Ok(binding) => Ok(Prepared(binding, EventFrom(q.judgment, a), q.judgment, false))
  }

  function Prepare(s: Store, q: Request): Result<Prepared, UseError> {
    if !UsableJudgment(q.judgment) then Err(JudgmentUnusable)
    else
      var id := IdFor(q.judgment.id, q.judgment.version);
      if id in s.events then Replay(s, q, s.events[id]) else BindAnew(s, q)
  }

  /** Every recorded use can be read and is grounded in the judgment it names. */
  predicate GraphValid(s: Store) {
    forall id | id in s.events :: Grounded(s, s.events[id])
  }

  predicate Grounded(s: Store, e: UseEvent) {
    && ReadEvent(e).Ok?
    && var b := ReadEvent(e).value;
    && b.judgmentRef in s.records
    && s.records[b.judgmentRef].AssertionRecord?
    && s.records[b.judgmentRef].judgment.version == b.judgmentVersion
    && s.records[b.judgmentRef].judgment.role == JUDGMENT_ROLE
  }

  /** The check over an exported listing: every use readable and grounded, none for the same judgment twice. */
  method ValidateAuthorityGraph(s: Store, listed: seq<UseEvent>) returns (valid: bool)
    ensures valid <==>
      && (forall i | 0 <= i < |listed| :: Grounded(s, listed[i]))
      && (forall i, j | 0 <= i < j < |listed| :: listed[i].id != listed[j].id)
  {
    hide ReadEvent;
    var seen: set<(string, int)> := {};
    for i := 0 to |listed|
      invariant forall j | 0 <= j < i :: Grounded(s, listed[j])
      invariant forall j, k | 0 <= j < k < i :: listed[j].id != listed[k].id
      invariant forall key :: key in seen <==> exists j :: 0 <= j < i && listed[j].id == IdFor(key.0, key.1)
    {
      if !Grounded(s, listed[i]) {
        return false;
      }
      GroundedNames(s, listed[i]);
      var binding := ReadEvent(listed[i]).value;
      var key := (binding.judgmentRef, binding.judgmentVersion);
      if key in seen {
        return false;
      }
      seen := seen + {key};
    }
    return true;
  }

  lemma GroundedNames(s: Store, e: UseEvent)
    requires Grounded(s, e)
    ensures e.id == IdFor(ReadEvent(e).value.judgmentRef, ReadEvent(e).value.judgmentVersion)
  {
    hide DigestOf, ProjectionIds, Sorted;
  }

  /** Judgment and use are written together, or nothing is. `accepted` is the store's own validation of the record. */
  function Commit(s: Store, q: Request, accepted: bool): (Result<Binding, UseError>, Store) {
    var isNew := IdFor(q.judgment.id, q.judgment.version) !in s.events && q.judgment.id !in s.records;
    if isNew && !accepted then (Err(WriteRefused), s)
    else
      match Prepare(s, q)
      case Err(e) => (Err(e), s)
      case Ok(prepared) =>
        if prepared.replayed then
          if GraphValid(s) then (Ok(prepared.binding), s) else (Err(GraphInvalid), s)
        else
          var next := s.(records := s.records[q.judgment.id := AssertionRecord(prepared.judgment)],
                         events := s.events[prepared.event.id := prepared.event]);
          if GraphValid(next) then (Ok(prepared.binding), next) else (Err(GraphInvalid), s)
  }

  // ------------------------------------------------------------------------------ runs

  datatype Step =
    | Bind(request: Request, accepted: bool)
    | ChangeExperience(exported: State)
    | SaveRecord(id: string, record: Record)

  function Take(s: Store, step: Step): Store {
    match step
    case Bind(q, accepted) => Commit(s, q, accepted).1
    case ChangeExperience(exported) => s.(exported := exported)
    case SaveRecord(id, record) => s.(records := s.records[id := record])
  }

  function Run(start: Store, steps: seq<Step>): Store {
    if steps == [] then start else Take(Run(start, steps[..|steps| - 1]), steps[|steps| - 1])
  }

  const EMPTY_STORE := Store(map[], map[], map[])

  /** One use per judgment, filed under its own id, next to the judgment's record. */
  predicate Sound(s: Store) {
    && (forall id | id in s.events ::
          && s.events[id].id == id && id == IdFor(id.judgmentRef, id.judgmentVersion)
          && id.judgmentRef in s.records)
    && (forall id, other | id in s.events && other in s.events && id.judgmentRef == other.judgmentRef :: id == other)
  }

  lemma PreparedNew(s: Store, q: Request)
    requires Prepare(s, q).Ok? && !Prepare(s, q).value.replayed
    ensures q.judgment.id !in s.records && Prepare(s, q).value.judgment == q.judgment
    ensures Prepare(s, q).value.event.id == IdFor(q.judgment.id, q.judgment.version)
  {
    hide Evaluate, ReadEvent, SeparateNow, SeparateIn;
  }

  lemma TakeSound(s: Store, step: Step)
    requires Sound(s)
    ensures Sound(Take(s, step))
  {
    hide Prepare, GraphValid;
    if step.Bind? && Prepare(s, step.request).Ok? && !Prepare(s, step.request).value.replayed {
      PreparedNew(s, step.request);
    }
  }

  /** Over any run, a judgment id is bound at most once. */
  lemma {:induction false} AtMostOneBinding(steps: seq<Step>)
    ensures Sound(Run(EMPTY_STORE, steps))
  {
    hide Take, Sound;
    if steps == [] {
      EmptyIsSound();
    } else {
      AtMostOneBinding(steps[..|steps| - 1]);
      TakeSound(Run(EMPTY_STORE, steps[..|steps| - 1]), steps[|steps| - 1]);
    }
  }

  lemma EmptyIsSound()
    ensures Sound(EMPTY_STORE)
  {
  }

  lemma EventsPersist(s: Store, step: Step, id: UseId)
    requires Sound(s) && id in s.events
    ensures id in Take(s, step).events && Take(s, step).events[id] == s.events[id]
  {
    hide Prepare, GraphValid;
    if step.Bind? && Prepare(s, step.request).Ok? && !Prepare(s, step.request).value.replayed {
      PreparedNew(s, step.request);
    }
  }

  /** Records of bound judgments are left as they are; anything else may change. */
  predicate Leaves(s: Store, step: Step) {
    step.SaveRecord? ==> forall id | id in s.events :: id.judgmentRef != step.id
  }

  ghost predicate LeavesThroughout(start: Store, steps: seq<Step>) {
    forall n | 0 <= n < |steps| :: Leaves(Run(start, steps[..n]), steps[n])
  }

  lemma RecordsPersist(s: Store, step: Step, id: UseId)
    requires Sound(s) && id in s.events && Leaves(s, step)
    ensures id.judgmentRef in Take(s, step).records && Take(s, step).records[id.judgmentRef] == s.records[id.judgmentRef]
  {
    hide Prepare, GraphValid;
    if step.Bind? && Prepare(s, step.request).Ok? && !Prepare(s, step.request).value.replayed {
      PreparedNew(s, step.request);
    }
  }

  lemma GroundedPersists(s: Store, t: Store, e: UseEvent)
    requires Grounded(s, e) && e.payload.judgmentRef in t.records
    requires e.payload.judgmentRef in s.records && t.records[e.payload.judgmentRef] == s.records[e.payload.judgmentRef]
    ensures Grounded(t, e)
  {
    hide ReadEvent;
    ReadNamesPayload(e);
  }

  lemma ReadNamesPayload(e: UseEvent)
    requires ReadEvent(e).Ok?
    ensures ReadEvent(e).value.judgmentRef == e.payload.judgmentRef
    ensures e.id == IdFor(e.payload.judgmentRef, e.payload.judgmentVersion)
  {
    hide DigestOf, ProjectionIds, Sorted;
  }

  lemma GraphPersists(s: Store, step: Step)
    requires Sound(s) && GraphValid(s) && Leaves(s, step)
    ensures GraphValid(Take(s, step))
  {
    hide Prepare, Grounded;
    if !step.Bind? {
      forall id | id in s.events ensures Grounded(Take(s, step), s.events[id]) {
        assert Grounded(s, s.events[id]);
        GroundedIsFiled(s, s.events[id]);
        RecordsPersist(s, step, id);
        GroundedPersists(s, Take(s, step), s.events[id]);
      }
    }
  }

  lemma GroundedIsFiled(s: Store, e: UseEvent)
    requires Grounded(s, e)
    ensures e.payload.judgmentRef in s.records && e.id.judgmentRef == e.payload.judgmentRef
  {
    hide ReadEvent;
    ReadNamesPayload(e);
  }

  /** What a committed binding leaves behind. */
  ghost predicate Bound(s: Store, q: Request, b: Binding) {
    && Sound(s) && GraphValid(s) && UsableJudgment(q.judgment)
    && var id := IdFor(q.judgment.id, q.judgment.version);
    && id in s.events
    && ReadEvent(s.events[id]) == Ok(b)
    && q.judgment.id in s.records && s.records[q.judgment.id] == AssertionRecord(q.judgment)
  }

  /** The request agrees with the binding in everything a request can state. */
  predicate Agrees(q: Request, b: Binding) {
    && DigestOf(PayloadOf(q.requirement)) == b.requirementDigest
    && q.expectedRequirement == b.requirementDigest
    && q.expectedSnapshot == b.snapshotDigest
    && (q.expectedContract.None? || q.expectedContract.value == b.contract)
    && q.requirement.refs == b.selected
  }

  /** Against a bound judgment, a request is answered with that binding exactly when it agrees with it; nothing changes. */
  lemma AnsweredExactlyWhenAgreeing(s: Store, q: Request, b: Binding, accepted: bool)
    requires Bound(s, q, b)
    ensures Commit(s, q, accepted).0 == Ok(b) <==> Agrees(q, b)
    ensures Commit(s, q, accepted).0.Ok? <==> Agrees(q, b)
    ensures Commit(s, q, accepted).1 == s
  {
    hide ReadEvent, Evaluate, GraphValid, Sound, DigestOf, PayloadOf;
  }

  lemma CommittedIsBound(s: Store, q: Request, accepted: bool)
    requires Sound(s) && Commit(s, q, accepted).0.Ok?
    ensures Bound(Commit(s, q, accepted).1, q, Commit(s, q, accepted).0.value)
    ensures CanonicalRefs(q.requirement.refs) ==> Agrees(q, Commit(s, q, accepted).0.value)
  {
    hide Prepare, GraphValid, Sound, ReadEvent, Evaluate, DigestOf, Agrees, UsableJudgment, CanonicalRefs;
    TakeSound(s, Bind(q, accepted));
    PreparedCases(s, q);
  }

  lemma ReplayFacts(s: Store, q: Request, e: UseEvent)
    requires Replay(s, q, e).Ok?
    ensures var p := Replay(s, q, e).value;
      && p.judgment == q.judgment && p.event == e && p.replayed
      && ReadEvent(e) == Ok(p.binding)
      && q.judgment.id in s.records && s.records[q.judgment.id] == AssertionRecord(q.judgment)
      && Agrees(q, p.binding)
  {
    hide ReadEvent, DigestOf, PayloadOf;
  }

  lemma NewFacts(s: Store, q: Request)
    requires BindAnew(s, q).Ok?
    ensures var p, a := BindAnew(s, q).value, Evaluate(s.exported, q.requirement);
      && p.judgment == q.judgment && p.event == EventFrom(q.judgment, a) && !p.replayed
      && ReadEvent(p.event) == Ok(p.binding)
      && a.status == Allowed
      && a.requirementDigest == q.expectedRequirement && a.snapshot == q.expectedSnapshot
      && (q.expectedContract.None? || q.expectedContract.value == CURRENT_CONTRACT)
  {
    hide ReadEvent, Evaluate, SeparateNow, SeparateIn;
  }

  lemma NewAgrees(s: Store, q: Request)
    requires BindAnew(s, q).Ok? && UsableJudgment(q.judgment) && CanonicalRefs(q.requirement.refs)
    ensures Agrees(q, BindAnew(s, q).value.binding)
  {
    hide ReadEvent, UsableJudgment, CanonicalRefs, BindAnew, StatusOf, ReasonsOf, SnapshotOf, DigestOf, PayloadOf;
    NewFacts(s, q);
    MintedEventsRead(s.exported, q.requirement, q.judgment);
    EmbeddedRequirement(s.exported, q.requirement);
  }

  lemma PreparedCases(s: Store, q: Request)
    requires Sound(s) && Prepare(s, q).Ok?
    ensures var p := Prepare(s, q).value;
      && UsableJudgment(q.judgment) && p.judgment == q.judgment
      && p.event.id == IdFor(q.judgment.id, q.judgment.version)
      && ReadEvent(p.event) == Ok(p.binding)
      && (p.replayed ==>
            && p.event.id in s.events && s.events[p.event.id] == p.event
            && q.judgment.id in s.records && s.records[q.judgment.id] == AssertionRecord(q.judgment)
            && Agrees(q, p.binding))
      && (!p.replayed && CanonicalRefs(q.requirement.refs) ==> Agrees(q, p.binding))
  {
    hide ReadEvent, Evaluate, Replay, BindAnew, UsableJudgment, CanonicalRefs, Agrees;
    var id := IdFor(q.judgment.id, q.judgment.version);
    if id in s.events {
      ReplayFacts(s, q, s.events[id]);
    } else {
      NewFacts(s, q);
      if CanonicalRefs(q.requirement.refs) {
        NewAgrees(s, q);
      }
    }
  }

  /** A judgment not yet bound is bound exactly when all that was expected still holds of the experience as it is now. */
  lemma BoundAnewExactly(s: Store, q: Request, accepted: bool)
    requires Sound(s) && GraphValid(s) && CanonicalRefs(q.requirement.refs)
    requires IdFor(q.judgment.id, q.judgment.version) !in s.events
    ensures var a := Evaluate(s.exported, q.requirement);
      Commit(s, q, accepted).0.Ok? <==>
        && accepted
        && UsableJudgment(q.judgment)
        && q.judgment.id !in s.records
        && SeparateNow(s.exported, q.judgment, q.requirement) && SeparateIn(a.snapshot, q.judgment)
        && (q.expectedContract.None? || q.expectedContract.value == CURRENT_CONTRACT)
        && a.status == Allowed
        && a.requirementDigest == q.expectedRequirement
        && a.snapshot == q.expectedSnapshot
  {
    hide Evaluate, ReadEvent, SeparateNow, SeparateIn, GraphValid, CanonicalRefs, UsableJudgment, Sound;
    if UsableJudgment(q.judgment) && Evaluate(s.exported, q.requirement).status == Allowed {
      MintedEventsRead(s.exported, q.requirement, q.judgment);
    }
    if Prepare(s, q).Ok? && accepted {
      NewFacts(s, q);
      BindingKeepsGraph(s, q);
    }
  }

  lemma BindingKeepsGraph(s: Store, q: Request)
    requires Sound(s) && GraphValid(s) && UsableJudgment(q.judgment)
    requires q.judgment.id !in s.records && BindAnew(s, q).Ok?
    ensures var e := BindAnew(s, q).value.event;
      GraphValid(s.(records := s.records[q.judgment.id := AssertionRecord(q.judgment)], events := s.events[e.id := e]))
  {
    hide Evaluate, ReadEvent, BindAnew, Grounded;
    NewFacts(s, q);
    var e := BindAnew(s, q).value.event;
    var next := s.(records := s.records[q.judgment.id := AssertionRecord(q.judgment)], events := s.events[e.id := e]);
    NewIsGrounded(next, q.judgment, e);
    forall id | id in s.events ensures Grounded(next, s.events[id]) {
      assert Grounded(s, s.events[id]);
      GroundedIsFiled(s, s.events[id]);
      GroundedPersists(s, next, s.events[id]);
    }
  }

  lemma NewIsGrounded(s: Store, j: Judgment, e: UseEvent)
    requires ReadEvent(e).Ok? && e.payload.judgmentRef == j.id && e.payload.judgmentVersion == j.version
    requires j.id in s.records && s.records[j.id] == AssertionRecord(j) && j.role == JUDGMENT_ROLE
    ensures Grounded(s, e)
  {
    hide DigestOf, ProjectionIds, Sorted;
  }

  lemma {:induction false} BoundThroughout(start: Store, steps: seq<Step>, q: Request, b: Binding)
    requires Bound(start, q, b) && LeavesThroughout(start, steps)
    ensures Bound(Run(start, steps), q, b)
  {
    hide Bound, Take, Leaves;
    if steps != [] {
      var prefix := steps[..|steps| - 1];
      assert forall n | 0 <= n < |prefix| :: prefix[..n] == steps[..n] && prefix[n] == steps[n];
      forall n | 0 <= n < |prefix| ensures Leaves(Run(start, prefix[..n]), prefix[n]) {
        assert Leaves(Run(start, steps[..n]), steps[n]);
      }
      BoundThroughout(start, prefix, q, b);
      assert Leaves(Run(start, steps[..|prefix|]), steps[|prefix|]);
      BoundPersists(Run(start, prefix), steps[|steps| - 1], q, b);
    }
  }

  lemma BoundPersists(s: Store, step: Step, q: Request, b: Binding)
    requires Bound(s, q, b) && Leaves(s, step)
    ensures Bound(Take(s, step), q, b)
  {
    hide Take, Sound, GraphValid, ReadEvent, Leaves;
    var id := IdFor(q.judgment.id, q.judgment.version);
    TakeSound(s, step);
    GraphPersists(s, step);
    EventsPersist(s, step, id);
    RecordsPersist(s, step, id);
  }

  /**
   After a commit, the same request is answered with the identical binding
   whatever happens to the experience meanwhile, and a request for the same
   judgment that differs in digest, contract or selection is refused.
   */
  lemma ReplayIsIdentical(
    before: Store, q: Request, accepted: bool, later: seq<Step>, again: Request, acceptedAgain: bool
  )
    requires Sound(before) && CanonicalRefs(q.requirement.refs) && Commit(before, q, accepted).0.Ok?
    requires LeavesThroughout(Commit(before, q, accepted).1, later)
    requires again.judgment == q.judgment
    ensures var b, now := Commit(before, q, accepted).0.value, Run(Commit(before, q, accepted).1, later);
      && Commit(now, q, acceptedAgain).0 == Ok(b)
      && (Commit(now, again, acceptedAgain).0.Ok? <==> Agrees(again, b))
      && Commit(now, again, acceptedAgain).1 == now
  {
    hide Commit, Run, Agrees, Sound, GraphValid, LeavesThroughout;
    CommittedIsBound(before, q, accepted);
    var b, after := Commit(before, q, accepted).0.value, Commit(before, q, accepted).1;
    BoundThroughout(after, later, q, b);
    AnsweredExactlyWhenAgreeing(Run(after, later), q, b, acceptedAgain);
    AnsweredExactlyWhenAgreeing(Run(after, later), again, b, acceptedAgain);
  }
}
