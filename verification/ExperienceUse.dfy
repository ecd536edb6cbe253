/**
 Whether an exact, already selected set of experience may be relied on now,
 judged from one exported state.
 */
module ExperienceUse {
  import opened Wrappers
  import opened Text

  const PROJECTION_KIND := "knowledge_projection"
  const RECORD_KIND := "record"
  const RELATION_KIND := "relation"

  type Mapping = map<string, string>

  datatype Projection = Projection(
    id: string,
    lifecycle: string,
    assertions: seq<string>,
    evidence: seq<string>,
    judgments: seq<string>,
    authorizations: seq<string>,
    scopes: seq<string>,
    validityScope: Mapping,
    environment: Mapping,
    counterexamples: seq<string>,
    negatives: seq<string>,
    reopenConditions: seq<string>)

  /** One exported object; `noise` stands for its creation and update times, `rest` for what is never looked at. */
  datatype Raw = Raw(
    id: Option<string>,
    recordType: Option<string>,
    lifecycle: string,
    epistemic: string,
    role: string,
    conclusionRef: Option<string>,
    premiseRefs: set<string>,
    evidenceRefs: set<string>,
    derivedScopes: set<string>,
    relationType: string,
    subjectRef: Option<string>,
    objectRef: Option<string>,
    scope: Mapping,
    useScope: Mapping,
    subjectVersions: set<string>,
    scopeVersions: set<string>,
    environmentVersions: Mapping,
    environmentBindings: Mapping,
    metadataEnvironmentVersions: Mapping,
    projection: Option<Projection>,
    rest: string,
    noise: string)

  const BLANK := Raw(None, None, "", "", "", None, {}, {}, {}, "", None, None, map[], map[], {}, {}, map[], map[], map[],
                     None, "", "")

  type State = map<string, seq<Raw>>

  datatype Requirement = Requirement(
    refs: seq<string>,
    useScope: Mapping,
    versions: set<string>,
    environment: Mapping,
    context: Mapping)

  /** As constructed: sorted, without repetition or blanks. */
  predicate CanonicalRefs(refs: seq<string>) {
    refs == Sorted(Elements(refs)) && "" !in refs
  }

  datatype Status = NotApplicable | Allowed | Unavailable | Stale | Blocked

  datatype Role = AssertionRole | EvidenceRole | JudgmentRole | ScopeRole | AuthorizationRole | CounterexampleRole | NegativeRole

  datatype Reason =
    | NoReliance
    | ProjectionUnavailable(ref: string)
    | ProjectionInvalid(ref: string)
    | LifecycleNotUsable(ref: string, lifecycle: string)
    | Unresolved(role: Role, ref: string)
    | WrongType(role: Role, ref: string)
    | ScopeMismatch(ref: string)
    | EnvironmentDrift(ref: string)
    | VersionDrift(ref: string)
    | StaleAssertion(ref: string, epistemic: string)
    | BlockedAssertion(ref: string, epistemic: string)
    | StaleEvidence(ref: string)
    | InvalidJudgment(ref: string)
    | NegativeUnavailable(ref: string)
    | NegativeOutside(ref: string)
    | NegativeUnbound(ref: string)
    | NegativeUnknown(ref: string)
    | Contradiction(relation: Option<string>, ref: string)
    | RequiresRevalidation(relation: Option<string>)

  // -------------------------------------------------------------------- resolution

  function Filter(bucket: seq<Raw>, p: Raw -> bool): seq<Raw> {
    if bucket == [] then []
    else
      var last := bucket[|bucket| - 1];
      Filter(bucket[..|bucket| - 1], p) + if p(last) then [last] else []
  }

  function Bucket(state: State, kind: string): seq<Raw> {
    if kind in state then state[kind] else []
  }

  function WithId(bucket: seq<Raw>, ref: string): seq<Raw> {
    Filter(bucket, (x: Raw) => x.id == Some(ref))
  }

  predicate OnlyIn(state: State, kind: string, ref: string) {
    && |WithId(Bucket(state, kind), ref)| == 1
    && forall other | other in state && other != kind :: WithId(state[other], ref) == []
  }

  datatype Found = Found(kind: string, raw: Raw)

  /** The one object with this id in the whole state, if there is exactly one. */
  function FindExact(state: State, ref: string): Option<Found> {
    if exists kind | kind in state :: OnlyIn(state, kind, ref) then
      var kind :| kind in state && OnlyIn(state, kind, ref);
      Some(Found(kind, WithId(state[kind], ref)[0]))
    else None
  }

  function FindProjection(state: State, ref: string): Option<Raw> {
    var matches := WithId(Bucket(state, PROJECTION_KIND), ref);
    if |matches| == 1 then Some(matches[0]) else None
  }

  function RefsOf(p: Projection, role: Role): seq<string> {
    match role
    case AssertionRole => p.assertions
    case EvidenceRole => p.evidence
    case JudgmentRole => p.judgments
    case ScopeRole => p.scopes
    case AuthorizationRole => p.authorizations
    case CounterexampleRole => p.counterexamples
    case NegativeRole => p.negatives
  }

  const ROLES := {AssertionRole, EvidenceRole, JudgmentRole, ScopeRole, AuthorizationRole, CounterexampleRole, NegativeRole}

  predicate ShapeAllowed(role: Role, f: Found) {
    match role
    case AssertionRole => f.kind == RECORD_KIND && f.raw.recordType == Some("Assertion")
    case EvidenceRole =>
      || (f.kind == RECORD_KIND && f.raw.recordType in {Some("EvidenceArtifact"), Some("Observation")})
      || f.kind == "evidence"
    case JudgmentRole => f.kind == RECORD_KIND && f.raw.recordType == Some("Assertion")
    case ScopeRole => f.kind == RECORD_KIND && f.raw.recordType in {Some("Revision"), Some("ChangeObject")}
    case AuthorizationRole => f.kind == "authorization"
    case CounterexampleRole => true
    case NegativeRole => true
  }

  predicate Resolves(state: State, p: Projection, role: Role, ref: string) {
    && ref in RefsOf(p, role)
    && FindExact(state, ref).Some?
    && ShapeAllowed(role, FindExact(state, ref).value)
  }

  function Resolved(state: State, p: Projection): map<string, Found> {
    map role, ref | role in ROLES && ref in RefsOf(p, role) && Resolves(state, p, role, ref) :: ref := FindExact(state, ref).value
  }

  function ResolutionErrors(state: State, p: Projection): set<Reason> {
    (set role, ref | role in ROLES && ref in RefsOf(p, role) && FindExact(state, ref).None? :: Unresolved(role, ref))
    + (set role, ref | role in ROLES && ref in RefsOf(p, role) && FindExact(state, ref).Some?
                       && !ShapeAllowed(role, FindExact(state, ref).value) :: WrongType(role, ref))
  }

  function RawOf(resolved: map<string, Found>, ref: string): Raw {
    if ref in resolved then resolved[ref].raw else BLANK
  }

  // ----------------------------------------------------------------- related graph

  predicate DerivesFor(p: Projection, x: Raw) {
    && x.recordType == Some("Derivation")
    && (|| (x.conclusionRef.Some? && x.conclusionRef.value in p.assertions)
        || x.premiseRefs * Elements(p.judgments) != {}
        || x.evidenceRefs * Elements(p.evidence) != {}
        || x.derivedScopes * Elements(p.scopes) != {})
  }

  function Derivations(state: State, p: Projection): seq<Raw> {
    Filter(Bucket(state, RECORD_KIND), (x: Raw) => DerivesFor(p, x))
  }

  function Ids(raws: seq<Raw>): set<string> {
    set x | x in raws && x.id.Some? :: x.id.value
  }

  /** What a relation must touch to count: the projection, what it resolves to, and its derivations. */
  function Seed(state: State, p: Projection): set<string> {
    {p.id} + Resolved(state, p).Keys + Ids(Derivations(state, p))
  }

  predicate Touches(seed: set<string>, x: Raw) {
    (x.subjectRef.Some? && x.subjectRef.value in seed) || (x.objectRef.Some? && x.objectRef.value in seed)
  }

  function Relations(state: State, p: Projection): seq<Raw> {
    Filter(Bucket(state, RELATION_KIND), (x: Raw) => Touches(Seed(state, p), x))
  }

  function EndsOf(x: Raw): set<string> {
    (if x.subjectRef.Some? then {x.subjectRef.value} else {}) + (if x.objectRef.Some? then {x.objectRef.value} else {})
  }

  /**
   The scan widens the graph it reports as it goes, but selects by the refs it
   started from: exactly the relations one hop away, whatever their order.
   */
  method RelatedGraph(state: State, p: Projection) returns (derivations: seq<Raw>, relations: seq<Raw>, graphRefs: set<string>)
    ensures derivations == Derivations(state, p) && relations == Relations(state, p)
    ensures graphRefs == Seed(state, p) + set x, ref | x in Relations(state, p) && ref in EndsOf(x) :: ref
  {
    hide Resolved, DerivesFor, Touches, EndsOf;
    var records, edges := Bucket(state, RECORD_KIND), Bucket(state, RELATION_KIND);
    derivations, relations := [], [];
    graphRefs := {p.id} + Resolved(state, p).Keys;
    for i := 0 to |records|
      invariant derivations == Filter(records[..i], (x: Raw) => DerivesFor(p, x))
      invariant graphRefs == {p.id} + Resolved(state, p).Keys + Ids(derivations)
    {
      assert records[..i + 1][..i] == records[..i];
      if DerivesFor(p, records[i]) {
        assert Ids(derivations + [records[i]])
            == Ids(derivations) + if records[i].id.Some? then {records[i].id.value} else {};
        derivations := derivations + [records[i]];
        if records[i].id.Some? {
          graphRefs := graphRefs + {records[i].id.value};
        }
      }
    }
    assert records[..|records|] == records;
    var seed := graphRefs;
    for i := 0 to |edges|
      invariant relations == Filter(edges[..i], (x: Raw) => Touches(seed, x))
      invariant graphRefs == seed + set x, ref | x in relations && ref in EndsOf(x) :: ref
    {
      assert edges[..i + 1][..i] == edges[..i];
      if Touches(seed, edges[i]) {
        relations := relations + [edges[i]];
        graphRefs := graphRefs + EndsOf(edges[i]);
      }
    }
    assert edges[..|edges|] == edges;
  }

  // ---------------------------------------------------------------- classification

  predicate Contained(required: Mapping, actual: Mapping) {
    forall k | k in required :: k in actual && actual[k] == required[k]
  }

  const SUPERSEDED := {"superseded", "archived"}

  function AssertionReasons(ref: string, raw: Raw): set<Reason> {
    (if raw.lifecycle in SUPERSEDED then {StaleAssertion(ref, "")} else {})
    + (if raw.epistemic in {"unknown", "revalidation-required", "unverified"} then {StaleAssertion(ref, raw.epistemic)} else {})
  }

  /** Stops at the first contested or refuted assertion. */
  function ScanAssertions(refs: seq<string>, resolved: map<string, Found>): (bool, set<Reason>) {
    if refs == [] then (false, {})
    else
      var ref, raw := refs[0], RawOf(resolved, refs[0]);
      if raw.epistemic in {"contested", "refuted"} then
        (true, AssertionReasons(ref, raw) + {BlockedAssertion(ref, raw.epistemic)})
      else
        var (blocked, rest) := ScanAssertions(refs[1..], resolved);
        (blocked, AssertionReasons(ref, raw) + rest)
  }

  function StaleEvidenceOf(refs: seq<string>, resolved: map<string, Found>): set<Reason> {
    set ref | ref in refs && RawOf(resolved, ref).lifecycle in SUPERSEDED :: StaleEvidence(ref)
  }

  predicate JudgmentUsable(raw: Raw) {
    raw.epistemic == "supported" && raw.role !in {"approval", "authorization", "governance", "decision"}
  }

  function FirstUnusable(refs: seq<string>, resolved: map<string, Found>): Option<string> {
    if refs == [] then None
    else if !JudgmentUsable(RawOf(resolved, refs[0])) then Some(refs[0])
    else FirstUnusable(refs[1..], resolved)
  }

  function ClassifyDirect(p: Projection, resolved: map<string, Found>): (Option<Status>, set<Reason>) {
    var (blocked, reasons) := ScanAssertions(p.assertions, resolved);
    if blocked then (Some(Blocked), reasons)
    else
      var all := reasons + StaleEvidenceOf(p.evidence, resolved);
      match FirstUnusable(p.judgments, resolved)
      case Some(ref) => (Some(Unavailable), all + {InvalidJudgment(ref)})
      case None => if all != {} then (Some(Stale), all) else (None, {})
  }

  datatype Applicability = Current | Outside | Unknown

  function Denoised(m: Mapping): Mapping {
    map k | k in m && k !in {"created_at", "updated_at"} :: m[k]
  }

  function MappingState(candidates: seq<Mapping>, actual: Mapping): Applicability {
    var given := seq(|candidates|, i requires 0 <= i < |candidates| => Denoised(candidates[i]));
    if candidates == [] || |Elements(given)| != 1 then Unknown
    else if Contained(candidates[0], actual) then Current
    else Outside
  }

  function VersionState(candidates: seq<set<string>>, actual: set<string>): Applicability {
    if candidates == [] || |Elements(candidates)| != 1 then Unknown
    else if candidates[0] <= actual then Current
    else Outside
  }

  function NonemptyMappings(ms: seq<Mapping>): seq<Mapping> {
    if ms == [] then [] else (if ms[0] == map[] then [] else [ms[0]]) + NonemptyMappings(ms[1..])
  }

  function NonemptySets(ss: seq<set<string>>): seq<set<string>> {
    if ss == [] then [] else (if ss[0] == {} then [] else [ss[0]]) + NonemptySets(ss[1..])
  }

  function Applies(fact: Raw, relation: Option<Raw>, r: Requirement): Applicability {
    var edge := if relation.Some? then relation.value else BLANK;
    var scope := MappingState(NonemptyMappings([fact.scope, fact.useScope, edge.scope, edge.useScope]), r.useScope);
    var version := VersionState(
      NonemptySets([fact.subjectVersions, fact.scopeVersions, edge.subjectVersions, edge.scopeVersions]), r.versions);
    var environment := MappingState(
      NonemptyMappings([fact.environmentVersions, fact.environmentBindings, edge.environmentBindings,
                        edge.metadataEnvironmentVersions]), r.environment);
    if scope == Outside || version == Outside || environment == Outside then Outside
    else if scope == Current && version == Current && environment == Current then Current
    else Unknown
  }

  predicate Contradicts(p: Projection, ref: string, x: Raw) {
    && x.relationType == "contradicts"
    && (|| (x.subjectRef == Some(ref) && x.objectRef.Some? && x.objectRef.value in p.assertions)
        || (x.objectRef == Some(ref) && x.subjectRef.Some? && x.subjectRef.value in p.assertions))
  }

  /** The relations that bind the fact as a contradiction, by how they apply. */
  function Binding(p: Projection, r: Requirement, ref: string, fact: Raw, relations: set<Raw>, a: Applicability): set<Raw> {
    set x | x in relations && Contradicts(p, ref, x) && Applies(fact, Some(x), r) == a
  }

  datatype NegativeFinding = NegativeFinding(blocked: bool, unknown: bool, reasons: set<Reason>)

  function JudgeNegative(
    p: Projection, r: Requirement, ref: string, resolved: map<string, Found>, relations: set<Raw>
  ): NegativeFinding {
    if ref !in resolved then NegativeFinding(false, true, {NegativeUnavailable(ref)})
    else
      var fact := resolved[ref].raw;
      if forall x | x in relations :: !Contradicts(p, ref, x) then
        match Applies(fact, None, r)
        case Outside => NegativeFinding(false, false, {NegativeOutside(ref)})
        case Current => NegativeFinding(false, true, {NegativeUnbound(ref)})
        case Unknown => NegativeFinding(false, true, {NegativeUnknown(ref)})
      else
        var current := Binding(p, r, ref, fact, relations, Current);
        if current != {} then NegativeFinding(true, false, set x | x in current :: Contradiction(x.id, ref))
        else if Binding(p, r, ref, fact, relations, Unknown) != {} then NegativeFinding(false, true, {NegativeUnknown(ref)})
        else NegativeFinding(false, false, {NegativeOutside(ref)})
  }

  /** Stops at the first fact that contradicts the current use. */
  function ScanNegatives(
    p: Projection, r: Requirement, refs: seq<string>, resolved: map<string, Found>, relations: set<Raw>
  ): NegativeFinding {
    if refs == [] then NegativeFinding(false, false, {})
    else
      var one := JudgeNegative(p, r, refs[0], resolved, relations);
      if one.blocked then one
      else
        var rest := ScanNegatives(p, r, refs[1..], resolved, relations);
        NegativeFinding(rest.blocked, one.unknown || rest.unknown, one.reasons + rest.reasons)
  }

  function NegativeStatus(f: NegativeFinding): Option<Status> {
    if f.blocked then Some(Blocked) else if f.unknown then Some(Unavailable) else None
  }

  // -------------------------------------------------------------------- one projection

  /** What one selected ref contributes. */
  datatype Finding = Finding(
    statuses: set<Status>,
    reasons: set<Reason>,
    projection: Option<Projection>,
    resolved: map<string, Found>,
    derivations: seq<Raw>,
    relations: seq<Raw>,
    unresolved: set<Reason>)

  function Missing(reason: Reason): Finding {
    Finding({Unavailable}, {reason}, None, map[], [], [], {reason})
  }

  function FreshnessRefs(p: Projection, derivations: seq<Raw>): set<string> {
    {p.id} + Elements(p.assertions) + Elements(p.evidence) + Elements(p.judgments) + Elements(p.scopes) + Ids(derivations)
  }

  function RevalidationReasons(p: Projection, derivations: seq<Raw>, relations: set<Raw>): set<Reason> {
    set x | x in relations && x.relationType == "requires-revalidation" && Touches(FreshnessRefs(p, derivations), x) ::
      RequiresRevalidation(x.id)
  }

  function If(condition: bool, s: Status): set<Status> {
    if condition then {s} else {}
  }

  function Because(condition: bool, r: Reason): set<Reason> {
    if condition then {r} else {}
  }

  function StatusSet(s: Option<Status>): set<Status> {
    if s.Some? then {s.value} else {}
  }

  function Examine(state: State, p: Projection, r: Requirement): Finding {
    var resolved, errors := Resolved(state, p), ResolutionErrors(state, p);
    var derivations, relations := Derivations(state, p), Relations(state, p);
    var (direct, directReasons) := ClassifyDirect(p, resolved);
    var negative := ScanNegatives(
      p, r, Sorted(Elements(p.counterexamples) + Elements(p.negatives)), resolved, Elements(relations));
    var revalidation := RevalidationReasons(p, derivations, Elements(relations));
    var inScope, sameEnvironment := Contained(p.validityScope, r.useScope), Contained(p.environment, r.environment);
    var sameVersions := Elements(p.scopes) <= r.versions;
    Finding(
      If(p.lifecycle != "official", Blocked) + If(errors != {}, Unavailable) + If(!inScope, Blocked)
      + If(!sameEnvironment, Stale) + If(!sameVersions, Stale) + StatusSet(direct) + StatusSet(NegativeStatus(negative))
      + If(revalidation != {}, Stale),
      Because(p.lifecycle != "official", LifecycleNotUsable(p.id, p.lifecycle)) + errors + Because(!inScope, ScopeMismatch(p.id))
      + Because(!sameEnvironment, EnvironmentDrift(p.id)) + Because(!sameVersions, VersionDrift(p.id))
      + directReasons + negative.reasons + revalidation,
      Some(p), resolved, derivations, relations, errors)
  }

  function FindingFor(state: State, ref: string, r: Requirement): Finding {
    match FindProjection(state, ref)
    case None => Missing(ProjectionUnavailable(ref))
    case Some(raw) =>
      match raw.projection
      case None => Missing(ProjectionInvalid(ref))
      case Some(p) => Examine(state, p.(id := ref), r)
  }

  // ------------------------------------------------------------------------ admission

  function Worst(statuses: set<Status>): Status {
    if Blocked in statuses then Blocked
    else if Stale in statuses then Stale
    else if Unavailable in statuses then Unavailable
    else if NotApplicable in statuses then NotApplicable
    else Allowed
  }

  function StatusesOf(state: State, refs: seq<string>, r: Requirement): set<Status> {
    if refs == [] then {}
    else StatusesOf(state, refs[..|refs| - 1], r) + FindingFor(state, refs[|refs| - 1], r).statuses
  }

  function ReasonsOf(state: State, refs: seq<string>, r: Requirement): set<Reason> {
    if refs == [] then {}
    else ReasonsOf(state, refs[..|refs| - 1], r) + FindingFor(state, refs[|refs| - 1], r).reasons
  }

  function StatusOf(state: State, r: Requirement): Status {
    Worst(If(r.refs == [], NotApplicable) + StatusesOf(state, r.refs, r))
  }

  // ---------------------------------------------------------------------- a join

  function Rank(s: Status): nat {
    match s
    case Allowed => 0
    case NotApplicable => 1
    case Unavailable => 2
    case Stale => 3
    case Blocked => 4
  }

  function Join2(s: Status, t: Status): Status {
    if Rank(s) >= Rank(t) then s else t
  }

  lemma WorstJoins(s: set<Status>, t: set<Status>)
    ensures Worst(s + t) == Join2(Worst(s), Worst(t))
  {
  }

  /** The worst verdict any single one of the refs would get. */
  function WorstSingle(state: State, refs: seq<string>, r: Requirement): Status {
    if refs == [] then Allowed
    else Join2(WorstSingle(state, refs[..|refs| - 1], r), StatusOf(state, r.(refs := [refs[|refs| - 1]])))
  }

  lemma RefsDoNotMatterToFinding(state: State, ref: string, r: Requirement, refs: seq<string>)
    ensures FindingFor(state, ref, r.(refs := refs)) == FindingFor(state, ref, r)
  {
    if FindProjection(state, ref).Some? && FindProjection(state, ref).value.projection.Some? {
      var p := FindProjection(state, ref).value.projection.value.(id := ref);
      hide FindProjection, Resolved, ResolutionErrors, Derivations, Relations, ClassifyDirect, JudgeNegative;
      NegativesIgnoreRefs(p, r, refs, Sorted(Elements(p.counterexamples) + Elements(p.negatives)), Resolved(state, p),
                          Elements(Relations(state, p)));
    }
  }

  lemma ApplicabilityIgnoresRefs(fact: Raw, x: Option<Raw>, r: Requirement, refs: seq<string>)
    ensures Applies(fact, x, r.(refs := refs)) == Applies(fact, x, r)
  {
    hide MappingState, VersionState, NonemptyMappings, NonemptySets;
  }

  lemma NegativeIgnoresRefs(
    p: Projection, r: Requirement, refs: seq<string>, ref: string, resolved: map<string, Found>, relations: set<Raw>
  )
    ensures JudgeNegative(p, r.(refs := refs), ref, resolved, relations) == JudgeNegative(p, r, ref, resolved, relations)
  {
    hide Applies, Contradicts;
    var fact := RawOf(resolved, ref);
    forall x ensures Applies(fact, x, r.(refs := refs)) == Applies(fact, x, r) {
      ApplicabilityIgnoresRefs(fact, x, r, refs);
    }
    forall a ensures Binding(p, r.(refs := refs), ref, fact, relations, a) == Binding(p, r, ref, fact, relations, a) {}
  }

  lemma {:induction false} NegativesIgnoreRefs(
    p: Projection, r: Requirement, refs: seq<string>, names: seq<string>, resolved: map<string, Found>, relations: set<Raw>
  )
    ensures ScanNegatives(p, r.(refs := refs), names, resolved, relations) == ScanNegatives(p, r, names, resolved, relations)
  {
    hide JudgeNegative;
    if names != [] {
      NegativeIgnoresRefs(p, r, refs, names[0], resolved, relations);
      NegativesIgnoreRefs(p, r, refs, names[1..], resolved, relations);
    }
  }

  lemma SingleStatus(state: State, ref: string, r: Requirement)
    ensures StatusOf(state, r.(refs := [ref])) == Worst(FindingFor(state, ref, r).statuses)
  {
    hide FindingFor;
    RefsDoNotMatterToFinding(state, ref, r, [ref]);
    assert [ref][..0] == [];
    var one := r.(refs := [ref]);
    assert StatusesOf(state, [ref], one) == {} + FindingFor(state, ref, one).statuses;
    assert If(false, NotApplicable) + StatusesOf(state, [ref], one) == FindingFor(state, ref, r).statuses;
  }

  lemma {:induction false} StatusesJoin(state: State, refs: seq<string>, r: Requirement)
    ensures Worst(StatusesOf(state, refs, r)) == WorstSingle(state, refs, r)
  {
    hide FindingFor, StatusOf;
    if refs != [] {
      StatusesJoin(state, refs[..|refs| - 1], r);
      WorstJoins(StatusesOf(state, refs[..|refs| - 1], r), FindingFor(state, refs[|refs| - 1], r).statuses);
      SingleStatus(state, refs[|refs| - 1], r);
    }
  }

  /** For a non-empty selection the verdict is the worst of the single verdicts. */
  lemma {:induction false} AdmissionIsAJoin(state: State, r: Requirement)
    requires r.refs != []
    ensures StatusOf(state, r) == WorstSingle(state, r.refs, r)
  {
    hide StatusesOf, WorstSingle;
    StatusesJoin(state, r.refs, r);
    assert If(false, NotApplicable) + StatusesOf(state, r.refs, r) == StatusesOf(state, r.refs, r);
  }
}
