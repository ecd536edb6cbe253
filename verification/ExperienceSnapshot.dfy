/**
 The semantic snapshot an admission carries, and what it does not depend on: the
 order in which the store happens to export its objects.
 */
module ExperienceSnapshot {
  import opened Wrappers
  import opened Text
  import opened ExperienceUse

  const REQUIREMENT_SCHEMA := "experience-use-requirement-v1"
  const SNAPSHOT_SCHEMA := "resolved-experience-use-snapshot-v1"
  const CURRENT_CONTRACT := "experience-use-admission-v1"

  datatype RequirementPayload = RequirementPayload(
    schema: string,
    refs: seq<string>,
    useScope: Mapping,
    versions: seq<string>,
    environment: Mapping,
    context: Mapping)

  function PayloadOf(r: Requirement): RequirementPayload {
    RequirementPayload(REQUIREMENT_SCHEMA, r.refs, r.useScope, Sorted(r.versions), r.environment, r.context)
  }

  /** The canonical form leaves creation and update times out wherever they occur. */
  function QuietRequirement(p: RequirementPayload): RequirementPayload {
    p.(useScope := Denoised(p.useScope), environment := Denoised(p.environment), context := Denoised(p.context))
  }

  function QuietProjection(p: Projection): Projection {
    p.(validityScope := Denoised(p.validityScope), environment := Denoised(p.environment))
  }

  function Quiet(x: Raw): Raw {
    x.(noise := "", scope := Denoised(x.scope), useScope := Denoised(x.useScope),
       environmentVersions := Denoised(x.environmentVersions), environmentBindings := Denoised(x.environmentBindings),
       metadataEnvironmentVersions := Denoised(x.metadataEnvironmentVersions))
  }

  function QuietAll(raws: seq<Raw>): seq<Raw> {
    seq(|raws|, i requires 0 <= i < |raws| => Quiet(raws[i]))
  }

  datatype Snapshot = Snapshot(
    schema: string,
    requirement: RequirementPayload,
    projections: seq<Projection>,
    resolved: map<string, Found>,
    derivations: seq<Raw>,
    relations: seq<Raw>,
    unresolved: set<Reason>)

  datatype Admission = Admission(
    status: Status,
    requirementDigest: RequirementPayload,
    snapshot: Snapshot,
    contract: string,
    reasons: set<Reason>)

  /** Equal digests mean equal canonical requirements. */
  function DigestOf(p: RequirementPayload): RequirementPayload {
    QuietRequirement(p)
  }

  lemma DigestIsStable(p: RequirementPayload)
    ensures DigestOf(QuietRequirement(p)) == DigestOf(p)
  {
    assert Denoised(Denoised(p.useScope)) == Denoised(p.useScope);
    assert Denoised(Denoised(p.environment)) == Denoised(p.environment);
    assert Denoised(Denoised(p.context)) == Denoised(p.context);
  }

  // ------------------------------------------------------------------ sorted listings

  function KeyOf(x: Raw): string {
    if x.id.Some? then x.id.value else ""
  }

  function Insert(x: Raw, sorted: seq<Raw>): (r: seq<Raw>)
    ensures multiset(r) == multiset(sorted) + multiset{x}
  {
    if sorted == [] || Leq(KeyOf(x), KeyOf(sorted[0])) then [x] + sorted
    else
      assert sorted == [sorted[0]] + sorted[1..];
      [sorted[0]] + Insert(x, sorted[1..])
  }

  /** Stable by id. */
  function SortById(raws: seq<Raw>): (r: seq<Raw>)
    ensures multiset(r) == multiset(raws)
  {
    if raws == [] then []
    else
      assert raws == [raws[0]] + raws[1..];
      Insert(raws[0], SortById(raws[1..]))
  }

  predicate Ascending(raws: seq<Raw>) {
    forall i, j | 0 <= i < j < |raws| :: Leq(KeyOf(raws[i]), KeyOf(raws[j]))
  }

  lemma {:induction false} InsertAscends(x: Raw, sorted: seq<Raw>)
    requires Ascending(sorted)
    ensures Ascending(Insert(x, sorted))
  {
    hide Leq;
    var r := Insert(x, sorted);
    if sorted == [] {
    } else if Leq(KeyOf(x), KeyOf(sorted[0])) {
      forall j | 0 < j < |r| ensures Leq(KeyOf(x), KeyOf(r[j])) {
        if j > 1 { LeqTransitive(KeyOf(x), KeyOf(sorted[0]), KeyOf(r[j])); }
      }
    } else {
      LeqTotal(KeyOf(x), KeyOf(sorted[0]));
      var rest := Insert(x, sorted[1..]);
      InsertAscends(x, sorted[1..]);
      forall y | y in rest ensures Leq(KeyOf(sorted[0]), KeyOf(y)) {
        assert y in multiset(rest);
        assert y == x || y in sorted[1..];
      }
    }
  }

  lemma {:induction false} SortAscends(raws: seq<Raw>)
    ensures Ascending(SortById(raws))
  {
    if raws != [] {
      SortAscends(raws[1..]);
      InsertAscends(raws[0], SortById(raws[1..]));
    }
  }

  predicate KeysDetermine(raws: seq<Raw>) {
    forall x, y | x in raws && y in raws && KeyOf(x) == KeyOf(y) :: x == y
  }

  lemma LeastFirst(a: seq<Raw>, x: Raw)
    requires Ascending(a) && x in a
    ensures Leq(KeyOf(a[0]), KeyOf(x))
  {
    hide Leq, KeyOf;
    LeqTotal(KeyOf(x), KeyOf(x));
    var i :| 0 <= i < |a| && a[i] == x;
  }

  lemma Tail(a: seq<Raw>)
    requires a != []
    ensures a == [a[0]] + a[1..] && multiset(a[1..]) == multiset(a) - multiset{a[0]}
    ensures Ascending(a) ==> Ascending(a[1..])
    ensures KeysDetermine(a) ==> KeysDetermine(a[1..])
  {
    hide Leq, KeyOf;
    assert a == [a[0]] + a[1..];
  }

  lemma {:induction false} AscendingIsUnique(a: seq<Raw>, b: seq<Raw>)
    requires Ascending(a) && Ascending(b) && multiset(a) == multiset(b) && KeysDetermine(a)
    ensures a == b
  {
    hide Leq, KeyOf, Ascending, Elements, Ids;
    SameMultiset(a, b);
    if a != [] {
      LeastFirst(a, b[0]);
      LeastFirst(b, a[0]);
      LeqAntisymmetric(KeyOf(a[0]), KeyOf(b[0]));
      Tail(a);
      Tail(b);
      AscendingIsUnique(a[1..], b[1..]);
    }
  }

  lemma SameMultiset(a: seq<Raw>, b: seq<Raw>)
    requires multiset(a) == multiset(b)
    ensures |a| == |b| && (forall x :: x in a <==> x in b)
    ensures Elements(a) == Elements(b) && Ids(a) == Ids(b)
    ensures |a| == 1 ==> a == b
  {
    assert |multiset(a)| == |a| && |multiset(b)| == |b|;
    forall x ensures x in a <==> x in b {
      assert x in a <==> x in multiset(a);
    }
    if |a| == 1 {
      assert a[0] in b;
    }
  }

  /** Listing by id forgets the order, as long as ids tell the objects apart. */
  lemma SortForgetsOrder(a: seq<Raw>, b: seq<Raw>)
    requires multiset(a) == multiset(b) && KeysDetermine(a)
    ensures SortById(a) == SortById(b)
  {
    SortAscends(a);
    SortAscends(b);
    forall x | x in SortById(a) ensures x in a {
      assert x in multiset(SortById(a));
    }
    AscendingIsUnique(SortById(a), SortById(b));
  }

  // --------------------------------------------------------------------- the snapshot

  function ProjectionsFor(state: State, refs: seq<string>, r: Requirement): seq<Projection> {
    if refs == [] then []
    else
      var last := FindingFor(state, refs[|refs| - 1], r).projection;
      ProjectionsFor(state, refs[..|refs| - 1], r) + if last.Some? then [QuietProjection(last.value)] else []
  }

  function ResolvedFor(state: State, refs: seq<string>, r: Requirement): map<string, Found> {
    if refs == [] then map[]
    else ResolvedFor(state, refs[..|refs| - 1], r) + FindingFor(state, refs[|refs| - 1], r).resolved
  }

  function DerivationsFor(state: State, refs: seq<string>, r: Requirement): seq<Raw> {
    if refs == [] then []
    else DerivationsFor(state, refs[..|refs| - 1], r) + FindingFor(state, refs[|refs| - 1], r).derivations
  }

  function RelationsFor(state: State, refs: seq<string>, r: Requirement): seq<Raw> {
    if refs == [] then []
    else RelationsFor(state, refs[..|refs| - 1], r) + FindingFor(state, refs[|refs| - 1], r).relations
  }

  function UnresolvedFor(state: State, refs: seq<string>, r: Requirement): set<Reason> {
    if refs == [] then {}
    else UnresolvedFor(state, refs[..|refs| - 1], r) + FindingFor(state, refs[|refs| - 1], r).unresolved
  }

  function QuietFound(resolved: map<string, Found>): map<string, Found> {
    map ref | ref in resolved :: Found(resolved[ref].kind, Quiet(resolved[ref].raw))
  }

  /** Selected refs come sorted, so the projections are listed by id as they are found. */
  function SnapshotOf(state: State, r: Requirement): Snapshot {
    Snapshot(SNAPSHOT_SCHEMA, QuietRequirement(PayloadOf(r)), ProjectionsFor(state, r.refs, r),
             QuietFound(ResolvedFor(state, r.refs, r)),
             QuietAll(SortById(DerivationsFor(state, r.refs, r))), QuietAll(SortById(RelationsFor(state, r.refs, r))),
             UnresolvedFor(state, r.refs, r))
  }

  function Evaluate(state: State, r: Requirement): Admission {
    Admission(StatusOf(state, r), DigestOf(PayloadOf(r)), SnapshotOf(state, r), CURRENT_CONTRACT,
              Because(r.refs == [], NoReliance) + ReasonsOf(state, r.refs, r))
  }

  /** The evaluator's pass over the selected refs, collecting as it goes. */
  method EvaluateUse(state: State, r: Requirement) returns (a: Admission)
    ensures a == Evaluate(state, r)
  {
    hide FindingFor, SortById, QuietAll, QuietFound, QuietProjection;
    var projections: seq<Projection> := [];
    var resolved: map<string, Found> := map[];
    var derivations: seq<Raw>, relations: seq<Raw> := [], [];
    var unresolved: set<Reason>, reasons: set<Reason>, statuses: set<Status> := {}, {}, {};
    for i := 0 to |r.refs|
      invariant statuses == StatusesOf(state, r.refs[..i], r) && reasons == ReasonsOf(state, r.refs[..i], r)
      invariant projections == ProjectionsFor(state, r.refs[..i], r) && resolved == ResolvedFor(state, r.refs[..i], r)
      invariant derivations == DerivationsFor(state, r.refs[..i], r) && relations == RelationsFor(state, r.refs[..i], r)
      invariant unresolved == UnresolvedFor(state, r.refs[..i], r)
    {
      assert r.refs[..i + 1][..i] == r.refs[..i];
      var finding := FindingFor(state, r.refs[i], r);
      statuses, reasons := statuses + finding.statuses, reasons + finding.reasons;
      if finding.projection.Some? {
        projections := projections + [QuietProjection(finding.projection.value)];
      }
      resolved := resolved + finding.resolved;
      derivations, relations := derivations + finding.derivations, relations + finding.relations;
      unresolved := unresolved + finding.unresolved;
    }
    assert r.refs[..|r.refs|] == r.refs;
    var snapshot := Snapshot(SNAPSHOT_SCHEMA, QuietRequirement(PayloadOf(r)), projections, QuietFound(resolved),
                             QuietAll(SortById(derivations)), QuietAll(SortById(relations)), unresolved);
    return Admission(Worst(If(r.refs == [], NotApplicable) + statuses), DigestOf(PayloadOf(r)), snapshot, CURRENT_CONTRACT,
                     Because(r.refs == [], NoReliance) + reasons);
  }

  // ------------------------------------------------------------ export order is irrelevant

  ghost predicate SameBuckets(s: State, t: State) {
    && s.Keys == t.Keys
    && forall kind | kind in s :: multiset(s[kind]) == multiset(t[kind])
  }

  /** Within a bucket every object has an id of its own. */
  ghost predicate UniqueIds(s: State) {
    forall kind, i, j | kind in s && 0 <= i < j < |s[kind]| ::
      s[kind][i].id.Some? && s[kind][j].id.Some? && s[kind][i].id != s[kind][j].id
  }

  lemma {:induction false} FilterCounts(bucket: seq<Raw>, p: Raw -> bool, x: Raw)
    ensures multiset(Filter(bucket, p))[x] == if p(x) then multiset(bucket)[x] else 0
  {
    if bucket != [] {
      FilterCounts(bucket[..|bucket| - 1], p, x);
      assert bucket == bucket[..|bucket| - 1] + [bucket[|bucket| - 1]];
    }
  }

  lemma FilterForgetsOrder(a: seq<Raw>, b: seq<Raw>, p: Raw -> bool)
    requires multiset(a) == multiset(b)
    ensures multiset(Filter(a, p)) == multiset(Filter(b, p))
    ensures |Filter(a, p)| == |Filter(b, p)|
    ensures |Filter(a, p)| == 1 ==> Filter(a, p) == Filter(b, p)
    ensures Elements(Filter(a, p)) == Elements(Filter(b, p)) && Ids(Filter(a, p)) == Ids(Filter(b, p))
  {
    hide Filter, Ids, Elements;
    forall x ensures multiset(Filter(a, p))[x] == multiset(Filter(b, p))[x] {
      FilterCounts(a, p, x);
      FilterCounts(b, p, x);
    }
    assert multiset(Filter(a, p)) == multiset(Filter(b, p));
    SameMultiset(Filter(a, p), Filter(b, p));
  }

  lemma BucketsMatch(s: State, t: State, kind: string)
    requires SameBuckets(s, t)
    ensures multiset(Bucket(s, kind)) == multiset(Bucket(t, kind))
  {
  }

  lemma LookupForgetsOrder(s: State, t: State, kind: string, ref: string)
    requires SameBuckets(s, t)
    ensures |WithId(Bucket(s, kind), ref)| == |WithId(Bucket(t, kind), ref)|
    ensures |WithId(Bucket(s, kind), ref)| == 1 ==> WithId(Bucket(s, kind), ref) == WithId(Bucket(t, kind), ref)
  {
    BucketsMatch(s, t, kind);
    FilterForgetsOrder(Bucket(s, kind), Bucket(t, kind), (x: Raw) => x.id == Some(ref));
  }

  lemma FindForgetsOrder(s: State, t: State, ref: string)
    requires SameBuckets(s, t)
    ensures FindExact(s, ref) == FindExact(t, ref) && FindProjection(s, ref) == FindProjection(t, ref)
  {
    hide WithId;
    forall kind
      ensures |WithId(Bucket(s, kind), ref)| == |WithId(Bucket(t, kind), ref)|
      ensures |WithId(Bucket(s, kind), ref)| == 1 ==> WithId(Bucket(s, kind), ref) == WithId(Bucket(t, kind), ref)
    {
      LookupForgetsOrder(s, t, kind, ref);
    }
    forall kind ensures OnlyIn(s, kind, ref) <==> OnlyIn(t, kind, ref) {
      if OnlyIn(s, kind, ref) { OnlyInForgetsOrder(s, t, kind, ref); }
      if OnlyIn(t, kind, ref) { OnlyInForgetsOrder(t, s, kind, ref); }
    }
  }

  lemma OnlyInForgetsOrder(s: State, t: State, kind: string, ref: string)
    requires SameBuckets(s, t) && OnlyIn(s, kind, ref)
    ensures OnlyIn(t, kind, ref)
  {
    hide WithId;
    LookupForgetsOrder(s, t, kind, ref);
    forall other | other in t && other != kind ensures WithId(t[other], ref) == [] {
      LookupForgetsOrder(s, t, other, ref);
      assert Bucket(s, other) == s[other] && Bucket(t, other) == t[other];
    }
  }

  lemma ResolutionForgetsOrder(s: State, t: State, p: Projection)
    requires SameBuckets(s, t)
    ensures Resolved(s, p) == Resolved(t, p) && ResolutionErrors(s, p) == ResolutionErrors(t, p)
  {
    hide FindExact, FindProjection, ShapeAllowed, RefsOf, SameBuckets;
    forall ref ensures FindExact(s, ref) == FindExact(t, ref) {
      FindForgetsOrder(s, t, ref);
    }
  }

  lemma GraphForgetsOrder(s: State, t: State, p: Projection)
    requires SameBuckets(s, t)
    ensures multiset(Derivations(s, p)) == multiset(Derivations(t, p)) && Ids(Derivations(s, p)) == Ids(Derivations(t, p))
    ensures multiset(Relations(s, p)) == multiset(Relations(t, p)) && Elements(Relations(s, p)) == Elements(Relations(t, p))
  {
    hide Resolved, ResolutionErrors, Touches, DerivesFor, SameBuckets, Filter;
    BucketsMatch(s, t, RECORD_KIND);
    BucketsMatch(s, t, RELATION_KIND);
    FilterForgetsOrder(Bucket(s, RECORD_KIND), Bucket(t, RECORD_KIND), (x: Raw) => DerivesFor(p, x));
    ResolutionForgetsOrder(s, t, p);
    assert Seed(s, p) == Seed(t, p);
    FilterForgetsOrder(Bucket(s, RELATION_KIND), Bucket(t, RELATION_KIND), (x: Raw) => Touches(Seed(s, p), x));
  }

  /** Two findings that differ at most in the order of their listings. */
  ghost predicate SameFinding(f: Finding, g: Finding) {
    && f.statuses == g.statuses && f.reasons == g.reasons && f.projection == g.projection
    && f.resolved == g.resolved && f.unresolved == g.unresolved
    && multiset(f.derivations) == multiset(g.derivations)
    && multiset(f.relations) == multiset(g.relations)
  }

  lemma ExamineForgetsOrder(s: State, t: State, p: Projection, r: Requirement)
    requires SameBuckets(s, t)
    ensures SameFinding(Examine(s, p, r), Examine(t, p, r))
  {
    hide Resolved, ResolutionErrors, Derivations, Relations, ClassifyDirect, ScanNegatives, SameBuckets, RevalidationReasons,
      Contained, If, Because, StatusSet, NegativeStatus, Sorted, Elements;
    ResolutionForgetsOrder(s, t, p);
    GraphForgetsOrder(s, t, p);
    RevalidationForgetsOrder(s, t, p);
  }

  lemma RevalidationForgetsOrder(s: State, t: State, p: Projection)
    requires SameBuckets(s, t)
    ensures RevalidationReasons(p, Derivations(s, p), Elements(Relations(s, p)))
         == RevalidationReasons(p, Derivations(t, p), Elements(Relations(t, p)))
  {
    hide Derivations, Relations, SameBuckets, Touches;
    GraphForgetsOrder(s, t, p);
  }

  lemma FindingForgetsOrder(s: State, t: State, ref: string, r: Requirement)
    requires SameBuckets(s, t)
    ensures SameFinding(FindingFor(s, ref, r), FindingFor(t, ref, r))
  {
    hide FindProjection, Examine, SameBuckets;
    FindForgetsOrder(s, t, ref);
    if FindProjection(s, ref).Some? && FindProjection(s, ref).value.projection.Some? {
      ExamineForgetsOrder(s, t, FindProjection(s, ref).value.projection.value.(id := ref), r);
    }
  }

  lemma {:induction false} ListingsForgetOrder(s: State, t: State, refs: seq<string>, r: Requirement)
    requires SameBuckets(s, t)
    ensures StatusesOf(s, refs, r) == StatusesOf(t, refs, r) && ReasonsOf(s, refs, r) == ReasonsOf(t, refs, r)
    ensures ProjectionsFor(s, refs, r) == ProjectionsFor(t, refs, r) && ResolvedFor(s, refs, r) == ResolvedFor(t, refs, r)
    ensures UnresolvedFor(s, refs, r) == UnresolvedFor(t, refs, r)
    ensures multiset(DerivationsFor(s, refs, r)) == multiset(DerivationsFor(t, refs, r))
    ensures multiset(RelationsFor(s, refs, r)) == multiset(RelationsFor(t, refs, r))
  {
    hide FindingFor, SameBuckets, QuietProjection;
    if refs != [] {
      ListingsForgetOrder(s, t, refs[..|refs| - 1], r);
      FindingForgetsOrder(s, t, refs[|refs| - 1], r);
    }
  }

  lemma FilteredAreMembers(bucket: seq<Raw>, p: Raw -> bool, x: Raw)
    requires x in Filter(bucket, p)
    ensures x in bucket
  {
    FilterCounts(bucket, p, x);
    assert x in multiset(Filter(bucket, p));
  }

  lemma FindingListsMembers(s: State, ref: string, r: Requirement, x: Raw)
    ensures x in FindingFor(s, ref, r).derivations ==> x in Bucket(s, RECORD_KIND)
    ensures x in FindingFor(s, ref, r).relations ==> x in Bucket(s, RELATION_KIND)
  {
    hide FindProjection, ClassifyDirect, ScanNegatives, Resolved, ResolutionErrors, RevalidationReasons, Contained;
    if FindProjection(s, ref).Some? && FindProjection(s, ref).value.projection.Some? {
      var p := FindProjection(s, ref).value.projection.value.(id := ref);
      if x in Derivations(s, p) {
        FilteredAreMembers(Bucket(s, RECORD_KIND), (x: Raw) => DerivesFor(p, x), x);
      }
      if x in Relations(s, p) {
        FilteredAreMembers(Bucket(s, RELATION_KIND), (x: Raw) => Touches(Seed(s, p), x), x);
      }
    }
  }

  lemma {:induction false} ListsMembers(s: State, refs: seq<string>, r: Requirement, x: Raw)
    ensures x in DerivationsFor(s, refs, r) ==> x in Bucket(s, RECORD_KIND)
    ensures x in RelationsFor(s, refs, r) ==> x in Bucket(s, RELATION_KIND)
  {
    hide FindingFor;
    if refs != [] {
      ListsMembers(s, refs[..|refs| - 1], r, x);
      FindingListsMembers(s, refs[|refs| - 1], r, x);
    }
  }

  lemma UniqueIdsDetermine(s: State, kind: string, x: Raw, y: Raw)
    requires UniqueIds(s) && x in Bucket(s, kind) && y in Bucket(s, kind) && KeyOf(x) == KeyOf(y)
    ensures x == y
  {
    var i :| 0 <= i < |s[kind]| && s[kind][i] == x;
    var j :| 0 <= j < |s[kind]| && s[kind][j] == y;
  }

  /** Permuting each exported bucket changes neither verdict nor reasons nor snapshot. */
  lemma ExportOrderIrrelevant(s: State, t: State, r: Requirement)
    requires SameBuckets(s, t) && UniqueIds(s)
    ensures Evaluate(s, r) == Evaluate(t, r)
  {
    hide SameBuckets, UniqueIds, StatusesOf, ReasonsOf, ProjectionsFor, ResolvedFor, UnresolvedFor, DerivationsFor,
      RelationsFor, SortById, QuietAll, QuietFound, Quiet;
    ListingsForgetOrder(s, t, r.refs, r);
    var derivations, relations := DerivationsFor(s, r.refs, r), RelationsFor(s, r.refs, r);
    forall x, y | x in derivations && y in derivations && KeyOf(x) == KeyOf(y) ensures x == y {
      ListsMembers(s, r.refs, r, x);
      ListsMembers(s, r.refs, r, y);
      UniqueIdsDetermine(s, RECORD_KIND, x, y);
    }
    forall x, y | x in relations && y in relations && KeyOf(x) == KeyOf(y) ensures x == y {
      ListsMembers(s, r.refs, r, x);
      ListsMembers(s, r.refs, r, y);
      UniqueIdsDetermine(s, RELATION_KIND, x, y);
    }
    SortForgetsOrder(derivations, DerivationsFor(t, r.refs, r));
    SortForgetsOrder(relations, RelationsFor(t, r.refs, r));
  }

  // ------------------------------------------------------- what an allowance implies

  lemma {:induction false} AllowedFindsEverything(state: State, refs: seq<string>, r: Requirement)
    requires Unavailable !in StatusesOf(state, refs, r)
    ensures |ProjectionsFor(state, refs, r)| == |refs|
    ensures forall i | 0 <= i < |refs| :: ProjectionsFor(state, refs, r)[i].id == refs[i]
  {
    hide Examine, FindProjection;
    if refs != [] {
      AllowedFindsEverything(state, refs[..|refs| - 1], r);
      FoundUnlessUnavailable(state, refs[|refs| - 1], r);
    }
  }

  lemma FoundUnlessUnavailable(state: State, ref: string, r: Requirement)
    ensures Unavailable !in FindingFor(state, ref, r).statuses ==>
      FindingFor(state, ref, r).projection.Some? && FindingFor(state, ref, r).projection.value.id == ref
  {
    hide FindProjection, ClassifyDirect, ScanNegatives, Resolved, ResolutionErrors, RevalidationReasons, Contained,
      Derivations, Relations;
  }
}
