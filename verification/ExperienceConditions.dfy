/**
 What each verdict on the use of experience takes in facts about the exported
 state itself: which objects it holds, what they say of themselves and of each
 other, and how that compares with the use.
 */
module ExperienceConditions {
  import opened Wrappers
  import opened Text
  import opened ExperienceUse
  import opened ExperienceVerdicts

  // ------------------------------------------------------------------ single objects

  predicate StandsAt(state: State, kind: string, n: int, ref: string) {
    kind in state && 0 <= n < |state[kind]| && state[kind][n].id == Some(ref)
  }

  /** The only object of that id in the whole state. */
  ghost predicate Sole(state: State, ref: string, kind: string, x: Raw) {
    exists n: int ::
      && StandsAt(state, kind, n, ref) && state[kind][n] == x
      && forall k, m: int | StandsAt(state, k, m, ref) :: k == kind && m == n
  }

  lemma {:induction false} FilterNone(bucket: seq<Raw>, p: Raw -> bool)
    ensures Filter(bucket, p) == [] <==> forall n | 0 <= n < |bucket| :: !p(bucket[n])
  {
    if bucket != [] {
      FilterNone(bucket[..|bucket| - 1], p);
    }
  }

  lemma {:induction false} FilterOne(bucket: seq<Raw>, p: Raw -> bool)
    ensures forall n | 0 <= n < |bucket| && p(bucket[n]) && (forall m | 0 <= m < |bucket| && p(bucket[m]) :: m == n) ::
      Filter(bucket, p) == [bucket[n]]
    ensures |Filter(bucket, p)| == 1 ==>
      exists n | 0 <= n < |bucket| :: p(bucket[n]) && forall m | 0 <= m < |bucket| && p(bucket[m]) :: m == n
  {
    if bucket != [] {
      var prefix, last := bucket[..|bucket| - 1], |bucket| - 1;
      FilterOne(prefix, p);
      FilterNone(prefix, p);
      forall n | 0 <= n < |bucket| && p(bucket[n]) && forall m | 0 <= m < |bucket| && p(bucket[m]) :: m == n
        ensures Filter(bucket, p) == [bucket[n]]
      {
        if n < last {
          assert prefix[n] == bucket[n];
          assert forall m | 0 <= m < |prefix| && p(prefix[m]) :: bucket[m] == prefix[m] && m == n;
        }
      }
      if |Filter(bucket, p)| == 1 {
        if p(bucket[last]) {
          assert forall m | 0 <= m < |bucket| && p(bucket[m]) :: m == last;
        } else {
          var n :| 0 <= n < |prefix| && p(prefix[n]) && forall m | 0 <= m < |prefix| && p(prefix[m]) :: m == n;
          assert p(bucket[n]);
          assert forall m | 0 <= m < |bucket| && p(bucket[m]) :: m < last && p(prefix[m]);
        }
      }
    }
  }

  lemma SoleIsOnly(state: State, ref: string, kind: string, x: Raw)
    requires Sole(state, ref, kind, x)
    ensures kind in state && OnlyIn(state, kind, ref) && WithId(state[kind], ref) == [x]
  {
    var n: int :| StandsAt(state, kind, n, ref) && state[kind][n] == x
      && forall k, m: int | StandsAt(state, k, m, ref) :: k == kind && m == n;
    var p := (y: Raw) => y.id == Some(ref);
    FilterOne(state[kind], p);
    assert forall m | 0 <= m < |state[kind]| && p(state[kind][m]) :: StandsAt(state, kind, m, ref);
    forall other | other in state && other != kind ensures WithId(state[other], ref) == [] {
      FilterNone(state[other], p);
      assert forall m | 0 <= m < |state[other]| && p(state[other][m]) :: StandsAt(state, other, m, ref);
    }
  }

  lemma OnlyIsSole(state: State, ref: string, kind: string)
    requires kind in state && OnlyIn(state, kind, ref)
    ensures WithId(state[kind], ref) != [] && Sole(state, ref, kind, WithId(state[kind], ref)[0])
  {
    var p := (y: Raw) => y.id == Some(ref);
    FilterOne(state[kind], p);
    var n :| 0 <= n < |state[kind]| && p(state[kind][n]) && forall m | 0 <= m < |state[kind]| && p(state[kind][m]) :: m == n;
    assert StandsAt(state, kind, n, ref);
    forall k, m: int | StandsAt(state, k, m, ref) ensures k == kind && m == n {
      assert p(state[k][m]);
      if k != kind {
        FilterNone(state[k], p);
      }
    }
  }

  /** The lookup finds an object exactly when it is the only one of its id. */
  lemma FoundExactly(state: State, ref: string)
    ensures forall kind, x :: FindExact(state, ref) == Some(Found(kind, x)) <==> Sole(state, ref, kind, x)
    ensures FindExact(state, ref).None? <==> forall kind, x :: !Sole(state, ref, kind, x)
  {
    hide OnlyIn, WithId, Sole;
    forall kind, x ensures FindExact(state, ref) == Some(Found(kind, x)) <==> Sole(state, ref, kind, x) {
      if Sole(state, ref, kind, x) {
        SoleIsOnly(state, ref, kind, x);
        assert FindExact(state, ref).Some?;
        var found := FindExact(state, ref).value;
        OnlyIsSole(state, ref, found.kind);
        SameSole(state, ref, kind, x, found.kind, found.raw);
      }
      if FindExact(state, ref) == Some(Found(kind, x)) {
        OnlyIsSole(state, ref, kind);
      }
    }
    if FindExact(state, ref).Some? {
      var found := FindExact(state, ref).value;
      assert FindExact(state, ref) == Some(Found(found.kind, found.raw));
      assert Sole(state, ref, found.kind, found.raw);
    }
  }

  lemma SameSole(state: State, ref: string, kind: string, x: Raw, other: string, y: Raw)
    requires Sole(state, ref, kind, x) && Sole(state, ref, other, y)
    ensures kind == other && x == y
  {
  }

  // --------------------------------------------------------------- where a fact holds

  predicate Within(required: Mapping, actual: Mapping) {
    forall k :: k in required ==> k in actual && actual[k] == required[k]
  }

  /** Alike, but for when they were created and updated. */
  ghost predicate SaysTheSame(a: Mapping, b: Mapping) {
    forall k :: k != "created_at" && k != "updated_at" ==> (k in a <==> k in b) && (k in a ==> a[k] == b[k])
  }

  /** Something is stated, the statements agree, and this is the first of them. */
  ghost predicate OneVoice(stated: seq<Mapping>, n: int) {
    && 0 <= n < |stated| && stated[n] != map[]
    && forall m | 0 <= m < |stated| && stated[m] != map[] :: n <= m && SaysTheSame(stated[n], stated[m])
  }

  ghost predicate InPlace(stated: seq<Mapping>, actual: Mapping) {
    exists n: int :: OneVoice(stated, n) && Within(stated[n], actual)
  }

  ghost predicate OutOfPlace(stated: seq<Mapping>, actual: Mapping) {
    exists n: int :: OneVoice(stated, n) && !Within(stated[n], actual)
  }

  lemma DenoisedExactly(a: Mapping, b: Mapping)
    ensures Denoised(a) == Denoised(b) <==> SaysTheSame(a, b)
  {
    var x, y := Denoised(a), Denoised(b);
    if SaysTheSame(a, b) {
      forall k ensures (k in x <==> k in y) && (k in x ==> x[k] == y[k]) {}
      assert x.Keys == y.Keys;
    }
    if x == y {
      forall k | k != "created_at" && k != "updated_at" ensures (k in a <==> k in b) && (k in a ==> a[k] == b[k]) {
        assert k in a <==> k in x;
        assert k in b <==> k in y;
      }
    }
  }

  /** The statements made are the ones looked at, in their order. */
  lemma {:induction false} StatedMappings(stated: seq<Mapping>)
    ensures forall x :: x in NonemptyMappings(stated) <==> x in stated && x != map[]
    ensures NonemptyMappings(stated) != [] ==>
      exists n | 0 <= n < |stated| ::
        stated[n] == NonemptyMappings(stated)[0] && stated[n] != map[] && forall m | 0 <= m < n :: stated[m] == map[]
  {
    if stated != [] {
      StatedMappings(stated[1..]);
      assert stated == [stated[0]] + stated[1..];
      if stated[0] != map[] {
        assert NonemptyMappings(stated)[0] == stated[0];
      } else if NonemptyMappings(stated) != [] {
        var rest := stated[1..];
        var n :| 0 <= n < |rest| && rest[n] == NonemptyMappings(rest)[0] && rest[n] != map[] && forall m | 0 <= m < n :: rest[m] == map[];
        assert stated[n + 1] == rest[n];
        forall m | 0 <= m < n + 1 ensures stated[m] == map[] {
          if m > 0 {
            assert stated[m] == rest[m - 1];
          }
        }
      }
    }
  }

  lemma {:induction false} OneElement<T>(q: seq<T>)
    ensures |Elements(q)| == 1 <==> q != [] && forall x | x in q :: x == q[0]
  {
    if |Elements(q)| == 1 {
      assert q != [];
      assert q[0] in Elements(q);
      forall x | x in q ensures x == q[0] {
        if x != q[0] {
          assert {x, q[0]} <= Elements(q);
          SubsetSize({x, q[0]}, Elements(q));
        }
      }
    }
    if q != [] && forall x | x in q :: x == q[0] {
      assert q[0] in q;
      assert Elements(q) == {q[0]};
    }
  }

  lemma {:induction false} SubsetSize<T>(a: set<T>, b: set<T>)
    requires a <= b
    ensures |a| <= |b|
  {
    assert b == a + (b - a);
  }

  lemma MappingExactly(stated: seq<Mapping>, actual: Mapping)
    ensures MappingState(NonemptyMappings(stated), actual) == Current <==> InPlace(stated, actual)
    ensures MappingState(NonemptyMappings(stated), actual) == Outside <==> OutOfPlace(stated, actual)
  {
    hide NonemptyMappings, SaysTheSame, Denoised;
    var c := NonemptyMappings(stated);
    StatedMappings(stated);
    if c != [] {
      var n :| 0 <= n < |stated| && stated[n] == c[0] && stated[n] != map[] && forall m | 0 <= m < n :: stated[m] == map[];
      var given := seq(|c|, i requires 0 <= i < |c| => Denoised(c[i]));
      OneElement(given);
      if OneVoice(stated, n) {
        forall d | d in given ensures d == given[0] {
          var i :| 0 <= i < |given| && given[i] == d;
          assert c[i] in c;
          var m :| 0 <= m < |stated| && stated[m] == c[i];
          DenoisedExactly(stated[n], stated[m]);
        }
      }
      if |Elements(given)| == 1 {
        forall m | 0 <= m < |stated| && stated[m] != map[] ensures n <= m && SaysTheSame(stated[n], stated[m]) {
          assert stated[m] in c;
          var i :| 0 <= i < |c| && c[i] == stated[m];
          assert given[i] in given;
          DenoisedExactly(stated[n], stated[m]);
        }
      }
      assert OneVoice(stated, n) <==> |Elements(given)| == 1;
      forall k: int | OneVoice(stated, k) ensures k == n {}
    } else {
      forall n | 0 <= n < |stated| ensures stated[n] == map[] {
        assert stated[n] in stated;
      }
    }
  }

  /** Versions are stated, and all statements of them name the same. */
  predicate AgreedVersions(stated: seq<set<string>>, versions: set<string>) {
    && versions != {} && versions in stated
    && forall other | other in stated && other != {} :: other == versions
  }

  lemma {:induction false} StatedVersions(stated: seq<set<string>>)
    ensures forall x :: x in NonemptySets(stated) <==> x in stated && x != {}
  {
    if stated != [] {
      StatedVersions(stated[1..]);
      assert stated == [stated[0]] + stated[1..];
    }
  }

  lemma VersionsExactly(stated: seq<set<string>>, actual: set<string>)
    ensures VersionState(NonemptySets(stated), actual) == Current
       <==> exists versions | versions in stated :: AgreedVersions(stated, versions) && forall v | v in versions :: v in actual
    ensures VersionState(NonemptySets(stated), actual) == Outside
       <==> exists versions | versions in stated :: AgreedVersions(stated, versions) && exists v | v in versions :: v !in actual
  {
    hide NonemptySets;
    var c := NonemptySets(stated);
    StatedVersions(stated);
    OneElement(c);
    if c != [] {
      assert c[0] in c;
      assert AgreedVersions(stated, c[0]) <==> |Elements(c)| == 1;
      assert forall versions | AgreedVersions(stated, versions) :: versions == c[0];
    }
  }

  // ------------------------------------------------------- facts that speak against it

  predicate EdgeOf(state: State, e: Raw) {
    "relation" in state && e in state["relation"]
  }

  predicate EndAt(e: Raw, ref: string) {
    e.subjectRef == Some(ref) || e.objectRef == Some(ref)
  }

  /** The relation sets the fact against one of the projection's assertions. */
  ghost predicate SetAgainst(p: Projection, ref: string, e: Raw) {
    && e.relationType == "contradicts"
    && exists a | a in p.assertions ::
         || (e.subjectRef == Some(ref) && e.objectRef == Some(a))
         || (e.objectRef == Some(ref) && e.subjectRef == Some(a))
  }

  function ScopesStated(fact: Raw, edge: Option<Raw>): seq<Mapping> {
    [fact.scope, fact.useScope] + if edge.Some? then [edge.value.scope, edge.value.useScope] else []
  }

  function VersionsStated(fact: Raw, edge: Option<Raw>): seq<set<string>> {
    [fact.subjectVersions, fact.scopeVersions] + if edge.Some? then [edge.value.subjectVersions, edge.value.scopeVersions] else []
  }

  function EnvironmentsStated(fact: Raw, edge: Option<Raw>): seq<Mapping> {
    [fact.environmentVersions, fact.environmentBindings]
    + if edge.Some? then [edge.value.environmentBindings, edge.value.metadataEnvironmentVersions] else []
  }

  /** In scope, version or environment the fact is stated to hold elsewhere than the use. */
  ghost predicate HoldsElsewhere(fact: Raw, edge: Option<Raw>, r: Requirement) {
    || OutOfPlace(ScopesStated(fact, edge), r.useScope)
    || OutOfPlace(EnvironmentsStated(fact, edge), r.environment)
    || exists versions | versions in VersionsStated(fact, edge) ::
         AgreedVersions(VersionsStated(fact, edge), versions) && exists v | v in versions :: v !in r.versions
  }

  /** In scope, version and environment the fact is stated to hold where the use is. */
  ghost predicate HoldsHere(fact: Raw, edge: Option<Raw>, r: Requirement) {
    && InPlace(ScopesStated(fact, edge), r.useScope)
    && InPlace(EnvironmentsStated(fact, edge), r.environment)
    && exists versions | versions in VersionsStated(fact, edge) ::
         AgreedVersions(VersionsStated(fact, edge), versions) && forall v | v in versions :: v in r.versions
  }

  lemma {:induction false} NoMoreMappings(stated: seq<Mapping>)
    ensures NonemptyMappings(stated + [map[]]) == NonemptyMappings(stated)
  {
    if stated == [] {
      assert stated + [map[]] == [map[]];
      assert (stated + [map[]])[1..] == stated;
    } else {
      NoMoreMappings(stated[1..]);
      assert (stated + [map[]])[1..] == stated[1..] + [map[]];
    }
  }

  lemma {:induction false} NoMoreSets(stated: seq<set<string>>)
    ensures NonemptySets(stated + [{}]) == NonemptySets(stated)
  {
    if stated == [] {
      assert stated + [{}] == [{}];
      assert (stated + [{}])[1..] == stated;
    } else {
      NoMoreSets(stated[1..]);
      assert (stated + [{}])[1..] == stated[1..] + [{}];
    }
  }

  lemma NothingFromNoEdge(scopes: seq<Mapping>, versions: seq<set<string>>, environments: seq<Mapping>)
    ensures NonemptyMappings(scopes + [map[]] + [map[]]) == NonemptyMappings(scopes)
    ensures NonemptyMappings(environments + [map[]] + [map[]]) == NonemptyMappings(environments)
    ensures NonemptySets(versions + [{}] + [{}]) == NonemptySets(versions)
  {
    NoMoreMappings(scopes);
    NoMoreMappings(scopes + [map[]]);
    NoMoreMappings(environments);
    NoMoreMappings(environments + [map[]]);
    NoMoreSets(versions);
    NoMoreSets(versions + [{}]);
  }

  /** How a fact applies, from what it and the relation state. */
  lemma AppliesExactly(fact: Raw, edge: Option<Raw>, r: Requirement)
    ensures ExperienceUse.Applies(fact, edge, r) == Outside <==> HoldsElsewhere(fact, edge, r)
    ensures ExperienceUse.Applies(fact, edge, r) == Current <==> HoldsHere(fact, edge, r)
  {
    hide NonemptyMappings, NonemptySets, MappingState, VersionState, OutOfPlace, InPlace, AgreedVersions;
    var scopes, versions, environments := ScopesStated(fact, edge), VersionsStated(fact, edge), EnvironmentsStated(fact, edge);
    MappingExactly(scopes, r.useScope);
    MappingExactly(environments, r.environment);
    VersionsExactly(versions, r.versions);
    if edge.Some? {
      assert scopes == [fact.scope, fact.useScope, edge.value.scope, edge.value.useScope];
      assert versions == [fact.subjectVersions, fact.scopeVersions, edge.value.subjectVersions, edge.value.scopeVersions];
      assert environments == [fact.environmentVersions, fact.environmentBindings, edge.value.environmentBindings,
                              edge.value.metadataEnvironmentVersions];
    } else {
      assert scopes == [fact.scope, fact.useScope] && versions == [fact.subjectVersions, fact.scopeVersions];
      assert environments == [fact.environmentVersions, fact.environmentBindings];
      NothingFromNoEdge(scopes, versions, environments);
      assert scopes + [map[]] + [map[]] == [fact.scope, fact.useScope, map[], map[]];
      assert versions + [{}] + [{}] == [fact.subjectVersions, fact.scopeVersions, {}, {}];
      assert environments + [map[]] + [map[]] == [fact.environmentVersions, fact.environmentBindings, map[], map[]];
    }
  }

  // ---------------------------------------------------------------- the parts relied on

  /** What the role accepts is the only object of that id. */
  ghost predicate TakenAs(state: State, role: Role, ref: string, kind: string, x: Raw) {
    && Sole(state, ref, kind, x)
    && match role
       case AssertionRole => kind == "record" && x.recordType == Some("Assertion")
       case JudgmentRole => kind == "record" && x.recordType == Some("Assertion")
       case EvidenceRole =>
         kind == "evidence" || (kind == "record" && (x.recordType == Some("EvidenceArtifact") || x.recordType == Some("Observation")))
       case ScopeRole => kind == "record" && (x.recordType == Some("Revision") || x.recordType == Some("ChangeObject"))
       case AuthorizationRole => kind == "authorization"
       case CounterexampleRole => true
       case NegativeRole => true
  }

  /** The role a projection gives a ref. */
  predicate Lists(p: Projection, role: Role, ref: string) {
    match role
    case AssertionRole => ref in p.assertions
    case EvidenceRole => ref in p.evidence
    case JudgmentRole => ref in p.judgments
    case ScopeRole => ref in p.scopes
    case AuthorizationRole => ref in p.authorizations
    case CounterexampleRole => ref in p.counterexamples
    case NegativeRole => ref in p.negatives
  }

  lemma ResolvesExactly(state: State, p: Projection, role: Role, ref: string)
    ensures ref in RefsOf(p, role) <==> Lists(p, role, ref)
    ensures Resolves(state, p, role, ref) <==> Lists(p, role, ref) && exists kind, x :: TakenAs(state, role, ref, kind, x)
    ensures forall kind, x | TakenAs(state, role, ref, kind, x) :: FindExact(state, ref) == Some(Found(kind, x))
  {
    hide FindExact, Sole;
    FoundExactly(state, ref);
    if FindExact(state, ref).Some? {
      var f := FindExact(state, ref).value;
      assert FindExact(state, ref) == Some(Found(f.kind, f.raw));
      assert ShapeAllowed(role, f) <==> TakenAs(state, role, ref, f.kind, f.raw);
    }
  }

  lemma ResolvedExactly(state: State, p: Projection, ref: string)
    ensures ref in Resolved(state, p)
       <==> exists role, kind, x :: Lists(p, role, ref) && TakenAs(state, role, ref, kind, x)
    ensures ref in Resolved(state, p) ==> Sole(state, ref, Resolved(state, p)[ref].kind, Resolved(state, p)[ref].raw)
    ensures forall role, kind, x | Lists(p, role, ref) && TakenAs(state, role, ref, kind, x) ::
      ref in Resolved(state, p) && Resolved(state, p)[ref] == Found(kind, x)
  {
    hide FindExact, Sole, TakenAs, Lists, ShapeAllowed, RefsOf;
    FoundExactly(state, ref);
    forall role ensures role in ROLES && (ref in RefsOf(p, role) <==> Lists(p, role, ref))
      && (Resolves(state, p, role, ref) <==> Lists(p, role, ref) && exists kind, x :: TakenAs(state, role, ref, kind, x))
      && forall kind, x | TakenAs(state, role, ref, kind, x) :: FindExact(state, ref) == Some(Found(kind, x))
    {
      EveryRoleListed(role);
      ResolvesExactly(state, p, role, ref);
    }
  }

  ghost predicate SoundAssertion(state: State, ref: string) {
    exists x ::
      && Sole(state, ref, "record", x) && x.recordType == Some("Assertion")
      && x.lifecycle != "superseded" && x.lifecycle != "archived"
      && x.epistemic != "contested" && x.epistemic != "refuted" && x.epistemic != "unknown"
      && x.epistemic != "revalidation-required" && x.epistemic != "unverified"
  }

  ghost predicate SoundEvidence(state: State, ref: string) {
    exists kind, x ::
      && Sole(state, ref, kind, x)
      && (kind == "evidence" || (kind == "record" && (x.recordType == Some("EvidenceArtifact") || x.recordType == Some("Observation"))))
      && x.lifecycle != "superseded" && x.lifecycle != "archived"
  }

  ghost predicate SoundJudgment(state: State, ref: string) {
    exists x ::
      && Sole(state, ref, "record", x) && x.recordType == Some("Assertion") && x.epistemic == "supported"
      && x.role != "approval" && x.role != "authorization" && x.role != "governance" && x.role != "decision"
  }

  ghost predicate KnownScope(state: State, ref: string) {
    exists x :: Sole(state, ref, "record", x) && (x.recordType == Some("Revision") || x.recordType == Some("ChangeObject"))
  }

  ghost predicate KnownAuthorization(state: State, ref: string) {
    exists x :: Sole(state, ref, "authorization", x)
  }

  /** The fact is known, and neither alone nor by any relation set against the projection does it hold where the use is. */
  ghost predicate SpeaksElsewhere(state: State, p: Projection, r: Requirement, ref: string) {
    exists kind, x ::
      && Sole(state, ref, kind, x)
      && if exists e :: EdgeOf(state, e) && SetAgainst(p, ref, e)
         then forall e | EdgeOf(state, e) && SetAgainst(p, ref, e) :: HoldsElsewhere(x, Some(e), r)
         else HoldsElsewhere(x, None, r)
  }

  /** Some relation sets the fact against the projection, and it holds where the use is. */
  ghost predicate SpeaksAgainst(state: State, p: Projection, r: Requirement, ref: string) {
    exists kind, x, e :: Sole(state, ref, kind, x) && EdgeOf(state, e) && SetAgainst(p, ref, e) && HoldsHere(x, Some(e), r)
  }

  /** The record derives something from, or to, what the projection relies on. */
  ghost predicate Derived(p: Projection, d: Raw) {
    && d.recordType == Some("Derivation")
    && ((exists a | a in p.assertions :: d.conclusionRef == Some(a))
        || (exists j | j in p.judgments :: j in d.premiseRefs)
        || (exists v | v in p.evidence :: v in d.evidenceRefs)
        || (exists s | s in p.scopes :: s in d.derivedScopes))
  }

  /** A derivation on record under that id. */
  ghost predicate DerivationFor(state: State, p: Projection, ref: string) {
    exists n: int :: StandsAt(state, "record", n, ref) && Derived(p, state["record"][n])
  }

  /** What must not be called into question: the projection, what it relies on, and the derivations. */
  ghost predicate MustStand(state: State, p: Projection, ref: string) {
    || ref == p.id || ref in p.assertions || ref in p.evidence || ref in p.judgments || ref in p.scopes
    || DerivationFor(state, p, ref)
  }

  lemma {:induction false} FilterMeans(bucket: seq<Raw>, p: Raw -> bool)
    ensures forall x :: x in Filter(bucket, p) <==> x in bucket && p(x)
  {
    if bucket != [] {
      FilterMeans(bucket[..|bucket| - 1], p);
      assert bucket == bucket[..|bucket| - 1] + [bucket[|bucket| - 1]];
    }
  }

  lemma DerivesExactly(p: Projection, d: Raw)
    ensures DerivesFor(p, d) <==> Derived(p, d)
  {
    forall q: seq<string>, s: set<string> ensures s * Elements(q) != {} <==> exists x | x in q :: x in s {
      if x :| x in s * Elements(q) {}
      if x :| x in q && x in s {
        assert x in s * Elements(q);
      }
    }
  }

  lemma DerivationsExactly(state: State, p: Projection)
    ensures forall ref :: ref in Ids(Derivations(state, p)) <==> DerivationFor(state, p, ref)
  {
    hide DerivesFor, Derived;
    var records, derivations := Bucket(state, "record"), Derivations(state, p);
    FilterMeans(records, (x: Raw) => DerivesFor(p, x));
    forall ref ensures ref in Ids(derivations) <==> DerivationFor(state, p, ref) {
      if ref in Ids(derivations) {
        var d :| d in derivations && d.id == Some(ref);
        var n :| 0 <= n < |records| && records[n] == d;
        DerivesExactly(p, d);
        assert StandsAt(state, "record", n, ref);
      }
      if DerivationFor(state, p, ref) {
        var n: int :| StandsAt(state, "record", n, ref) && Derived(p, state["record"][n]);
        DerivesExactly(p, records[n]);
        assert records[n] in derivations;
      }
    }
  }

  /** The relations looked at: those with an end among the projection, what it resolves to, and the derivations. */
  lemma RelationsExactly(state: State, p: Projection)
    ensures forall e ::
      e in Elements(Relations(state, p)) <==>
        && EdgeOf(state, e)
        && exists ref :: EndAt(e, ref) && (ref == p.id || ref in Resolved(state, p) || DerivationFor(state, p, ref))
  {
    hide Resolved, Derivations, DerivationFor;
    var seed := Seed(state, p);
    DerivationsExactly(state, p);
    FilterMeans(Bucket(state, "relation"), (x: Raw) => Touches(seed, x));
    forall e ensures Touches(seed, e) <==> exists ref :: EndAt(e, ref) && ref in seed {
      if Touches(seed, e) {
        if e.subjectRef.Some? && e.subjectRef.value in seed {
          assert EndAt(e, e.subjectRef.value);
        } else {
          assert EndAt(e, e.objectRef.value);
        }
      }
    }
  }

  lemma FreshnessExactly(state: State, p: Projection, e: Raw)
    ensures Touches(FreshnessRefs(p, Derivations(state, p)), e) <==> exists ref :: EndAt(e, ref) && MustStand(state, p, ref)
  {
    hide Derivations, DerivationFor;
    var current := FreshnessRefs(p, Derivations(state, p));
    DerivationsExactly(state, p);
    assert forall ref :: ref in current <==> MustStand(state, p, ref);
    if Touches(current, e) {
      if e.subjectRef.Some? && e.subjectRef.value in current {
        assert EndAt(e, e.subjectRef.value);
      } else {
        assert EndAt(e, e.objectRef.value);
      }
    }
  }

  /** The graph reported beside the relations names each of their ends. */
  lemma EndsExactly(e: Raw, ref: string)
    ensures ref in EndsOf(e) <==> EndAt(e, ref)
  {
  }

  lemma ContainedExactly(required: Mapping, actual: Mapping)
    ensures Contained(required, actual) <==> Within(required, actual)
  {
  }

  lemma AgainstExactly(p: Projection, ref: string, e: Raw)
    ensures Contradicts(p, ref, e) <==> SetAgainst(p, ref, e)
  {
  }

  // -------------------------------------------------------------------- the verdicts

  /** Nothing the projection relies on is missing, doubtful or out of place, and nothing known speaks against it here. */
  ghost predicate Trustworthy(state: State, p: Projection, r: Requirement) {
    && p.lifecycle == "official"
    && Within(p.validityScope, r.useScope) && Within(p.environment, r.environment)
    && (forall ref | ref in p.assertions :: SoundAssertion(state, ref))
    && (forall ref | ref in p.evidence :: SoundEvidence(state, ref))
    && (forall ref | ref in p.judgments :: SoundJudgment(state, ref))
    && (forall ref | ref in p.scopes :: KnownScope(state, ref) && ref in r.versions)
    && (forall ref | ref in p.authorizations :: KnownAuthorization(state, ref))
    && (forall ref | ref in p.counterexamples || ref in p.negatives :: SpeaksElsewhere(state, p, r, ref))
    && (forall e, ref | EdgeOf(state, e) && e.relationType == "requires-revalidation" && EndAt(e, ref) :: !MustStand(state, p, ref))
  }

  ghost predicate AllResolve(state: State, p: Projection) {
    forall role, ref | ref in RefsOf(p, role) :: Resolves(state, p, role, ref)
  }

  lemma TakenFor(state: State, p: Projection, role: Role, ref: string) returns (kind: string, x: Raw)
    requires Lists(p, role, ref) && AllResolve(state, p)
    ensures TakenAs(state, role, ref, kind, x) && ref in Resolved(state, p) && Resolved(state, p)[ref] == Found(kind, x)
  {
    hide Resolves, Resolved, TakenAs, Lists, RefsOf;
    ResolvesExactly(state, p, role, ref);
    ResolvedExactly(state, p, ref);
    kind, x :| TakenAs(state, role, ref, kind, x);
  }

  lemma PartsExactly(state: State, p: Projection, ref: string)
    requires AllResolve(state, p)
    ensures ref in p.assertions ==> (AssertionSound(RawOf(Resolved(state, p), ref)) <==> SoundAssertion(state, ref))
    ensures ref in p.evidence ==> (RawOf(Resolved(state, p), ref).lifecycle !in SUPERSEDED <==> SoundEvidence(state, ref))
    ensures ref in p.judgments ==> (JudgmentUsable(RawOf(Resolved(state, p), ref)) <==> SoundJudgment(state, ref))
    ensures ref in p.scopes ==> KnownScope(state, ref)
    ensures ref in p.authorizations ==> KnownAuthorization(state, ref)
  {
    hide Sole, Resolved, AllResolve;
    ResolvedExactly(state, p, ref);
    if ref in Resolved(state, p) {
      var kind, raw := Resolved(state, p)[ref].kind, Resolved(state, p)[ref].raw;
      forall other, x | Sole(state, ref, other, x) ensures other == kind && x == raw {
        SameSole(state, ref, kind, raw, other, x);
      }
    }
    if ref in p.assertions {
      var kind, x := TakenFor(state, p, AssertionRole, ref);
    }
    if ref in p.evidence {
      var kind, x := TakenFor(state, p, EvidenceRole, ref);
    }
    if ref in p.judgments {
      var kind, x := TakenFor(state, p, JudgmentRole, ref);
    }
    if ref in p.scopes {
      var kind, x := TakenFor(state, p, ScopeRole, ref);
    }
    if ref in p.authorizations {
      var kind, x := TakenFor(state, p, AuthorizationRole, ref);
    }
  }

  lemma NegativeResolves(state: State, p: Projection, ref: string)
    requires ref in p.counterexamples || ref in p.negatives
    ensures forall kind, x | Sole(state, ref, kind, x) :: ref in Resolved(state, p) && Resolved(state, p)[ref] == Found(kind, x)
    ensures ref in Resolved(state, p) ==> Sole(state, ref, Resolved(state, p)[ref].kind, Resolved(state, p)[ref].raw)
  {
    hide Sole, Resolved;
    ResolvedExactly(state, p, ref);
    var role := if ref in p.counterexamples then CounterexampleRole else NegativeRole;
    assert Lists(p, role, ref);
    forall kind, x | Sole(state, ref, kind, x) ensures ref in Resolved(state, p) && Resolved(state, p)[ref] == Found(kind, x) {
      assert TakenAs(state, role, ref, kind, x);
    }
  }

  /** The relations looked at include all that set a known fact against the projection. */
  lemma AgainstIsLookedAt(state: State, p: Projection, ref: string, e: Raw)
    requires ref in Resolved(state, p)
    ensures e in Elements(Relations(state, p)) && Contradicts(p, ref, e) <==> EdgeOf(state, e) && SetAgainst(p, ref, e)
  {
    hide Resolved, Relations, DerivationFor, EdgeOf;
    RelationsExactly(state, p);
    AgainstExactly(p, ref, e);
    if SetAgainst(p, ref, e) {
      assert EndAt(e, ref);
    }
  }

  lemma NegativeExactly(state: State, p: Projection, r: Requirement, ref: string)
    requires ref in p.counterexamples || ref in p.negatives
    ensures ProvenOutside(p, r, ref, Resolved(state, p), Elements(Relations(state, p))) <==> SpeaksElsewhere(state, p, r, ref)
    ensures ProvenCurrent(p, r, ref, Resolved(state, p), Elements(Relations(state, p))) <==> SpeaksAgainst(state, p, r, ref)
  {
    hide Sole, Resolved, Relations, ExperienceUse.Applies, HoldsElsewhere, HoldsHere, Contradicts, SetAgainst, EdgeOf, Elements;
    NegativeResolves(state, p, ref);
    if ref in Resolved(state, p) {
      var kind, x := Resolved(state, p)[ref].kind, Resolved(state, p)[ref].raw;
      var relations := Elements(Relations(state, p));
      forall e ensures e in relations && Contradicts(p, ref, e) <==> EdgeOf(state, e) && SetAgainst(p, ref, e) {
        AgainstIsLookedAt(state, p, ref, e);
      }
      AppliesExactly(x, None, r);
      forall e ensures (ExperienceUse.Applies(x, Some(e), r) == Outside <==> HoldsElsewhere(x, Some(e), r))
        && (ExperienceUse.Applies(x, Some(e), r) == Current <==> HoldsHere(x, Some(e), r))
      {
        AppliesExactly(x, Some(e), r);
      }
      assert forall k, y | Sole(state, ref, k, y) :: k == kind && y == x;
      assert Sole(state, ref, kind, x);
    }
  }

  lemma StandingExactly(state: State, p: Projection, e: Raw)
    requires AllResolve(state, p)
    ensures e in Elements(Relations(state, p)) && Touches(FreshnessRefs(p, Derivations(state, p)), e)
       <==> EdgeOf(state, e) && exists ref :: EndAt(e, ref) && MustStand(state, p, ref)
  {
    hide Resolved, Relations, DerivationFor, EdgeOf, AllResolve, Derivations, FreshnessRefs, Touches, Elements;
    RelationsExactly(state, p);
    FreshnessExactly(state, p, e);
    if ref :| EndAt(e, ref) && MustStand(state, p, ref) {
      if ref != p.id && !DerivationFor(state, p, ref) {
        var role := if ref in p.assertions then AssertionRole else if ref in p.evidence then EvidenceRole
                    else if ref in p.judgments then JudgmentRole else ScopeRole;
        var kind, x := TakenFor(state, p, role, ref);
      }
    }
  }

  lemma AllResolveExactly(state: State, p: Projection)
    ensures AllResolve(state, p) <==> forall role, ref | Lists(p, role, ref) :: exists kind, x :: TakenAs(state, role, ref, kind, x)
  {
    hide Resolves, RefsOf, Lists, TakenAs;
    forall role, ref
      ensures ref in RefsOf(p, role) <==> Lists(p, role, ref)
      ensures Resolves(state, p, role, ref) <==> Lists(p, role, ref) && exists kind, x :: TakenAs(state, role, ref, kind, x)
    {
      ResolvesExactly(state, p, role, ref);
    }
  }

  lemma ListedAreKnown(state: State, p: Projection, r: Requirement, role: Role, ref: string)
    requires Trustworthy(state, p, r) && Lists(p, role, ref)
    ensures exists kind, x :: TakenAs(state, role, ref, kind, x)
  {
    hide Sole, MustStand, EdgeOf, HoldsElsewhere, SetAgainst, Within;
    match role
    case AssertionRole =>
      assert SoundAssertion(state, ref);
      var x :| Sole(state, ref, "record", x) && x.recordType == Some("Assertion");
      assert TakenAs(state, role, ref, "record", x);
    case EvidenceRole =>
      assert SoundEvidence(state, ref);
      var kind, x :| Sole(state, ref, kind, x)
        && (kind == "evidence" || (kind == "record" && (x.recordType == Some("EvidenceArtifact") || x.recordType == Some("Observation"))));
      assert TakenAs(state, role, ref, kind, x);
    case JudgmentRole =>
      assert SoundJudgment(state, ref);
      var x :| Sole(state, ref, "record", x) && x.recordType == Some("Assertion");
      assert TakenAs(state, role, ref, "record", x);
    case ScopeRole =>
      assert KnownScope(state, ref);
      var x :| Sole(state, ref, "record", x) && (x.recordType == Some("Revision") || x.recordType == Some("ChangeObject"));
      assert TakenAs(state, role, ref, "record", x);
    case AuthorizationRole =>
      assert KnownAuthorization(state, ref);
      var x :| Sole(state, ref, "authorization", x);
      assert TakenAs(state, role, ref, "authorization", x);
    case _ =>
      assert SpeaksElsewhere(state, p, r, ref);
      var kind, x :| Sole(state, ref, kind, x);
      assert TakenAs(state, role, ref, kind, x);
  }

  lemma ListedExactly(p: Projection, r: Requirement)
    ensures forall ref :: ref in NegativeRefs(p) <==> ref in p.counterexamples || ref in p.negatives
    ensures Elements(p.scopes) <= r.versions <==> forall ref | ref in p.scopes :: ref in r.versions
  {
  }

  /** One projection may be relied on exactly under those facts. */
  lemma ReliableExactly(state: State, p: Projection, r: Requirement)
    ensures Reliable(state, p, r) <==> Trustworthy(state, p, r)
  {
    hide Resolved, Relations, Resolves, RawOf, JudgmentUsable, ProvenOutside, Touches, FreshnessRefs, Contained, Within,
      AssertionSound, Sole, MustStand, EdgeOf, SoundAssertion, SoundEvidence, SoundJudgment, KnownScope, KnownAuthorization,
      SpeaksElsewhere, Lists, TakenAs, EndAt, Elements, Derivations, NegativeRefs, RefsOf;
    ContainedExactly(p.validityScope, r.useScope);
    ContainedExactly(p.environment, r.environment);
    AllResolveExactly(state, p);
    ListedExactly(p, r);
    forall ref | ref in NegativeRefs(p)
      ensures ProvenOutside(p, r, ref, Resolved(state, p), Elements(Relations(state, p))) <==> SpeaksElsewhere(state, p, r, ref)
    {
      NegativeExactly(state, p, r, ref);
    }
    if Trustworthy(state, p, r) {
      forall role, ref | Lists(p, role, ref) ensures exists kind, x :: TakenAs(state, role, ref, kind, x) {
        ListedAreKnown(state, p, r, role, ref);
      }
    }
    if AllResolve(state, p) {
      forall ref
        ensures ref in p.assertions ==> (AssertionSound(RawOf(Resolved(state, p), ref)) <==> SoundAssertion(state, ref))
        ensures ref in p.evidence ==> (RawOf(Resolved(state, p), ref).lifecycle !in SUPERSEDED <==> SoundEvidence(state, ref))
        ensures ref in p.judgments ==> (JudgmentUsable(RawOf(Resolved(state, p), ref)) <==> SoundJudgment(state, ref))
        ensures ref in p.scopes ==> KnownScope(state, ref)
        ensures ref in p.authorizations ==> KnownAuthorization(state, ref)
      {
        PartsExactly(state, p, ref);
      }
      forall e
        ensures e in Elements(Relations(state, p)) && Touches(FreshnessRefs(p, Derivations(state, p)), e)
           <==> EdgeOf(state, e) && exists ref :: EndAt(e, ref) && MustStand(state, p, ref)
      {
        StandingExactly(state, p, e);
      }
    }
  }

  /** The projection relies on this object, in one role or another. */
  ghost predicate Holds(state: State, p: Projection, ref: string, kind: string, x: Raw) {
    exists role :: Lists(p, role, ref) && TakenAs(state, role, ref, kind, x)
  }

  /** Something known that by itself forbids the use. */
  ghost predicate Forbidden(state: State, p: Projection, r: Requirement) {
    || p.lifecycle != "official"
    || !Within(p.validityScope, r.useScope)
    || (exists ref, kind, x ::
          ref in p.assertions && Holds(state, p, ref, kind, x) && (x.epistemic == "contested" || x.epistemic == "refuted"))
    || (exists ref :: (ref in p.counterexamples || ref in p.negatives) && SpeaksAgainst(state, p, r, ref))
  }

  lemma RawExactly(state: State, p: Projection, ref: string)
    ensures forall kind, x | Holds(state, p, ref, kind, x) :: RawOf(Resolved(state, p), ref) == x
    ensures (forall kind, x :: !Holds(state, p, ref, kind, x)) ==> RawOf(Resolved(state, p), ref) == BLANK
    ensures ref in Resolved(state, p) <==> exists kind, x :: Holds(state, p, ref, kind, x)
  {
    hide Resolved, Lists, TakenAs;
    ResolvedExactly(state, p, ref);
    if ref in Resolved(state, p) {
      var role, kind, x :| Lists(p, role, ref) && TakenAs(state, role, ref, kind, x);
      assert Holds(state, p, ref, kind, x);
    }
  }

  lemma ForbiddenExactly(state: State, p: Projection, r: Requirement)
    ensures RuledOut(state, p, r) <==> Forbidden(state, p, r)
  {
    hide Resolved, Relations, RawOf, ProvenCurrent, Contained, Within, SpeaksAgainst, Holds, NegativeRefs, Elements;
    ContainedExactly(p.validityScope, r.useScope);
    ListedExactly(p, r);
    forall ref ensures RawOf(Resolved(state, p), ref).epistemic in {"contested", "refuted"}
      <==> exists kind, x :: Holds(state, p, ref, kind, x) && (x.epistemic == "contested" || x.epistemic == "refuted")
    {
      RawExactly(state, p, ref);
    }
    forall ref | ref in p.counterexamples || ref in p.negatives
      ensures ProvenCurrent(p, r, ref, Resolved(state, p), Elements(Relations(state, p))) <==> SpeaksAgainst(state, p, r, ref)
    {
      NegativeExactly(state, p, r, ref);
    }
  }

  /** Out of date: the environment or a version moved on, a part relied on did, or it waits to be validated again. */
  ghost predicate Outdated(state: State, p: Projection, r: Requirement) {
    || !Within(p.environment, r.environment)
    || (exists ref | ref in p.scopes :: ref !in r.versions)
    || (&& (forall ref, kind, x | ref in p.assertions && Holds(state, p, ref, kind, x) ::
             x.epistemic != "contested" && x.epistemic != "refuted")
        && (forall ref | ref in p.judgments ::
             exists kind, x ::
               && Holds(state, p, ref, kind, x) && x.epistemic == "supported"
               && x.role != "approval" && x.role != "authorization" && x.role != "governance" && x.role != "decision")
        && ((exists ref, kind, x ::
               && ref in p.assertions && Holds(state, p, ref, kind, x)
               && (x.lifecycle == "superseded" || x.lifecycle == "archived" || x.epistemic == "unknown"
                   || x.epistemic == "revalidation-required" || x.epistemic == "unverified"))
            || (exists ref, kind, x ::
                 ref in p.evidence && Holds(state, p, ref, kind, x) && (x.lifecycle == "superseded" || x.lifecycle == "archived"))))
    || (exists e, at, on ::
          && EdgeOf(state, e) && e.relationType == "requires-revalidation"
          && EndAt(e, at) && (at == p.id || DerivationFor(state, p, at) || exists kind, x :: Holds(state, p, at, kind, x))
          && EndAt(e, on) && MustStand(state, p, on))
  }

  lemma DirectStaleExactly(state: State, p: Projection)
    ensures ClassifyDirect(p, Resolved(state, p)).0 == Some(Stale) <==>
      && (forall ref | ref in p.assertions :: RawOf(Resolved(state, p), ref).epistemic !in {"contested", "refuted"})
      && (forall ref | ref in p.judgments :: JudgmentUsable(RawOf(Resolved(state, p), ref)))
      && ((exists ref | ref in p.assertions :: !AssertionSound(RawOf(Resolved(state, p), ref)))
          || (exists ref | ref in p.evidence :: RawOf(Resolved(state, p), ref).lifecycle in SUPERSEDED))
  {
    hide Resolved, RawOf, JudgmentUsable, ScanAssertions, FirstUnusable, StaleEvidenceOf, AssertionSound;
    ScanAssertionsMeans(p.assertions, Resolved(state, p));
    FirstUnusableMeans(p.judgments, Resolved(state, p));
    StaleEvidenceMeans(p.evidence, Resolved(state, p));
  }

  lemma OutdatedPart(state: State, p: Projection, ref: string)
    ensures var raw := RawOf(Resolved(state, p), ref);
      && (raw.epistemic in {"contested", "refuted"}
          <==> exists kind, x :: Holds(state, p, ref, kind, x) && (x.epistemic == "contested" || x.epistemic == "refuted"))
      && (raw.lifecycle in SUPERSEDED
          <==> exists kind, x :: Holds(state, p, ref, kind, x) && (x.lifecycle == "superseded" || x.lifecycle == "archived"))
      && (raw.epistemic in {"unknown", "revalidation-required", "unverified"}
          <==> exists kind, x ::
                 && Holds(state, p, ref, kind, x)
                 && (x.epistemic == "unknown" || x.epistemic == "revalidation-required" || x.epistemic == "unverified"))
      && (JudgmentUsable(raw)
          <==> exists kind, x ::
                 && Holds(state, p, ref, kind, x) && x.epistemic == "supported"
                 && x.role != "approval" && x.role != "authorization" && x.role != "governance" && x.role != "decision")
  {
    hide Resolved, Holds, RawOf;
    RawExactly(state, p, ref);
  }

  lemma WaitsExactly(state: State, p: Projection)
    ensures RevalidationReasons(p, Derivations(state, p), Elements(Relations(state, p))) != {}
       <==> exists e, at, on ::
              && EdgeOf(state, e) && e.relationType == "requires-revalidation"
              && EndAt(e, at) && (at == p.id || DerivationFor(state, p, at) || exists kind, x :: Holds(state, p, at, kind, x))
              && EndAt(e, on) && MustStand(state, p, on)
  {
    hide Resolved, Relations, Derivations, DerivationFor, EdgeOf, FreshnessRefs, Touches, Elements, Holds, MustStand, EndAt;
    RelationsExactly(state, p);
    RevalidationMeans(p, Derivations(state, p), Elements(Relations(state, p)));
    forall ref ensures ref in Resolved(state, p) <==> exists kind, x :: Holds(state, p, ref, kind, x) {
      RawExactly(state, p, ref);
    }
    forall e ensures Touches(FreshnessRefs(p, Derivations(state, p)), e) <==> exists ref :: EndAt(e, ref) && MustStand(state, p, ref) {
      FreshnessExactly(state, p, e);
    }
  }

  /** What the records and the negative facts can each come to. */
  lemma StatusRange(p: Projection, resolved: map<string, Found>, negatives: NegativeFinding)
    ensures ClassifyDirect(p, resolved).0 in {None, Some(Blocked), Some(Unavailable), Some(Stale)}
    ensures NegativeStatus(negatives) in {None, Some(Blocked), Some(Unavailable)}
  {
    hide ScanAssertions, FirstUnusable, StaleEvidenceOf;
  }

  lemma StaleStatus(state: State, p: Projection, r: Requirement)
    ensures Stale in Examine(state, p, r).statuses <==>
      || !Contained(p.environment, r.environment) || !(Elements(p.scopes) <= r.versions)
      || ClassifyDirect(p, Resolved(state, p)).0 == Some(Stale)
      || RevalidationReasons(p, Derivations(state, p), Elements(Relations(state, p))) != {}
  {
    hide Resolved, ResolutionErrors, Relations, Derivations, ClassifyDirect, ScanNegatives, NegativeStatus, RevalidationReasons,
      Contained, Elements, Sorted;
    StatusRange(
      p, Resolved(state, p),
      ScanNegatives(p, r, Sorted(Elements(p.counterexamples) + Elements(p.negatives)), Resolved(state, p), Elements(Relations(state, p))));
  }

  lemma DatedExactly(state: State, p: Projection, r: Requirement)
    ensures Stale in Examine(state, p, r).statuses <==> Outdated(state, p, r)
  {
    hide Examine, Resolved, Relations, Derivations, ClassifyDirect, RevalidationReasons, Contained, Within, Holds, EdgeOf, EndAt,
      MustStand, DerivationFor, Elements;
    StaleStatus(state, p, r);
    ContainedExactly(p.environment, r.environment);
    ListedExactly(p, r);
    WaitsExactly(state, p);
    DirectDated(state, p);
  }

  lemma DirectDated(state: State, p: Projection)
    ensures ClassifyDirect(p, Resolved(state, p)).0 == Some(Stale) <==>
      && (forall ref, kind, x | ref in p.assertions && Holds(state, p, ref, kind, x) ::
            x.epistemic != "contested" && x.epistemic != "refuted")
      && (forall ref | ref in p.judgments ::
            exists kind, x ::
              && Holds(state, p, ref, kind, x) && x.epistemic == "supported"
              && x.role != "approval" && x.role != "authorization" && x.role != "governance" && x.role != "decision")
      && ((exists ref, kind, x ::
             && ref in p.assertions && Holds(state, p, ref, kind, x)
             && (x.lifecycle == "superseded" || x.lifecycle == "archived" || x.epistemic == "unknown"
                 || x.epistemic == "revalidation-required" || x.epistemic == "unverified"))
          || (exists ref, kind, x ::
               ref in p.evidence && Holds(state, p, ref, kind, x) && (x.lifecycle == "superseded" || x.lifecycle == "archived")))
  {
    hide Resolved, RawOf, JudgmentUsable, ClassifyDirect, Holds;
    DirectStaleExactly(state, p);
    forall ref
      ensures RawOf(Resolved(state, p), ref).epistemic in {"contested", "refuted"}
         <==> exists kind, x :: Holds(state, p, ref, kind, x) && (x.epistemic == "contested" || x.epistemic == "refuted")
      ensures RawOf(Resolved(state, p), ref).lifecycle in SUPERSEDED
         <==> exists kind, x :: Holds(state, p, ref, kind, x) && (x.lifecycle == "superseded" || x.lifecycle == "archived")
      ensures RawOf(Resolved(state, p), ref).epistemic in {"unknown", "revalidation-required", "unverified"}
         <==> exists kind, x ::
                && Holds(state, p, ref, kind, x)
                && (x.epistemic == "unknown" || x.epistemic == "revalidation-required" || x.epistemic == "unverified")
      ensures JudgmentUsable(RawOf(Resolved(state, p), ref))
         <==> exists kind, x ::
                && Holds(state, p, ref, kind, x) && x.epistemic == "supported"
                && x.role != "approval" && x.role != "authorization" && x.role != "governance" && x.role != "decision"
    {
      OutdatedPart(state, p, ref);
    }
  }

  /** The one projection of that id among the projections, under that id. */
  ghost predicate Registered(state: State, ref: string, p: Projection) {
    exists n: int, q ::
      && StandsAt(state, "knowledge_projection", n, ref) && state["knowledge_projection"][n].projection == Some(q)
      && p == q.(id := ref)
      && forall m: int | StandsAt(state, "knowledge_projection", m, ref) :: m == n
  }

  lemma RegisteredExactly(state: State, ref: string)
    ensures forall p :: Registered(state, ref, p) <==> Known(state, ref) && KnownAs(state, ref) == p
  {
    var bucket, p := Bucket(state, "knowledge_projection"), (y: Raw) => y.id == Some(ref);
    FilterOne(bucket, p);
    assert forall m | 0 <= m < |bucket| :: p(bucket[m]) <==> StandsAt(state, "knowledge_projection", m, ref);
    forall q ensures Registered(state, ref, q) <==> Known(state, ref) && KnownAs(state, ref) == q {
      if FindProjection(state, ref).Some? {
        var n :| 0 <= n < |bucket| && p(bucket[n]) && forall m | 0 <= m < |bucket| && p(bucket[m]) :: m == n;
        assert StandsAt(state, "knowledge_projection", n, ref);
      }
    }
  }

  lemma {:induction false} JoinStale(state: State, refs: seq<string>, r: Requirement)
    ensures Stale in StatusesOf(state, refs, r) <==> exists ref | ref in refs :: Stale in FindingFor(state, ref, r).statuses
  {
    hide FindingFor;
    if refs != [] {
      var prefix, last := refs[..|refs| - 1], refs[|refs| - 1];
      assert refs == prefix + [last];
      JoinStale(state, prefix, r);
    }
  }

  /** Use is allowed exactly when something is selected, and all of it is registered and trustworthy. */
  lemma AllowedInPlainFacts(state: State, r: Requirement)
    ensures StatusOf(state, r) == Allowed
       <==> r.refs != [] && forall ref | ref in r.refs :: exists p :: Registered(state, ref, p) && Trustworthy(state, p, r)
  {
    hide StatusOf, Registered, Known, KnownAs, Reliable, Trustworthy;
    AllowedExactly(state, r);
    forall ref ensures (Known(state, ref) && Reliable(state, KnownAs(state, ref), r))
                  <==> exists p :: Registered(state, ref, p) && Trustworthy(state, p, r) {
      RegisteredExactly(state, ref);
      if Known(state, ref) {
        ReliableExactly(state, KnownAs(state, ref), r);
        assert Registered(state, ref, KnownAs(state, ref));
      }
    }
  }

  /** Use is blocked exactly when something selected is registered and forbidden. */
  lemma BlockedInPlainFacts(state: State, r: Requirement)
    ensures StatusOf(state, r) == Blocked
       <==> exists ref, p :: ref in r.refs && Registered(state, ref, p) && Forbidden(state, p, r)
  {
    hide StatusOf, Registered, Known, KnownAs, RuledOut, Forbidden;
    BlockedExactly(state, r);
    forall ref ensures (Known(state, ref) && RuledOut(state, KnownAs(state, ref), r))
                  <==> exists p :: Registered(state, ref, p) && Forbidden(state, p, r) {
      RegisteredExactly(state, ref);
      if Known(state, ref) {
        ForbiddenExactly(state, KnownAs(state, ref), r);
        assert Registered(state, ref, KnownAs(state, ref));
      }
    }
  }

  /** It is stale exactly when nothing forbids it and something selected is outdated; what is left is unavailable. */
  lemma StaleInPlainFacts(state: State, r: Requirement)
    ensures StatusOf(state, r) == Stale <==>
      && StatusOf(state, r) != Blocked
      && exists ref, p :: ref in r.refs && Registered(state, ref, p) && Outdated(state, p, r)
    ensures StatusOf(state, r) == NotApplicable <==> r.refs == []
  {
    hide FindingFor, Registered, Known, KnownAs, Outdated;
    JoinStale(state, r.refs, r);
    forall ref ensures Stale in FindingFor(state, ref, r).statuses
                  <==> exists p :: Registered(state, ref, p) && Outdated(state, p, r) {
      OutdatedFinding(state, ref, r);
    }
    NeverNotApplicable(state, r.refs, r);
  }

  lemma OutdatedFinding(state: State, ref: string, r: Requirement)
    ensures Stale in FindingFor(state, ref, r).statuses <==> exists p :: Registered(state, ref, p) && Outdated(state, p, r)
  {
    hide Examine, Registered, Outdated, FindProjection;
    RegisteredExactly(state, ref);
    if Known(state, ref) {
      DatedExactly(state, KnownAs(state, ref), r);
      assert Registered(state, ref, KnownAs(state, ref));
    }
  }

  lemma {:induction false} NeverNotApplicable(state: State, refs: seq<string>, r: Requirement)
    ensures NotApplicable !in StatusesOf(state, refs, r)
    ensures refs != [] ==> Worst(StatusesOf(state, refs, r)) != NotApplicable
  {
    hide FindingFor;
    if refs != [] {
      NeverNotApplicable(state, refs[..|refs| - 1], r);
      FindingApplies(state, refs[|refs| - 1], r);
    }
  }

  lemma ExaminedApplies(state: State, p: Projection, r: Requirement)
    ensures NotApplicable !in Examine(state, p, r).statuses
  {
    hide Resolved, ResolutionErrors, Relations, Derivations, ClassifyDirect, ScanNegatives, NegativeStatus, RevalidationReasons,
      Contained, Elements, Sorted;
    StatusRange(
      p, Resolved(state, p),
      ScanNegatives(p, r, Sorted(Elements(p.counterexamples) + Elements(p.negatives)), Resolved(state, p), Elements(Relations(state, p))));
  }

  lemma FindingApplies(state: State, ref: string, r: Requirement)
    ensures NotApplicable !in FindingFor(state, ref, r).statuses
  {
    hide Examine, FindProjection;
    if Known(state, ref) {
      ExaminedApplies(state, KnownAs(state, ref), r);
    }
  }
}
