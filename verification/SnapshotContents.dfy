/**
 What an admission of experience carries: which objects its snapshot holds, in
 which form, what its digest tells apart, and what its reasons mean.
 */
module SnapshotContents {
  import opened Wrappers
  import opened Text
  import opened ExperienceUse
  import opened ExperienceSnapshot
  import opened ExperienceVerdicts
  import opened ExperienceConditions

  // ------------------------------------------------------------------------- forms

  /** Without the times of creation and update. */
  function Timeless(m: Mapping): Mapping {
    map k | k in m && k != "created_at" && k != "updated_at" :: m[k]
  }

  lemma TimelessExactly(m: Mapping)
    ensures Denoised(m) == Timeless(m)
  {
  }

  function TimelessProjection(p: Projection): Projection {
    Projection(p.id, p.lifecycle, p.assertions, p.evidence, p.judgments, p.authorizations, p.scopes, Timeless(p.validityScope),
               Timeless(p.environment), p.counterexamples, p.negatives, p.reopenConditions)
  }

  function TimelessRaw(x: Raw): Raw {
    Raw(x.id, x.recordType, x.lifecycle, x.epistemic, x.role, x.conclusionRef, x.premiseRefs, x.evidenceRefs, x.derivedScopes,
        x.relationType, x.subjectRef, x.objectRef, Timeless(x.scope), Timeless(x.useScope), x.subjectVersions, x.scopeVersions,
        Timeless(x.environmentVersions), Timeless(x.environmentBindings), Timeless(x.metadataEnvironmentVersions),
        x.projection, x.rest, "")
  }

  lemma FormsExactly(p: Projection, x: Raw)
    ensures QuietProjection(p) == TimelessProjection(p)
    ensures Quiet(x) == TimelessRaw(x)
  {
  }

  /** Requirements have one digest exactly when they ask for the same, but for times of creation and update. */
  lemma DigestTellsExactly(r: Requirement, t: Requirement)
    ensures Evaluate(map[], r).requirementDigest == Evaluate(map[], t).requirementDigest <==>
      && r.refs == t.refs && r.versions == t.versions
      && SaysTheSame(r.useScope, t.useScope) && SaysTheSame(r.environment, t.environment) && SaysTheSame(r.context, t.context)
  {
    hide SaysTheSame, Denoised, Sorted, StatusOf, SnapshotOf, ReasonsOf;
    DenoisedExactly(r.useScope, t.useScope);
    DenoisedExactly(r.environment, t.environment);
    DenoisedExactly(r.context, t.context);
    ElementsOfSorted(r.versions);
    ElementsOfSorted(t.versions);
  }

  // ------------------------------------------------------------------ what is listed

  /** Selected, registered, and so looked at. */
  ghost predicate Selected(state: State, r: Requirement, p: Projection) {
    p.id in r.refs && Registered(state, p.id, p)
  }

  lemma SelectedExactly(state: State, r: Requirement, ref: string)
    ensures forall p | Registered(state, ref, p) :: p.id == ref
    ensures Known(state, ref) && ref in r.refs ==> Selected(state, r, KnownAs(state, ref))
    ensures forall p | Selected(state, r, p) && p.id == ref :: Known(state, ref) && p == KnownAs(state, ref)
  {
    hide Known, KnownAs;
    RegisteredExactly(state, ref);
  }

  lemma FindingShows(state: State, ref: string, r: Requirement)
    ensures Known(state, ref) ==>
      var f, p := FindingFor(state, ref, r), KnownAs(state, ref);
      && f.projection == Some(p) && f.resolved == Resolved(state, p)
      && f.derivations == Derivations(state, p) && f.relations == Relations(state, p)
      && f.unresolved == ResolutionErrors(state, p)
    ensures !Known(state, ref) ==>
      var f := FindingFor(state, ref, r);
      && f.projection == None && f.resolved == map[] && f.derivations == [] && f.relations == []
      && f.unresolved == f.reasons
      && f.reasons == (if FindProjection(state, ref).None? then {ProjectionUnavailable(ref)} else {ProjectionInvalid(ref)})
  {
    hide FindProjection, Resolved, ResolutionErrors, Derivations, Relations, ClassifyDirect, ScanNegatives, RevalidationReasons,
      Contained, Sorted, Elements;
  }

  lemma {:induction false} ListedFrom(state: State, refs: seq<string>, r: Requirement)
    ensures forall q ::
      q in ProjectionsFor(state, refs, r)
      <==> exists ref | ref in refs :: Known(state, ref) && q == TimelessProjection(KnownAs(state, ref))
    ensures forall d ::
      d in DerivationsFor(state, refs, r)
      <==> exists ref | ref in refs :: Known(state, ref) && d in Derivations(state, KnownAs(state, ref))
    ensures forall e ::
      e in RelationsFor(state, refs, r)
      <==> exists ref | ref in refs :: Known(state, ref) && e in Relations(state, KnownAs(state, ref))
  {
    hide FindingFor, Known, KnownAs, Derivations, Relations, QuietProjection, TimelessProjection;
    if refs != [] {
      var prefix, last := refs[..|refs| - 1], refs[|refs| - 1];
      ListedFrom(state, prefix, r);
      FindingShows(state, last, r);
      assert refs == prefix + [last];
      if Known(state, last) {
        FormsExactly(KnownAs(state, last), BLANK);
      }
    }
  }

  lemma {:induction false} ResolvedFrom(state: State, refs: seq<string>, r: Requirement, ref: string)
    ensures ref in ResolvedFor(state, refs, r)
       <==> exists sel | sel in refs :: Known(state, sel) && ref in Resolved(state, KnownAs(state, sel))
    ensures ref in ResolvedFor(state, refs, r) ==> FindExact(state, ref) == Some(ResolvedFor(state, refs, r)[ref])
  {
    hide FindingFor, Known, KnownAs, Resolved, FindExact;
    if refs != [] {
      var prefix, last := refs[..|refs| - 1], refs[|refs| - 1];
      ResolvedFrom(state, prefix, r, ref);
      FindingShows(state, last, r);
      assert refs == prefix + [last];
      if Known(state, last) {
        ResolvedIsFound(state, KnownAs(state, last), ref);
      }
    }
  }

  lemma ResolvedIsFound(state: State, p: Projection, ref: string)
    ensures ref in Resolved(state, p) ==> FindExact(state, ref) == Some(Resolved(state, p)[ref])
  {
    hide FindExact;
  }

  lemma {:induction false} UnresolvedFrom(state: State, refs: seq<string>, r: Requirement, reason: Reason)
    ensures reason in UnresolvedFor(state, refs, r) <==>
      exists sel | sel in refs ::
        if Known(state, sel) then reason in ResolutionErrors(state, KnownAs(state, sel))
        else reason == if FindProjection(state, sel).None? then ProjectionUnavailable(sel) else ProjectionInvalid(sel)
  {
    hide FindingFor, Known, KnownAs, ResolutionErrors, FindProjection;
    if refs != [] {
      var prefix, last := refs[..|refs| - 1], refs[|refs| - 1];
      UnresolvedFrom(state, prefix, r, reason);
      FindingShows(state, last, r);
      assert refs == prefix + [last];
    }
  }

  lemma ErrorsExactly(state: State, p: Projection, role: Role, ref: string)
    ensures Unresolved(role, ref) in ResolutionErrors(state, p)
       <==> Lists(p, role, ref) && forall kind, x :: !Sole(state, ref, kind, x)
    ensures WrongType(role, ref) in ResolutionErrors(state, p)
       <==> Lists(p, role, ref) && exists kind, x :: Sole(state, ref, kind, x) && !TakenAs(state, role, ref, kind, x)
  {
    hide FindExact, Sole;
    EveryRoleListed(role);
    FoundExactly(state, ref);
    if FindExact(state, ref).Some? {
      var f := FindExact(state, ref).value;
      assert FindExact(state, ref) == Some(Found(f.kind, f.raw));
    }
  }

  /** Stands in a bucket, under whatever number. */
  ghost predicate InBucket(state: State, kind: string, x: Raw) {
    kind in state && x in state[kind]
  }

  /** One end of the relation is the projection, something it holds, or a derivation. */
  ghost predicate Adjoins(state: State, p: Projection, e: Raw) {
    exists at :: EndAt(e, at) && (at == p.id || DerivationFor(state, p, at) || exists kind, x :: Holds(state, p, at, kind, x))
  }

  lemma GraphExactly(state: State, p: Projection)
    ensures forall d :: d in Derivations(state, p) <==> InBucket(state, "record", d) && Derived(p, d)
    ensures forall e :: e in Relations(state, p) <==> InBucket(state, "relation", e) && Adjoins(state, p, e)
  {
    hide Resolved, DerivationFor, DerivesFor, Holds;
    RelationsExactly(state, p);
    FilterMeans(Bucket(state, "record"), (x: Raw) => DerivesFor(p, x));
    forall d ensures DerivesFor(p, d) <==> Derived(p, d) {
      DerivesExactly(p, d);
    }
    forall ref ensures ref in Resolved(state, p) <==> exists kind, x :: Holds(state, p, ref, kind, x) {
      RawExactly(state, p, ref);
    }
    forall e ensures e in Relations(state, p) <==> e in Elements(Relations(state, p)) {}
  }

  lemma ListedQuietly(raws: seq<Raw>, y: Raw)
    ensures y in QuietAll(SortById(raws)) <==> exists x | x in raws :: y == TimelessRaw(x)
  {
    hide SortById, Quiet, TimelessRaw;
    var sorted := SortById(raws);
    SameMembers(sorted, raws);
    forall x ensures Quiet(x) == TimelessRaw(x) {
      FormsExactly(Projection("", "", [], [], [], [], [], map[], map[], [], [], []), x);
    }
    if y in QuietAll(sorted) {
      var i :| 0 <= i < |sorted| && QuietAll(sorted)[i] == y;
      assert sorted[i] in raws;
    }
    if x :| x in raws && y == TimelessRaw(x) {
      var i :| 0 <= i < |sorted| && sorted[i] == x;
      assert QuietAll(sorted)[i] == y;
    }
  }

  lemma SameMembers(a: seq<Raw>, b: seq<Raw>)
    requires multiset(a) == multiset(b)
    ensures forall x :: x in a <==> x in b
  {
    forall x ensures x in a <==> x in b {
      assert x in a <==> x in multiset(a);
      assert x in b <==> x in multiset(b);
    }
  }

  /** The snapshot lists the projections selected and the graph around them, and nothing else. */
  lemma SnapshotListsExactly(state: State, r: Requirement)
    ensures var s := Evaluate(state, r).snapshot;
      && (forall q :: q in s.projections
           <==> exists ref, p :: ref in r.refs && Registered(state, ref, p) && q == TimelessProjection(p))
      && (forall y :: y in s.derivations
           <==> exists ref, p, d ::
                  ref in r.refs && Registered(state, ref, p) && InBucket(state, "record", d) && Derived(p, d)
                  && y == TimelessRaw(d))
      && (forall y :: y in s.relations
           <==> exists ref, p, e ::
                  ref in r.refs && Registered(state, ref, p) && InBucket(state, "relation", e) && Adjoins(state, p, e)
                  && y == TimelessRaw(e))
  {
    hide StatusOf, ReasonsOf, QuietAll, SortById, ProjectionsFor, DerivationsFor, RelationsFor, ResolvedFor, UnresolvedFor, QuietFound,
      Known, KnownAs, Registered, InBucket, Derived, Adjoins, TimelessProjection, TimelessRaw, Derivations, Relations;
    ListedFrom(state, r.refs, r);
    forall ref
      ensures forall p :: Registered(state, ref, p) <==> Known(state, ref) && KnownAs(state, ref) == p
      ensures Known(state, ref) ==>
        && (forall d :: d in Derivations(state, KnownAs(state, ref))
             <==> InBucket(state, "record", d) && Derived(KnownAs(state, ref), d))
        && (forall e :: e in Relations(state, KnownAs(state, ref))
             <==> InBucket(state, "relation", e) && Adjoins(state, KnownAs(state, ref), e))
    {
      RegisteredExactly(state, ref);
      if Known(state, ref) {
        GraphExactly(state, KnownAs(state, ref));
      }
    }
    forall y
      ensures y in QuietAll(SortById(DerivationsFor(state, r.refs, r)))
         <==> exists d | d in DerivationsFor(state, r.refs, r) :: y == TimelessRaw(d)
      ensures y in QuietAll(SortById(RelationsFor(state, r.refs, r)))
         <==> exists e | e in RelationsFor(state, r.refs, r) :: y == TimelessRaw(e)
    {
      ListedQuietly(DerivationsFor(state, r.refs, r), y);
      ListedQuietly(RelationsFor(state, r.refs, r), y);
    }
  }

  /** It holds each object some selected projection holds, under its id and kind, and no other. */
  lemma SnapshotHoldsExactly(state: State, r: Requirement, ref: string, kind: string, y: Raw)
    ensures var s := Evaluate(state, r).snapshot;
      (ref in s.resolved && s.resolved[ref] == Found(kind, y))
      <==> exists sel, p, x :: sel in r.refs && Registered(state, sel, p) && Holds(state, p, ref, kind, x) && y == TimelessRaw(x)
  {
    hide StatusOf, ReasonsOf, QuietAll, SortById, ProjectionsFor, DerivationsFor, RelationsFor, ResolvedFor, UnresolvedFor,
      Known, KnownAs, Registered, Holds, TimelessRaw, Resolved, Quiet, FindExact, Sole;
    ResolvedFrom(state, r.refs, r, ref);
    FoundExactly(state, ref);
    forall sel
      ensures forall p :: Registered(state, sel, p) <==> Known(state, sel) && KnownAs(state, sel) == p
      ensures Known(state, sel) ==>
        && (ref in Resolved(state, KnownAs(state, sel)) <==> exists k, x :: Holds(state, KnownAs(state, sel), ref, k, x))
        && forall k, x | Holds(state, KnownAs(state, sel), ref, k, x) :: FindExact(state, ref) == Some(Found(k, x))
    {
      RegisteredExactly(state, sel);
      if Known(state, sel) {
        RawExactly(state, KnownAs(state, sel), ref);
        HeldIsFound(state, KnownAs(state, sel), ref);
      }
    }
    var resolved := ResolvedFor(state, r.refs, r);
    if ref in resolved {
      FormsExactly(Projection("", "", [], [], [], [], [], map[], map[], [], [], []), resolved[ref].raw);
    }
  }

  lemma HeldIsFound(state: State, p: Projection, ref: string)
    ensures forall k, x | Holds(state, p, ref, k, x) :: FindExact(state, ref) == Some(Found(k, x))
  {
    hide FindExact, Sole;
    FoundExactly(state, ref);
  }

  /** What is named and contracted, and how the requirement is quoted. */
  lemma SnapshotQuotesExactly(state: State, r: Requirement)
    ensures var a := Evaluate(state, r);
      && a.contract == "experience-use-admission-v1" && a.snapshot.schema == "resolved-experience-use-snapshot-v1"
      && a.snapshot.requirement.schema == "experience-use-requirement-v1" && a.snapshot.requirement.refs == r.refs
      && Elements(a.snapshot.requirement.versions) == r.versions && |a.snapshot.requirement.versions| == |r.versions|
      && a.snapshot.requirement.useScope == Timeless(r.useScope) && a.snapshot.requirement.environment == Timeless(r.environment)
      && a.snapshot.requirement.context == Timeless(r.context)
      && a.requirementDigest == a.snapshot.requirement
  {
    hide StatusOf, ReasonsOf, ProjectionsFor, DerivationsFor, RelationsFor, ResolvedFor, UnresolvedFor, QuietAll, QuietFound;
    ElementsOfSorted(r.versions);
  }

  /** What could not be found, or not as what it was listed for. */
  lemma UnresolvedExactly(state: State, r: Requirement, role: Role, ref: string)
    ensures var s := Evaluate(state, r).snapshot;
      && (Unresolved(role, ref) in s.unresolved
          <==> exists sel, p ::
                 sel in r.refs && Registered(state, sel, p) && Lists(p, role, ref) && forall kind, x :: !Sole(state, ref, kind, x))
      && (WrongType(role, ref) in s.unresolved
          <==> exists sel, p ::
                 && sel in r.refs && Registered(state, sel, p) && Lists(p, role, ref)
                 && exists kind, x :: Sole(state, ref, kind, x) && !TakenAs(state, role, ref, kind, x))
  {
    hide StatusOf, ReasonsOf, QuietAll, SortById, ProjectionsFor, DerivationsFor, RelationsFor, ResolvedFor, UnresolvedFor, QuietFound,
      Known, KnownAs, Registered, ResolutionErrors, Lists, TakenAs, Sole, FindProjection;
    UnresolvedFrom(state, r.refs, r, Unresolved(role, ref));
    UnresolvedFrom(state, r.refs, r, WrongType(role, ref));
    forall sel
      ensures forall p :: Registered(state, sel, p) <==> Known(state, sel) && KnownAs(state, sel) == p
      ensures Known(state, sel) ==>
        && (Unresolved(role, ref) in ResolutionErrors(state, KnownAs(state, sel))
            <==> Lists(KnownAs(state, sel), role, ref) && forall kind, x :: !Sole(state, ref, kind, x))
        && (WrongType(role, ref) in ResolutionErrors(state, KnownAs(state, sel))
            <==> Lists(KnownAs(state, sel), role, ref)
                 && exists kind, x :: Sole(state, ref, kind, x) && !TakenAs(state, role, ref, kind, x))
    {
      RegisteredExactly(state, sel);
      if Known(state, sel) {
        ErrorsExactly(state, KnownAs(state, sel), role, ref);
      }
    }
  }

  predicate ById(x: Raw, y: Raw) {
    match (x.id, y.id)
    case (None, _) => true
    case (Some(_), None) => x.id == Some("")
    case (Some(a), Some(b)) => Leq(a, b)
  }

  ghost predicate InOrder(raws: seq<Raw>) {
    forall i, j | 0 <= i < j < |raws| :: ById(raws[i], raws[j])
  }

  lemma {:induction false} OrderedById(x: Raw, y: Raw)
    requires Leq(KeyOf(x), KeyOf(y))
    ensures ById(Quiet(x), Quiet(y))
  {
  }

  lemma ListedById(raws: seq<Raw>)
    ensures InOrder(QuietAll(SortById(raws)))
  {
    hide ById, Quiet, Leq, KeyOf, SortById;
    var sorted := SortById(raws);
    SortAscends(raws);
    forall i, j | 0 <= i < j < |sorted| ensures ById(Quiet(sorted[i]), Quiet(sorted[j])) {
      OrderedById(sorted[i], sorted[j]);
    }
  }

  /** Derivations and relations are listed by id, those without one first. */
  lemma SnapshotIsOrdered(state: State, r: Requirement)
    ensures var s := Evaluate(state, r).snapshot;
      InOrder(s.derivations) && InOrder(s.relations)
  {
    hide StatusOf, ReasonsOf, ProjectionsFor, DerivationsFor, RelationsFor, ResolvedFor, UnresolvedFor, QuietFound, SortById, QuietAll,
      InOrder;
    ListedById(DerivationsFor(state, r.refs, r));
    ListedById(RelationsFor(state, r.refs, r));
  }
}
