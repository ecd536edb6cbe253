/**
 Exactly when experience may be relied on, and exactly when it is ruled out,
 stated without the order in which the evaluator looks at things.
 */
module ExperienceVerdicts {
  import opened Wrappers
  import opened Text
  import opened ExperienceUse

  const DOUBTFUL := {"contested", "refuted", "unknown", "revalidation-required", "unverified"}

  predicate AssertionSound(raw: Raw) {
    raw.lifecycle !in SUPERSEDED && raw.epistemic !in DOUBTFUL
  }

  /** The negative fact is resolved, and every way it could apply is proven not to. */
  predicate ProvenOutside(p: Projection, r: Requirement, ref: string, resolved: map<string, Found>, relations: set<Raw>) {
    && ref in resolved
    && var fact := resolved[ref].raw;
    if forall x | x in relations :: !Contradicts(p, ref, x) then Applies(fact, None, r) == Outside
    else forall x | x in relations && Contradicts(p, ref, x) :: Applies(fact, Some(x), r) == Outside
  }

  predicate ProvenCurrent(p: Projection, r: Requirement, ref: string, resolved: map<string, Found>, relations: set<Raw>) {
    && ref in resolved
    && exists x | x in relations :: Contradicts(p, ref, x) && Applies(resolved[ref].raw, Some(x), r) == Current
  }

  function NegativeRefs(p: Projection): set<string> {
    Elements(p.counterexamples) + Elements(p.negatives)
  }

  /** Nothing missing, nothing doubtful, nothing drifted, and nothing known to speak against it here. */
  ghost predicate Reliable(state: State, p: Projection, r: Requirement) {
    var resolved, relations := Resolved(state, p), Elements(Relations(state, p));
    && p.lifecycle == "official"
    && (forall role, ref | ref in RefsOf(p, role) :: Resolves(state, p, role, ref))
    && Contained(p.validityScope, r.useScope)
    && Contained(p.environment, r.environment)
    && Elements(p.scopes) <= r.versions
    && (forall ref | ref in p.assertions :: AssertionSound(RawOf(resolved, ref)))
    && (forall ref | ref in p.evidence :: RawOf(resolved, ref).lifecycle !in SUPERSEDED)
    && (forall ref | ref in p.judgments :: JudgmentUsable(RawOf(resolved, ref)))
    && (forall ref | ref in NegativeRefs(p) :: ProvenOutside(p, r, ref, resolved, relations))
    && (forall x | x in relations && x.relationType == "requires-revalidation" ::
          !Touches(FreshnessRefs(p, Derivations(state, p)), x))
  }

  /** Something resolved that by itself forbids the use. */
  ghost predicate RuledOut(state: State, p: Projection, r: Requirement) {
    var resolved, relations := Resolved(state, p), Elements(Relations(state, p));
    || p.lifecycle != "official"
    || !Contained(p.validityScope, r.useScope)
    || (exists ref | ref in p.assertions :: RawOf(resolved, ref).epistemic in {"contested", "refuted"})
    || (exists ref | ref in NegativeRefs(p) :: ProvenCurrent(p, r, ref, resolved, relations))
  }

  // ------------------------------------------------------------------- the scans

  lemma {:induction false} ScanAssertionsMeans(refs: seq<string>, resolved: map<string, Found>)
    ensures ScanAssertions(refs, resolved).0
       <==> exists ref | ref in refs :: RawOf(resolved, ref).epistemic in {"contested", "refuted"}
    ensures !ScanAssertions(refs, resolved).0 ==>
      (ScanAssertions(refs, resolved).1 == {} <==> forall ref | ref in refs :: AssertionSound(RawOf(resolved, ref)))
  {
    hide RawOf;
    if refs != [] {
      ScanAssertionsMeans(refs[1..], resolved);
      assert refs == [refs[0]] + refs[1..];
    }
  }

  lemma {:induction false} FirstUnusableMeans(refs: seq<string>, resolved: map<string, Found>)
    ensures FirstUnusable(refs, resolved).None? <==> forall ref | ref in refs :: JudgmentUsable(RawOf(resolved, ref))
  {
    hide RawOf, JudgmentUsable;
    if refs != [] {
      FirstUnusableMeans(refs[1..], resolved);
      assert refs == [refs[0]] + refs[1..];
    }
  }

  lemma JudgeNegativeMeans(p: Projection, r: Requirement, ref: string, resolved: map<string, Found>, relations: set<Raw>)
    ensures JudgeNegative(p, r, ref, resolved, relations).blocked <==> ProvenCurrent(p, r, ref, resolved, relations)
    ensures !JudgeNegative(p, r, ref, resolved, relations).blocked ==>
      (!JudgeNegative(p, r, ref, resolved, relations).unknown <==> ProvenOutside(p, r, ref, resolved, relations))
  {
    hide Applies, Contradicts;
    if ref in resolved {
      var fact := resolved[ref].raw;
      forall x | x in relations && Contradicts(p, ref, x)
        ensures Applies(fact, Some(x), r) == Current ==> x in Binding(p, r, ref, fact, relations, Current)
        ensures Applies(fact, Some(x), r) == Unknown ==> x in Binding(p, r, ref, fact, relations, Unknown)
      {
      }
    }
  }

  lemma {:induction false} ScanNegativesMeans(
    p: Projection, r: Requirement, refs: seq<string>, resolved: map<string, Found>, relations: set<Raw>
  )
    ensures ScanNegatives(p, r, refs, resolved, relations).blocked
       <==> exists ref | ref in refs :: ProvenCurrent(p, r, ref, resolved, relations)
    ensures !ScanNegatives(p, r, refs, resolved, relations).blocked ==>
      (!ScanNegatives(p, r, refs, resolved, relations).unknown
       <==> forall ref | ref in refs :: ProvenOutside(p, r, ref, resolved, relations))
  {
    hide JudgeNegative, ProvenCurrent, ProvenOutside;
    if refs != [] {
      JudgeNegativeMeans(p, r, refs[0], resolved, relations);
      ScanNegativesMeans(p, r, refs[1..], resolved, relations);
      assert refs == [refs[0]] + refs[1..];
    }
  }

  lemma DirectMeans(p: Projection, resolved: map<string, Found>)
    ensures ClassifyDirect(p, resolved).0 == Some(Blocked)
       <==> exists ref | ref in p.assertions :: RawOf(resolved, ref).epistemic in {"contested", "refuted"}
    ensures ClassifyDirect(p, resolved).0.None? <==>
      && (forall ref | ref in p.assertions :: AssertionSound(RawOf(resolved, ref)))
      && (forall ref | ref in p.evidence :: RawOf(resolved, ref).lifecycle !in SUPERSEDED)
      && (forall ref | ref in p.judgments :: JudgmentUsable(RawOf(resolved, ref)))
    ensures ClassifyDirect(p, resolved).0 in {None, Some(Blocked), Some(Unavailable), Some(Stale)}
  {
    hide RawOf, JudgmentUsable, ScanAssertions, FirstUnusable;
    ScanAssertionsMeans(p.assertions, resolved);
    FirstUnusableMeans(p.judgments, resolved);
    StaleEvidenceMeans(p.evidence, resolved);
  }

  lemma StaleEvidenceMeans(refs: seq<string>, resolved: map<string, Found>)
    ensures StaleEvidenceOf(refs, resolved) == {} <==> forall ref | ref in refs :: RawOf(resolved, ref).lifecycle !in SUPERSEDED
  {
    hide RawOf;
    forall ref | ref in refs && RawOf(resolved, ref).lifecycle in SUPERSEDED
      ensures StaleEvidence(ref) in StaleEvidenceOf(refs, resolved) {}
  }

  lemma {:induction false} NegativesMean(p: Projection, r: Requirement, resolved: map<string, Found>, relations: set<Raw>)
    ensures var f := ScanNegatives(p, r, Sorted(NegativeRefs(p)), resolved, relations);
      && (NegativeStatus(f) == Some(Blocked) <==> exists ref | ref in NegativeRefs(p) :: ProvenCurrent(p, r, ref, resolved, relations))
      && (NegativeStatus(f).None? ==> forall ref | ref in NegativeRefs(p) :: ProvenOutside(p, r, ref, resolved, relations))
      && ((forall ref | ref in NegativeRefs(p) :: ProvenOutside(p, r, ref, resolved, relations)) ==> NegativeStatus(f).None?)
      && NegativeStatus(f) in {None, Some(Blocked), Some(Unavailable)}
  {
    hide ProvenCurrent, ProvenOutside, ScanNegatives, NegativeRefs;
    var refs := Sorted(NegativeRefs(p));
    ScanNegativesMeans(p, r, refs, resolved, relations);
    forall ref ensures ProvenOutside(p, r, ref, resolved, relations) ==> !ProvenCurrent(p, r, ref, resolved, relations) {
      OutsideIsNotCurrent(p, r, ref, resolved, relations);
    }
    assert forall ref :: ref in refs <==> ref in NegativeRefs(p);
  }

  lemma OutsideIsNotCurrent(p: Projection, r: Requirement, ref: string, resolved: map<string, Found>, relations: set<Raw>)
    ensures ProvenOutside(p, r, ref, resolved, relations) ==> !ProvenCurrent(p, r, ref, resolved, relations)
  {
    hide Applies, Contradicts;
  }

  lemma EveryRoleListed(role: Role)
    ensures role in ROLES
  {
  }

  lemma ErrorsMean(state: State, p: Projection)
    ensures ResolutionErrors(state, p) == {} <==> forall role, ref | ref in RefsOf(p, role) :: Resolves(state, p, role, ref)
  {
    hide FindExact, ShapeAllowed, RefsOf;
    forall role, ref | ref in RefsOf(p, role) && !Resolves(state, p, role, ref) ensures ResolutionErrors(state, p) != {} {
      EveryRoleListed(role);
      if FindExact(state, ref).None? {
        assert Unresolved(role, ref) in ResolutionErrors(state, p);
      } else {
        assert WrongType(role, ref) in ResolutionErrors(state, p);
      }
    }
  }

  lemma RevalidationMeans(p: Projection, derivations: seq<Raw>, relations: set<Raw>)
    ensures RevalidationReasons(p, derivations, relations) == {}
       <==> forall x | x in relations && x.relationType == "requires-revalidation" :: !Touches(FreshnessRefs(p, derivations), x)
  {
    hide Touches, FreshnessRefs;
    forall x | x in relations && x.relationType == "requires-revalidation" && Touches(FreshnessRefs(p, derivations), x)
      ensures RequiresRevalidation(x.id) in RevalidationReasons(p, derivations, relations) {}
  }

  // ------------------------------------------------------------------ the verdicts

  /** One projection's own verdict, both ends of it. */
  lemma ExaminationMeans(state: State, p: Projection, r: Requirement)
    ensures Worst(Examine(state, p, r).statuses) == Allowed <==> Reliable(state, p, r)
    ensures Worst(Examine(state, p, r).statuses) == Blocked <==> RuledOut(state, p, r)
  {
    hide Resolved, ResolutionErrors, Relations, Derivations, ClassifyDirect, ScanNegatives, NegativeStatus, RevalidationReasons,
      Resolves, RefsOf, RawOf, JudgmentUsable, ProvenOutside, ProvenCurrent, Touches, FreshnessRefs, Contained, AssertionSound,
      Sorted;
    var resolved, relations := Resolved(state, p), Elements(Relations(state, p));
    ErrorsMean(state, p);
    DirectMeans(p, resolved);
    NegativesMean(p, r, resolved, relations);
    RevalidationMeans(p, Derivations(state, p), relations);
  }

  ghost predicate Known(state: State, ref: string) {
    FindProjection(state, ref).Some? && FindProjection(state, ref).value.projection.Some?
  }

  ghost function KnownAs(state: State, ref: string): Projection
    requires Known(state, ref)
  {
    FindProjection(state, ref).value.projection.value.(id := ref)
  }

  lemma FindingMeans(state: State, ref: string, r: Requirement)
    ensures Worst(FindingFor(state, ref, r).statuses) == Allowed <==> Known(state, ref) && Reliable(state, KnownAs(state, ref), r)
    ensures Worst(FindingFor(state, ref, r).statuses) == Blocked <==> Known(state, ref) && RuledOut(state, KnownAs(state, ref), r)
  {
    hide Examine, Reliable, RuledOut, FindProjection;
    if Known(state, ref) {
      ExaminationMeans(state, KnownAs(state, ref), r);
    }
  }

  lemma {:induction false} JoinMeans(state: State, refs: seq<string>, r: Requirement)
    ensures Worst(StatusesOf(state, refs, r)) == Allowed
       <==> forall ref | ref in refs :: Worst(FindingFor(state, ref, r).statuses) == Allowed
    ensures Worst(StatusesOf(state, refs, r)) == Blocked
       <==> exists ref | ref in refs :: Worst(FindingFor(state, ref, r).statuses) == Blocked
  {
    hide FindingFor;
    if refs != [] {
      var prefix, last := refs[..|refs| - 1], refs[|refs| - 1];
      assert refs == prefix + [last];
      JoinMeans(state, prefix, r);
      WorstJoins(StatusesOf(state, prefix, r), FindingFor(state, last, r).statuses);
    }
  }

  /** Use is allowed exactly when every selected projection is known and reliable, and something is selected. */
  lemma AllowedExactly(state: State, r: Requirement)
    ensures StatusOf(state, r) == Allowed
       <==> r.refs != [] && forall ref | ref in r.refs :: Known(state, ref) && Reliable(state, KnownAs(state, ref), r)
  {
    hide FindingFor, Known, Reliable, StatusesOf;
    JoinMeans(state, r.refs, r);
    forall ref ensures Worst(FindingFor(state, ref, r).statuses) == Allowed
                  <==> Known(state, ref) && Reliable(state, KnownAs(state, ref), r) {
      FindingMeans(state, ref, r);
    }
  }

  /** Use is blocked exactly when some selected projection is known and ruled out, however little is known of the others. */
  lemma BlockedExactly(state: State, r: Requirement)
    ensures StatusOf(state, r) == Blocked
       <==> exists ref | ref in r.refs :: Known(state, ref) && RuledOut(state, KnownAs(state, ref), r)
  {
    hide FindingFor, Known, RuledOut, StatusesOf;
    JoinMeans(state, r.refs, r);
    forall ref ensures Worst(FindingFor(state, ref, r).statuses) == Blocked
                  <==> Known(state, ref) && RuledOut(state, KnownAs(state, ref), r) {
      FindingMeans(state, ref, r);
    }
  }
}
