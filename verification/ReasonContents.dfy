/**
 What each reason given with a verdict on the use of experience says, in facts
 about the exported state.
 */
module ReasonContents {
  import opened Wrappers
  import opened Text
  import opened ExperienceUse
  import opened ExperienceSnapshot
  import opened ExperienceVerdicts
  import opened ExperienceConditions
  import opened SnapshotContents

  // ---------------------------------------------------------------- direct records

  ghost predicate SaysOf(state: State, p: Projection, ref: string, says: Raw -> bool) {
    exists kind, x :: Holds(state, p, ref, kind, x) && says(x)
  }

  ghost predicate Stands(state: State, p: Projection, ref: string, epistemic: string) {
    SaysOf(state, p, ref, (x: Raw) => x.epistemic == epistemic)
  }

  ghost predicate Disputed(state: State, p: Projection, ref: string) {
    SaysOf(state, p, ref, (x: Raw) => x.epistemic == "contested" || x.epistemic == "refuted")
  }

  ghost predicate Superseded(state: State, p: Projection, ref: string) {
    SaysOf(state, p, ref, (x: Raw) => x.lifecycle == "superseded" || x.lifecycle == "archived")
  }

  /** Nothing before that place is disputed. */
  ghost predicate ReadUpTo(state: State, p: Projection, n: int) {
    0 <= n <= |p.assertions| && forall m | 0 <= m < n :: !Disputed(state, p, p.assertions[m])
  }

  /** What the records of a projection's assertions, evidence and judgments give as a reason. */
  ghost predicate DirectReason(state: State, p: Projection, reason: Reason) {
    match reason
    case StaleAssertion(ref, "") =>
      exists n :: 0 <= n < |p.assertions| && p.assertions[n] == ref && ReadUpTo(state, p, n) && Superseded(state, p, ref)
    case StaleAssertion(ref, epistemic) =>
      && (epistemic == "unknown" || epistemic == "revalidation-required" || epistemic == "unverified")
      && exists n ::
           && 0 <= n < |p.assertions| && p.assertions[n] == ref && ReadUpTo(state, p, n)
           && Stands(state, p, ref, epistemic)
    case BlockedAssertion(ref, epistemic) =>
      && (epistemic == "contested" || epistemic == "refuted")
      && exists n ::
           && 0 <= n < |p.assertions| && p.assertions[n] == ref && ReadUpTo(state, p, n)
           && Stands(state, p, ref, epistemic)
    case StaleEvidence(ref) => ReadUpTo(state, p, |p.assertions|) && ref in p.evidence && Superseded(state, p, ref)
    case InvalidJudgment(ref) =>
      && ReadUpTo(state, p, |p.assertions|)
      && exists n ::
           && 0 <= n < |p.judgments| && p.judgments[n] == ref && !JudgmentHolds(state, p, ref)
           && forall m | 0 <= m < n :: JudgmentHolds(state, p, p.judgments[m])
    case _ => false
  }

  ghost predicate JudgmentHolds(state: State, p: Projection, ref: string) {
    SaysOf(state, p, ref, (x: Raw) =>
      x.epistemic == "supported" && x.role != "approval" && x.role != "authorization" && x.role != "governance" && x.role != "decision")
  }

  lemma SaysExactly(state: State, p: Projection, ref: string)
    ensures var raw := RawOf(Resolved(state, p), ref);
      && (Disputed(state, p, ref) <==> raw.epistemic in {"contested", "refuted"})
      && (Superseded(state, p, ref) <==> raw.lifecycle in SUPERSEDED)
      && (JudgmentHolds(state, p, ref) <==> JudgmentUsable(raw))
      && (forall e | e != "" :: Stands(state, p, ref, e) <==> raw.epistemic == e)
  {
    hide Resolved, Holds, RawOf;
    RawExactly(state, p, ref);
  }

  /** What the scan gives for the assertion at one place. */
  ghost predicate GivenAt(state: State, p: Projection, n: nat, reason: Reason)
    requires n < |p.assertions|
  {
    var raw := RawOf(Resolved(state, p), p.assertions[n]);
    || reason in AssertionReasons(p.assertions[n], raw)
    || (Disputed(state, p, p.assertions[n]) && reason == BlockedAssertion(p.assertions[n], raw.epistemic))
  }

  ghost predicate UndisputedBetween(state: State, p: Projection, from: int, n: int) {
    0 <= from <= n <= |p.assertions| && forall m | from <= m < n :: !Disputed(state, p, p.assertions[m])
  }

  /** The scan over the assertions, told by places. */
  ghost predicate ScannedReason(state: State, p: Projection, from: nat, reason: Reason) {
    exists n :: from <= n < |p.assertions| && UndisputedBetween(state, p, from, n) && GivenAt(state, p, n, reason)
  }

  lemma {:induction false} ScanExactly(state: State, p: Projection, from: nat)
    requires from <= |p.assertions|
    ensures forall reason :: reason in ScanAssertions(p.assertions[from..], Resolved(state, p)).1 <==> ScannedReason(state, p, from, reason)
    ensures ScanAssertions(p.assertions[from..], Resolved(state, p)).0
       <==> exists m :: from <= m < |p.assertions| && Disputed(state, p, p.assertions[m])
    decreases |p.assertions| - from
  {
    hide Resolved, RawOf, Disputed, AssertionReasons;
    if from < |p.assertions| {
      ScanExactly(state, p, from + 1);
      assert p.assertions[from..][1..] == p.assertions[from + 1..];
      var ref := p.assertions[from];
      SaysExactly(state, p, ref);
      forall reason
        ensures reason in ScanAssertions(p.assertions[from..], Resolved(state, p)).1 <==> ScannedReason(state, p, from, reason)
      {
        ScanStep(state, p, from, reason);
      }
    }
  }

  lemma OneMoreUndisputed(state: State, p: Projection, from: nat, n: int)
    requires from < |p.assertions|
    ensures UndisputedBetween(state, p, from, from)
    ensures from < n ==>
      (UndisputedBetween(state, p, from, n) <==> !Disputed(state, p, p.assertions[from]) && UndisputedBetween(state, p, from + 1, n))
  {
    hide Disputed;
  }

  lemma ScanStep(state: State, p: Projection, from: nat, reason: Reason)
    requires from < |p.assertions|
    ensures ScannedReason(state, p, from, reason)
       <==> GivenAt(state, p, from, reason) || (!Disputed(state, p, p.assertions[from]) && ScannedReason(state, p, from + 1, reason))
  {
    hide Disputed, GivenAt, UndisputedBetween;
    OneMoreUndisputed(state, p, from, from);
    if ScannedReason(state, p, from + 1, reason) {
      var n :| from + 1 <= n < |p.assertions| && UndisputedBetween(state, p, from + 1, n) && GivenAt(state, p, n, reason);
      OneMoreUndisputed(state, p, from, n);
    }
    if ScannedReason(state, p, from, reason) {
      var n :| from <= n < |p.assertions| && UndisputedBetween(state, p, from, n) && GivenAt(state, p, n, reason);
      OneMoreUndisputed(state, p, from, n);
    }
  }

  lemma {:induction false} UnusableAt(state: State, p: Projection, from: nat)
    requires from <= |p.judgments|
    ensures var first := FirstUnusable(p.judgments[from..], Resolved(state, p));
      forall ref :: first == Some(ref) <==>
        exists n ::
          && from <= n < |p.judgments| && p.judgments[n] == ref && !JudgmentHolds(state, p, ref)
          && forall m | from <= m < n :: JudgmentHolds(state, p, p.judgments[m])
    decreases |p.judgments| - from
  {
    hide Resolved, RawOf, JudgmentHolds, JudgmentUsable;
    if from < |p.judgments| {
      UnusableAt(state, p, from + 1);
      assert p.judgments[from..][1..] == p.judgments[from + 1..];
      SaysExactly(state, p, p.judgments[from]);
    }
  }

  lemma GivenMeans(state: State, p: Projection, n: nat, reason: Reason)
    requires n < |p.assertions|
    ensures GivenAt(state, p, n, reason) <==>
      match reason
      case StaleAssertion(ref, epistemic) =>
        ref == p.assertions[n]
        && if epistemic == "" then Superseded(state, p, ref)
           else
             && Stands(state, p, ref, epistemic)
             && (epistemic == "unknown" || epistemic == "revalidation-required" || epistemic == "unverified")
      case BlockedAssertion(ref, epistemic) =>
        ref == p.assertions[n] && Stands(state, p, ref, epistemic) && (epistemic == "contested" || epistemic == "refuted")
      case _ => false
  {
    hide Resolved, RawOf, Superseded, Stands, Disputed;
    SaysExactly(state, p, p.assertions[n]);
  }

  lemma DirectReasonExactly(state: State, p: Projection, reason: Reason)
    ensures reason in ClassifyDirect(p, Resolved(state, p)).1 <==> DirectReason(state, p, reason)
  {
    hide Resolved, RawOf, Superseded, Stands, Disputed, ScanAssertions, FirstUnusable, JudgmentHolds, GivenAt, StaleEvidenceOf;
    assert p.assertions[0..] == p.assertions && p.judgments[0..] == p.judgments;
    ScanExactly(state, p, 0);
    UnusableAt(state, p, 0);
    StaleEvidenceIs(state, p, reason);
    forall n | 0 <= n < |p.assertions| ensures UndisputedBetween(state, p, 0, n) <==> ReadUpTo(state, p, n) {}
    assert ReadUpTo(state, p, |p.assertions|) <==> !ScanAssertions(p.assertions, Resolved(state, p)).0;
    ScannedMeans(state, p, reason);
  }

  lemma StaleEvidenceIs(state: State, p: Projection, reason: Reason)
    ensures reason in StaleEvidenceOf(p.evidence, Resolved(state, p))
       <==> reason.StaleEvidence? && reason.ref in p.evidence && Superseded(state, p, reason.ref)
  {
    hide Resolved, RawOf, Superseded;
    forall ref ensures RawOf(Resolved(state, p), ref).lifecycle in SUPERSEDED <==> Superseded(state, p, ref) {
      SaysExactly(state, p, ref);
    }
  }

  lemma ScannedMeans(state: State, p: Projection, reason: Reason)
    ensures ScannedReason(state, p, 0, reason)
       <==> (reason.StaleAssertion? || reason.BlockedAssertion?) && DirectReason(state, p, reason)
  {
    hide Superseded, Stands, Disputed, GivenAt;
    forall n | 0 <= n < |p.assertions| ensures UndisputedBetween(state, p, 0, n) <==> ReadUpTo(state, p, n) {}
    forall n: nat | n < |p.assertions|
      ensures GivenAt(state, p, n, reason) <==>
        match reason
        case StaleAssertion(ref, epistemic) =>
          ref == p.assertions[n]
          && if epistemic == "" then Superseded(state, p, ref)
             else
               && Stands(state, p, ref, epistemic)
               && (epistemic == "unknown" || epistemic == "revalidation-required" || epistemic == "unverified")
        case BlockedAssertion(ref, epistemic) =>
          ref == p.assertions[n] && Stands(state, p, ref, epistemic) && (epistemic == "contested" || epistemic == "refuted")
        case _ => false
    {
      GivenMeans(state, p, n, reason);
    }
  }

  // ---------------------------------------------------------------- negative facts

  ghost predicate NegativeOf(p: Projection, ref: string) {
    ref in p.counterexamples || ref in p.negatives
  }

  ghost predicate AnyEdgeAgainst(state: State, p: Projection, ref: string) {
    exists e :: EdgeOf(state, e) && SetAgainst(p, ref, e)
  }

  /** What one negative fact gives as a reason. */
  ghost predicate NegativeSays(state: State, p: Projection, r: Requirement, ref: string, reason: Reason) {
    match reason
    case NegativeUnavailable(of) => of == ref && forall kind, x :: !Sole(state, ref, kind, x)
    case NegativeOutside(of) => of == ref && SpeaksElsewhere(state, p, r, ref)
    case NegativeUnbound(of) =>
      of == ref && !AnyEdgeAgainst(state, p, ref) && exists kind, x :: Sole(state, ref, kind, x) && HoldsHere(x, None, r)
    case NegativeUnknown(of) =>
      && of == ref && !SpeaksElsewhere(state, p, r, ref) && !SpeaksAgainst(state, p, r, ref)
      && exists kind, x :: Sole(state, ref, kind, x) && (AnyEdgeAgainst(state, p, ref) || !HoldsHere(x, None, r))
    case Contradiction(relation, of) =>
      && of == ref
      && exists kind, x, e ::
           Sole(state, ref, kind, x) && EdgeOf(state, e) && SetAgainst(p, ref, e) && HoldsHere(x, Some(e), r) && e.id == relation
    case _ => false
  }

  /** Reasons are given for each negative fact up to the first, by name, that speaks against the use. */
  ghost predicate NegativeReason(state: State, p: Projection, r: Requirement, reason: Reason) {
    exists ref ::
      && NegativeOf(p, ref) && NegativeSays(state, p, r, ref, reason)
      && forall other | NegativeOf(p, other) && other != ref && Leq(other, ref) :: !SpeaksAgainst(state, p, r, other)
  }

  lemma JudgedReason(
    p: Projection, r: Requirement, ref: string, resolved: map<string, Found>, relations: set<Raw>, reason: Reason
  )
    requires ref in resolved
    ensures var fact := resolved[ref].raw;
      var unbound := (forall x | x in relations :: !Contradicts(p, ref, x)) && ExperienceUse.Applies(fact, None, r) == Current;
      reason in JudgeNegative(p, r, ref, resolved, relations).reasons <==>
        match reason
        case NegativeOutside(of) => of == ref && ProvenOutside(p, r, ref, resolved, relations)
        case NegativeUnbound(of) => of == ref && unbound
        case NegativeUnknown(of) =>
          of == ref && !ProvenOutside(p, r, ref, resolved, relations) && !ProvenCurrent(p, r, ref, resolved, relations) && !unbound
        case Contradiction(relation, of) =>
          && of == ref
          && exists x ::
               x in relations && Contradicts(p, ref, x) && ExperienceUse.Applies(fact, Some(x), r) == Current && x.id == relation
        case _ => false
  {
    hide ExperienceUse.Applies, Contradicts;
    var fact := resolved[ref].raw;
    var here, unclear := Binding(p, r, ref, fact, relations, Current), Binding(p, r, ref, fact, relations, Unknown);
    assert forall x :: x in here <==> x in relations && Contradicts(p, ref, x) && ExperienceUse.Applies(fact, Some(x), r) == Current;
    assert forall x :: x in unclear <==> x in relations && Contradicts(p, ref, x) && ExperienceUse.Applies(fact, Some(x), r) == Unknown;
  }

  lemma NegativeSaysExactly(state: State, p: Projection, r: Requirement, ref: string, reason: Reason)
    requires NegativeOf(p, ref)
    ensures reason in JudgeNegative(p, r, ref, Resolved(state, p), Elements(Relations(state, p))).reasons
       <==> NegativeSays(state, p, r, ref, reason)
    ensures JudgeNegative(p, r, ref, Resolved(state, p), Elements(Relations(state, p))).blocked <==> SpeaksAgainst(state, p, r, ref)
  {
    hide Sole, Resolved, Relations, ExperienceUse.Applies, HoldsElsewhere, HoldsHere, Contradicts, SetAgainst, EdgeOf, Elements,
      ProvenOutside, ProvenCurrent, SpeaksElsewhere, SpeaksAgainst, JudgeNegative;
    var relations := Elements(Relations(state, p));
    NegativeExactly(state, p, r, ref);
    JudgeNegativeMeans(p, r, ref, Resolved(state, p), relations);
    NegativeResolves(state, p, ref);
    if ref in Resolved(state, p) {
      JudgedReason(p, r, ref, Resolved(state, p), relations, reason);
      var kind, x := Resolved(state, p)[ref].kind, Resolved(state, p)[ref].raw;
      assert Sole(state, ref, kind, x) && forall k, y | Sole(state, ref, k, y) :: k == kind && y == x;
      AppliesExactly(x, None, r);
      forall e
        ensures e in relations && Contradicts(p, ref, e) <==> EdgeOf(state, e) && SetAgainst(p, ref, e)
        ensures ExperienceUse.Applies(x, Some(e), r) == Current <==> HoldsHere(x, Some(e), r)
      {
        AgainstIsLookedAt(state, p, ref, e);
        AppliesExactly(x, Some(e), r);
      }
    } else {
      UnknownNegative(state, p, r, ref, reason);
    }
  }

  lemma UnknownNegative(state: State, p: Projection, r: Requirement, ref: string, reason: Reason)
    requires ref !in Resolved(state, p) && forall kind, x :: !Sole(state, ref, kind, x)
    ensures reason in JudgeNegative(p, r, ref, Resolved(state, p), Elements(Relations(state, p))).reasons
       <==> NegativeSays(state, p, r, ref, reason)
  {
    hide Sole, Resolved, Relations, HoldsHere, SetAgainst, EdgeOf, HoldsElsewhere;
  }

  lemma {:induction false} ScannedNegatives(
    p: Projection, r: Requirement, refs: seq<string>, resolved: map<string, Found>, relations: set<Raw>, reason: Reason
  )
    ensures reason in ScanNegatives(p, r, refs, resolved, relations).reasons <==>
      exists n ::
        && 0 <= n < |refs| && reason in JudgeNegative(p, r, refs[n], resolved, relations).reasons
        && forall m | 0 <= m < n :: !JudgeNegative(p, r, refs[m], resolved, relations).blocked
  {
    hide JudgeNegative;
    if refs != [] {
      var rest := refs[1..];
      ScannedNegatives(p, r, rest, resolved, relations, reason);
      var one := JudgeNegative(p, r, refs[0], resolved, relations);
      if !one.blocked {
        if n :|
          && 0 <= n < |rest| && reason in JudgeNegative(p, r, rest[n], resolved, relations).reasons
          && (forall m | 0 <= m < n :: !JudgeNegative(p, r, rest[m], resolved, relations).blocked)
        {
          assert refs[n + 1] == rest[n];
          forall m | 0 <= m < n + 1 ensures !JudgeNegative(p, r, refs[m], resolved, relations).blocked {
            if m > 0 {
              assert refs[m] == rest[m - 1];
            }
          }
        }
        if n :|
          && 0 <= n < |refs| && reason in JudgeNegative(p, r, refs[n], resolved, relations).reasons
          && (forall m | 0 <= m < n :: !JudgeNegative(p, r, refs[m], resolved, relations).blocked)
        {
          if n > 0 {
            assert rest[n - 1] == refs[n];
            assert forall m | 0 <= m < n - 1 :: rest[m] == refs[m + 1];
          }
        }
      }
    }
  }

  ghost predicate FreeBefore(names: set<string>, blocks: string -> bool, n: int) {
    0 <= n <= |Sorted(names)| && forall m | 0 <= m < n :: !blocks(Sorted(names)[m])
  }

  ghost predicate FreeBelow(names: set<string>, blocks: string -> bool, ref: string) {
    forall other | other in names && other != ref && Leq(other, ref) :: !blocks(other)
  }

  lemma BeforeIsBelow(names: set<string>, blocks: string -> bool, n: nat)
    requires n < |Sorted(names)|
    ensures FreeBefore(names, blocks, n) <==> FreeBelow(names, blocks, Sorted(names)[n])
  {
    hide Leq;
    var refs := Sorted(names);
    SortedAscends(names);
    if FreeBefore(names, blocks, n) {
      forall other | other in names && other != refs[n] && Leq(other, refs[n]) ensures !blocks(other) {
        assert other in refs;
        var m :| 0 <= m < |refs| && refs[m] == other;
        if n < m {
          LeqAntisymmetric(other, refs[n]);
        }
      }
    }
    if FreeBelow(names, blocks, refs[n]) {
      forall m | 0 <= m < n ensures !blocks(refs[m]) {
        assert refs[m] in refs;
      }
    }
  }

  /** First in the ascending listing, and least by name, are the same. */
  lemma FirstByName(names: set<string>, blocks: string -> bool, says: string -> bool)
    ensures (exists n :: 0 <= n < |Sorted(names)| && says(Sorted(names)[n]) && FreeBefore(names, blocks, n))
       <==> exists ref :: ref in names && says(ref) && FreeBelow(names, blocks, ref)
  {
    hide FreeBefore, FreeBelow;
    var refs := Sorted(names);
    if n :| 0 <= n < |refs| && says(refs[n]) && FreeBefore(names, blocks, n) {
      assert refs[n] in refs;
      BeforeIsBelow(names, blocks, n);
    }
    if ref :| ref in names && says(ref) && FreeBelow(names, blocks, ref) {
      assert ref in refs;
      var n :| 0 <= n < |refs| && refs[n] == ref;
      BeforeIsBelow(names, blocks, n);
    }
  }

  lemma {:induction false} NegativeReasonExactly(state: State, p: Projection, r: Requirement, reason: Reason)
    ensures reason in ScanNegatives(
        p, r, Sorted(Elements(p.counterexamples) + Elements(p.negatives)), Resolved(state, p), Elements(Relations(state, p))).reasons
      <==> NegativeReason(state, p, r, reason)
  {
    hide Resolved, Relations, JudgeNegative, NegativeSays, SpeaksAgainst, Leq, Sorted;
    var names := Elements(p.counterexamples) + Elements(p.negatives);
    var resolved, relations := Resolved(state, p), Elements(Relations(state, p));
    ScannedNegatives(p, r, Sorted(names), resolved, relations, reason);
    FirstByName(
      names, (ref: string) => JudgeNegative(p, r, ref, resolved, relations).blocked,
      (ref: string) => reason in JudgeNegative(p, r, ref, resolved, relations).reasons);
    forall ref ensures ref in names <==> NegativeOf(p, ref) {}
    forall ref | NegativeOf(p, ref)
      ensures reason in JudgeNegative(p, r, ref, resolved, relations).reasons <==> NegativeSays(state, p, r, ref, reason)
      ensures JudgeNegative(p, r, ref, resolved, relations).blocked <==> SpeaksAgainst(state, p, r, ref)
    {
      NegativeSaysExactly(state, p, r, ref, reason);
    }
  }

  // ------------------------------------------------------------------- all reasons

  /** What one selected projection gives as a reason. */
  ghost predicate ReasonFrom(state: State, p: Projection, r: Requirement, reason: Reason) {
    match reason
    case LifecycleNotUsable(ref, lifecycle) => ref == p.id && lifecycle == p.lifecycle && lifecycle != "official"
    case ScopeMismatch(ref) => ref == p.id && !Within(p.validityScope, r.useScope)
    case EnvironmentDrift(ref) => ref == p.id && !Within(p.environment, r.environment)
    case VersionDrift(ref) => ref == p.id && exists v :: v in p.scopes && v !in r.versions
    case Unresolved(role, ref) => Lists(p, role, ref) && forall kind, x :: !Sole(state, ref, kind, x)
    case WrongType(role, ref) => Lists(p, role, ref) && exists kind, x :: Sole(state, ref, kind, x) && !TakenAs(state, role, ref, kind, x)
    case RequiresRevalidation(relation) =>
      exists e, on ::
        && EdgeOf(state, e) && e.relationType == "requires-revalidation" && Adjoins(state, p, e)
        && EndAt(e, on) && MustStand(state, p, on) && e.id == relation
    case _ => DirectReason(state, p, reason) || NegativeReason(state, p, r, reason)
  }

  lemma RevalidationReasonExactly(state: State, p: Projection, reason: Reason)
    ensures reason in RevalidationReasons(p, Derivations(state, p), Elements(Relations(state, p))) <==>
      && reason.RequiresRevalidation?
      && exists e, on ::
           && EdgeOf(state, e) && e.relationType == "requires-revalidation" && Adjoins(state, p, e)
           && EndAt(e, on) && MustStand(state, p, on) && e.id == reason.relation
  {
    hide Relations, Derivations, FreshnessRefs, Touches, Adjoins, EndAt, MustStand, EdgeOf;
    GraphExactly(state, p);
    EdgesAre(state);
    forall e ensures Touches(FreshnessRefs(p, Derivations(state, p)), e) <==> exists ref :: EndAt(e, ref) && MustStand(state, p, ref) {
      FreshnessExactly(state, p, e);
    }
  }

  lemma EdgesAre(state: State)
    ensures forall e :: InBucket(state, "relation", e) <==> EdgeOf(state, e)
  {
  }

  lemma KindsApart(state: State, p: Projection, r: Requirement, reason: Reason)
    ensures DirectReason(state, p, reason) ==>
      reason.StaleAssertion? || reason.BlockedAssertion? || reason.StaleEvidence? || reason.InvalidJudgment?
    ensures NegativeReason(state, p, r, reason) ==>
      reason.NegativeUnavailable? || reason.NegativeOutside? || reason.NegativeUnbound? || reason.NegativeUnknown? || reason.Contradiction?
    ensures reason in ResolutionErrors(state, p) ==> reason.Unresolved? || reason.WrongType?
  {
  }

  lemma {:induction false} ExaminedReason(state: State, p: Projection, r: Requirement, reason: Reason)
    ensures reason in Examine(state, p, r).reasons <==>
      || (reason == LifecycleNotUsable(p.id, p.lifecycle) && p.lifecycle != "official")
      || reason in ResolutionErrors(state, p)
      || (reason == ScopeMismatch(p.id) && !Contained(p.validityScope, r.useScope))
      || (reason == EnvironmentDrift(p.id) && !Contained(p.environment, r.environment))
      || (reason == VersionDrift(p.id) && !(Elements(p.scopes) <= r.versions))
      || reason in ClassifyDirect(p, Resolved(state, p)).1
      || reason in ScanNegatives(
           p, r, Sorted(Elements(p.counterexamples) + Elements(p.negatives)), Resolved(state, p), Elements(Relations(state, p))).reasons
      || reason in RevalidationReasons(p, Derivations(state, p), Elements(Relations(state, p)))
  {
    hide Resolved, ResolutionErrors, Relations, Derivations, ClassifyDirect, ScanNegatives, RevalidationReasons, Contained, Sorted,
      Elements, NegativeStatus;
  }

  lemma ReasonFromExactly(state: State, p: Projection, r: Requirement, reason: Reason)
    ensures reason in Examine(state, p, r).reasons <==> ReasonFrom(state, p, r, reason)
  {
    hide Examine, Resolved, ResolutionErrors, Relations, Derivations, ClassifyDirect, ScanNegatives, RevalidationReasons, Contained,
      Within, Sorted, Elements, DirectReason, NegativeReason, Lists, Sole, TakenAs, EdgeOf, Adjoins, EndAt, MustStand;
    ExaminedReason(state, p, r, reason);
    ContainedExactly(p.validityScope, r.useScope);
    ContainedExactly(p.environment, r.environment);
    ListedExactly(p, r);
    DirectReasonExactly(state, p, reason);
    NegativeReasonExactly(state, p, r, reason);
    RevalidationReasonExactly(state, p, reason);
    KindsApart(state, p, r, reason);
    if reason.Unresolved? || reason.WrongType? {
      ErrorsExactly(state, p, reason.role, reason.ref);
    }
  }

  lemma {:induction false} ReasonsFrom(state: State, refs: seq<string>, r: Requirement, reason: Reason)
    ensures reason in ReasonsOf(state, refs, r) <==> exists ref | ref in refs :: reason in FindingFor(state, ref, r).reasons
  {
    hide FindingFor;
    if refs != [] {
      var prefix, last := refs[..|refs| - 1], refs[|refs| - 1];
      ReasonsFrom(state, prefix, r, reason);
      assert refs == prefix + [last];
    }
  }

  /** One projection of that id, but not a valid one. */
  ghost predicate Malformed(state: State, ref: string) {
    exists n: int ::
      && StandsAt(state, "knowledge_projection", n, ref) && state["knowledge_projection"][n].projection.None?
      && forall m: int | StandsAt(state, "knowledge_projection", m, ref) :: m == n
  }

  lemma FindingReasons(state: State, ref: string, r: Requirement, reason: Reason)
    ensures reason in FindingFor(state, ref, r).reasons <==>
      || (exists p :: Registered(state, ref, p) && ReasonFrom(state, p, r, reason))
      || (reason == ProjectionInvalid(ref) && Malformed(state, ref))
      || (reason == ProjectionUnavailable(ref) && !Malformed(state, ref) && forall p :: !Registered(state, ref, p))
  {
    hide Examine, ReasonFrom, Registered, FindProjection, Malformed;
    RegisteredExactly(state, ref);
    MalformedExactly(state, ref);
    if Known(state, ref) {
      ReasonFromExactly(state, KnownAs(state, ref), r, reason);
      assert Registered(state, ref, KnownAs(state, ref));
    }
  }

  lemma MalformedExactly(state: State, ref: string)
    ensures Malformed(state, ref) <==> FindProjection(state, ref).Some? && FindProjection(state, ref).value.projection.None?
  {
    var bucket, p := Bucket(state, "knowledge_projection"), (y: Raw) => y.id == Some(ref);
    FilterOne(bucket, p);
    assert forall m | 0 <= m < |bucket| :: p(bucket[m]) <==> StandsAt(state, "knowledge_projection", m, ref);
    if FindProjection(state, ref).Some? {
      var n :| 0 <= n < |bucket| && p(bucket[n]) && forall m | 0 <= m < |bucket| && p(bucket[m]) :: m == n;
      assert StandsAt(state, "knowledge_projection", n, ref);
    }
  }

  /** Every reason given, and nothing but reasons that hold. */
  lemma ReasonsExactly(state: State, r: Requirement, reason: Reason)
    ensures reason in Evaluate(state, r).reasons <==>
      || (reason == NoReliance && r.refs == [])
      || exists ref | ref in r.refs ::
           || (exists p :: Registered(state, ref, p) && ReasonFrom(state, p, r, reason))
           || (reason == ProjectionInvalid(ref) && Malformed(state, ref))
           || (reason == ProjectionUnavailable(ref) && !Malformed(state, ref) && forall p :: !Registered(state, ref, p))
  {
    hide FindingFor, Registered, ReasonFrom, Malformed, StatusOf, SnapshotOf, ReasonsOf;
    ReasonsFrom(state, r.refs, r, reason);
    forall ref ensures reason in FindingFor(state, ref, r).reasons <==>
      || (exists p :: Registered(state, ref, p) && ReasonFrom(state, p, r, reason))
      || (reason == ProjectionInvalid(ref) && Malformed(state, ref))
      || (reason == ProjectionUnavailable(ref) && !Malformed(state, ref) && forall p :: !Registered(state, ref, p))
    {
      FindingReasons(state, ref, r, reason);
    }
  }
}
