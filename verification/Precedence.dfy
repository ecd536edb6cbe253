/**
 In every journal a review is opened before the decision that cites it, and the
 decision is recorded before anything applied or discharged in its name.
 */
module Precedence {
  import opened Wrappers
  import opened Text
  import opened Distinction
  import opened Canonical
  import opened History
  import opened Durable
  import opened Coherence
  import opened Runs

  /** The opening of the review, on the decision's target and context, with its bases anchored by the decision. */
  ghost predicate OpenedIn(earlier: Journal, ref: string, d: GovernanceDecision) {
    exists e | e in earlier ::
      && e.body.ReviewOpened?
      && var o := RestoreObligation(e.body.obligation);
      && o.id == ref && o.target == d.target && o.context == d.context
      && Elements(o.basisRefs) <= BasisKeys(d)
  }

  ghost predicate DecidedIn(earlier: Journal, r: ApplicationReceipt) {
    exists e | e in earlier ::
      && e.body.DecisionEntered?
      && RestoreDecision(e.body.decision).Ok?
      && var d := RestoreDecision(e.body.decision).value;
      && d.id == r.application.decisionRef
      && Linked(r.application, d)
      && (r.effectKind == "review_discharge" ==>
            && r.application.reviewObligationId.Some?
            && r.application.reviewObligationId.value in d.reviewRefs)
  }

  /** Everything the event relies on happened before it. */
  ghost predicate Supported(earlier: Journal, e: Event) {
    match e.body
    case DecisionEntered(p) =>
      RestoreDecision(p).Ok? ==> forall ref | ref in RestoreDecision(p).value.reviewRefs ::
        OpenedIn(earlier, ref, RestoreDecision(p).value)
    case ApplicationCommitted(p, _) => DecidedIn(earlier, RestoreReceipt(p))
    case _ => true
  }

  ghost predicate InOrder(journal: Journal) {
    forall i | 0 <= i < |journal| :: Supported(journal[..i], journal[i])
  }

  lemma OneMoreInOrder(journal: Journal, e: Event)
    requires InOrder(journal) && Supported(journal, e)
    ensures InOrder(journal + [e])
  {
    hide Supported;
    var all := journal + [e];
    forall i | 0 <= i < |all| ensures Supported(all[..i], all[i]) {
      assert all[..i] == if i < |journal| then journal[..i] else journal;
    }
  }

  lemma LandInOrder(d: Durable, config: Configuration, e: Event)
    requires InOrder(d.journal) && Land(d, config, e).Ok? && Supported(d.journal, e)
    ensures InOrder(Land(d, config, e).value.journal)
  {
    hide InOrder, Supported;
    OneMoreInOrder(d.journal, e);
  }

  lemma {:induction false} BatchInOrder(d: Durable, os: seq<ReviewObligation>)
    requires InOrder(d.journal) && OpenBatch(d, os).Ok?
    ensures InOrder(OpenBatch(d, os).value.journal)
  {
    hide InOrder;
    if os != [] {
      BatchInOrder(d, os[..|os| - 1]);
      var before, o := OpenBatch(d, os[..|os| - 1]).value, os[|os| - 1];
      LandInOrder(before, WithObligation(before.config, o), ReviewOpenedEvent(o));
    }
  }

  lemma OpenForInOrder(d: Durable, eventRef: string, os: seq<ReviewObligation>)
    requires InOrder(d.journal) && CommitEventObligations(d, eventRef, os).Ok?
    ensures InOrder(CommitEventObligations(d, eventRef, os).value.0.journal)
  {
    hide InOrder;
    if ProcessedIds(d.journal, eventRef) == Ok(None) {
      EventObligationsFacts(d, eventRef, os);
      BatchInOrder(d, os);
      var all := OpenBatch(d, os).value;
      LandInOrder(all, all.config, ProcessedEvent(eventRef, IdsOf(os)));
    }
  }

  lemma OpenReviewWasOpened(d: Durable, ref: string, decision: GovernanceDecision)
    requires Indexed(d) && ReviewInputMatches(decision, d.config) && ref in decision.reviewRefs
    ensures OpenedIn(d.journal, ref, decision)
  {
    hide StatesMatch, DischargesMatch, Reconstruct;
    var h := FoldOf(d);
    assert Lookup(h, ReviewKey(ref)) == Some(Opened(d.config.obligations[ref]));
    var e :| e in d.journal && FactOf(e) == Some((ReviewKey(ref), Lookup(h, ReviewKey(ref)).value));
    assert e.body.ReviewOpened?;
  }

  lemma DecideInOrder(d: Durable, decision: GovernanceDecision)
    requires Indexed(d) && InOrder(d.journal) && CommitDecision(d, decision).Ok?
    ensures InOrder(CommitDecision(d, decision).value.journal)
  {
    hide InOrder, Indexed, OpenedIn;
    if decision.id !in d.config.decisions {
      forall ref | ref in decision.reviewRefs ensures OpenedIn(d.journal, ref, decision) {
        OpenReviewWasOpened(d, ref, decision);
      }
      DecisionRoundTrip(decision);
      LandInOrder(d, d.config.(decisions := d.config.decisions[decision.id := decision]), DecisionRecordedEvent(decision));
    }
  }

  lemma DecisionWasRecorded(d: Durable, r: ApplicationReceipt)
    requires Indexed(d) && r.application.decisionRef in d.config.decisions
    requires Linked(r.application, d.config.decisions[r.application.decisionRef])
    requires r.effectKind == "review_discharge" ==>
      && r.application.reviewObligationId.Some?
      && r.application.reviewObligationId.value in d.config.decisions[r.application.decisionRef].reviewRefs
    ensures DecidedIn(d.journal, r)
  {
    hide StatesMatch, DischargesMatch, Reconstruct, Linked;
    var h, id := FoldOf(d), r.application.decisionRef;
    assert Lookup(h, DecisionKey(id)) == Some(Decided(d.config.decisions[id]));
    var e :| e in d.journal && FactOf(e) == Some((DecisionKey(id), Lookup(h, DecisionKey(id)).value));
    assert e.body.DecisionEntered?;
  }

  lemma ApplyInOrder(
    d: Durable, schemeId: string, next: DistinctionState, r: ApplicationReceipt, freshness: Option<FreshnessLookup>
  )
    requires Indexed(d) && InOrder(d.journal) && CommitStateApplication(d, schemeId, next, r, freshness).Ok?
    ensures InOrder(CommitStateApplication(d, schemeId, next, r, freshness).value.journal)
  {
    hide InOrder, Indexed, CommitStateApplication, DecidedIn, Linked, StateAdmissibleFor, StateAnchor, EffectMatches;
    StateApplicationFacts(d, schemeId, next, r, freshness);
    DecisionWasRecorded(d, r);
    ReceiptRoundTrip(r);
    LandInOrder(
      d, d.config.(states := d.config.states[schemeId := next], applications := d.config.applications[r.application.id := r]),
      ApplicationCommittedEvent(r, Some(next)));
  }

  lemma DischargeInOrder(d: Durable, id: string, r: ApplicationReceipt, freshness: Option<FreshnessLookup>)
    requires Indexed(d) && InOrder(d.journal) && CommitReviewDischarge(d, id, r, freshness).Ok?
    ensures InOrder(CommitReviewDischarge(d, id, r, freshness).value.journal)
  {
    hide InOrder, Indexed, CommitReviewDischarge, DecidedIn, Linked;
    DischargeFacts(d, id, r, freshness);
    DecisionWasRecorded(d, r);
    ReceiptRoundTrip(r);
    LandInOrder(
      d, d.config.(obligations := d.config.obligations - {id}, applications := d.config.applications[r.application.id := r]),
      ApplicationCommittedEvent(r, None));
  }

  lemma SeedInOrder(d: Durable, schemeId: string, s: DistinctionState)
    requires InOrder(d.journal) && SeedState(d, schemeId, s).Ok?
    ensures InOrder(SeedState(d, schemeId, s).value.journal)
  {
    hide InOrder, StateAdmissibleFor;
    if schemeId !in d.config.states {
      LandInOrder(d, d.config.(states := d.config.states[schemeId := s]), StateSeedEvent(schemeId, s));
    }
  }

  lemma OpenInOrder(d: Durable, o: ReviewObligation)
    requires InOrder(d.journal) && OpenReview(d, o).Ok?
    ensures InOrder(OpenReview(d, o).value.journal)
  {
    hide InOrder, ValidateObligation;
    if ValidateObligation(d.config, o) == Ok(true) {
      LandInOrder(d, WithObligation(d.config, o), ReviewOpenedEvent(o));
    }
  }

  lemma StepInOrder(d: Durable, op: Operation)
    requires Indexed(d) && InOrder(d.journal)
    ensures InOrder(After(d, op).journal)
  {
    hide Indexed, InOrder, SeedState, OpenReview, CommitEventObligations, CommitDecision, CommitStateApplication,
      CommitReviewDischarge, Supported;
    if Perform(d, op).Ok? {
      match op
      case Seed(schemeId, s) => SeedInOrder(d, schemeId, s);
      case OpenOne(o) => OpenInOrder(d, o);
      case OpenFor(eventRef, os) => OpenForInOrder(d, eventRef, os);
      case Decide(decision) => DecideInOrder(d, decision);
      case ApplyState(schemeId, next, r, freshness) => ApplyInOrder(d, schemeId, next, r, freshness);
      case Discharge(id, r, freshness) => DischargeInOrder(d, id, r, freshness);
      case RebuildAll =>
      case OtherEvent(e) => OtherInOrder(d, e);
    }
  }

  lemma OtherInOrder(d: Durable, e: Event)
    requires InOrder(d.journal) && RecordOther(d, e).Ok?
    ensures InOrder(RecordOther(d, e).value.journal)
  {
    hide InOrder;
    LandInOrder(d, d.config, e);
  }

  /** Every run writes its journal in that order. */
  lemma {:induction false} EveryRunIsInOrder(ops: seq<Operation>)
    ensures InOrder(Run(ops).journal)
  {
    if ops != [] {
      EveryRunIsInOrder(ops[..|ops| - 1]);
      EveryRunIsIndexed(ops[..|ops| - 1]);
      StepInOrder(Run(ops[..|ops| - 1]), ops[|ops| - 1]);
    }
  }
}
