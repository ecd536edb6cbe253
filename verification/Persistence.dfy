/**
 The durable governance layer as it runs: an append-only event store and a
 mutable projection over it, written together inside transactions that put
 both back on failure. Each method is proved to perform exactly the step that
 `Durable` specifies, and to leave no trace when refused.
 */
module Persistence {
  import opened Wrappers
  import opened Text
  import opened Distinction
  import opened Canonical
  import opened History
  import Spec = Durable
  import opened Stores

  type Done = Outcome<Spec.GovernanceError>

  /** The step took place as specified, or was refused for the specified reason and changed nothing. */
  predicate Performed(before: Spec.Durable, after: Spec.Durable, outcome: Done, step: Spec.Successor) {
    match step
    case Ok(next) => outcome.Pass? && after == next
    case Err(e) => outcome == Fail(e) && after == before
  }

  class DistinctionGovernancePersistence {
    const store: StateStore
    var states: map<string, DistinctionState>
    var obligations: map<string, ReviewObligation>
    var decisions: map<string, GovernanceDecision>
    var applications: map<string, ApplicationReceipt>

    constructor (store: StateStore)
      ensures this.store == store
      ensures Abs() == Spec.Durable(EMPTY_CONFIGURATION, store.journal)
    {
      this.store := store;
      states, obligations, decisions, applications := map[], map[], map[], map[];
    }

    function Snapshot(): Configuration
      reads this
    {
      Configuration(states, obligations, decisions, applications)
    }

    function Abs(): Spec.Durable
      reads this, store
    {
      Spec.Durable(Snapshot(), store.journal)
    }

    /** No gate stands in the way of governance events. */
    method AppendHistoryEvent(e: Event) returns (refused: bool)
      requires IsGovernance(e)
      modifies store`journal
      ensures refused <==> Append(old(store.journal), e).Err?
      ensures store.journal == if refused then old(store.journal) else Append(old(store.journal), e).value
    {
      refused := store.AppendEvent(e);
    }

    method Rollback(mark: Spec.Durable)
      modifies this, store`journal
      ensures Abs() == mark
    {
      states, obligations := mark.config.states, mark.config.obligations;
      decisions, applications := mark.config.decisions, mark.config.applications;
      store.journal := mark.journal;
    }

    method SeedState(schemeId: string, s: DistinctionState) returns (outcome: Done)
      modifies this, store`journal
      ensures Performed(old(Abs()), Abs(), outcome, Spec.SeedState(old(Abs()), schemeId, s))
    {
      if !StateAdmissibleFor(schemeId, s) {
        return Fail(Spec.InadmissibleSeed);
      }
      var mark := Abs();
      if schemeId in states {
        return if states[schemeId] == s then Pass else Fail(Spec.StateExists);
      }
      states := states[schemeId := s];
      var refused := AppendHistoryEvent(StateSeedEvent(schemeId, s));
      if refused {
        Rollback(mark);
        return Fail(Spec.JournalRefused);
      }
      return Pass;
    }

    method ValidateNewObligation(o: ReviewObligation) returns (r: Result<bool, Spec.GovernanceError>)
      ensures r == Spec.ValidateObligation(Snapshot(), o)
    {
      if o.id in obligations {
        return if obligations[o.id] == o then Ok(false) else Err(Spec.ObligationTaken);
      }
      if exists id | id in obligations :: KeyOf(obligations[id]) == KeyOf(o) {
        return Err(Spec.EquivalentReviewOpen);
      }
      return Ok(true);
    }

    method OpenObligation(o: ReviewObligation) returns (outcome: Done)
      modifies this, store`journal
      ensures Performed(old(Abs()), Abs(), outcome, Spec.OpenReview(old(Abs()), o))
    {
      var mark := Abs();
      var isNew := ValidateNewObligation(o);
      if isNew.Err? {
        return Fail(isNew.error);
      }
      if !isNew.value {
        return Pass;
      }
      obligations := obligations[o.id := o];
      var refused := AppendHistoryEvent(ReviewOpenedEvent(o));
      if refused {
        Rollback(mark);
        return Fail(Spec.JournalRefused);
      }
      return Pass;
    }

    method ProcessedEventObligationIds(eventRef: string) returns (r: Result<Option<seq<string>>, Spec.GovernanceError>)
      ensures r == Spec.ProcessedIds(store.journal, eventRef)
    {
      var found := store.GetEvent(GovernanceId("processed", eventRef));
      if found.None? || !found.value.body.EventProcessed? {
        return Ok(None);
      }
      if found.value.body.eventKey != eventRef {
        return Err(Spec.MarkerInconsistent);
      }
      return Ok(Some(found.value.body.obligationIds));
    }

    method ValidateRequested(os: seq<ReviewObligation>) returns (outcome: Done)
      ensures outcome == match Spec.ValidateBatch(Snapshot(), os) case Ok(_) => Pass case Err(e) => Fail(e)
    {
      var requestedKeys: set<ObligationKey> := {};
      for i := 0 to |os|
        invariant Spec.ValidateBatch(Snapshot(), os[..i]) == Ok(requestedKeys)
      {
        assert os[..i + 1][..i] == os[..i];
        var key := KeyOf(os[i]);
        if key in requestedKeys {
          Spec.ValidationStops(Snapshot(), os, i + 1);
          return Fail(Spec.DuplicateResponsibility);
        }
        var isNew := ValidateNewObligation(os[i]);
        if isNew.Err? || !isNew.value {
          Spec.ValidationStops(Snapshot(), os, i + 1);
          return Fail(if isNew.Err? then isNew.error else Spec.AlreadyMaterialized);
        }
        requestedKeys := requestedKeys + {key};
      }
      assert os[..|os|] == os;
      return Pass;
    }

    method CommitEventObligations(eventRef: string, os: seq<ReviewObligation>)
      returns (r: Result<seq<string>, Spec.GovernanceError>)
      modifies this, store`journal
      ensures match Spec.CommitEventObligations(old(Abs()), eventRef, os)
              case Ok((next, ids)) => r == Ok(ids) && Abs() == next
              case Err(e) => r == Err(e) && Abs() == old(Abs())
    {
      hide Spec.ValidateBatch, Spec.ProcessedIds;
      if eventRef == "" {
        return Err(Spec.EmptyEventKey);
      }
      if exists o | o in os :: o.triggerRef != eventRef {
        return Err(Spec.TriggerMismatch);
      }
      var mark := Abs();
      var existing := ProcessedEventObligationIds(eventRef);
      if existing.Err? {
        return Err(existing.error);
      }
      if existing.value.Some? {
        return Ok(existing.value.value);
      }
      var valid := ValidateRequested(os);
      if valid.Fail? {
        return Err(valid.error);
      }
      for i := 0 to |os|
        invariant Spec.OpenBatch(mark, os[..i]) == Ok(Abs())
      {
        assert os[..i + 1][..i] == os[..i];
        obligations := obligations[os[i].id := os[i]];
        var refused := AppendHistoryEvent(ReviewOpenedEvent(os[i]));
        if refused {
          Spec.OpeningStops(mark, os, i + 1);
          Rollback(mark);
          return Err(Spec.JournalRefused);
        }
      }
      assert os[..|os|] == os;
      var ids := Spec.IdsOf(os);
      var refused := AppendHistoryEvent(ProcessedEvent(eventRef, ids));
      if refused {
        Rollback(mark);
        return Err(Spec.JournalRefused);
      }
      return Ok(ids);
    }

    method RecordDecision(d: GovernanceDecision) returns (outcome: Done)
      modifies this, store`journal
      ensures Performed(old(Abs()), Abs(), outcome, Spec.CommitDecision(old(Abs()), d))
    {
      var mark := Abs();
      if d.id in decisions {
        return if decisions[d.id] == d then Pass else Fail(Spec.DecisionTaken);
      }
      if d.target !in states {
        return Fail(Spec.UnknownTarget);
      }
      if !ReviewInputMatches(d, Snapshot()) {
        return Fail(Spec.ReviewInputMismatch);
      }
      decisions := decisions[d.id := d];
      var refused := AppendHistoryEvent(DecisionRecordedEvent(d));
      if refused {
        Rollback(mark);
        return Fail(Spec.JournalRefused);
      }
      return Pass;
    }

    method CommitStateApplication(
      schemeId: string, next: DistinctionState, receipt: ApplicationReceipt, freshness: Option<FreshnessLookup>
    ) returns (outcome: Done)
      modifies this, store`journal
      ensures Performed(old(Abs()), Abs(), outcome, Spec.CommitStateApplication(old(Abs()), schemeId, next, receipt, freshness))
    {
      hide StateAdmissibleFor, StateAnchor, ObligationsAnchor, Linked, EffectMatches, CandidateEffect;
      var mark, a := Abs(), receipt.application;
      if a.id in applications {
        return Fail(Spec.ApplicationTaken);
      }
      if schemeId !in states {
        return Fail(Spec.UnknownState);
      }
      if a.decisionRef !in decisions {
        return Fail(Spec.UnknownDecision);
      }
      var current, decision := states[schemeId], decisions[a.decisionRef];
      if freshness.Some? && !BasisUnchanged(decision, freshness.value) {
        return Fail(Spec.BasisChanged);
      }
      var linkedCorrectly :=
        && receipt.effectKind == "state"
        && a.schemeId == schemeId
        && a.target == schemeId
        && decision.target == schemeId
        && Linked(a, decision);
      if !linkedCorrectly {
        return Fail(Spec.LinkageInvalid);
      }
      if receipt.preAnchor != StateAnchor(current) {
        return Fail(Spec.PreAnchorMismatch);
      }
      if receipt.preAnchor != decision.expectedStateAnchor {
        return Fail(Spec.DecisionBasisMismatch);
      }
      if CandidateEffect(a, current) != next {
        return Fail(Spec.NotCandidateEffect);
      }
      if !StateAdmissibleFor(schemeId, next) || !EffectMatches(decision, next) {
        return Fail(Spec.InvariantViolated);
      }
      if receipt.postAnchor != StateAnchor(next) {
        return Fail(Spec.PostAnchorMismatch);
      }
      states := states[schemeId := next];
      applications := applications[a.id := receipt];
      var refused := AppendHistoryEvent(ApplicationCommittedEvent(receipt, Some(next)));
      if refused {
        Rollback(mark);
        return Fail(Spec.JournalRefused);
      }
      return Pass;
    }

    method CommitReviewDischarge(
      obligationId: string, receipt: ApplicationReceipt, freshness: Option<FreshnessLookup>
    ) returns (outcome: Done)
      modifies this, store`journal
      ensures Performed(old(Abs()), Abs(), outcome, Spec.CommitReviewDischarge(old(Abs()), obligationId, receipt, freshness))
    {
      hide StateAdmissibleFor, StateAnchor, ObligationsAnchor, Linked, EffectMatches, CandidateEffect;
      var mark, a := Abs(), receipt.application;
      if a.id in applications {
        return Fail(Spec.ApplicationTaken);
      }
      if obligationId !in obligations {
        return Fail(Spec.UnknownObligation);
      }
      if a.decisionRef !in decisions {
        return Fail(Spec.UnknownDecision);
      }
      var obligation, decision := obligations[obligationId], decisions[a.decisionRef];
      if freshness.Some? && !BasisUnchanged(decision, freshness.value) {
        return Fail(Spec.BasisChanged);
      }
      var linkedCorrectly :=
        && receipt.effectKind == "review_discharge"
        && a.operation == APPLY_REVIEW_DISCHARGE
        && a.reviewObligationId == Some(obligationId)
        && a.target == "review_obligation:" + obligationId
        && a.schemeId == decision.target
        && obligationId in decision.reviewRefs
        && obligation.target == decision.target
        && obligation.context == decision.context
        && Linked(a, decision);
      if !linkedCorrectly {
        return Fail(Spec.LinkageInvalid);
      }
      if receipt.preAnchor != ObligationsAnchor(obligations) {
        return Fail(Spec.PreAnchorMismatch);
      }
      var remaining := obligations - {obligationId};
      if receipt.postAnchor != ObligationsAnchor(remaining) {
        return Fail(Spec.PostAnchorMismatch);
      }
      obligations := remaining;
      applications := applications[a.id := receipt];
      var refused := AppendHistoryEvent(ApplicationCommittedEvent(receipt, None));
      if refused {
        Rollback(mark);
        return Fail(Spec.JournalRefused);
      }
      return Pass;
    }

    method RebuildProjectionFromCanonicalHistory() returns (outcome: Done)
      modifies this
      ensures Performed(old(Abs()), Abs(), outcome, Spec.Rebuild(old(Abs())))
    {
      var history := ReconstructGovernanceHistory(store.journal);
      if history.Err? {
        return Fail(Spec.HistoryUnusable);
      }
      var config := history.value.configuration;
      states, obligations := config.states, config.obligations;
      decisions, applications := config.decisions, config.applications;
      return Pass;
    }
  }
}
