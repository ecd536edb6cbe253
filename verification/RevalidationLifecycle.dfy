/**
 The lifecycle object that drives kernel and persistence together. Each method
 is proved to take the step the kernel admits, or to change nothing.
 */
module RevalidationLifecycle {
  import opened Wrappers
  import opened Distinction
  import opened Canonical
  import Spec = Durable
  import opened Coherence
  import opened Persistence
  import opened Runs
  import opened Lifecycle

  datatype Observation = Observation(
    openedObligations: seq<ReviewObligation>,
    alreadyProcessed: seq<string>,
    unavailable: bool)

  lemma {:induction false} ProjectionStops(
    config: Configuration, eventRef: string, context: string, assessments: seq<Assessment>, n: nat
  )
    requires n <= |assessments| && ProjectAll(config, eventRef, context, assessments[..n]).Err?
    ensures ProjectAll(config, eventRef, context, assessments) == ProjectAll(config, eventRef, context, assessments[..n])
    decreases |assessments|
  {
    if n == |assessments| {
      assert assessments[..n] == assessments;
    } else {
      assert assessments[..|assessments| - 1][..n] == assessments[..n];
      ProjectionStops(config, eventRef, context, assessments[..|assessments| - 1], n);
    }
  }

  function Committed(d: Spec.Durable, step: Spec.Successor): Spec.Durable {
    match step
    case Ok(next) => next
    case Err(_) => d
  }

  lemma ApplyIssues(d: Spec.Durable, a: GovernedApplication, authority: AuthorityCheck, freshness: FreshnessLookup)
    ensures match ApplyStateTransition(d.config, a, authority, freshness)
            case Some(next) =>
              && a.schemeId in next.states && a.id in next.applications
              && StepAfter(d, Apply(a, authority, freshness))
                   == Committed(d, Spec.CommitStateApplication(
                                     d, a.schemeId, next.states[a.schemeId], next.applications[a.id], Some(freshness)))
            case None => StepAfter(d, Apply(a, authority, freshness)) == d
  {
    hide ApplicationAdmissible, Spec.CommitStateApplication, CandidateEffect, StateReceipt;
  }

  lemma ClosingNames(
    config: Configuration, a: GovernedApplication, authority: AuthorityCheck, freshness: FreshnessLookup,
    transition: Option<GovernedApplication>
  )
    ensures ApplyReviewDischarge(config, a, authority, freshness, transition).Some? ==>
      && a.reviewObligationId.Some?
      && a.id in ApplyReviewDischarge(config, a, authority, freshness, transition).value.applications
  {
    hide ClosureAdmissible, FreshForDischarge, Precondition, Linked, StateAnchor, ObligationsAnchor;
  }

  lemma CloseIssues(
    d: Spec.Durable, a: GovernedApplication, authority: AuthorityCheck, freshness: FreshnessLookup,
    transition: Option<GovernedApplication>
  )
    ensures match ApplyReviewDischarge(d.config, a, authority, freshness, transition)
            case Some(next) =>
              && a.reviewObligationId.Some? && a.id in next.applications
              && StepAfter(d, Close(a, authority, freshness, transition))
                   == Committed(d, Spec.CommitReviewDischarge(
                                     d, a.reviewObligationId.value, next.applications[a.id], Some(freshness)))
            case None => StepAfter(d, Close(a, authority, freshness, transition)) == d
  {
    hide Spec.CommitReviewDischarge, ApplyReviewDischarge;
    ClosingNames(d.config, a, authority, freshness, transition);
  }

  class RevalidationGovernanceLifecycle {
    const persistence: DistinctionGovernancePersistence
    const authority: AuthorityCheck
    const freshness: FreshnessLookup

    constructor (persistence: DistinctionGovernancePersistence, authority: AuthorityCheck, freshness: FreshnessLookup)
      ensures this.persistence == persistence && this.authority == authority && this.freshness == freshness
    {
      this.persistence := persistence;
      this.authority := authority;
      this.freshness := freshness;
    }

    /** Projects every assessment before anything is written. */
    method ProjectAssessments(eventRef: string, context: string, assessments: seq<Assessment>)
      returns (r: Result<Projected, Spec.GovernanceError>)
      ensures r == ProjectAll(persistence.Snapshot(), eventRef, context, assessments)
    {
      hide Project;
      var config := persistence.Snapshot();
      var ready, unavailable := [], false;
      for i := 0 to |assessments|
        invariant ProjectAll(config, eventRef, context, assessments[..i]) == Ok(Projected(ready, unavailable))
      {
        assert assessments[..i + 1][..i] == assessments[..i];
        var projection := Project(config, eventRef, context, assessments[i]);
        if projection.Err? {
          ProjectionStops(config, eventRef, context, assessments, i + 1);
          return Err(projection.error);
        }
        match projection.value
        case NotRequired =>
        case Unprojectable(blocking) =>
          if blocking {
            ProjectionStops(config, eventRef, context, assessments, i + 1);
            return Err(Spec.ProjectionUnavailable);
          }
          unavailable := true;
        case Ready(o) =>
          ready := ready + [o];
      }
      assert assessments[..|assessments|] == assessments;
      return Ok(Projected(ready, unavailable));
    }

    method ObserveChange(eventRef: string, context: string, assessments: seq<Assessment>)
      returns (r: Result<Observation, Spec.GovernanceError>)
      modifies persistence, persistence.store`journal
      ensures persistence.Abs() == StepAfter(old(persistence.Abs()), Observe(eventRef, context, assessments))
      ensures r.Err? ==> persistence.Abs() == old(persistence.Abs())
      ensures r.Ok? ==> eventRef != "" && Spec.ProcessedIds(old(persistence.store.journal), eventRef).Ok?
      ensures r.Ok? ==>
        match Spec.ProcessedIds(old(persistence.store.journal), eventRef).value
        case Some(ids) => r.value == Observation([], ids, false)
        case None =>
          && ProjectAll(old(persistence.Snapshot()), eventRef, context, assessments).Ok?
          && var p := ProjectAll(old(persistence.Snapshot()), eventRef, context, assessments).value;
          && r.value == Observation(if p.unavailable then [] else p.ready, [], p.unavailable)
          && (!p.unavailable ==>
                Spec.CommitEventObligations(old(persistence.Abs()), eventRef, p.ready)
                  == Ok((persistence.Abs(), Spec.IdsOf(p.ready))))
    {
      hide ProjectAll;
      if eventRef == "" {
        return Err(Spec.EmptyEventKey);
      }
      var processed := persistence.ProcessedEventObligationIds(eventRef);
      if processed.Err? {
        return Err(processed.error);
      }
      if processed.value.Some? {
        return Ok(Observation([], processed.value.value, false));
      }
      var projected := ProjectAssessments(eventRef, context, assessments);
      if projected.Err? {
        return Err(projected.error);
      }
      if projected.value.unavailable {
        return Ok(Observation([], [], true));
      }
      var committed := persistence.CommitEventObligations(eventRef, projected.value.ready);
      if committed.Err? {
        return Err(committed.error);
      }
      return Ok(Observation(projected.value.ready, [], false));
    }

    method RecordDecision(decision: GovernanceDecision) returns (outcome: Done)
      requires Indexed(persistence.Abs())
      modifies persistence, persistence.store`journal
      ensures match Distinction.RecordDecision(old(persistence.Snapshot()), decision, authority)
              case Some(next) => outcome.Pass? && persistence.Snapshot() == next
              case None => outcome == Fail(Spec.NotAdmissible) && persistence.Abs() == old(persistence.Abs())
      ensures persistence.Abs() == StepAfter(old(persistence.Abs()), Record(decision, authority))
    {
      hide Indexed, Distinction.RecordDecision, Spec.CommitDecision;
      var admitted := Distinction.RecordDecision(persistence.Snapshot(), decision, authority);
      if admitted.None? {
        return Fail(Spec.NotAdmissible);
      }
      RecordingRefines(persistence.Abs(), decision, authority);
      outcome := persistence.RecordDecision(decision);
    }

    method ApplyState(a: GovernedApplication) returns (r: Result<ApplicationReceipt, Spec.GovernanceError>)
      requires Indexed(persistence.Abs())
      modifies persistence, persistence.store`journal
      ensures match ApplyStateTransition(old(persistence.Snapshot()), a, authority, freshness)
              case Some(next) =>
                && persistence.Snapshot() == next
                && a.id in next.applications && r == Ok(next.applications[a.id])
              case None => r == Err(Spec.NotAdmissible) && persistence.Abs() == old(persistence.Abs())
      ensures persistence.Abs() == StepAfter(old(persistence.Abs()), Apply(a, authority, freshness))
    {
      hide Indexed, ApplyStateTransition, Spec.CommitStateApplication, StepAfter;
      ApplyIssues(persistence.Abs(), a, authority, freshness);
      var admitted := ApplyStateTransition(persistence.Snapshot(), a, authority, freshness);
      if admitted.None? {
        return Err(Spec.NotAdmissible);
      }
      ApplyingRefines(persistence.Abs(), a, authority, freshness);
      var receipt, next := admitted.value.applications[a.id], admitted.value.states[a.schemeId];
      var outcome := persistence.CommitStateApplication(a.schemeId, next, receipt, Some(freshness));
      return Ok(receipt);
    }

    method Discharge(a: GovernedApplication, transition: Option<GovernedApplication>)
      returns (r: Result<ApplicationReceipt, Spec.GovernanceError>)
      requires Indexed(persistence.Abs())
      modifies persistence, persistence.store`journal
      ensures match ApplyReviewDischarge(old(persistence.Snapshot()), a, authority, freshness, transition)
              case Some(next) =>
                && persistence.Snapshot() == next
                && a.id in next.applications && r == Ok(next.applications[a.id])
              case None => r == Err(Spec.NotAdmissible) && persistence.Abs() == old(persistence.Abs())
      ensures persistence.Abs() == StepAfter(old(persistence.Abs()), Close(a, authority, freshness, transition))
    {
      hide Indexed, ApplyReviewDischarge, Spec.CommitReviewDischarge, StepAfter;
      CloseIssues(persistence.Abs(), a, authority, freshness, transition);
      var admitted := ApplyReviewDischarge(persistence.Snapshot(), a, authority, freshness, transition);
      if admitted.None? {
        return Err(Spec.NotAdmissible);
      }
      DischargingRefines(persistence.Abs(), a, authority, freshness, transition);
      var receipt := admitted.value.applications[a.id];
      var outcome := persistence.CommitReviewDischarge(a.reviewObligationId.value, receipt, Some(freshness));
      return Ok(receipt);
    }
  }
}
