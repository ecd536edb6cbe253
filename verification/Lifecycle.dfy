/**
 The governance lifecycle: every step is admitted by the pure kernel on the
 current projection and then committed durably. The durable commit is proved to
 accept whatever the kernel admits and to arrive at the kernel's configuration.
 */
module Lifecycle {
  import opened Wrappers
  import opened Text
  import opened Distinction
  import opened Canonical
  import opened History
  import opened Durable
  import opened Coherence
  import opened Runs
  import opened Provenance

  // ------------------------------------------------------ durable refines pure

  /** Whatever the projection holds is filed under its own id. */
  lemma FiledUnderOwnId(d: Durable)
    requires Indexed(d)
    ensures forall id | id in d.config.obligations :: d.config.obligations[id].id == id
    ensures forall id | id in d.config.decisions :: d.config.decisions[id].id == id
  {
    hide StatesMatch, DischargesMatch, Reconstruct, StateAdmissibleFor;
    var h := FoldOf(d);
    forall id | id in d.config.obligations ensures d.config.obligations[id].id == id {
      assert Lookup(h, ReviewKey(id)) == Some(Opened(d.config.obligations[id]));
    }
    forall id | id in d.config.decisions ensures d.config.decisions[id].id == id {
      assert Lookup(h, DecisionKey(id)) == Some(Decided(d.config.decisions[id]));
    }
  }

  lemma RecordingRefines(d: Durable, decision: GovernanceDecision, authority: AuthorityCheck)
    requires Indexed(d) && RecordDecision(d.config, decision, authority).Some?
    ensures CommitDecision(d, decision).Ok?
    ensures CommitDecision(d, decision).value.config == RecordDecision(d.config, decision, authority).value
  {
    hide Indexed, ReviewInputMatches;
    SpentExactlyWhenKnown(d, DecisionKey(decision.id));
    KnownDecisions(d);
  }

  lemma KnownDecisions(d: Durable)
    requires Indexed(d)
    ensures FoldOf(d).decisions == d.config.decisions && FoldOf(d).applications == d.config.applications
  {
  }

  lemma LandsWhenFresh(d: Durable, config: Configuration, e: Event)
    requires !IdTaken(d.journal, e.id)
    ensures Land(d, config, e) == Ok(Durable(config, d.journal + [e]))
  {
  }

  lemma ApplyingRefines(d: Durable, a: GovernedApplication, authority: AuthorityCheck, freshness: FreshnessLookup)
    requires Indexed(d) && ApplyStateTransition(d.config, a, authority, freshness).Some?
    ensures var admitted := ApplyStateTransition(d.config, a, authority, freshness).value;
      var r := CommitStateApplication(d, a.schemeId, admitted.states[a.schemeId], admitted.applications[a.id], Some(freshness));
      r.Ok? && r.value.config == admitted
  {
    hide Indexed, StateAnchor, StateAdmissibleFor, Linked, EffectMatches, CandidateEffect, MatchesSnapshot;
    SpentExactlyWhenKnown(d, ApplicationKey(a.id));
    KnownDecisions(d);
    var current := d.config.states[a.schemeId];
    LandsWhenFresh(
      d,
      d.config.(states := d.config.states[a.schemeId := CandidateEffect(a, current)],
                applications := d.config.applications[a.id := StateReceipt(a, current)]),
      ApplicationCommittedEvent(StateReceipt(a, current), Some(CandidateEffect(a, current))));
    LinkedNames(a, d.config.decisions[a.decisionRef]);
  }

  lemma LinkedNames(a: GovernedApplication, decision: GovernanceDecision)
    ensures Linked(a, decision) ==> a.decisionRef == decision.id && a.schemeId == decision.target
  {
  }

  lemma DischargingRefines(
    d: Durable, a: GovernedApplication, authority: AuthorityCheck, freshness: FreshnessLookup,
    transition: Option<GovernedApplication>
  )
    requires Indexed(d) && ApplyReviewDischarge(d.config, a, authority, freshness, transition).Some?
    ensures a.reviewObligationId.Some? && a.reviewObligationId.value in d.config.obligations
    ensures var admitted := ApplyReviewDischarge(d.config, a, authority, freshness, transition).value;
      var r := CommitReviewDischarge(d, a.reviewObligationId.value, admitted.applications[a.id], Some(freshness));
      r.Ok? && r.value.config == admitted
  {
    hide Indexed, StateAnchor, StateAdmissibleFor, Linked, EffectMatches, MatchesSnapshot, ObligationsAnchor,
      RequiredTransitionRealized;
    SpentExactlyWhenKnown(d, ApplicationKey(a.id));
    KnownDecisions(d);
    FiledUnderOwnId(d);
    LinkedNames(a, d.config.decisions[a.decisionRef]);
    var id, r := a.reviewObligationId.value, DischargeReceipt(a, d.config);
    LandsWhenFresh(
      d,
      d.config.(obligations := d.config.obligations - {id}, applications := d.config.applications[a.id := r]),
      ApplicationCommittedEvent(r, None));
  }

  // ------------------------------------------------ opening the reviews of an event

  lemma {:induction false} BatchKeys(config: Configuration, os: seq<ReviewObligation>)
    requires ValidateBatch(config, os).Ok?
    ensures ValidateBatch(config, os).value == set o | o in os :: KeyOf(o)
  {
    if os != [] {
      var prefix, o := os[..|os| - 1], os[|os| - 1];
      BatchKeys(config, prefix);
      assert os == prefix + [o];
    }
  }

  /** Each open review was open before or is one of the batch. */
  ghost predicate OnlyAdds(config: Configuration, after: Configuration, os: seq<ReviewObligation>) {
    forall id | id in after.obligations ::
      after.obligations[id] in os || (id in config.obligations && config.obligations[id] == after.obligations[id])
  }

  lemma LastIsNew(config: Configuration, os: seq<ReviewObligation>)
    requires os != [] && ValidateBatch(config, os).Ok?
    ensures var prefix, o := os[..|os| - 1], os[|os| - 1];
      && ValidateBatch(config, prefix).Ok?
      && !KeyOpen(config.obligations, KeyOf(o))
      && o.id !in config.obligations
      && forall x | x in prefix :: KeyOf(x) != KeyOf(o)
  {
    BatchKeys(config, os[..|os| - 1]);
  }

  lemma OpensNext(config: Configuration, before: Configuration, prefix: seq<ReviewObligation>, o: ReviewObligation)
    requires OnlyAdds(config, before, prefix)
    requires !KeyOpen(config.obligations, KeyOf(o)) && forall x | x in prefix :: KeyOf(x) != KeyOf(o)
    ensures OpenObligation(before, o) == Some(WithObligation(before, o))
    ensures OnlyAdds(config, WithObligation(before, o), prefix + [o])
  {
    hide KeyOf;
  }

  lemma {:induction false} OpeningEachOnce(d: Durable, os: seq<ReviewObligation>)
    requires ValidateBatch(d.config, os).Ok? && OpenBatch(d, os).Ok?
    ensures OpenEach(d.config, os) == OpenBatch(d, os).value.config
    ensures OnlyAdds(d.config, OpenEach(d.config, os), os)
  {
    hide ValidateBatch, OnlyAdds, KeyOpen, KeyOf, OpenObligation, Append;
    if os == [] {
      AddsNothing(d.config);
    } else {
      var prefix, o := os[..|os| - 1], os[|os| - 1];
      assert os == prefix + [o];
      LastIsNew(d.config, os);
      OpeningEachOnce(d, prefix);
      OpensNext(d.config, OpenEach(d.config, prefix), prefix, o);
    }
  }

  lemma AddsNothing(config: Configuration)
    ensures OnlyAdds(config, config, [])
  {
  }

  /** A durable batch opens exactly the reviews the kernel would. */
  lemma EventOpeningRefines(d: Durable, eventRef: string, os: seq<ReviewObligation>, processed: set<string>)
    requires CommitEventObligations(d, eventRef, os).Ok? && ProcessedIds(d.journal, eventRef) == Ok(None)
    requires eventRef !in processed
    ensures CommitEventOpening(d.config, os, eventRef, processed)
         == Some((CommitEventObligations(d, eventRef, os).value.0.config, processed + {eventRef}))
  {
    EventObligationsFacts(d, eventRef, os);
    OpeningEachOnce(d, os);
  }

  // ---------------------------------------------------------- review projection

  const UNIT_SEPARATOR := '\U{1f}'

  datatype Assessment = Assessment(affectedRef: string, changeRef: string, action: string)

  datatype Projection = NotRequired | Unprojectable(blocking: bool) | Ready(obligation: ReviewObligation)

  predicate Reviewable(action: string) {
    action in {"background-revalidate", "block-next-use", "require-human-review", "reopen"}
  }

  predicate Blocking(action: string) {
    action in {"block-next-use", "require-human-review", "reopen"}
  }

  /** The digest of event, target and context, taken as the digested text. */
  function ObligationId(eventRef: string, target: string, context: string): string {
    "review_" + (eventRef + [UNIT_SEPARATOR] + (target + [UNIT_SEPARATOR] + context))
  }

  function ClosureRequirements(action: string): set<string> {
    {"basis_checked"}
    + (if action == "require-human-review" then {"human_reviewed"} else {})
    + (if action == "reopen" then {"reopen_resolved"} else {})
  }

  function Project(config: Configuration, eventRef: string, context: string, a: Assessment): Result<Projection, GovernanceError> {
    if a.changeRef == "" then Err(NotAdmissible)
    else if !Reviewable(a.action) then Ok(NotRequired)
    else if a.affectedRef !in config.states then Ok(Unprojectable(Blocking(a.action)))
    else
      Ok(Ready(ReviewObligation(
                 ObligationId(eventRef, a.affectedRef, context), a.affectedRef, eventRef, [a.changeRef], context,
                 Blocking(a.action),
                 if Blocking(a.action) then Some(BlockingCondition({context}, {}, {})) else None,
                 ClosureRequirements(a.action),
                 set id | id in config.decisions && config.decisions[id].target == a.affectedRef
                          && config.decisions[id].context == context :: config.decisions[id].id)))
  }

  /** The reviews to open and whether some projection was merely unavailable. */
  datatype Projected = Projected(ready: seq<ReviewObligation>, unavailable: bool)

  function ProjectAll(
    config: Configuration, eventRef: string, context: string, assessments: seq<Assessment>
  ): Result<Projected, GovernanceError> {
    if assessments == [] then Ok(Projected([], false))
    else
      var before :- ProjectAll(config, eventRef, context, assessments[..|assessments| - 1]);
      match Project(config, eventRef, context, assessments[|assessments| - 1])
      case Err(e) => Err(e)
      case Ok(NotRequired) => Ok(before)
      case Ok(Unprojectable(blocking)) => if blocking then Err(ProjectionUnavailable) else Ok(before.(unavailable := true))
      case Ok(Ready(o)) => Ok(before.(ready := before.ready + [o]))
  }

  // ------------------------------------------------------------- lifecycle steps

  datatype LifecycleStep =
    | Establish(schemeId: string, state: DistinctionState)
    | Observe(eventRef: string, context: string, assessments: seq<Assessment>)
    | Record(decision: GovernanceDecision, authority: AuthorityCheck)
    | Apply(application: GovernedApplication, authority: AuthorityCheck, freshness: FreshnessLookup)
    | Close(application: GovernedApplication, authority: AuthorityCheck, freshness: FreshnessLookup,
            transition: Option<GovernedApplication>)
    | Reindex
    | Elsewhere(event: Event)

  /** The durable commit the lifecycle issues, if the snapshot admits the step. */
  function Admitted(d: Durable, step: LifecycleStep): Option<Operation> {
    match step
    case Establish(k, s) => Some(Seed(k, s))
    case Observe(eventRef, context, assessments) =>
      (match ProjectAll(d.config, eventRef, context, assessments)
       case Ok(p) =>
         if eventRef == "" || ProcessedIds(d.journal, eventRef) != Ok(None) || p.unavailable then None
         else Some(OpenFor(eventRef, p.ready))
       case Err(_) => None)
    case Record(decision, authority) =>
      if RecordDecision(d.config, decision, authority).Some? then Some(Decide(decision)) else None
    case Apply(a, authority, freshness) =>
      (match ApplyStateTransition(d.config, a, authority, freshness)
       case Some(next) =>
         assert a.schemeId in next.states && a.id in next.applications;
         Some(ApplyState(a.schemeId, next.states[a.schemeId], next.applications[a.id], Some(freshness)))
       case None => None)
    case Close(a, authority, freshness, transition) =>
      (match ApplyReviewDischarge(d.config, a, authority, freshness, transition)
       case Some(next) =>
         assert a.reviewObligationId.Some? && a.id in next.applications;
         Some(Discharge(a.reviewObligationId.value, next.applications[a.id], Some(freshness)))
       case None => None)
    case Reindex => Some(RebuildAll)
    case Elsewhere(e) => Some(OtherEvent(e))
  }

  function StepAfter(d: Durable, step: LifecycleStep): Durable {
    match Admitted(d, step)
    case Some(op) => After(d, op)
    case None => d
  }

  function LifecycleRun(steps: seq<LifecycleStep>): Durable {
    if steps == [] then EMPTY else StepAfter(LifecycleRun(steps[..|steps| - 1]), steps[|steps| - 1])
  }

  /** Reviews are opened for events, and none is discharged under an empty id. */
  predicate ThroughEvents(op: Operation) {
    !op.OpenOne? && (op.Discharge? ==> op.obligationId != "")
  }

  predicate AllThroughEvents(ops: seq<Operation>) {
    forall i | 0 <= i < |ops| :: ThroughEvents(ops[i])
  }

  lemma AdmittedThroughEvents(d: Durable, step: LifecycleStep)
    ensures Admitted(d, step).Some? ==> ThroughEvents(Admitted(d, step).value)
  {
    hide ApplicationAdmissible, Linked, ClosureAdmissible, FreshForDischarge, DecisionAdmissible;
  }

  /** A lifecycle run is a run of such durable operations, so all that holds of those holds of it. */
  lemma {:induction false} LifecycleRunIsARun(steps: seq<LifecycleStep>) returns (ops: seq<Operation>)
    ensures Run(ops) == LifecycleRun(steps) && AllThroughEvents(ops)
  {
    hide Admitted, After;
    if steps == [] {
      ops := [];
    } else {
      var d, step := LifecycleRun(steps[..|steps| - 1]), steps[|steps| - 1];
      ops := LifecycleRunIsARun(steps[..|steps| - 1]);
      AdmittedThroughEvents(d, step);
      if Admitted(d, step).Some? {
        var longer := ops + [Admitted(d, step).value];
        assert longer[..|ops|] == ops;
        ops := longer;
      }
    }
  }
}
