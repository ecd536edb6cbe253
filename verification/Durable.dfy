/**
 What each durable governance operation does to the materialized projection and
 the journal, as a function of both. A refused operation has no successor.
 */
module Durable {
  import opened Wrappers
  import opened Text
  import opened Distinction
  import opened Canonical
  import opened History

  /** The sidecar projection next to the append-only journal it indexes. */
  datatype Durable = Durable(config: Configuration, journal: Journal)

  const EMPTY := Durable(EMPTY_CONFIGURATION, [])

  datatype GovernanceError =
    | InadmissibleSeed
    | StateExists
    | ObligationTaken
    | EquivalentReviewOpen
    | EmptyEventKey
    | TriggerMismatch
    | MarkerInconsistent
    | DuplicateResponsibility
    | AlreadyMaterialized
    | DecisionTaken
    | UnknownTarget
    | ReviewInputMismatch
    | ApplicationTaken
    | UnknownState
    | UnknownDecision
    | UnknownObligation
    | BasisChanged
    | LinkageInvalid
    | PreAnchorMismatch
    | DecisionBasisMismatch
    | NotCandidateEffect
    | InvariantViolated
    | PostAnchorMismatch
    | JournalRefused
    | HistoryUnusable
    | NotAdmissible
    | ProjectionUnavailable

  type Successor = Result<Durable, GovernanceError>

  /** Projection and event land together or not at all. */
  function Land(d: Durable, config: Configuration, e: Event): Successor {
    match Append(d.journal, e)
    case Ok(journal) => Ok(Durable(config, journal))
    case Err(_) => Err(JournalRefused)
  }

  function SeedState(d: Durable, schemeId: string, s: DistinctionState): Successor {
    if !StateAdmissibleFor(schemeId, s) then Err(InadmissibleSeed)
    else if schemeId in d.config.states then
      if d.config.states[schemeId] == s then Ok(d) else Err(StateExists)
    else Land(d, d.config.(states := d.config.states[schemeId := s]), StateSeedEvent(schemeId, s))
  }

  /** Ok(true): may be opened; Ok(false): the very same review is open already. */
  function ValidateObligation(config: Configuration, o: ReviewObligation): Result<bool, GovernanceError> {
    if o.id in config.obligations then
      if config.obligations[o.id] == o then Ok(false) else Err(ObligationTaken)
    else if KeyOpen(config.obligations, KeyOf(o)) then Err(EquivalentReviewOpen)
    else Ok(true)
  }

  function WithObligation(config: Configuration, o: ReviewObligation): Configuration {
    config.(obligations := config.obligations[o.id := o])
  }

  function OpenReview(d: Durable, o: ReviewObligation): Successor {
    match ValidateObligation(d.config, o)
    case Err(e) => Err(e)
    case Ok(false) => Ok(d)
    case Ok(true) => Land(d, WithObligation(d.config, o), ReviewOpenedEvent(o))
  }

  function Find(journal: Journal, id: EventId): Option<Event> {
    if journal == [] then None
    else if journal[|journal| - 1].id == id then Some(journal[|journal| - 1])
    else Find(journal[..|journal| - 1], id)
  }

  lemma {:induction false} FindMeans(journal: Journal, id: EventId)
    ensures Find(journal, id).Some? <==> exists x | x in journal :: x.id == id
    ensures Find(journal, id).Some? ==> Find(journal, id).value in journal && Find(journal, id).value.id == id
  {
    if journal != [] {
      var prefix := journal[..|journal| - 1];
      FindMeans(prefix, id);
      assert journal == prefix + [journal[|journal| - 1]];
    }
  }

  /** The reviews one processed event opened, if the journal marks it processed. */
  function ProcessedIds(journal: Journal, eventRef: string): Result<Option<seq<string>>, GovernanceError> {
    match Find(journal, GovernanceId("processed", eventRef))
    case None => Ok(None)
    case Some(e) =>
      if !e.body.EventProcessed? then Ok(None)
      else if e.body.eventKey != eventRef then Err(MarkerInconsistent)
      else Ok(Some(e.body.obligationIds))
  }

  function ValidateBatch(config: Configuration, os: seq<ReviewObligation>): Result<set<ObligationKey>, GovernanceError> {
    if os == [] then Ok({})
    else
      var keys :- ValidateBatch(config, os[..|os| - 1]);
      var o := os[|os| - 1];
      if KeyOf(o) in keys then Err(DuplicateResponsibility)
      else
        match ValidateObligation(config, o)
        case Err(e) => Err(e)
        case Ok(isNew) => if isNew then Ok(keys + {KeyOf(o)}) else Err(AlreadyMaterialized)
  }

  lemma {:induction false} ValidationStops(config: Configuration, os: seq<ReviewObligation>, n: nat)
    requires n <= |os| && ValidateBatch(config, os[..n]).Err?
    ensures ValidateBatch(config, os) == ValidateBatch(config, os[..n])
    decreases |os|
  {
    if n == |os| {
      assert os[..n] == os;
    } else {
      assert os[..|os| - 1][..n] == os[..n];
      ValidationStops(config, os[..|os| - 1], n);
    }
  }

  function OpenBatch(d: Durable, os: seq<ReviewObligation>): Successor {
    if os == [] then Ok(d)
    else
      var before :- OpenBatch(d, os[..|os| - 1]);
      var o := os[|os| - 1];
      Land(before, WithObligation(before.config, o), ReviewOpenedEvent(o))
  }

  lemma {:induction false} OpeningStops(d: Durable, os: seq<ReviewObligation>, n: nat)
    requires n <= |os| && OpenBatch(d, os[..n]).Err?
    ensures OpenBatch(d, os) == OpenBatch(d, os[..n])
    decreases |os|
  {
    if n == |os| {
      assert os[..n] == os;
    } else {
      assert os[..|os| - 1][..n] == os[..n];
      OpeningStops(d, os[..|os| - 1], n);
    }
  }

  function IdsOf(os: seq<ReviewObligation>): seq<string> {
    seq(|os|, i requires 0 <= i < |os| => os[i].id)
  }

  function CommitEventObligations(
    d: Durable, eventRef: string, os: seq<ReviewObligation>
  ): Result<(Durable, seq<string>), GovernanceError> {
    if eventRef == "" then Err(EmptyEventKey)
    else if exists o | o in os :: o.triggerRef != eventRef then Err(TriggerMismatch)
    else
      var existing :- ProcessedIds(d.journal, eventRef);
      if existing.Some? then Ok((d, existing.value))
      else
        var _ :- ValidateBatch(d.config, os);
        var openedAll :- OpenBatch(d, os);
        var marked :- Land(openedAll, openedAll.config, ProcessedEvent(eventRef, IdsOf(os)));
        Ok((marked, IdsOf(os)))
  }

  function CommitDecision(d: Durable, decision: GovernanceDecision): Successor {
    if decision.id in d.config.decisions then
      if d.config.decisions[decision.id] == decision then Ok(d) else Err(DecisionTaken)
    else if decision.target !in d.config.states then Err(UnknownTarget)
    else if !ReviewInputMatches(decision, d.config) then Err(ReviewInputMismatch)
    else
      Land(d, d.config.(decisions := d.config.decisions[decision.id := decision]), DecisionRecordedEvent(decision))
  }

  predicate StillFresh(decision: GovernanceDecision, freshness: Option<FreshnessLookup>) {
    freshness.Some? ==> BasisUnchanged(decision, freshness.value)
  }

  function CommitStateApplication(
    d: Durable, schemeId: string, next: DistinctionState, receipt: ApplicationReceipt,
    freshness: Option<FreshnessLookup>
  ): Successor {
    var a := receipt.application;
    :- Need(a.id !in d.config.applications, ApplicationTaken);
    :- Need(schemeId in d.config.states, UnknownState);
    :- Need(a.decisionRef in d.config.decisions, UnknownDecision);
    var current, decision := d.config.states[schemeId], d.config.decisions[a.decisionRef];
    :- Need(StillFresh(decision, freshness), BasisChanged);
    :- Need(receipt.effectKind == "state" && a.schemeId == schemeId && a.target == schemeId
            && decision.target == schemeId && Linked(a, decision), LinkageInvalid);
    :- Need(receipt.preAnchor == StateAnchor(current), PreAnchorMismatch);
    :- Need(receipt.preAnchor == decision.expectedStateAnchor, DecisionBasisMismatch);
    :- Need(CandidateEffect(a, current) == next, NotCandidateEffect);
    :- Need(StateAdmissibleFor(schemeId, next) && EffectMatches(decision, next), InvariantViolated);
    :- Need(receipt.postAnchor == StateAnchor(next), PostAnchorMismatch);
    Land(d, d.config.(states := d.config.states[schemeId := next],
                      applications := d.config.applications[a.id := receipt]),
         ApplicationCommittedEvent(receipt, Some(next)))
  }

  function CommitReviewDischarge(
    d: Durable, obligationId: string, receipt: ApplicationReceipt, freshness: Option<FreshnessLookup>
  ): Successor {
    var a := receipt.application;
    :- Need(a.id !in d.config.applications, ApplicationTaken);
    :- Need(obligationId in d.config.obligations, UnknownObligation);
    :- Need(a.decisionRef in d.config.decisions, UnknownDecision);
    var obligation, decision := d.config.obligations[obligationId], d.config.decisions[a.decisionRef];
    :- Need(StillFresh(decision, freshness), BasisChanged);
    :- Need(receipt.effectKind == "review_discharge"
            && a.operation == APPLY_REVIEW_DISCHARGE
            && a.reviewObligationId == Some(obligationId)
            && a.target == "review_obligation:" + obligationId
            && a.schemeId == decision.target
            && obligationId in decision.reviewRefs
            && obligation.target == decision.target
            && obligation.context == decision.context
            && Linked(a, decision), LinkageInvalid);
    var remaining := d.config.obligations - {obligationId};
    :- Need(receipt.preAnchor == ObligationsAnchor(d.config.obligations), PreAnchorMismatch);
    :- Need(receipt.postAnchor == ObligationsAnchor(remaining), PostAnchorMismatch);
    Land(d, d.config.(obligations := remaining, applications := d.config.applications[a.id := receipt]),
         ApplicationCommittedEvent(receipt, None))
  }

  function Rebuild(d: Durable): Successor {
    match Reconstruct(d.journal)
    case Ok(history) => Ok(d.(config := history.configuration))
    case Err(_) => Err(HistoryUnusable)
  }
}
