/**
 Canonical governance history: the portable payload of each entity, the
 journal events that carry them, and the codecs between the two.
 */
module Canonical {
  import opened Wrappers
  import opened Text
  import opened Distinction
  import opened ExecutionIdentity

  const HISTORY_SCHEMA := "distinction-governance-history-v1"
  const CONTRACT_VERSION := "distinction-governance-1.0"

  // ---------------------------------------------------------------- payloads

  datatype StatePayload = StatePayload(
    schemeId: string,
    qualification: string,
    activation: string,
    scope: seq<string>,
    partition: seq<seq<string>>,
    version: int)

  datatype ConditionPayload = ConditionPayload(
    contextNames: seq<string>,
    scopeAny: seq<string>,
    scopeAll: seq<string>)

  datatype ObligationPayload = ObligationPayload(
    id: string,
    target: string,
    triggerRef: string,
    basisRefs: seq<string>,
    context: string,
    blocking: bool,
    blockingCondition: Option<ConditionPayload>,
    closureRequirements: seq<string>,
    invalidatesDecisions: seq<string>)

  datatype DecisionPayload = DecisionPayload(
    id: string,
    actor: string,
    operation: string,
    target: string,
    context: string,
    reviewRefs: seq<string>,
    disposition: string,
    expectedStateAnchor: string,
    basisAnchors: seq<seq<string>>,
    scopeSnapshot: seq<string>,
    partitionSnapshot: seq<seq<string>>,
    closureFacts: seq<string>,
    requiredQualification: Option<string>,
    requiredActivation: Option<string>,
    superseded: bool)

  datatype ReceiptPayload = ReceiptPayload(
    application: GovernedApplication,
    effectKind: string,
    preAnchor: string,
    postAnchor: string)

  datatype HistoryError =
    | UnsupportedVersion
    | InadmissibleState
    | MalformedPayload
    | ObligationRebound
    | DecisionRebound
    | ApplicationRebound
    | ProcessedRebound

  function EncodeState(schemeId: string, s: DistinctionState): StatePayload {
    StatePayload(schemeId, s.qualification, s.activation, Sorted(s.scope), SortedCells(s.partition), s.version)
  }

  function RestoreState(p: StatePayload): (r: Result<(string, DistinctionState), HistoryError>)
    ensures r.Ok? ==> r.value.0 == p.schemeId && StateAdmissibleFor(r.value.0, r.value.1)
  {
    var s := DistinctionState(p.qualification, p.activation, Elements(p.scope), CellSets(p.partition), p.version);
    if StateAdmissibleFor(p.schemeId, s) then Ok((p.schemeId, s)) else Err(InadmissibleState)
  }

  /** A state survives its payload exactly when it may be stored at all. */
  lemma StateRoundTrip(schemeId: string, s: DistinctionState)
    ensures RestoreState(EncodeState(schemeId, s))
         == if StateAdmissibleFor(schemeId, s) then Ok((schemeId, s)) else Err(InadmissibleState)
  {
    ElementsOfSorted(s.scope);
    CellsRoundTrip(s.partition);
  }

  function EncodeCondition(c: Option<BlockingCondition>): Option<ConditionPayload> {
    match c
    case None => None
    case Some(b) => Some(ConditionPayload(Sorted(b.contextNames), Sorted(b.scopeAny), Sorted(b.scopeAll)))
  }

  function RestoreCondition(p: Option<ConditionPayload>): Option<BlockingCondition> {
    match p
    case None => None
    case Some(c) => Some(BlockingCondition(Elements(c.contextNames), Elements(c.scopeAny), Elements(c.scopeAll)))
  }

  function EncodeObligation(o: ReviewObligation): ObligationPayload {
    ObligationPayload(o.id, o.target, o.triggerRef, o.basisRefs, o.context, o.blocking,
                      EncodeCondition(o.blockingCondition),
                      Sorted(o.closureRequirements), Sorted(o.invalidatesDecisions))
  }

  function RestoreObligation(p: ObligationPayload): ReviewObligation {
    ReviewObligation(p.id, p.target, p.triggerRef, p.basisRefs, p.context, p.blocking,
                     RestoreCondition(p.blockingCondition),
                     Elements(p.closureRequirements), Elements(p.invalidatesDecisions))
  }

  lemma ObligationRoundTrip(o: ReviewObligation)
    ensures RestoreObligation(EncodeObligation(o)) == o
  {
    ElementsOfSorted(o.closureRequirements);
    ElementsOfSorted(o.invalidatesDecisions);
    if o.blockingCondition.Some? {
      var b := o.blockingCondition.value;
      ElementsOfSorted(b.contextNames);
      ElementsOfSorted(b.scopeAny);
      ElementsOfSorted(b.scopeAll);
    }
  }

  function EncodePairs(pairs: seq<(string, string)>): (q: seq<seq<string>>)
    ensures |q| == |pairs|
  {
    seq(|pairs|, i requires 0 <= i < |pairs| => [pairs[i].0, pairs[i].1])
  }

  /** Reading item[0] and item[1] of a shorter item is an error. */
  function RestorePairs(q: seq<seq<string>>): Result<seq<(string, string)>, HistoryError> {
    if forall i | 0 <= i < |q| :: |q[i]| >= 2 then
      Ok(seq(|q|, i requires 0 <= i < |q| => (q[i][0], q[i][1])))
    else Err(MalformedPayload)
  }

  function EncodeDecision(d: GovernanceDecision): DecisionPayload {
    DecisionPayload(d.id, d.actor, d.operation, d.target, d.context, d.reviewRefs, d.disposition,
                    d.expectedStateAnchor, EncodePairs(d.basisAnchors), Sorted(d.scopeSnapshot),
                    SortedCells(d.partitionSnapshot), Sorted(d.closureFacts),
                    d.requiredQualification, d.requiredActivation, d.superseded)
  }

  function RestoreDecision(p: DecisionPayload): Result<GovernanceDecision, HistoryError> {
    var anchors :- RestorePairs(p.basisAnchors);
    Ok(GovernanceDecision(p.id, p.actor, p.operation, p.target, p.context, p.reviewRefs, p.disposition,
                          p.expectedStateAnchor, anchors, Elements(p.scopeSnapshot),
                          CellSets(p.partitionSnapshot), Elements(p.closureFacts),
                          p.requiredQualification, p.requiredActivation, p.superseded))
  }

  lemma DecisionRoundTrip(d: GovernanceDecision)
    ensures RestoreDecision(EncodeDecision(d)) == Ok(d)
  {
    ElementsOfSorted(d.scopeSnapshot);
    ElementsOfSorted(d.closureFacts);
    CellsRoundTrip(d.partitionSnapshot);
    assert RestorePairs(EncodePairs(d.basisAnchors)).value == d.basisAnchors;
  }

  function EncodeReceipt(r: ApplicationReceipt): ReceiptPayload {
    ReceiptPayload(r.application, r.effectKind, r.preAnchor, r.postAnchor)
  }

  function RestoreReceipt(p: ReceiptPayload): ApplicationReceipt {
    ApplicationReceipt(p.application, p.effectKind, p.preAnchor, p.postAnchor)
  }

  // ------------------------------------------------------------------ events

  datatype EventId =
    | GovernanceId(prefix: string, identity: string)
    | DispatchId(dispatch: DispatchIdentity)
    | OpaqueId(name: string)

  datatype Body =
    | StateSeeded(state: StatePayload)
    | ReviewOpened(obligation: ObligationPayload)
    | DecisionEntered(decision: DecisionPayload)
    | ApplicationCommitted(receipt: ReceiptPayload, nextState: Option<StatePayload>)
    | EventProcessed(eventKey: string, obligationIds: seq<string>)
    | DispatchCommitted(dispatch: DispatchPayload)
    | Unrelated(kind: string, text: string)

  datatype Event = Event(id: EventId, subject: string, schema: string, contract: string, body: Body)

  predicate IsGovernance(e: Event) {
    !e.body.DispatchCommitted? && !e.body.Unrelated?
  }

  function HistoryEvent(id: EventId, subject: string, body: Body): Event {
    Event(id, subject, HISTORY_SCHEMA, CONTRACT_VERSION, body)
  }

  function StateSeedEvent(schemeId: string, s: DistinctionState): Event {
    HistoryEvent(GovernanceId("state", schemeId), schemeId, StateSeeded(EncodeState(schemeId, s)))
  }

  function ReviewOpenedEvent(o: ReviewObligation): Event {
    HistoryEvent(GovernanceId("review", o.id), o.target, ReviewOpened(EncodeObligation(o)))
  }

  function DecisionRecordedEvent(d: GovernanceDecision): Event {
    HistoryEvent(GovernanceId("decision", d.id), d.target, DecisionEntered(EncodeDecision(d)))
  }

  function ApplicationCommittedEvent(r: ApplicationReceipt, next: Option<DistinctionState>): Event {
    HistoryEvent(
      GovernanceId("application", r.application.id), r.application.schemeId,
      ApplicationCommitted(
        EncodeReceipt(r),
        if next.Some? then Some(EncodeState(r.application.schemeId, next.value)) else None))
  }

  function ProcessedEvent(eventRef: string, ids: seq<string>): Event {
    HistoryEvent(GovernanceId("processed", eventRef), eventRef, EventProcessed(eventRef, ids))
  }

  // ----------------------------------------------------------------- journal

  type Journal = seq<Event>

  datatype AppendError = JournalOverwrite

  /** Append-only: an identical event is absorbed, a different one under a taken id is refused. */
  function Append(journal: Journal, e: Event): Result<Journal, AppendError> {
    if exists x | x in journal :: x.id == e.id then
      if e in journal then Ok(journal) else Err(JournalOverwrite)
    else Ok(journal + [e])
  }

  lemma AppendAdds(j: Journal, e: Event)
    requires Append(j, e).Ok?
    ensures Append(j, e).value == if e in j then j else j + [e]
    ensures j <= Append(j, e).value && e in Append(j, e).value
    ensures forall x | x in Append(j, e).value :: x in j || x == e
  {
  }

  ghost predicate DistinctIds(journal: Journal) {
    forall i, j | 0 <= i < j < |journal| :: journal[i].id != journal[j].id
  }

  lemma AppendKeepsIdsDistinct(journal: Journal, e: Event)
    requires DistinctIds(journal)
    ensures Append(journal, e).Ok? ==> DistinctIds(Append(journal, e).value)
    ensures Append(journal, e).Ok? ==> e in Append(journal, e).value
  {
  }
}
