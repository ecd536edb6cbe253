/**
 The authoritative state store: an append-only event journal, the execution
 records beside it, and the gates through which alone certain kinds of event,
 among them a dispatch that names a provider binding, can enter the journal.
 */
module Stores {
  import opened Wrappers
  import opened ExecutionIdentity
  import opened Canonical
  import opened Durable

  datatype ExecutionStatus = Running | Succeeded | Failed | Cancelled | Unknown

  /** What a dispatch commitment writes into the attempt it was made for. */
  datatype DispatchMarks = DispatchMarks(
    commitRef: Option<DispatchIdentity>,
    requirement: Option<RequirementDigest>,
    snapshot: Option<SnapshotDigest>,
    permitDigest: Option<string>,
    bindingRef: Option<BindingDigest>,
    authorityRef: Option<AuthorityDigest>)

  const NO_MARKS := DispatchMarks(None, None, None, None, None, None)

  datatype Attempt = Attempt(stepId: string, status: ExecutionStatus, marks: DispatchMarks)

  /** Any dispatch event that so much as mentions a binding. */
  predicate CarriesBinding(e: Event) {
    e.body.DispatchCommitted? && (e.body.dispatch.bindingRef.Some? || e.body.dispatch.binding.Some?)
  }

  /** The kinds of event that only a commit of their own may append. */
  datatype Gate =
    | OutcomeImpactGate
    | RecoveryObservationGate
    | RecoveryDispositionGate
    | RecoveryApplicationGate
    | HistoricalUseGate
    | BindingGate

  function GateFor(e: Event): Option<Gate> {
    if CarriesBinding(e) then Some(BindingGate)
    else if !e.body.Unrelated? then None
    else if e.body.kind in {"OutcomeImpactJudgmentRecorded", "OutcomeRevalidationDispositionRecorded"} then Some(OutcomeImpactGate)
    else if e.body.kind == "RecoveryObservationRecorded" then Some(RecoveryObservationGate)
    else if e.body.kind == "RecoveryDispositionRecorded" then Some(RecoveryDispositionGate)
    else if e.body.kind == "RecoveryApplicationRecorded" then Some(RecoveryApplicationGate)
    else if e.body.kind == "HistoricalExperienceUseRecorded" then Some(HistoricalUseGate)
    else None
  }

  class StateStore {
    var journal: Journal
    var steps: map<string, ExecutionStatus>
    var attempts: map<string, Attempt>
    var actions: map<string, ExecutionStatus>
    var outcomeImpactGate: int
    var recoveryObservationGate: int
    var recoveryDispositionGate: int
    var recoveryApplicationGate: int
    var historicalUseGate: int
    var bindingGate: int

    constructor ()
      ensures journal == [] && steps == map[] && attempts == map[] && actions == map[]
      ensures forall gate :: Depth(gate) == 0
    {
      journal := [];
      steps, attempts, actions := map[], map[], map[];
      outcomeImpactGate, recoveryObservationGate, recoveryDispositionGate, recoveryApplicationGate := 0, 0, 0, 0;
      historicalUseGate, bindingGate := 0, 0;
    }

    /** How many commits currently hold the gate open. */
    function Depth(gate: Gate): int
      reads this
    {
      match gate
      case OutcomeImpactGate => outcomeImpactGate
      case RecoveryObservationGate => recoveryObservationGate
      case RecoveryDispositionGate => recoveryDispositionGate
      case RecoveryApplicationGate => recoveryApplicationGate
      case HistoricalUseGate => historicalUseGate
      case BindingGate => bindingGate
    }

    /** Shut to this event unless a commit of its kind holds its gate open. */
    predicate Shut(e: Event)
      reads this
    {
      GateFor(e).Some? && Depth(GateFor(e).value) <= 0
    }

    /** Which events are shut out while which gate is down; a dispatch is if it so much as mentions a binding. */
    lemma ShutExactly(e: Event)
      ensures Shut(e) <==>
        match e.body {
          case DispatchCommitted(p) => (p.bindingRef.Some? || p.binding.Some?) && bindingGate <= 0
          case Unrelated(kind, _) =>
            || ((kind == "OutcomeImpactJudgmentRecorded" || kind == "OutcomeRevalidationDispositionRecorded") && outcomeImpactGate <= 0)
            || (kind == "RecoveryObservationRecorded" && recoveryObservationGate <= 0)
            || (kind == "RecoveryDispositionRecorded" && recoveryDispositionGate <= 0)
            || (kind == "RecoveryApplicationRecorded" && recoveryApplicationGate <= 0)
            || (kind == "HistoricalExperienceUseRecorded" && historicalUseGate <= 0)
          case _ => false
        }
    {
    }

    method AppendEvent(e: Event) returns (refused: bool)
      modifies this`journal
      ensures refused <==> old(Shut(e)) || Append(old(journal), e).Err?
      ensures journal == if refused then old(journal) else Append(old(journal), e).value
    {
      if Shut(e) {
        return true;
      }
      var existing := Find(journal, e.id);
      FindMeans(journal, e.id);
      refused := false;
      match existing
      case Some(found) =>
        refused := found != e && e !in journal;
      case None =>
        journal := journal + [e];
    }

    function GetEvent(id: EventId): Option<Event>
      reads this
    {
      Find(journal, id)
    }
  }
}
