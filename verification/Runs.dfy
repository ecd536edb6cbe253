/**
 Arbitrary runs of the durable operations from an empty store, in any order and
 with any arguments. Refused operations leave the state as it was.
 */
module Runs {
  import opened Wrappers
  import opened Distinction
  import opened Canonical
  import opened History
  import opened Durable
  import opened Coherence

  datatype Operation =
    | Seed(schemeId: string, state: DistinctionState)
    | OpenOne(obligation: ReviewObligation)
    | OpenFor(eventRef: string, obligations: seq<ReviewObligation>)
    | Decide(decision: GovernanceDecision)
    | ApplyState(schemeId: string, next: DistinctionState, receipt: ApplicationReceipt, freshness: Option<FreshnessLookup>)
    | Discharge(obligationId: string, receipt: ApplicationReceipt, freshness: Option<FreshnessLookup>)
    | RebuildAll
    | OtherEvent(event: Event)

  /** Anything else the runtime writes to the same journal: not governance, under an id of its own kind. */
  function RecordOther(d: Durable, e: Event): Successor {
    if IsGovernance(e) || !Minted(e) then Err(NotAdmissible) else Land(d, d.config, e)
  }

  function Perform(d: Durable, op: Operation): Successor {
    match op
    case Seed(schemeId, s) => SeedState(d, schemeId, s)
    case OpenOne(o) => OpenReview(d, o)
    case OpenFor(eventRef, os) =>
      (match CommitEventObligations(d, eventRef, os)
       case Ok(done) => Ok(done.0)
       case Err(e) => Err(e))
    case Decide(decision) => CommitDecision(d, decision)
    case ApplyState(schemeId, next, r, freshness) => CommitStateApplication(d, schemeId, next, r, freshness)
    case Discharge(id, r, freshness) => CommitReviewDischarge(d, id, r, freshness)
    case RebuildAll => Rebuild(d)
    case OtherEvent(e) => RecordOther(d, e)
  }

  function After(d: Durable, op: Operation): Durable {
    match Perform(d, op)
    case Ok(next) => next
    case Err(_) => d
  }

  function Run(ops: seq<Operation>): Durable {
    if ops == [] then EMPTY else After(Run(ops[..|ops| - 1]), ops[|ops| - 1])
  }

  lemma OtherEventIndexed(d: Durable, e: Event)
    requires Indexed(d) && RecordOther(d, e).Ok?
    ensures Indexed(RecordOther(d, e).value)
    ensures Coherent(d) ==> Coherent(RecordOther(d, e).value)
  {
    CoherentMeans(d);
    if !IdTaken(d.journal, e.id) {
      LandsIndexed(d, d.config, e, FoldOf(d));
    }
  }

  lemma StepIndexed(d: Durable, op: Operation)
    requires Indexed(d)
    ensures Indexed(After(d, op))
  {
    hide Indexed, Coherent, SeedState, OpenReview, CommitEventObligations, CommitDecision,
      CommitStateApplication, CommitReviewDischarge, Rebuild, RecordOther;
    if Perform(d, op).Ok? {
      match op
      case Seed(schemeId, s) => SeedIndexed(d, schemeId, s);
      case OpenOne(o) => OpenReviewIndexed(d, o);
      case OpenFor(eventRef, os) => EventObligationsIndexed(d, eventRef, os);
      case Decide(decision) => DecisionIndexed(d, decision);
      case ApplyState(schemeId, next, r, freshness) => StateApplicationIndexed(d, schemeId, next, r, freshness);
      case Discharge(id, r, freshness) => DischargeIndexed(d, id, r, freshness);
      case RebuildAll =>
        RebuildRestoresCoherence(d);
        CoherentMeans(Rebuild(d).value);
      case OtherEvent(e) => OtherEventIndexed(d, e);
    }
  }

  /** On every run, the projection's states, decisions and receipts are those of the journal. */
  lemma {:induction false} EveryRunIsIndexed(ops: seq<Operation>)
    ensures Indexed(Run(ops))
  {
    if ops == [] {
      EmptyIsCoherent();
      CoherentMeans(EMPTY);
    } else {
      EveryRunIsIndexed(ops[..|ops| - 1]);
      StepIndexed(Run(ops[..|ops| - 1]), ops[|ops| - 1]);
    }
  }

  /** The only steps that part projection and journal: reopening a discharged id, discharging an empty one. */
  ghost predicate Strays(d: Durable, op: Operation) {
    match op
    case OpenOne(o) => o.id in DischargedIds(d.journal)
    case OpenFor(eventRef, os) =>
      ProcessedIds(d.journal, eventRef) == Ok(None) && exists o | o in os :: o.id in DischargedIds(d.journal)
    case Discharge(id, _, _) => id == ""
    case _ => false
  }

  lemma StepCoherentExactly(d: Durable, op: Operation)
    requires Coherent(d) && Perform(d, op).Ok?
    ensures Coherent(After(d, op)) <==> !Strays(d, op)
  {
    CoherentMeans(d);
    hide Indexed, Coherent, DischargedIds, SeedState, OpenReview, CommitDecision,
      CommitStateApplication, CommitReviewDischarge, RecordOther;
    match op
    case Seed(schemeId, s) => SeedIndexed(d, schemeId, s);
    case OpenOne(o) => OpenReviewCoherentExactly(d, o);
    case OpenFor(eventRef, os) =>
      if ProcessedIds(d.journal, eventRef) == Ok(None) {
        EventObligationsCoherentExactly(d, eventRef, os);
      }
    case Decide(decision) => DecisionIndexed(d, decision);
    case ApplyState(schemeId, next, r, freshness) => StateApplicationIndexed(d, schemeId, next, r, freshness);
    case Discharge(id, r, freshness) => DischargeCoherentExactly(d, id, r, freshness);
    case RebuildAll => RebuildIsIdentity(d);
    case OtherEvent(e) => OtherEventIndexed(d, e);
  }

  ghost predicate AlwaysCoherent(ops: seq<Operation>) {
    forall n | 0 <= n <= |ops| :: Coherent(Run(ops[..n]))
  }

  ghost predicate NeverStrays(ops: seq<Operation>) {
    forall n | 0 <= n < |ops| :: Perform(Run(ops[..n]), ops[n]).Ok? ==> !Strays(Run(ops[..n]), ops[n])
  }

  lemma OneMore(ops: seq<Operation>, n: nat)
    requires n < |ops|
    ensures Run(ops[..n + 1]) == After(Run(ops[..n]), ops[n])
  {
    assert ops[..n + 1][..n] == ops[..n];
  }

  lemma {:induction false} CoherentSoFar(ops: seq<Operation>, n: nat)
    requires NeverStrays(ops) && n <= |ops|
    ensures Coherent(Run(ops[..n]))
  {
    if n == 0 {
      EmptyIsCoherent();
    } else {
      CoherentSoFar(ops, n - 1);
      OneMore(ops, n - 1);
      if Perform(Run(ops[..n - 1]), ops[n - 1]).Ok? {
        StepCoherentExactly(Run(ops[..n - 1]), ops[n - 1]);
      }
    }
  }

  /** A run keeps projection and journal equal throughout exactly when none of its steps strays. */
  lemma CoherentThroughoutExactly(ops: seq<Operation>)
    ensures AlwaysCoherent(ops) <==> NeverStrays(ops)
  {
    if NeverStrays(ops) {
      forall n | 0 <= n <= |ops| ensures Coherent(Run(ops[..n])) {
        CoherentSoFar(ops, n);
      }
    }
    if AlwaysCoherent(ops) {
      forall n | 0 <= n < |ops| && Perform(Run(ops[..n]), ops[n]).Ok? ensures !Strays(Run(ops[..n]), ops[n]) {
        OneMore(ops, n);
        assert Coherent(Run(ops[..n])) && Coherent(Run(ops[..n + 1]));
        StepCoherentExactly(Run(ops[..n]), ops[n]);
      }
    }
  }

  // ------------------------------------------------------- what a step writes

  predicate Writes(op: Operation, e: Event) {
    match op
    case Seed(_, _) => e.body.StateSeeded?
    case OpenOne(_) => e.body.ReviewOpened?
    case OpenFor(_, _) => e.body.ReviewOpened? || e.body.EventProcessed?
    case Decide(_) => e.body.DecisionEntered?
    case ApplyState(_, _, _, _) => e.body.ApplicationCommitted?
    case Discharge(_, _, _) => e.body.ApplicationCommitted?
    case RebuildAll => false
    case OtherEvent(other) => e == other && !IsGovernance(e)
  }

  ghost predicate Extends(j: Journal, longer: Journal, op: Operation) {
    j <= longer && forall i | |j| <= i < |longer| :: Writes(op, longer[i])
  }

  lemma LandExtends(d: Durable, config: Configuration, e: Event, op: Operation)
    requires Land(d, config, e).Ok? && Writes(op, e)
    ensures Extends(d.journal, Land(d, config, e).value.journal, op)
  {
  }

  lemma ExtendsTwice(i: Journal, j: Journal, k: Journal, op: Operation)
    requires Extends(i, j, op) && Extends(j, k, op)
    ensures Extends(i, k, op)
  {
    forall n | |i| <= n < |k| ensures Writes(op, k[n]) {
      assert n < |j| ==> k[n] == j[n];
    }
  }

  lemma {:induction false} BatchExtends(d: Durable, os: seq<ReviewObligation>, op: Operation)
    requires OpenBatch(d, os).Ok? && op.OpenFor?
    ensures Extends(d.journal, OpenBatch(d, os).value.journal, op)
  {
    hide Extends;
    if os == [] {
      NothingWritten(d.journal, op);
    } else {
      BatchExtends(d, os[..|os| - 1], op);
      var before, o := OpenBatch(d, os[..|os| - 1]).value, os[|os| - 1];
      LandExtends(before, WithObligation(before.config, o), ReviewOpenedEvent(o), op);
      ExtendsTwice(d.journal, before.journal, OpenBatch(d, os).value.journal, op);
    }
  }

  lemma NothingWritten(j: Journal, op: Operation)
    ensures Extends(j, j, op)
  {
  }

  lemma OpenForExtends(d: Durable, op: Operation)
    requires op.OpenFor? && CommitEventObligations(d, op.eventRef, op.obligations).Ok?
    ensures Extends(d.journal, CommitEventObligations(d, op.eventRef, op.obligations).value.0.journal, op)
  {
    hide Extends;
    if ProcessedIds(d.journal, op.eventRef) == Ok(None) {
      var ids := IdsOf(op.obligations);
      EventObligationsFacts(d, op.eventRef, op.obligations);
      BatchExtends(d, op.obligations, op);
      var all := OpenBatch(d, op.obligations).value;
      LandExtends(all, all.config, ProcessedEvent(op.eventRef, ids), op);
      ExtendsTwice(d.journal, all.journal, Land(all, all.config, ProcessedEvent(op.eventRef, ids)).value.journal, op);
    } else {
      NothingWritten(d.journal, op);
    }
  }

  /** A step only appends, and only events of its own kind. */
  lemma StepExtends(d: Durable, op: Operation)
    ensures Extends(d.journal, After(d, op).journal, op)
  {
    hide Extends, CommitStateApplication, CommitReviewDischarge, CommitEventObligations, StateAdmissibleFor,
      ReviewInputMatches, Reconstruct, Append, Linked, Minted;
    NothingWritten(d.journal, op);
    if Perform(d, op).Ok? {
      match op
      case Seed(k, s) =>
        if k !in d.config.states {
          LandExtends(d, d.config.(states := d.config.states[k := s]), StateSeedEvent(k, s), op);
        }
      case OpenOne(o) =>
        if o.id !in d.config.obligations {
          LandExtends(d, WithObligation(d.config, o), ReviewOpenedEvent(o), op);
        }
      case OpenFor(_, _) => OpenForExtends(d, op);
      case Decide(decision) =>
        if decision.id !in d.config.decisions {
          LandExtends(d, d.config.(decisions := d.config.decisions[decision.id := decision]),
                      DecisionRecordedEvent(decision), op);
        }
      case ApplyState(k, next, r, freshness) =>
        StateApplicationFacts(d, k, next, r, freshness);
        LandExtends(
          d, d.config.(states := d.config.states[k := next], applications := d.config.applications[r.application.id := r]),
          ApplicationCommittedEvent(r, Some(next)), op);
      case Discharge(id, r, freshness) =>
        DischargeFacts(d, id, r, freshness);
        LandExtends(
          d, d.config.(obligations := d.config.obligations - {id}, applications := d.config.applications[r.application.id := r]),
          ApplicationCommittedEvent(r, None), op);
      case RebuildAll =>
      case OtherEvent(e) => LandExtends(d, d.config, e, op);
    }
  }
}
