/**
 The projection equals the fold of the journal, and stays equal under every
 committed operation except two, whose exact conditions are given.
 */
module Coherence {
  import opened Wrappers
  import opened Text
  import opened Distinction
  import opened ExecutionIdentity
  import opened Canonical
  import opened History
  import opened Durable

  /** An event's id is the one its own content is entitled to. */
  predicate Minted(e: Event) {
    match e.body
    case StateSeeded(p) => e.id == GovernanceId("state", p.schemeId)
    case ReviewOpened(p) => e.id == GovernanceId("review", p.id)
    case DecisionEntered(p) => e.id == GovernanceId("decision", p.id)
    case ApplicationCommitted(p, _) => e.id == GovernanceId("application", p.application.id)
    case EventProcessed(key, _) => e.id == GovernanceId("processed", key) && key != ""
    case DispatchCommitted(p) => e.id == DispatchId(IdentityFromPayload(p))
    case Unrelated(_, _) => e.id.OpaqueId?
  }

  ghost predicate WellFormed(journal: Journal) {
    DistinctIds(journal) && forall e | e in journal :: Minted(e)
  }

  /** States, decisions and applications mirror the fold; open reviews are among those ever opened. */
  ghost predicate Indexed(d: Durable) {
    && WellFormed(d.journal)
    && Absorbs(d.journal).Ok?
    && var h := Absorbs(d.journal).value;
    && d.config.states == h.states
    && d.config.decisions == h.decisions
    && d.config.applications == h.applications
    && (forall id | id in d.config.obligations :: id in h.obligations && h.obligations[id] == d.config.obligations[id])
  }

  /** The projection is exactly what the journal folds to. */
  ghost predicate Coherent(d: Durable) {
    && WellFormed(d.journal)
    && Reconstruct(d.journal).Ok?
    && Reconstruct(d.journal).value.configuration == d.config
  }

  ghost function DischargedIds(journal: Journal): set<string> {
    set e, id | e in journal && id in Discharges(e) :: id
  }

  ghost function FoldOf(d: Durable): (h: Partial)
    requires Indexed(d)
    ensures Absorbs(d.journal) == Ok(h) && Describes(d.journal, h)
    ensures h.discharged == DischargedIds(d.journal)
  {
    FoldDescribes(d.journal);
    Absorbs(d.journal).value
  }

  lemma CoherentMeans(d: Durable)
    ensures Coherent(d) <==> Indexed(d) && d.config.obligations == FoldOf(d).obligations - FoldOf(d).discharged
  {
    ReconstructsWheneverItFolds(d.journal);
  }

  lemma EmptyIsCoherent()
    ensures Coherent(EMPTY)
  {
    ReconstructsWheneverItFolds([]);
  }

  /** Throwing the projection away and rebuilding it changes nothing. */
  lemma RebuildIsIdentity(d: Durable)
    requires Coherent(d)
    ensures Rebuild(d) == Ok(d)
  {
  }

  /** Even from a projection that went astray, rebuilding restores coherence and loses no journal fact. */
  lemma RebuildRestoresCoherence(d: Durable)
    requires Indexed(d)
    ensures Rebuild(d).Ok? && Coherent(Rebuild(d).value) && Rebuild(d).value.journal == d.journal
  {
    ReconstructsWheneverItFolds(d.journal);
  }

  // ------------------------------------------------------------ one more event

  predicate IdTaken(journal: Journal, id: EventId) {
    exists x | x in journal :: x.id == id
  }

  lemma FoldAppend(journal: Journal, e: Event, h: Partial)
    requires Absorbs(journal) == Ok(h)
    ensures Absorbs(journal + [e]) == Absorb(h, e)
  {
    assert (journal + [e])[..|journal|] == journal;
  }

  /** Appending an event under a free id keeps the index as soon as the fold step matches. */
  lemma LandsIndexed(d: Durable, config: Configuration, e: Event, next: Partial)
    requires Indexed(d) && Minted(e) && !IdTaken(d.journal, e.id)
    requires Absorb(FoldOf(d), e) == Ok(next)
    requires config.states == next.states && config.decisions == next.decisions
    requires config.applications == next.applications
    requires forall id | id in config.obligations :: id in next.obligations && next.obligations[id] == config.obligations[id]
    ensures Land(d, config, e) == Ok(Durable(config, d.journal + [e]))
    ensures Indexed(Durable(config, d.journal + [e])) && FoldOf(Durable(config, d.journal + [e])) == next
    ensures Coherent(Durable(config, d.journal + [e])) <==> config.obligations == next.obligations - next.discharged
  {
    FoldAppend(d.journal, e, FoldOf(d));
    AppendKeepsIdsDistinct(d.journal, e);
    CoherentMeans(Durable(config, d.journal + [e]));
  }

  function IdFor(k: FactKey): EventId {
    match k
    case ReviewKey(id) => GovernanceId("review", id)
    case DecisionKey(id) => GovernanceId("decision", id)
    case ApplicationKey(id) => GovernanceId("application", id)
    case EventKey(id) => GovernanceId("processed", id)
  }

  lemma MintedNamesItsFact(e: Event, k: FactKey)
    requires Minted(e) && Sound(e) && IsGovernance(e)
    ensures e.id == IdFor(k) <==> FactOf(e).Some? && FactOf(e).value.0 == k
  {
    hide StateAdmissibleFor;
  }

  /** An id is spent in the journal exactly when the fold knows the fact it names. */
  lemma SpentExactlyWhenKnown(d: Durable, k: FactKey)
    requires Indexed(d)
    ensures IdTaken(d.journal, IdFor(k)) <==> Lookup(FoldOf(d), k).Some?
  {
    hide StatesMatch, DischargesMatch, Sound, FactOf, Lookup, Reconstruct, Minted, IdFor, Absorbs, IsGovernance;
    var h := FoldOf(d);
    forall e | e in d.journal && IsGovernance(e) ensures e.id == IdFor(k) <==> FactOf(e).Some? && FactOf(e).value.0 == k {
      MintedNamesItsFact(e, k);
    }
    if Lookup(h, k).Some? {
      var e :| e in d.journal && FactOf(e) == Some((k, Lookup(h, k).value));
      OnlyGovernanceStates(e);
    }
    if IdTaken(d.journal, IdFor(k)) {
      var e :| e in d.journal && e.id == IdFor(k);
      GovernanceIdsAreGovernance(e, k);
    }
  }

  lemma GovernanceIdsAreGovernance(e: Event, k: FactKey)
    requires Minted(e) && e.id == IdFor(k)
    ensures IsGovernance(e)
  {
  }

  lemma OnlyGovernanceStates(e: Event)
    ensures FactOf(e).Some? ==> IsGovernance(e)
  {
  }

  lemma OldSchemeId(d: Durable, id: string)
    requires Indexed(d) && IdTaken(d.journal, GovernanceId("state", id))
    ensures id in d.config.states
  {
    hide StateAdmissibleFor;
    var h := FoldOf(d);
    var e :| e in d.journal && e.id == GovernanceId("state", id);
    assert Sound(e) && Carries(e).Some? && Carries(e).value.0 == id;
  }

  /** The index against the fold, entry by entry. */
  lemma IndexedMeans(d: Durable)
    requires Indexed(d)
    ensures var h := FoldOf(d);
      && d.config.states == h.states && d.config.decisions == h.decisions && d.config.applications == h.applications
      && (forall id | id in d.config.obligations :: id in h.obligations && h.obligations[id] == d.config.obligations[id])
  {
    hide Describes;
  }

  // -------------------------------------------------- operations, one by one

  lemma SeedAbsorbs(h: Partial, schemeId: string, s: DistinctionState)
    requires StateAdmissibleFor(schemeId, s) && schemeId !in h.states
    ensures Absorb(h, StateSeedEvent(schemeId, s)) == Ok(h.(states := h.states[schemeId := s]))
  {
    hide StateAdmissibleFor;
    AbsorbRaises(h, schemeId, s);
  }

  lemma SeedIndexed(d: Durable, schemeId: string, s: DistinctionState)
    requires Indexed(d) && SeedState(d, schemeId, s).Ok?
    ensures Indexed(SeedState(d, schemeId, s).value)
    ensures Coherent(d) ==> Coherent(SeedState(d, schemeId, s).value)
  {
    hide Indexed, Coherent, Absorb, Absorbs, Reconstruct, DischargedIds, Describes, Append, Sorted, StateAdmissibleFor;
    IndexedMeans(d);
    if schemeId !in d.config.states {
      var e, h := StateSeedEvent(schemeId, s), FoldOf(d);
      if IdTaken(d.journal, e.id) {
        OldSchemeId(d, schemeId);
      }
      SeedAbsorbs(h, schemeId, s);
      CoherentMeans(d);
      LandsIndexed(d, d.config.(states := d.config.states[schemeId := s]), e, h.(states := h.states[schemeId := s]));
    }
  }

  /** The review was opened before: the journal stays as it is. */
  lemma ReopeningIndexed(d: Durable, o: ReviewObligation)
    requires Indexed(d) && ReviewOpenedEvent(o) in d.journal
    ensures Indexed(Durable(WithObligation(d.config, o), d.journal))
    ensures o.id in FoldOf(d).obligations && FoldOf(d).obligations[o.id] == o
  {
    hide StatesMatch, DischargesMatch, StateAdmissibleFor;
    ObligationRoundTrip(o);
    assert FactOf(ReviewOpenedEvent(o)) == Some((ReviewKey(o.id), Opened(o)));
    assert Lookup(FoldOf(d), ReviewKey(o.id)) == Some(Opened(o));
  }

  lemma OpeningAbsorbs(h: Partial, o: ReviewObligation)
    requires o.id !in h.obligations
    ensures Absorb(h, ReviewOpenedEvent(o)) == Ok(h.(obligations := h.obligations[o.id := o]))
  {
    ObligationRoundTrip(o);
  }

  lemma ReinstatingExactly(ever: map<string, ReviewObligation>, gone: set<string>, o: ReviewObligation)
    ensures (ever - gone)[o.id := o] == ever[o.id := o] - gone <==> o.id !in gone
  {
    assert o.id in (ever - gone)[o.id := o];
  }

  /** Opening one review; together with the journal exactly when its id was never discharged. */
  lemma OpeningIndexed(d: Durable, o: ReviewObligation)
    requires Indexed(d) && Land(d, WithObligation(d.config, o), ReviewOpenedEvent(o)).Ok?
    ensures var after := Land(d, WithObligation(d.config, o), ReviewOpenedEvent(o)).value;
      && Indexed(after)
      && FoldOf(after).discharged == FoldOf(d).discharged
      && (Coherent(d) ==> (Coherent(after) <==> o.id !in FoldOf(d).discharged))
  {
    var e, h, config := ReviewOpenedEvent(o), FoldOf(d), WithObligation(d.config, o);
    SpentExactlyWhenKnown(d, ReviewKey(o.id));
    CoherentMeans(d);
    ReinstatingExactly(h.obligations, h.discharged, o);
    if IdTaken(d.journal, e.id) {
      ReopeningIndexed(d, o);
      CoherentMeans(Durable(config, d.journal));
      assert h.obligations[o.id := o] == h.obligations;
    } else {
      OpeningAbsorbs(h, o);
      hide Absorb, DischargedIds;
      LandsIndexed(d, config, e, h.(obligations := h.obligations[o.id := o]));
    }
  }

  lemma OpenReviewIndexed(d: Durable, o: ReviewObligation)
    requires Indexed(d) && OpenReview(d, o).Ok?
    ensures Indexed(OpenReview(d, o).value)
  {
    if o.id !in d.config.obligations {
      OpeningIndexed(d, o);
    }
  }

  /** Opening a review keeps projection and journal together exactly when that id was never discharged. */
  lemma OpenReviewCoherentExactly(d: Durable, o: ReviewObligation)
    requires Coherent(d) && OpenReview(d, o).Ok?
    ensures Coherent(OpenReview(d, o).value) <==> o.id !in DischargedIds(d.journal)
  {
    CoherentMeans(d);
    if o.id in d.config.obligations {
      assert o.id !in FoldOf(d).discharged;
    } else {
      OpeningIndexed(d, o);
    }
  }

  lemma {:induction false} BatchIndexed(d: Durable, os: seq<ReviewObligation>)
    requires Indexed(d) && OpenBatch(d, os).Ok?
    ensures var after := OpenBatch(d, os).value;
      && Indexed(after)
      && FoldOf(after).discharged == FoldOf(d).discharged
      && (forall o | o in os :: o.id in after.config.obligations)
      && (Coherent(d) && (forall o | o in os :: o.id !in FoldOf(d).discharged) ==> Coherent(after))
  {
    hide Indexed, Coherent, Append, DischargedIds, ReviewOpenedEvent;
    if os != [] {
      var prefix, o := os[..|os| - 1], os[|os| - 1];
      assert o in os && (forall x | x in prefix :: x in os) && os == prefix + [o];
      BatchIndexed(d, prefix);
      OpeningIndexed(OpenBatch(d, prefix).value, o);
    }
  }

  lemma MarkingIndexed(d: Durable, eventRef: string, ids: seq<string>)
    requires Indexed(d) && eventRef != "" && Land(d, d.config, ProcessedEvent(eventRef, ids)).Ok?
    ensures var after := Land(d, d.config, ProcessedEvent(eventRef, ids)).value;
      && Indexed(after)
      && FoldOf(after).discharged == FoldOf(d).discharged
      && (Coherent(d) ==> Coherent(after))
  {
    var e, h := ProcessedEvent(eventRef, ids), FoldOf(d);
    SpentExactlyWhenKnown(d, EventKey(eventRef));
    if !IdTaken(d.journal, e.id) {
      CoherentMeans(d);
      var next := h.(processed := h.processed[eventRef := ids]);
      assert Absorb(h, e) == Ok(next);
      LandsIndexed(d, d.config, e, next);
    }
  }

  lemma {:induction false} EventObligationsFacts(d: Durable, eventRef: string, os: seq<ReviewObligation>)
    requires CommitEventObligations(d, eventRef, os).Ok?
    requires ProcessedIds(d.journal, eventRef) == Ok(None)
    ensures eventRef != "" && ValidateBatch(d.config, os).Ok? && OpenBatch(d, os).Ok?
    ensures CommitEventObligations(d, eventRef, os).value.1 == IdsOf(os)
    ensures var all := OpenBatch(d, os).value;
      Land(all, all.config, ProcessedEvent(eventRef, IdsOf(os))) == Ok(CommitEventObligations(d, eventRef, os).value.0)
  {
  }

  lemma EventObligationsIndexed(d: Durable, eventRef: string, os: seq<ReviewObligation>)
    requires Indexed(d) && CommitEventObligations(d, eventRef, os).Ok?
    ensures Indexed(CommitEventObligations(d, eventRef, os).value.0)
  {
    if ProcessedIds(d.journal, eventRef) == Ok(None) {
      EventObligationsFacts(d, eventRef, os);
      BatchIndexed(d, os);
      MarkingIndexed(OpenBatch(d, os).value, eventRef, IdsOf(os));
    }
  }

  /** Likewise for the reviews one event opens: exactly when none of them reopens a discharged id. */
  lemma EventObligationsCoherentExactly(d: Durable, eventRef: string, os: seq<ReviewObligation>)
    requires Coherent(d) && CommitEventObligations(d, eventRef, os).Ok?
    requires ProcessedIds(d.journal, eventRef) == Ok(None)
    ensures Coherent(CommitEventObligations(d, eventRef, os).value.0)
       <==> forall o | o in os :: o.id !in DischargedIds(d.journal)
  {
    CoherentMeans(d);
    EventObligationsFacts(d, eventRef, os);
    var all, after := OpenBatch(d, os).value, CommitEventObligations(d, eventRef, os).value.0;
    BatchIndexed(d, os);
    MarkingIndexed(all, eventRef, IdsOf(os));
    CoherentMeans(after);
    if o :| o in os && o.id in FoldOf(d).discharged {
      assert o.id in after.config.obligations;
    }
  }

  lemma DecisionAbsorbs(h: Partial, decision: GovernanceDecision)
    requires decision.id !in h.decisions
    ensures Absorb(h, DecisionRecordedEvent(decision)) == Ok(h.(decisions := h.decisions[decision.id := decision]))
  {
    DecisionRoundTrip(decision);
  }

  lemma DecisionIndexed(d: Durable, decision: GovernanceDecision)
    requires Indexed(d) && CommitDecision(d, decision).Ok?
    ensures Indexed(CommitDecision(d, decision).value)
    ensures Coherent(d) ==> Coherent(CommitDecision(d, decision).value)
  {
    hide Indexed, Coherent, Absorb, Absorbs, Reconstruct, DischargedIds, Describes, Append, Sorted, ReviewInputMatches;
    IndexedMeans(d);
    if decision.id !in d.config.decisions {
      var e, h := DecisionRecordedEvent(decision), FoldOf(d);
      SpentExactlyWhenKnown(d, DecisionKey(decision.id));
      CoherentMeans(d);
      DecisionAbsorbs(h, decision);
      LandsIndexed(d, d.config.(decisions := d.config.decisions[decision.id := decision]), e,
                   h.(decisions := h.decisions[decision.id := decision]));
    }
  }

  lemma ReceiptRoundTrip(r: ApplicationReceipt)
    ensures RestoreReceipt(EncodeReceipt(r)) == r
  {
  }

  lemma AbsorbRaises(h: Partial, schemeId: string, s: DistinctionState)
    requires StateAdmissibleFor(schemeId, s)
    requires schemeId in h.states ==> s.version > h.states[schemeId].version
    ensures AbsorbState(h, EncodeState(schemeId, s)) == Ok(h.(states := h.states[schemeId := s]))
  {
    StateRoundTrip(schemeId, s);
    assert RestoreState(EncodeState(schemeId, s)) == Ok((schemeId, s));
  }

  lemma TransitionAbsorbs(h: Partial, schemeId: string, next: DistinctionState, r: ApplicationReceipt)
    requires r.application.schemeId == schemeId && r.effectKind == "state"
    requires r.application.id !in h.applications && StateAdmissibleFor(schemeId, next)
    requires schemeId in h.states && next.version > h.states[schemeId].version
    ensures Absorb(h, ApplicationCommittedEvent(r, Some(next)))
         == Ok(h.(states := h.states[schemeId := next], applications := h.applications[r.application.id := r]))
  {
    hide StateAdmissibleFor;
    ReceiptRoundTrip(r);
    var noted := h.(applications := h.applications[r.application.id := r]);
    assert h.discharged + DischargedBy(r) == h.discharged;
    assert AbsorbReceipt(h, r) == Ok(noted);
    AbsorbRaises(noted, schemeId, next);
  }

  lemma StateApplicationFacts(
    d: Durable, schemeId: string, next: DistinctionState, r: ApplicationReceipt, freshness: Option<FreshnessLookup>
  )
    requires CommitStateApplication(d, schemeId, next, r, freshness).Ok?
    ensures schemeId in d.config.states && r.application.decisionRef in d.config.decisions
    ensures var current, decision := d.config.states[schemeId], d.config.decisions[r.application.decisionRef];
      && r.application.id !in d.config.applications
      && r.effectKind == "state" && r.application.schemeId == schemeId && decision.target == schemeId
      && Linked(r.application, decision)
      && r.preAnchor == StateAnchor(current) == decision.expectedStateAnchor
      && r.postAnchor == StateAnchor(next)
      && next == CandidateEffect(r.application, current)
      && StateAdmissibleFor(schemeId, next)
      && EffectMatches(decision, next)
    ensures CommitStateApplication(d, schemeId, next, r, freshness)
         == Land(d, d.config.(states := d.config.states[schemeId := next],
                              applications := d.config.applications[r.application.id := r]),
                 ApplicationCommittedEvent(r, Some(next)))
  {
  }

  lemma StateApplicationIndexed(
    d: Durable, schemeId: string, next: DistinctionState, r: ApplicationReceipt, freshness: Option<FreshnessLookup>
  )
    requires Indexed(d) && CommitStateApplication(d, schemeId, next, r, freshness).Ok?
    ensures var after := CommitStateApplication(d, schemeId, next, r, freshness).value;
      && Indexed(after)
      && after.journal == d.journal + [ApplicationCommittedEvent(r, Some(next))]
      && (Coherent(d) ==> Coherent(after))
  {
    hide Indexed, Coherent, Absorb, Absorbs, Reconstruct, DischargedIds, Describes, Append, Sorted,
      StateAdmissibleFor, CommitStateApplication, StateAnchor, Linked, EffectMatches;
    IndexedMeans(d);
    StateApplicationFacts(d, schemeId, next, r, freshness);
    var h, id := FoldOf(d), r.application.id;
    SpentExactlyWhenKnown(d, ApplicationKey(id));
    TransitionAbsorbs(h, schemeId, next, r);
    CoherentMeans(d);
    LandsIndexed(
      d,
      d.config.(states := d.config.states[schemeId := next], applications := d.config.applications[id := r]),
      ApplicationCommittedEvent(r, Some(next)),
      h.(states := h.states[schemeId := next], applications := h.applications[id := r]));
  }

  lemma DischargeAbsorbs(h: Partial, r: ApplicationReceipt)
    requires r.application.id !in h.applications
    ensures Absorb(h, ApplicationCommittedEvent(r, None))
         == Ok(h.(applications := h.applications[r.application.id := r], discharged := h.discharged + DischargedBy(r)))
  {
    ReceiptRoundTrip(r);
  }

  lemma DischargeFacts(d: Durable, obligationId: string, r: ApplicationReceipt, freshness: Option<FreshnessLookup>)
    requires CommitReviewDischarge(d, obligationId, r, freshness).Ok?
    ensures obligationId in d.config.obligations && r.application.decisionRef in d.config.decisions
    ensures r.application.id !in d.config.applications
    ensures r.effectKind == "review_discharge" && r.application.reviewObligationId == Some(obligationId)
    ensures var decision, o := d.config.decisions[r.application.decisionRef], d.config.obligations[obligationId];
      && obligationId in decision.reviewRefs
      && o.target == decision.target && o.context == decision.context
      && Linked(r.application, decision)
    ensures CommitReviewDischarge(d, obligationId, r, freshness)
         == Land(d, d.config.(obligations := d.config.obligations - {obligationId},
                              applications := d.config.applications[r.application.id := r]),
                 ApplicationCommittedEvent(r, None))
  {
  }

  lemma DischargeIndexed(d: Durable, obligationId: string, r: ApplicationReceipt, freshness: Option<FreshnessLookup>)
    requires Indexed(d) && CommitReviewDischarge(d, obligationId, r, freshness).Ok?
    ensures var after := CommitReviewDischarge(d, obligationId, r, freshness).value;
      && Indexed(after)
      && after.journal == d.journal + [ApplicationCommittedEvent(r, None)]
      && after.config.obligations == d.config.obligations - {obligationId}
      && FoldOf(after).obligations == FoldOf(d).obligations
      && FoldOf(after).discharged == FoldOf(d).discharged + (if obligationId == "" then {} else {obligationId})
  {
    hide Indexed, Coherent, Absorb, Absorbs, Reconstruct, DischargedIds, Describes, Append, Sorted,
      CommitReviewDischarge, Linked;
    IndexedMeans(d);
    DischargeFacts(d, obligationId, r, freshness);
    var h, id := FoldOf(d), r.application.id;
    SpentExactlyWhenKnown(d, ApplicationKey(id));
    DischargeAbsorbs(h, r);
    LandsIndexed(
      d,
      d.config.(obligations := d.config.obligations - {obligationId}, applications := d.config.applications[id := r]),
      ApplicationCommittedEvent(r, None),
      h.(applications := h.applications[id := r], discharged := h.discharged + DischargedBy(r)));
  }

  lemma DiscardingExactly(ever: map<string, ReviewObligation>, gone: set<string>, id: string)
    requires id in ever - gone
    ensures (ever - gone) - {id} == ever - (gone + if id == "" then {} else {id}) <==> id != ""
  {
    if id == "" {
      assert id in ever - (gone + {});
    } else {
      assert (ever - gone) - {id} == ever - (gone + {id});
    }
  }

  /** The history ignores the discharge of a review whose id is empty; that is the one exception. */
  lemma DischargeCoherentExactly(
    d: Durable, obligationId: string, r: ApplicationReceipt, freshness: Option<FreshnessLookup>
  )
    requires Coherent(d) && CommitReviewDischarge(d, obligationId, r, freshness).Ok?
    ensures Coherent(CommitReviewDischarge(d, obligationId, r, freshness).value) <==> obligationId != ""
  {
    CoherentMeans(d);
    assert obligationId in d.config.obligations by {
      DischargeFacts(d, obligationId, r, freshness);
    }
    DischargeIndexed(d, obligationId, r, freshness);
    hide *;
    CoherentMeans(CommitReviewDischarge(d, obligationId, r, freshness).value);
    DiscardingExactly(FoldOf(d).obligations, FoldOf(d).discharged, obligationId);
  }

  // ------------------------------------------------------- processed markers

  /** What counts as processed is read from the journal and equals the fold's markers. */
  lemma ProcessedMarkersAgree(d: Durable, eventRef: string)
    requires Indexed(d) && Reconstruct(d.journal).Ok?
    ensures var processed := Reconstruct(d.journal).value.processedObligations;
      ProcessedIds(d.journal, eventRef)
        == Ok(if eventRef in processed then Some(processed[eventRef]) else None)
  {
    var h := FoldOf(d);
    ReconstructsWheneverItFolds(d.journal);
    FindMeans(d.journal, GovernanceId("processed", eventRef));
    SpentExactlyWhenKnown(d, EventKey(eventRef));
    var found := Find(d.journal, GovernanceId("processed", eventRef));
    if found.Some? {
      assert FactOf(found.value) == Some((EventKey(eventRef), Processed(found.value.body.obligationIds)));
      assert Lookup(h, EventKey(eventRef)) == Some(Processed(found.value.body.obligationIds));
    }
  }
}
