/**
 When the durable store takes in a new state, a review or the reviews of one
 event, and what it then holds: a second description in plain facts.
 */
module Openings {
  import opened Wrappers
  import opened Text
  import opened Distinction
  import opened ExecutionIdentity
  import opened Canonical
  import opened History
  import opened Durable
  import opened Coherence
  import opened Lifecycle
  import opened LifecycleRuns
  import opened Conditions

  // ------------------------------------------------------------------- the journal

  /** The journal takes the event: its id is free, or it is on record already. */
  ghost predicate Takes(journal: Journal, e: Event) {
    e in journal || forall x | x in journal :: x.id != e.id
  }

  function With(journal: Journal, e: Event): Journal {
    if e in journal then journal else journal + [e]
  }

  lemma LandsExactly(d: Durable, config: Configuration, e: Event)
    ensures Land(d, config, e).Ok? <==> Takes(d.journal, e)
    ensures Land(d, config, e).Ok? ==> Land(d, config, e).value == Durable(config, With(d.journal, e))
    ensures Land(d, config, e).Err? ==> Land(d, config, e).error == JournalRefused
  {
  }

  /** How each governance event is named, and under which schema and contract. */
  lemma HeadersExactly(
    k: string, s: DistinctionState, o: ReviewObligation, decision: GovernanceDecision, r: ApplicationReceipt,
    next: Option<DistinctionState>, eventRef: string, ids: seq<string>
  )
    ensures StateSeedEvent(k, s) == Event(
      GovernanceId("state", k), k, "distinction-governance-history-v1", "distinction-governance-1.0",
      StateSeeded(EncodeState(k, s)))
    ensures ReviewOpenedEvent(o) == Event(
      GovernanceId("review", o.id), o.target, "distinction-governance-history-v1", "distinction-governance-1.0",
      ReviewOpened(EncodeObligation(o)))
    ensures DecisionRecordedEvent(decision) == Event(
      GovernanceId("decision", decision.id), decision.target, "distinction-governance-history-v1",
      "distinction-governance-1.0", DecisionEntered(EncodeDecision(decision)))
    ensures ApplicationCommittedEvent(r, next) == Event(
      GovernanceId("application", r.application.id), r.application.schemeId, "distinction-governance-history-v1",
      "distinction-governance-1.0",
      ApplicationCommitted(EncodeReceipt(r), match next case Some(s) => Some(EncodeState(r.application.schemeId, s)) case None => None))
    ensures ProcessedEvent(eventRef, ids) == Event(
      GovernanceId("processed", eventRef), eventRef, "distinction-governance-history-v1", "distinction-governance-1.0",
      EventProcessed(eventRef, ids))
  {
  }

  // ------------------------------------------------------------------------ states

  /** A state is taken in where it may stand and its scheme has none, or the very same. */
  lemma SeededExactly(d: Durable, k: string, s: DistinctionState)
    ensures SeedState(d, k, s).Ok? <==>
      && MayStand(k, s)
      && (if k in d.config.states then d.config.states[k] == s else Takes(d.journal, StateSeedEvent(k, s)))
    ensures SeedState(d, k, s).Ok? ==>
      SeedState(d, k, s).value ==
      if k in d.config.states then d
      else Durable(Configuration(d.config.states[k := s], d.config.obligations, d.config.decisions, d.config.applications),
                   With(d.journal, StateSeedEvent(k, s)))
    ensures SeedState(d, k, s) == Err(InadmissibleSeed) <==> !MayStand(k, s)
    ensures SeedState(d, k, s) == Err(StateExists) <==> MayStand(k, s) && k in d.config.states && d.config.states[k] != s
  {
    hide StateAdmissibleFor, MayStand, Append, StateSeedEvent;
    MayStandExactly(k, s);
    LandsExactly(d, d.config.(states := d.config.states[k := s]), StateSeedEvent(k, s));
  }

  // ----------------------------------------------------------------------- reviews

  /** The same scheme is to be reviewed on the same grounds, for the same event and context. */
  ghost predicate SameCall(o: ReviewObligation, p: ReviewObligation) {
    && o.target == p.target && o.triggerRef == p.triggerRef && o.context == p.context
    && forall ref :: ref in o.basisRefs <==> ref in p.basisRefs
  }

  /** The same call is open already, under whatever id. */
  ghost predicate CallOpen(d: Durable, o: ReviewObligation) {
    exists id | id in d.config.obligations :: SameCall(o, d.config.obligations[id])
  }

  lemma SameCallExactly(o: ReviewObligation, p: ReviewObligation)
    ensures KeyOf(o) == KeyOf(p) <==> SameCall(o, p)
  {
    if KeyOf(o) == KeyOf(p) {
      forall ref ensures ref in o.basisRefs <==> ref in p.basisRefs {
        assert ref in Elements(o.basisRefs) <==> ref in Elements(p.basisRefs);
      }
    }
    if SameCall(o, p) {
      assert Elements(o.basisRefs) == Elements(p.basisRefs);
    }
  }

  lemma CallOpenExactly(d: Durable, o: ReviewObligation)
    ensures KeyOpen(d.config.obligations, KeyOf(o)) <==> CallOpen(d, o)
  {
    hide KeyOf, SameCall;
    forall id | id in d.config.obligations ensures KeyOf(d.config.obligations[id]) == KeyOf(o) <==> SameCall(o, d.config.obligations[id]) {
      SameCallExactly(o, d.config.obligations[id]);
    }
  }

  lemma ValidExactly(d: Durable, o: ReviewObligation)
    ensures ValidateObligation(d.config, o) == Ok(true) <==> o.id !in d.config.obligations && !CallOpen(d, o)
    ensures ValidateObligation(d.config, o) == Ok(false) <==> o.id in d.config.obligations && d.config.obligations[o.id] == o
    ensures ValidateObligation(d.config, o) == Err(ObligationTaken)
       <==> o.id in d.config.obligations && d.config.obligations[o.id] != o
    ensures ValidateObligation(d.config, o) == Err(EquivalentReviewOpen) <==> o.id !in d.config.obligations && CallOpen(d, o)
  {
    hide KeyOpen, CallOpen, KeyOf;
    CallOpenExactly(d, o);
  }

  /** A review is opened where its id and its call are free; the very same one is left open. */
  lemma ReviewOpenedExactly(d: Durable, o: ReviewObligation)
    ensures OpenReview(d, o).Ok? <==>
      if o.id in d.config.obligations then d.config.obligations[o.id] == o
      else !CallOpen(d, o) && Takes(d.journal, ReviewOpenedEvent(o))
    ensures OpenReview(d, o).Ok? ==>
      OpenReview(d, o).value ==
      if o.id in d.config.obligations then d
      else Durable(Configuration(d.config.states, d.config.obligations[o.id := o], d.config.decisions, d.config.applications),
                   With(d.journal, ReviewOpenedEvent(o)))
  {
    hide ValidateObligation, CallOpen, Append, ReviewOpenedEvent;
    ValidExactly(d, o);
    LandsExactly(d, d.config.(obligations := d.config.obligations[o.id := o]), ReviewOpenedEvent(o));
  }

  // --------------------------------------------------------- the reviews of one event

  /** None of the reviews repeats another, in id or call, and none is open already. */
  ghost predicate AllNew(d: Durable, os: seq<ReviewObligation>) {
    && (forall i | 0 <= i < |os| ::
          os[i].id !in d.config.obligations && !CallOpen(d, os[i]) && Takes(d.journal, ReviewOpenedEvent(os[i])))
    && (forall i, j | 0 <= i < j < |os| :: os[i].id != os[j].id && !SameCall(os[i], os[j]))
  }

  lemma {:induction false} BatchValidExactly(d: Durable, os: seq<ReviewObligation>)
    ensures ValidateBatch(d.config, os).Ok? <==>
      && (forall i | 0 <= i < |os| :: os[i].id !in d.config.obligations && !CallOpen(d, os[i]))
      && (forall i, j | 0 <= i < j < |os| :: !SameCall(os[i], os[j]))
  {
    hide ValidateObligation, CallOpen, SameCall, KeyOf;
    if os != [] {
      var prefix, o := os[..|os| - 1], os[|os| - 1];
      BatchValidExactly(d, prefix);
      ValidExactly(d, o);
      if ValidateBatch(d.config, prefix).Ok? {
        BatchKeys(d.config, prefix);
        forall i | 0 <= i < |prefix| ensures KeyOf(prefix[i]) == KeyOf(o) <==> SameCall(prefix[i], o) {
          SameCallExactly(prefix[i], o);
        }
        assert KeyOf(o) in ValidateBatch(d.config, prefix).value <==> exists i | 0 <= i < |prefix| :: SameCall(prefix[i], o);
      }
    }
  }

  lemma OpenedTells(o: ReviewObligation, p: ReviewObligation)
    ensures ReviewOpenedEvent(o) == ReviewOpenedEvent(p) ==> o == p
    ensures ReviewOpenedEvent(o).id == ReviewOpenedEvent(p).id <==> o.id == p.id
  {
    ObligationRoundTrip(o);
    ObligationRoundTrip(p);
  }

  /** The open reviews and the journal once the whole batch is in. */
  ghost predicate BatchIn(d: Durable, os: seq<ReviewObligation>, after: Durable) {
    && after.config.states == d.config.states && after.config.decisions == d.config.decisions
    && after.config.applications == d.config.applications
    && (forall id :: id in after.config.obligations <==> id in d.config.obligations || exists i :: 0 <= i < |os| && os[i].id == id)
    && (forall i | 0 <= i < |os| :: after.config.obligations[os[i].id] == os[i])
    && (forall id | id in d.config.obligations :: after.config.obligations[id] == d.config.obligations[id])
    && d.journal <= after.journal
    && (forall e :: e in after.journal <==> e in d.journal || exists i :: 0 <= i < |os| && e == ReviewOpenedEvent(os[i]))
  }

  lemma OthersDiffer(journal: Journal, e: Event, other: Event)
    requires DistinctIds(journal) && e in journal && Takes(journal, other) && e != other
    ensures e.id != other.id
  {
  }

  lemma NextTaken(d: Durable, os: seq<ReviewObligation>, before: Durable, o: ReviewObligation)
    requires DistinctIds(d.journal) && BatchIn(d, os, before) && forall i | 0 <= i < |os| :: os[i] != o
    requires forall i | 0 <= i < |os| :: Takes(d.journal, ReviewOpenedEvent(os[i]))
    ensures Takes(before.journal, ReviewOpenedEvent(o))
       <==> Takes(d.journal, ReviewOpenedEvent(o)) && forall i | 0 <= i < |os| :: os[i].id != o.id
  {
    hide ReviewOpenedEvent;
    var e := ReviewOpenedEvent(o);
    forall i | 0 <= i < |os|
      ensures ReviewOpenedEvent(os[i]) != e && (ReviewOpenedEvent(os[i]).id == e.id <==> os[i].id == o.id)
    {
      OpenedTells(os[i], o);
    }
    if e in d.journal {
      forall i | 0 <= i < |os| ensures os[i].id != o.id {
        OthersDiffer(d.journal, e, ReviewOpenedEvent(os[i]));
      }
    }
  }

  lemma {:induction false} BatchOpensExactly(d: Durable, os: seq<ReviewObligation>)
    requires DistinctIds(d.journal)
    requires forall i, j | 0 <= i < j < |os| :: os[i] != os[j]
    requires forall i | 0 <= i < |os| :: os[i].id !in d.config.obligations
    ensures OpenBatch(d, os).Ok? <==>
      && (forall i | 0 <= i < |os| :: Takes(d.journal, ReviewOpenedEvent(os[i])))
      && (forall i, j | 0 <= i < j < |os| :: os[i].id != os[j].id)
    ensures OpenBatch(d, os).Ok? ==> BatchIn(d, os, OpenBatch(d, os).value)
  {
    hide ReviewOpenedEvent, Takes, BatchIn, Append;
    if os == [] {
      NothingIn(d);
    } else {
      var prefix, o := os[..|os| - 1], os[|os| - 1];
      BatchOpensExactly(d, prefix);
      if OpenBatch(d, prefix).Ok? {
        var before := OpenBatch(d, prefix).value;
        NextTaken(d, prefix, before, o);
        LandsExactly(before, WithObligation(before.config, o), ReviewOpenedEvent(o));
        if Takes(before.journal, ReviewOpenedEvent(o)) {
          OneMoreIn(d, prefix, before, o);
          assert os == prefix + [o];
        }
      }
    }
  }

  lemma NothingIn(d: Durable)
    ensures BatchIn(d, [], d)
  {
  }

  lemma OneMoreIn(d: Durable, os: seq<ReviewObligation>, before: Durable, o: ReviewObligation)
    requires BatchIn(d, os, before) && o.id !in d.config.obligations && forall i | 0 <= i < |os| :: os[i].id != o.id
    ensures BatchIn(d, os + [o], Durable(WithObligation(before.config, o), With(before.journal, ReviewOpenedEvent(o))))
  {
    hide ReviewOpenedEvent;
    var after, all := Durable(WithObligation(before.config, o), With(before.journal, ReviewOpenedEvent(o))), os + [o];
    assert all[|os|] == o;
    forall id ensures id in after.config.obligations <==> id in d.config.obligations || exists i :: 0 <= i < |all| && all[i].id == id {
      if i :| 0 <= i < |os| && os[i].id == id {
        assert all[i].id == id;
      }
    }
    forall e ensures e in after.journal <==> e in d.journal || exists i :: 0 <= i < |all| && e == ReviewOpenedEvent(all[i]) {
      if i :| 0 <= i < |os| && e == ReviewOpenedEvent(os[i]) {
        assert all[i] == os[i];
      }
    }
  }

  /**
   The reviews of one event are taken in together: under a name, each for that
   event, and, unless the event is marked processed, none repeating another or one
   that is open. Then all of them are open, and the event is marked with their ids.
   */
  lemma EventCommittedExactly(d: Durable, eventRef: string, os: seq<ReviewObligation>)
    requires Indexed(d)
    ensures CommitEventObligations(d, eventRef, os).Ok? <==>
      eventRef != "" && (forall o | o in os :: o.triggerRef == eventRef) && (Marked(d.journal, eventRef) || AllNew(d, os))
    ensures CommitEventObligations(d, eventRef, os).Ok? && Marked(d.journal, eventRef) ==>
      CommitEventObligations(d, eventRef, os).value.0 == d
      && exists e | e in d.journal ::
           e.body == EventProcessed(eventRef, CommitEventObligations(d, eventRef, os).value.1)
    ensures CommitEventObligations(d, eventRef, os).Ok? && !Marked(d.journal, eventRef) ==>
      var (after, ids) := CommitEventObligations(d, eventRef, os).value;
      && |ids| == |os| && (forall i | 0 <= i < |os| :: ids[i] == os[i].id)
      && after.journal != [] && after.journal[|after.journal| - 1] == ProcessedEvent(eventRef, ids)
      && BatchIn(d, os, after.(journal := after.journal[..|after.journal| - 1]))
  {
    hide Absorbs, ValidateBatch, OpenBatch, Append, ReviewOpenedEvent, CallOpen, SameCall, BatchIn, Takes;
    if Marked(d.journal, eventRef) {
      MarkedOnce(d, eventRef);
    } else if eventRef != "" && forall o | o in os :: o.triggerRef == eventRef {
      Unmarked(d, eventRef);
      BatchValidExactly(d, os);
      if ValidateBatch(d.config, os).Ok? {
        CallsDiffer(os);
        BatchOpensExactly(d, os);
        if OpenBatch(d, os).Ok? {
          MarkerFits(d, eventRef, os, OpenBatch(d, os).value);
          LandsExactly(OpenBatch(d, os).value, OpenBatch(d, os).value.config, ProcessedEvent(eventRef, IdsOf(os)));
        }
      }
    }
  }

  lemma CallsDiffer(os: seq<ReviewObligation>)
    requires forall i, j | 0 <= i < j < |os| :: !SameCall(os[i], os[j])
    ensures forall i, j | 0 <= i < j < |os| :: os[i] != os[j]
  {
  }

  lemma MarkedOnce(d: Durable, eventRef: string)
    requires Indexed(d) && Marked(d.journal, eventRef)
    ensures ProcessedIds(d.journal, eventRef).Ok? && ProcessedIds(d.journal, eventRef).value.Some?
    ensures eventRef != ""
    ensures exists e | e in d.journal :: e.body == EventProcessed(eventRef, ProcessedIds(d.journal, eventRef).value.value)
  {
    hide Absorbs;
    FindMeans(d.journal, GovernanceId("processed", eventRef));
    var e := Find(d.journal, GovernanceId("processed", eventRef)).value;
    var m :| m in d.journal && m.body.EventProcessed? && m.id == GovernanceId("processed", eventRef);
    FoundIsTheOne(d.journal, m, e);
    assert Minted(e);
  }

  lemma Unmarked(d: Durable, eventRef: string)
    requires Indexed(d) && !Marked(d.journal, eventRef)
    ensures ProcessedIds(d.journal, eventRef) == Ok(None)
    ensures forall e | e in d.journal :: e.id != GovernanceId("processed", eventRef)
  {
    hide Absorbs;
    FindMeans(d.journal, GovernanceId("processed", eventRef));
    forall e | e in d.journal ensures e.id != GovernanceId("processed", eventRef) {
      assert Minted(e);
    }
  }

  lemma MarkerFits(d: Durable, eventRef: string, os: seq<ReviewObligation>, taken: Durable)
    requires BatchIn(d, os, taken) && forall e | e in d.journal :: e.id != GovernanceId("processed", eventRef)
    ensures ProcessedEvent(eventRef, IdsOf(os)) !in taken.journal && Takes(taken.journal, ProcessedEvent(eventRef, IdsOf(os)))
  {
    hide EncodeObligation;
  }

  // ------------------------------------------------------------- steps of a lifecycle

  function Or<T>(r: Result<T, GovernanceError>, otherwise: T): T {
    match r
    case Ok(value) => value
    case Err(_) => otherwise
  }

  /** What the kernel admits is what the store then holds, and the journal gains its event, if it is new. */
  lemma KernelStepsExactly(
    d: Durable, decision: GovernanceDecision, a: GovernedApplication, authority: AuthorityCheck, freshness: FreshnessLookup,
    transition: Option<GovernedApplication>
  )
    requires Indexed(d)
    ensures StepAfter(d, LifecycleStep.Record(decision, authority)) ==
      match RecordDecision(d.config, decision, authority)
      case Some(next) => if decision.id in d.config.decisions then d else Durable(next, d.journal + [DecisionRecordedEvent(decision)])
      case None => d
    ensures StepAfter(d, LifecycleStep.Apply(a, authority, freshness)) ==
      match ApplyStateTransition(d.config, a, authority, freshness)
      case Some(next) =>
        assert a.id in next.applications && a.schemeId in next.states;
        Durable(next, d.journal + [ApplicationCommittedEvent(next.applications[a.id], Some(next.states[a.schemeId]))])
      case None => d
    ensures StepAfter(d, LifecycleStep.Close(a, authority, freshness, transition)) ==
      match ApplyReviewDischarge(d.config, a, authority, freshness, transition)
      case Some(next) =>
        assert a.id in next.applications;
        Durable(next, d.journal + [ApplicationCommittedEvent(next.applications[a.id], None)])
      case None => d
  {
    hide Indexed, RecordDecision, ApplyStateTransition, ApplyReviewDischarge, CommitDecision, CommitStateApplication,
      CommitReviewDischarge, DecisionRecordedEvent, ApplicationCommittedEvent;
    RecordStep(d, decision, authority);
    ApplyStep(d, a, authority, freshness);
    CloseStep(d, a, authority, freshness, transition);
  }

  lemma RecordStep(d: Durable, decision: GovernanceDecision, authority: AuthorityCheck)
    requires Indexed(d)
    ensures StepAfter(d, LifecycleStep.Record(decision, authority)) ==
      match RecordDecision(d.config, decision, authority)
      case Some(next) => if decision.id in d.config.decisions then d else Durable(next, d.journal + [DecisionRecordedEvent(decision)])
      case None => d
  {
    hide Indexed, CommitDecision, DecisionRecordedEvent, ReviewInputMatches;
    if RecordDecision(d.config, decision, authority).Some? {
      RecordingRefines(d, decision, authority);
      DecisionCommittedExactly(d, decision);
    }
  }

  lemma ApplyStep(d: Durable, a: GovernedApplication, authority: AuthorityCheck, freshness: FreshnessLookup)
    requires Indexed(d)
    ensures StepAfter(d, LifecycleStep.Apply(a, authority, freshness)) ==
      match ApplyStateTransition(d.config, a, authority, freshness)
      case Some(next) =>
        assert a.id in next.applications && a.schemeId in next.states;
        Durable(next, d.journal + [ApplicationCommittedEvent(next.applications[a.id], Some(next.states[a.schemeId]))])
      case None => d
  {
    hide Indexed, CommitStateApplication, ApplicationCommittedEvent, StateAnchor, ApplicationAdmissible;
    if ApplyStateTransition(d.config, a, authority, freshness).Some? {
      ApplyingRefines(d, a, authority, freshness);
      var next := ApplyStateTransition(d.config, a, authority, freshness).value;
      StateCommittedExactly(d, a.schemeId, next.states[a.schemeId], next.applications[a.id], Some(freshness));
    }
  }

  lemma CloseStep(
    d: Durable, a: GovernedApplication, authority: AuthorityCheck, freshness: FreshnessLookup, transition: Option<GovernedApplication>
  )
    requires Indexed(d)
    ensures StepAfter(d, LifecycleStep.Close(a, authority, freshness, transition)) ==
      match ApplyReviewDischarge(d.config, a, authority, freshness, transition)
      case Some(next) =>
        assert a.id in next.applications;
        Durable(next, d.journal + [ApplicationCommittedEvent(next.applications[a.id], None)])
      case None => d
  {
    hide Indexed, CommitReviewDischarge, ApplicationCommittedEvent, ObligationsAnchor, DischargeAdmissible;
    if ApplyReviewDischarge(d.config, a, authority, freshness, transition).Some? {
      DischargingRefines(d, a, authority, freshness, transition);
      var next := ApplyReviewDischarge(d.config, a, authority, freshness, transition).value;
      DischargeCommittedExactly(d, a.reviewObligationId.value, next.applications[a.id], Some(freshness));
    }
  }

  /** Of the other steps, each does what its one operation does, or nothing. */
  lemma OtherStepsExactly(d: Durable, k: string, s: DistinctionState, e: Event)
    ensures StepAfter(d, Establish(k, s)) == Or(SeedState(d, k, s), d)
    ensures StepAfter(d, Reindex)
         == match Reconstruct(d.journal) case Ok(history) => Durable(history.configuration, d.journal) case Err(_) => d
    ensures StepAfter(d, Elsewhere(e)) ==
      match e.body {
        case DispatchCommitted(p) =>
          if e.id == DispatchId(IdentityFromPayload(p)) && Takes(d.journal, e) then Durable(d.config, With(d.journal, e)) else d
        case Unrelated(_, _) => if e.id.OpaqueId? && Takes(d.journal, e) then Durable(d.config, With(d.journal, e)) else d
        case _ => d
      }
  {
    hide SeedState, Reconstruct, IdentityFromPayload;
  }
}
