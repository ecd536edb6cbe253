/**
 Runs of the lifecycle. An id opened for one event is refused to every other, so
 projection and journal agree throughout; and a review leaves only through a
 decision whose required transition is where the scheme stands.
 */
module LifecycleRuns {
  import opened Wrappers
  import opened Text
  import opened Distinction
  import opened Canonical
  import opened History
  import opened Durable
  import opened Coherence
  import opened Runs
  import opened Provenance
  import opened Precedence
  import opened Lifecycle
  import opened ReviewEffects

  // ------------------------------------------------------- spent ids never come back

  ghost predicate AddsNoReview(j: Journal, longer: Journal) {
    && j <= longer
    && forall e | e in longer :: e in j || !e.body.ReviewOpened?
  }

  /** The event is marked processed. */
  ghost predicate Marked(journal: Journal, eventRef: string) {
    exists m | m in journal :: m.body.EventProcessed? && m.id == GovernanceId("processed", eventRef)
  }

  /** Every review was opened for an event that is by now marked processed. */
  ghost predicate TriggersMarked(journal: Journal) {
    forall e | e in journal && e.body.ReviewOpened? :: Marked(journal, e.body.obligation.triggerRef)
  }

  lemma MarkPersists(j: Journal, longer: Journal, eventRef: string)
    requires j <= longer && Marked(j, eventRef)
    ensures Marked(longer, eventRef)
  {
    var m :| m in j && m.body.EventProcessed? && m.id == GovernanceId("processed", eventRef);
    assert m in longer;
  }

  /** A marked event is not taken for a new one. */
  lemma MarkedIsProcessed(journal: Journal, eventRef: string)
    requires DistinctIds(journal) && Marked(journal, eventRef)
    ensures ProcessedIds(journal, eventRef) != Ok(None)
  {
    var m :| m in journal && m.body.EventProcessed? && m.id == GovernanceId("processed", eventRef);
    FindMeans(journal, m.id);
    FoundIsTheOne(journal, m, Find(journal, m.id).value);
  }

  lemma FoundIsTheOne(journal: Journal, e: Event, f: Event)
    requires DistinctIds(journal) && e in journal && f in journal && e.id == f.id
    ensures e == f
  {
  }

  lemma OtherStepsAddNoReview(d: Durable, op: Operation)
    requires !op.OpenOne? && !op.OpenFor?
    ensures AddsNoReview(d.journal, After(d, op).journal)
  {
    hide After, Perform;
    StepExtends(d, op);
    var longer := After(d, op).journal;
    forall e | e in longer && e.body.ReviewOpened? ensures e in d.journal {
      var i :| 0 <= i < |longer| && longer[i] == e;
      assert i < |d.journal| ==> longer[i] == d.journal[i];
    }
  }

  lemma AddsNoReviewKeepsMarks(j: Journal, longer: Journal)
    requires AddsNoReview(j, longer) && TriggersMarked(j)
    ensures TriggersMarked(longer)
  {
    hide Marked;
    forall e | e in longer && e.body.ReviewOpened? ensures Marked(longer, e.body.obligation.triggerRef) {
      MarkPersists(j, longer, e.body.obligation.triggerRef);
    }
  }

  lemma {:induction false} BatchAdds(d: Durable, os: seq<ReviewObligation>)
    requires OpenBatch(d, os).Ok?
    ensures var after := OpenBatch(d, os).value.journal;
      && d.journal <= after
      && forall e | e in after && e.body.ReviewOpened? :: e in d.journal || exists o | o in os :: e == ReviewOpenedEvent(o)
  {
    hide Append, ReviewOpenedEvent, WithObligation;
    if os != [] {
      var prefix, o := os[..|os| - 1], os[|os| - 1];
      assert os == prefix + [o];
      BatchAdds(d, prefix);
      AppendAdds(OpenBatch(d, prefix).value.journal, ReviewOpenedEvent(o));
    }
  }

  /** An accepted batch writes each of its reviews, and nothing but them, for the event it marks. */
  lemma OpenForAdds(d: Durable, eventRef: string, os: seq<ReviewObligation>)
    requires CommitEventObligations(d, eventRef, os).Ok? && ProcessedIds(d.journal, eventRef) == Ok(None)
    ensures forall o | o in os :: o.triggerRef == eventRef
    ensures var after := CommitEventObligations(d, eventRef, os).value.0.journal;
      && d.journal <= after
      && Marked(after, eventRef)
      && (forall o | o in os :: ReviewOpenedEvent(o) in after)
      && forall e | e in after && e.body.ReviewOpened? :: e in d.journal || exists o | o in os :: e == ReviewOpenedEvent(o)
  {
    hide ValidateBatch, OpenBatch, ReviewOpenedEvent, Append;
    EventObligationsFacts(d, eventRef, os);
    BatchAdds(d, os);
    var batch := OpenBatch(d, os).value.journal;
    AppendAdds(batch, ProcessedEvent(eventRef, IdsOf(os)));
    forall o | o in os ensures ReviewOpenedEvent(o) in batch {
      BatchRecords(d, os, o);
    }
  }

  lemma OpenForKeepsMarks(d: Durable, eventRef: string, os: seq<ReviewObligation>)
    requires CommitEventObligations(d, eventRef, os).Ok? && TriggersMarked(d.journal)
    ensures TriggersMarked(CommitEventObligations(d, eventRef, os).value.0.journal)
  {
    hide Marked, CommitEventObligations, ProcessedIds;
    if ProcessedIds(d.journal, eventRef) == Ok(None) {
      OpenForAdds(d, eventRef, os);
      var after := CommitEventObligations(d, eventRef, os).value.0.journal;
      forall e | e in after && e.body.ReviewOpened? ensures Marked(after, e.body.obligation.triggerRef) {
        if e in d.journal {
          MarkPersists(d.journal, after, e.body.obligation.triggerRef);
        }
      }
    } else {
      ProcessedChangesNothing(d, eventRef, os);
    }
  }

  lemma ProcessedChangesNothing(d: Durable, eventRef: string, os: seq<ReviewObligation>)
    requires CommitEventObligations(d, eventRef, os).Ok? && ProcessedIds(d.journal, eventRef) != Ok(None)
    ensures CommitEventObligations(d, eventRef, os).value.0 == d
  {
  }

  /**
   Where every review was opened for a processed event, a new event cannot claim
   an id that was ever opened: the journal holds that id with another trigger.
   */
  lemma SpentIdIsRefused(d: Durable, eventRef: string, os: seq<ReviewObligation>, o: ReviewObligation, e: Event)
    requires Indexed(d) && TriggersMarked(d.journal) && ProcessedIds(d.journal, eventRef) == Ok(None)
    requires o in os && e in d.journal && e.body.ReviewOpened? && e.body.obligation.id == o.id
    ensures CommitEventObligations(d, eventRef, os).Err?
  {
    hide Marked, CommitEventObligations, ProcessedIds, Absorbs, Append;
    if CommitEventObligations(d, eventRef, os).Ok? {
      OpenForAdds(d, eventRef, os);
      EventObligationsIndexed(d, eventRef, os);
      var after := CommitEventObligations(d, eventRef, os).value.0.journal;
      assert e in after && Minted(e);
      FoundIsTheOne(after, e, ReviewOpenedEvent(o));
      MarkedIsProcessed(d.journal, eventRef);
      assert false;
    }
  }

  /** Nor can a batch claim one id for two reviews: neither the keys nor the journal would let both in. */
  lemma RepeatedIdsRefused(d: Durable, eventRef: string, os: seq<ReviewObligation>, i: nat, j: nat)
    requires Indexed(d) && ProcessedIds(d.journal, eventRef) == Ok(None)
    requires i < j < |os| && os[i].id == os[j].id
    ensures CommitEventObligations(d, eventRef, os).Err?
  {
    hide CommitEventObligations, ProcessedIds, Absorbs, Append, EncodeObligation, RestoreObligation, KeyOf, ValidateBatch;
    if CommitEventObligations(d, eventRef, os).Ok? {
      OpenForAdds(d, eventRef, os);
      EventObligationsIndexed(d, eventRef, os);
      EventObligationsFacts(d, eventRef, os);
      var after := CommitEventObligations(d, eventRef, os).value.0.journal;
      FoundIsTheOne(after, ReviewOpenedEvent(os[i]), ReviewOpenedEvent(os[j]));
      ObligationRoundTrip(os[i]);
      ObligationRoundTrip(os[j]);
      AcceptedKeysDiffer(d.config, os, i, j);
      assert false;
    }
  }

  lemma {:induction false} AcceptedKeysDiffer(config: Configuration, os: seq<ReviewObligation>, i: nat, j: nat)
    requires ValidateBatch(config, os).Ok? && i < j < |os|
    ensures KeyOf(os[i]) != KeyOf(os[j])
  {
    hide KeyOf, ValidateObligation;
    var prefix := os[..|os| - 1];
    BatchKeys(config, prefix);
    if j < |prefix| {
      AcceptedKeysDiffer(config, prefix, i, j);
    } else {
      assert os[i] in prefix;
    }
  }

  // ------------------------------------------------------------------- derived ids

  /** The event part of a derived id can be read back from ids of events free of the separator. */
  lemma ObligationIdFixesEvent(e: string, f: string, t: string, u: string, c: string, k: string)
    requires UNIT_SEPARATOR !in e && UNIT_SEPARATOR !in f && ObligationId(e, t, c) == ObligationId(f, u, k)
    ensures e == f
  {
    var x, y := t + [UNIT_SEPARATOR] + c, u + [UNIT_SEPARATOR] + k;
    assert ObligationId(e, t, c)[7..] == e + [UNIT_SEPARATOR] + x;
    assert ObligationId(f, u, k)[7..] == f + [UNIT_SEPARATOR] + y;
    HeadDetermined(UNIT_SEPARATOR, e, f, x, y);
  }

  /** Otherwise two events can derive the same id; the second of them to come is then refused. */
  lemma SeparatorsAlias()
    ensures ObligationId("a" + [UNIT_SEPARATOR] + "b", "c", "d") == ObligationId("a", "b" + [UNIT_SEPARATOR] + "c", "d")
  {
  }

  // ------------------------------------------------------------- discharged was opened

  lemma DischargeSupport(earlier: Journal, e: Event, id: string) returns (f: Event)
    requires Supported(earlier, e) && id in Discharges(e)
    ensures f in earlier && f.body.DecisionEntered? && RestoreDecision(f.body.decision).Ok?
    ensures id in RestoreDecision(f.body.decision).value.reviewRefs
  {
    hide Linked, OpenedIn, RestoreDecision;
    var r := RestoreReceipt(e.body.receipt);
    assert DecidedIn(earlier, r);
    f :| f in earlier && f.body.DecisionEntered? && RestoreDecision(f.body.decision).Ok?
      && id in RestoreDecision(f.body.decision).value.reviewRefs;
  }

  lemma DecisionSupport(earlier: Journal, f: Event, id: string) returns (g: Event)
    requires Supported(earlier, f) && f.body.DecisionEntered? && RestoreDecision(f.body.decision).Ok?
    requires id in RestoreDecision(f.body.decision).value.reviewRefs
    ensures g in earlier && g.body.ReviewOpened? && g.body.obligation.id == id
  {
    hide BasisKeys, DecidedIn, RestoreDecision;
    assert OpenedIn(earlier, id, RestoreDecision(f.body.decision).value);
    g :| g in earlier && g.body.ReviewOpened? && RestoreObligation(g.body.obligation).id == id;
  }

  lemma SupportAt(journal: Journal, e: Event) returns (i: nat)
    requires InOrder(journal) && e in journal
    ensures i < |journal| && journal[i] == e && Supported(journal[..i], e)
    ensures forall x | x in journal[..i] :: x in journal
  {
    hide Supported;
    i :| 0 <= i < |journal| && journal[i] == e;
  }

  lemma DischargedWasOpened(journal: Journal, id: string)
    requires InOrder(journal) && id in DischargedIds(journal)
    ensures exists e | e in journal :: e.body.ReviewOpened? && e.body.obligation.id == id
  {
    hide InOrder, Supported, Discharges, RestoreDecision;
    var e :| e in journal && id in Discharges(e);
    var i := SupportAt(journal, e);
    var f := DischargeSupport(journal[..i], e, id);
    var j := SupportAt(journal, f);
    var g := DecisionSupport(journal[..j], f, id);
    assert g in journal;
  }

  // ------------------------------------------------------------------ lifecycle runs

  lemma StepKeepsMarks(d: Durable, op: Operation)
    requires TriggersMarked(d.journal) && !op.OpenOne?
    ensures TriggersMarked(After(d, op).journal)
  {
    hide TriggersMarked, CommitEventObligations;
    if op.OpenFor? {
      if Perform(d, op).Ok? {
        OpenForKeepsMarks(d, op.eventRef, op.obligations);
      }
    } else {
      OtherStepsAddNoReview(d, op);
      AddsNoReviewKeepsMarks(d.journal, After(d, op).journal);
    }
  }

  lemma AcceptedNeverStrays(d: Durable, op: Operation)
    requires Indexed(d) && InOrder(d.journal) && TriggersMarked(d.journal)
    requires ThroughEvents(op) && Perform(d, op).Ok?
    ensures !Strays(d, op)
  {
    hide Indexed, InOrder, TriggersMarked, DischargedIds, ProcessedIds, CommitEventObligations;
    if op.OpenFor? && ProcessedIds(d.journal, op.eventRef) == Ok(None) {
      forall o | o in op.obligations ensures o.id !in DischargedIds(d.journal) {
        if o.id in DischargedIds(d.journal) {
          DischargedWasOpened(d.journal, o.id);
          var e :| e in d.journal && e.body.ReviewOpened? && e.body.obligation.id == o.id;
          SpentIdIsRefused(d, op.eventRef, op.obligations, o, e);
        }
      }
    }
  }

  lemma NothingMarked()
    ensures TriggersMarked([])
  {
  }

  /** Where reviews are opened for events only, and under non-empty ids, projection and journal agree throughout. */
  lemma {:induction false} EventRunsStayCoherent(ops: seq<Operation>)
    requires AllThroughEvents(ops)
    ensures Coherent(Run(ops)) && TriggersMarked(Run(ops).journal)
  {
    hide Coherent, Indexed, InOrder, TriggersMarked, After, Strays, Perform;
    if ops == [] {
      EmptyIsCoherent();
      NothingMarked();
    } else {
      var prefix, op := ops[..|ops| - 1], ops[|ops| - 1];
      EventRunsStayCoherent(prefix);
      EveryRunIsIndexed(prefix);
      EveryRunIsInOrder(prefix);
      StepKeepsMarks(Run(prefix), op);
      if Perform(Run(prefix), op).Ok? {
        AcceptedNeverStrays(Run(prefix), op);
        StepCoherentExactly(Run(prefix), op);
      } else {
        RefusedChangesNothing(Run(prefix), op);
      }
    }
  }

  lemma RefusedChangesNothing(d: Durable, op: Operation)
    requires Perform(d, op).Err?
    ensures After(d, op) == d
  {
  }

  /** Through the lifecycle, projection and journal agree on every run, whatever the events are called. */
  lemma LifecycleStaysCoherent(steps: seq<LifecycleStep>)
    ensures Coherent(LifecycleRun(steps))
  {
    hide Coherent, LifecycleRun, Run;
    var ops := LifecycleRunIsARun(steps);
    EventRunsStayCoherent(ops);
  }

  // ------------------------------------------------------------ how a review leaves

  lemma RealizedFacts(decision: GovernanceDecision, a: GovernedApplication, config: Configuration)
    requires RequiredTransitionRealized(decision, a, config)
    ensures decision.target in config.states && a.id in config.applications
    ensures var r := config.applications[a.id];
      && r.application == a && r.effectKind == "state"
      && a.schemeId == decision.target && a.decisionRef == decision.id
      && r.postAnchor == StateAnchor(config.states[decision.target])
  {
    hide StateAnchor, StateAdmissibleFor;
  }

  lemma FitsAnchors(k: string, current: DistinctionState, t: Transition)
    requires Fits(k, current, t)
    ensures t.receipt.postAnchor == StateAnchor(t.next)
  {
    hide StateAnchor, StateAdmissibleFor;
  }

  lemma LatestIsLast(k: string, seed: DistinctionState, track: seq<Transition>, i: nat)
    requires Chained(k, seed, track) && StateAdmissibleFor(k, seed) && i < |track|
    requires track[i].receipt.postAnchor == StateAnchor(Latest(seed, track))
    ensures i == |track| - 1
  {
    hide StateAnchor, StateAdmissibleFor, Fits;
    FitsAnchors(k, Latest(seed, track[..i]), track[i]);
    assert Latest(seed, track[..i + 1]) == track[i].next;
    assert track[..|track|] == track;
    AnchorsArePositions(k, seed, track, i + 1, |track|);
  }

  /** A realized required transition is the scheme's latest, on any run. */
  lemma RealizedIsLatest(ops: seq<Operation>, decision: GovernanceDecision, a: GovernedApplication)
    requires RequiredTransitionRealized(decision, a, Run(ops).config)
    ensures var track := Track(Run(ops).journal, decision.target);
      && track != []
      && track[|track| - 1].receipt.application == a
      && a.decisionRef == decision.id
  {
    hide RequiredTransitionRealized, StateAnchor, Indexed, StateAdmissibleFor, Chained, Track, SeedOf, Run;
    var d, k := Run(ops), decision.target;
    EveryRunIsTraceable(ops);
    RealizedFacts(decision, a, d.config);
    var r := d.config.applications[a.id];
    assert Tracked(d.journal, r);
    var track := Track(d.journal, k);
    var i :| 0 <= i < |track| && track[i].receipt == r;
    NoChainNeeded(d, k);
    LatestIsLast(k, SeedOf(d.journal, k).value, track, i);
  }

  /** The answer a discharge rests on: a decision citing the review, with its closure facts and its effect in place. */
  ghost predicate AnsweredBy(d: Durable, id: string, decision: GovernanceDecision) {
    && id in d.config.obligations
    && decision.id in d.config.decisions && d.config.decisions[decision.id] == decision
    && id in decision.reviewRefs
    && decision.target in d.config.states
    && d.config.obligations[id].closureRequirements <= decision.closureFacts
    && var track := Track(d.journal, decision.target);
    && (decision.disposition == "no_change"
        || (&& decision.disposition == "transition_required"
            && track != []
            && track[|track| - 1].receipt.application.decisionRef == decision.id))
    && (decision.disposition == "no_change" ==>
          StateAnchor(d.config.states[decision.target]) == decision.expectedStateAnchor)
  }

  lemma DischargeIsAnswered(
    ops: seq<Operation>, a: GovernedApplication, authority: AuthorityCheck, freshness: FreshnessLookup,
    transition: Option<GovernedApplication>
  )
    requires DischargeAdmissible(Run(ops).config, a, authority, freshness, transition)
    ensures a.reviewObligationId.Some? && a.decisionRef in Run(ops).config.decisions
    ensures AnsweredBy(Run(ops), a.reviewObligationId.value, Run(ops).config.decisions[a.decisionRef])
  {
    hide Indexed, StateAnchor, StateAdmissibleFor, Track, Run, RequiredTransitionRealized, BasisUnchanged, MatchesSnapshot,
      DischargeAuthorityRequest;
    var d := Run(ops);
    EveryRunIsIndexed(ops);
    FiledUnderOwnId(d);
    var decision := d.config.decisions[a.decisionRef];
    if decision.disposition == "transition_required" {
      RealizedIsLatest(ops, decision, transition.value);
    }
  }

  lemma StepsKeepReviews(d: Durable, op: Operation, id: string)
    requires Coherent(d) && id in d.config.obligations && !op.Discharge?
    ensures id in After(d, op).config.obligations
  {
    hide Coherent, ValidateObligation, ReviewInputMatches, StateAdmissibleFor, CommitStateApplication, CommitEventObligations;
    if Perform(d, op).Ok? {
      match op
      case OpenFor(eventRef, os) =>
        if ProcessedIds(d.journal, eventRef) == Ok(None) {
          EventObligationsFacts(d, eventRef, os);
          BatchKeepsReviews(d, os, id);
        } else {
          ProcessedChangesNothing(d, eventRef, os);
        }
      case ApplyState(k, next, r, freshness) => StateApplicationFacts(d, k, next, r, freshness);
      case RebuildAll => RebuildIsIdentity(d);
      case _ =>
    }
  }

  lemma {:induction false} BatchKeepsReviews(d: Durable, os: seq<ReviewObligation>, id: string)
    requires OpenBatch(d, os).Ok? && id in d.config.obligations
    ensures id in OpenBatch(d, os).value.config.obligations
  {
    if os != [] {
      BatchKeepsReviews(d, os[..|os| - 1], id);
    }
  }

  /** An open review leaves by discharge alone, and only when the decision the discharge cites has been carried through. */
  lemma {:induction false} LeavesUnderItsDecision(steps: seq<LifecycleStep>, step: LifecycleStep, id: string)
    requires id in LifecycleRun(steps).config.obligations
    requires id !in StepAfter(LifecycleRun(steps), step).config.obligations
    ensures step.Close? && step.application.reviewObligationId == Some(id)
    ensures step.application.decisionRef in LifecycleRun(steps).config.decisions
    ensures AnsweredBy(LifecycleRun(steps), id, LifecycleRun(steps).config.decisions[step.application.decisionRef])
  {
    hide Coherent, Indexed, AnsweredBy, DischargeAdmissible, StepAfter, After, LifecycleRun, Run, Admitted;
    var d := LifecycleRun(steps);
    LifecycleStaysCoherent(steps);
    OnlyCloseDischarges(d, step, id);
    var ops := LifecycleRunIsARun(steps);
    DischargeIsAnswered(ops, step.application, step.authority, step.freshness, step.transition);
  }

  lemma ReviewLeavesOnlyAnswered(steps: seq<LifecycleStep>, step: LifecycleStep, id: string)
    requires id in LifecycleRun(steps).config.obligations
    requires id !in StepAfter(LifecycleRun(steps), step).config.obligations
    ensures step.Close? && step.application.reviewObligationId == Some(id)
    ensures exists decision :: AnsweredBy(LifecycleRun(steps), id, decision)
  {
    LeavesUnderItsDecision(steps, step, id);
  }

  lemma OnlyCloseDischarges(d: Durable, step: LifecycleStep, id: string)
    requires Coherent(d) && id in d.config.obligations && id !in StepAfter(d, step).config.obligations
    ensures step.Close? && step.application.reviewObligationId == Some(id)
    ensures DischargeAdmissible(d.config, step.application, step.authority, step.freshness, step.transition)
  {
    hide Coherent, After, DischargeAdmissible, ApplicationAdmissible, DecisionAdmissible, ProjectAll;
    var op := Admitted(d, step).value;
    if !step.Close? {
      StepsKeepReviews(d, op, id);
    } else {
      ClosingRemovesOne(d, op, id);
      NamesItsReview(d.config, step.application, step.authority, step.freshness, step.transition);
    }
  }

  lemma NamesItsReview(
    config: Configuration, a: GovernedApplication, authority: AuthorityCheck, freshness: FreshnessLookup,
    transition: Option<GovernedApplication>
  )
    ensures DischargeAdmissible(config, a, authority, freshness, transition) ==> a.reviewObligationId.Some?
  {
  }

  lemma ClosingRemovesOne(d: Durable, op: Operation, id: string)
    requires op.Discharge? && id in d.config.obligations && id !in After(d, op).config.obligations
    ensures op.obligationId == id
  {
    hide CommitReviewDischarge;
    if Perform(d, op).Ok? {
      DischargeFacts(d, op.obligationId, op.receipt, op.freshness);
    }
  }
}
