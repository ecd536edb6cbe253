/**
 What a change asks for: which reviews it opens, what they say, when it is taken
 up at all, and that what a review asks for is shown by whatever closes it.
 */
module ReviewContents {
  import opened Wrappers
  import opened Text
  import opened Distinction
  import opened Canonical
  import opened History
  import opened Durable
  import opened Coherence
  import opened Runs
  import opened Precedence
  import opened Lifecycle
  import opened ReviewEffects
  import opened LifecycleRuns

  /** The actions that call for a review. */
  predicate CallsForReview(action: string) {
    action == "background-revalidate" || action == "block-next-use" || action == "require-human-review" || action == "reopen"
  }

  /** What a decision has to show before the review may close. */
  predicate MustShow(action: string, fact: string) {
    || fact == "basis_checked"
    || (fact == "human_reviewed" && action == "require-human-review")
    || (fact == "reopen_resolved" && action == "reopen")
  }

  function ReviewId(eventRef: string, target: string, context: string): string {
    "review_" + eventRef + "\U{1f}" + target + "\U{1f}" + context
  }

  /** The review says what the assessment asks for: who, why, whom it stops, what closes it, and which decisions lose their ground. */
  ghost predicate ReviewFor(o: ReviewObligation, config: Configuration, eventRef: string, context: string, a: Assessment) {
    && o.id == ReviewId(eventRef, a.affectedRef, context)
    && o.target == a.affectedRef && o.triggerRef == eventRef && o.basisRefs == [a.changeRef] && o.context == context
    && (o.blocking <==> a.action != "background-revalidate")
    && o.blockingCondition == (if o.blocking then Some(BlockingCondition({context}, {}, {})) else None)
    && (forall fact :: fact in o.closureRequirements <==> MustShow(a.action, fact))
    && (forall id :: id in o.invalidatesDecisions <==>
          exists d | d in config.decisions.Values :: d.id == id && d.target == a.affectedRef && d.context == context)
  }

  lemma ProjectedExactly(config: Configuration, eventRef: string, context: string, a: Assessment)
    ensures Project(config, eventRef, context, a).Err? <==> a.changeRef == ""
    ensures a.changeRef != "" ==>
      var p := Project(config, eventRef, context, a).value;
      && (p.NotRequired? <==> !CallsForReview(a.action))
      && (p.Unprojectable? <==> CallsForReview(a.action) && a.affectedRef !in config.states)
      && (p.Unprojectable? ==> (p.blocking <==> a.action != "background-revalidate"))
      && (p.Ready? ==> ReviewFor(p.obligation, config, eventRef, context, a))
  {
    assert ObligationId(eventRef, a.affectedRef, context) == ReviewId(eventRef, a.affectedRef, context);
    if a.changeRef != "" && Project(config, eventRef, context, a).value.Ready? {
      InvalidatesExactly(config, eventRef, context, a);
    }
  }

  lemma InvalidatesExactly(config: Configuration, eventRef: string, context: string, a: Assessment)
    requires Project(config, eventRef, context, a).Ok? && Project(config, eventRef, context, a).value.Ready?
    ensures var o := Project(config, eventRef, context, a).value.obligation;
      forall id :: id in o.invalidatesDecisions <==>
        exists d | d in config.decisions.Values :: d.id == id && d.target == a.affectedRef && d.context == context
  {
    hide ObligationId, ClosureRequirements;
    var o := Project(config, eventRef, context, a).value.obligation;
    forall id ensures id in o.invalidatesDecisions <==>
      exists d | d in config.decisions.Values :: d.id == id && d.target == a.affectedRef && d.context == context
    {
      if id in o.invalidatesDecisions {
        var k :| k in config.decisions && config.decisions[k].target == a.affectedRef && config.decisions[k].context == context
          && config.decisions[k].id == id;
        assert config.decisions[k] in config.decisions.Values;
      }
      if exists d | d in config.decisions.Values :: d.id == id && d.target == a.affectedRef && d.context == context {
        var d :| d in config.decisions.Values && d.id == id && d.target == a.affectedRef && d.context == context;
        var k :| k in config.decisions && config.decisions[k] == d;
      }
    }
  }

  // -------------------------------------------------------- all that a change opens

  lemma {:induction false} ReadyComesFrom(
    config: Configuration, eventRef: string, context: string, assessments: seq<Assessment>, o: ReviewObligation
  ) returns (i: nat)
    requires ProjectAll(config, eventRef, context, assessments).Ok?
    requires o in ProjectAll(config, eventRef, context, assessments).value.ready
    ensures i < |assessments| && Project(config, eventRef, context, assessments[i]) == Ok(Ready(o))
  {
    hide Project;
    var prefix := assessments[..|assessments| - 1];
    if Project(config, eventRef, context, assessments[|assessments| - 1]) == Ok(Ready(o)) {
      i := |assessments| - 1;
    } else {
      i := ReadyComesFrom(config, eventRef, context, prefix, o);
    }
  }

  /**
   A change that is taken up opens for every assessment that calls for it the
   review it describes, opens no other, and leaves every review open that was.
   */
  lemma OpenedExactly(
    d: Durable, eventRef: string, context: string, assessments: seq<Assessment>
  )
    requires Indexed(d) && TakenUp(d, eventRef, context, assessments)
    ensures var before, after := d.config.obligations, StepAfter(d, Observe(eventRef, context, assessments)).config.obligations;
      && (forall i | 0 <= i < |assessments| && CallsForReview(assessments[i].action) ::
            var id := ReviewId(eventRef, assessments[i].affectedRef, context);
            id in after && ReviewFor(after[id], d.config, eventRef, context, assessments[i]))
      && (forall id | id in before :: id in after && after[id] == before[id])
      && (forall id | id in after && id !in before ::
            exists i | 0 <= i < |assessments| ::
              CallsForReview(assessments[i].action) && ReviewFor(after[id], d.config, eventRef, context, assessments[i]))
  {
    hide ProjectAll, Project, Indexed, CommitEventObligations, ProcessedIds, StepAfter, TakenUp, ReviewFor, CallsForReview;
    TakenUpFacts(d, eventRef, context, assessments);
    var os := ProjectAll(d.config, eventRef, context, assessments).value.ready;
    var after := StepAfter(d, Observe(eventRef, context, assessments)).config.obligations;
    forall i | 0 <= i < |assessments| && CallsForReview(assessments[i].action)
      ensures var id := ReviewId(eventRef, assessments[i].affectedRef, context);
        id in after && ReviewFor(after[id], d.config, eventRef, context, assessments[i])
    {
      ReadyIncludes(d.config, eventRef, context, assessments, i);
      ProjectedExactly(d.config, eventRef, context, assessments[i]);
      var o := Project(d.config, eventRef, context, assessments[i]).value.obligation;
      CommittedReviewsAreOpen(d, eventRef, os, o);
      IdOfReview(o, d.config, eventRef, context, assessments[i]);
    }
    EventObligationsFacts(d, eventRef, os);
    BatchKeepsAndAdds(d, os);
    forall id | id in after && id !in d.config.obligations
      ensures exists i | 0 <= i < |assessments| ::
        CallsForReview(assessments[i].action) && ReviewFor(after[id], d.config, eventRef, context, assessments[i])
    {
      var i := ReadyComesFrom(d.config, eventRef, context, assessments, after[id]);
      ProjectedExactly(d.config, eventRef, context, assessments[i]);
    }
  }

  lemma IdOfReview(o: ReviewObligation, config: Configuration, eventRef: string, context: string, a: Assessment)
    requires ReviewFor(o, config, eventRef, context, a)
    ensures o.id == ReviewId(eventRef, a.affectedRef, context)
  {
  }

  lemma {:induction false} BatchKeepsAndAdds(d: Durable, os: seq<ReviewObligation>)
    requires ValidateBatch(d.config, os).Ok? && OpenBatch(d, os).Ok?
    ensures var before, after := d.config.obligations, OpenBatch(d, os).value.config.obligations;
      && (forall id | id in before :: id in after && after[id] == before[id])
      && (forall id | id in after && id !in before :: after[id] in os)
  {
    hide Append, KeyOf, KeyOpen;
    if os != [] {
      var prefix, o := os[..|os| - 1], os[|os| - 1];
      assert os == prefix + [o];
      LastIsNew(d.config, os);
      BatchKeepsAndAdds(d, prefix);
    }
  }

  // ---------------------------------------------------- from opening to discharge

  lemma {:induction false} LifecycleJournalGrows(steps: seq<LifecycleStep>, more: seq<LifecycleStep>)
    ensures LifecycleRun(steps).journal <= LifecycleRun(steps + more).journal
  {
    hide Admitted, After;
    if more == [] {
      assert steps + more == steps;
    } else {
      var prefix, last := more[..|more| - 1], more[|more| - 1];
      assert (steps + more)[..|steps + more| - 1] == steps + prefix;
      LifecycleJournalGrows(steps, prefix);
      var d := LifecycleRun(steps + prefix);
      if Admitted(d, last).Some? {
        StepExtends(d, Admitted(d, last).value);
      }
    }
  }

  /** As long as a review is open it says what it said when it was opened. */
  lemma ReviewStaysAsOpened(d: Durable, o: ReviewObligation)
    requires Indexed(d) && ReviewOpenedEvent(o) in d.journal && o.id in d.config.obligations
    ensures d.config.obligations[o.id] == o
  {
    hide ReviewOpenedEvent;
    ReopeningIndexed(d, o);
    OpenIsAsOpened(d, o.id);
  }

  lemma TakenUpIsWritten(d: Durable, eventRef: string, context: string, assessments: seq<Assessment>, i: nat)
    returns (o: ReviewObligation)
    requires Indexed(d) && TakenUp(d, eventRef, context, assessments) && i < |assessments| && CallsForReview(assessments[i].action)
    ensures ReviewFor(o, d.config, eventRef, context, assessments[i])
    ensures ReviewOpenedEvent(o) in StepAfter(d, Observe(eventRef, context, assessments)).journal
  {
    hide ProjectAll, Project, Indexed, CommitEventObligations, ProcessedIds, StepAfter, TakenUp, ReviewFor, CallsForReview,
      ReviewOpenedEvent;
    TakenUpFacts(d, eventRef, context, assessments);
    ReadyIncludes(d.config, eventRef, context, assessments, i);
    ProjectedExactly(d.config, eventRef, context, assessments[i]);
    o := Project(d.config, eventRef, context, assessments[i]).value.obligation;
    OpenForAdds(d, eventRef, ProjectAll(d.config, eventRef, context, assessments).value.ready);
  }

  /**
   Whatever happens in between: a review that a change opened leaves the lifecycle
   only by discharge, under a decision that shows everything the action asked for,
   a human review where one was required and the resolution of a reopening.
   */
  lemma {:induction false} AskedForIsShown(
    steps: seq<LifecycleStep>, eventRef: string, context: string, assessments: seq<Assessment>, i: nat,
    more: seq<LifecycleStep>, last: LifecycleStep, fact: string
  )
    requires TakenUp(LifecycleRun(steps), eventRef, context, assessments)
    requires i < |assessments| && CallsForReview(assessments[i].action) && MustShow(assessments[i].action, fact)
    requires var d := LifecycleRun(steps + [Observe(eventRef, context, assessments)] + more);
      var id := ReviewId(eventRef, assessments[i].affectedRef, context);
      id in d.config.obligations && id !in StepAfter(d, last).config.obligations
    ensures var d := LifecycleRun(steps + [Observe(eventRef, context, assessments)] + more);
      && last.Close? && last.application.decisionRef in d.config.decisions
      && var decision := d.config.decisions[last.application.decisionRef];
      && AnsweredBy(d, ReviewId(eventRef, assessments[i].affectedRef, context), decision)
      && fact in decision.closureFacts
  {
    hide TakenUp, Indexed, AnsweredBy, StepAfter, LifecycleRun, ReviewFor, CallsForReview, MustShow, ReviewId, ReviewOpenedEvent;
    var opening := steps + [Observe(eventRef, context, assessments)];
    var before, d := LifecycleRun(steps), LifecycleRun(opening + more);
    LifecycleIsIndexed(steps);
    LifecycleIsIndexed(opening + more);
    var o := TakenUpIsWritten(before, eventRef, context, assessments, i);
    OneStepLater(steps, Observe(eventRef, context, assessments));
    LifecycleJournalGrows(opening, more);
    IdOfReview(o, before.config, eventRef, context, assessments[i]);
    ReviewStaysAsOpened(d, o);
    LeavesUnderItsDecision(opening + more, last, o.id);
    RequirementsOf(o, before.config, eventRef, context, assessments[i], fact);
    AnswerShows(d, o.id, d.config.decisions[last.application.decisionRef], fact);
  }

  lemma OneStepLater(steps: seq<LifecycleStep>, step: LifecycleStep)
    ensures LifecycleRun(steps + [step]) == StepAfter(LifecycleRun(steps), step)
  {
    assert (steps + [step])[..|steps|] == steps;
  }

  lemma LifecycleIsIndexed(steps: seq<LifecycleStep>)
    ensures Indexed(LifecycleRun(steps))
  {
    hide Indexed, LifecycleRun, Run;
    var ops := LifecycleRunIsARun(steps);
    EveryRunIsIndexed(ops);
  }

  lemma RequirementsOf(
    o: ReviewObligation, config: Configuration, eventRef: string, context: string, a: Assessment, fact: string
  )
    requires ReviewFor(o, config, eventRef, context, a)
    ensures fact in o.closureRequirements <==> MustShow(a.action, fact)
  {
  }

  lemma AnswerShows(d: Durable, id: string, decision: GovernanceDecision, fact: string)
    requires AnsweredBy(d, id, decision) && fact in d.config.obligations[id].closureRequirements
    ensures fact in decision.closureFacts
  {
  }

  // --------------------------------------------------------- when a change is taken up

  /** The journal opened a review under the id. */
  ghost predicate EverOpened(journal: Journal, id: string) {
    exists e | e in journal :: e.body.ReviewOpened? && e.body.obligation.id == id
  }

  /** Nothing about the change stands in the way of opening its reviews, each one for the first time. */
  ghost predicate Acceptable(d: Durable, eventRef: string, context: string, assessments: seq<Assessment>) {
    && eventRef != "" && !Marked(d.journal, eventRef)
    && (forall i | 0 <= i < |assessments| ::
          assessments[i].changeRef != "" && (CallsForReview(assessments[i].action) ==> assessments[i].affectedRef in d.config.states))
    && (forall i, j | 0 <= i < j < |assessments| && CallsForReview(assessments[i].action) && CallsForReview(assessments[j].action) ::
          assessments[i].affectedRef != assessments[j].affectedRef)
    && (forall i | 0 <= i < |assessments| && CallsForReview(assessments[i].action) ::
          !EverOpened(d.journal, ReviewId(eventRef, assessments[i].affectedRef, context)))
  }

  lemma MarkedExactly(d: Durable, eventRef: string)
    requires Indexed(d)
    ensures ProcessedIds(d.journal, eventRef) == Ok(None) <==> !Marked(d.journal, eventRef)
  {
    hide Absorbs;
    if Marked(d.journal, eventRef) {
      MarkedIsProcessed(d.journal, eventRef);
    } else {
      FindMeans(d.journal, GovernanceId("processed", eventRef));
    }
  }

  /** The projections stand in the order of their assessments. */
  lemma {:induction false} ReadyPositions(
    config: Configuration, eventRef: string, context: string, assessments: seq<Assessment>, i: nat, j: nat
  ) returns (p: nat, q: nat)
    requires ProjectAll(config, eventRef, context, assessments).Ok? && i < j < |assessments|
    requires CallsForReview(assessments[i].action) && CallsForReview(assessments[j].action)
    requires !ProjectAll(config, eventRef, context, assessments).value.unavailable
    ensures var ready := ProjectAll(config, eventRef, context, assessments).value.ready;
      && p < q < |ready|
      && Project(config, eventRef, context, assessments[i]) == Ok(Ready(ready[p]))
      && Project(config, eventRef, context, assessments[j]) == Ok(Ready(ready[q]))
  {
    hide Project, CallsForReview;
    var prefix, last := assessments[..|assessments| - 1], |assessments| - 1;
    ReadyIncludes(config, eventRef, context, assessments, last);
    ProjectedExactly(config, eventRef, context, assessments[last]);
    if j < last {
      p, q := ReadyPositions(config, eventRef, context, prefix, i, j);
    } else {
      ReadyIncludes(config, eventRef, context, prefix, i);
      ProjectedExactly(config, eventRef, context, assessments[i]);
      var o, before := Project(config, eventRef, context, assessments[i]).value.obligation,
                       ProjectAll(config, eventRef, context, prefix).value.ready;
      p :| 0 <= p < |before| && before[p] == o;
      q := |before|;
    }
  }

  lemma TakenUpIsAcceptable(d: Durable, eventRef: string, context: string, assessments: seq<Assessment>)
    requires Indexed(d) && TriggersMarked(d.journal) && TakenUp(d, eventRef, context, assessments)
    ensures Acceptable(d, eventRef, context, assessments)
  {
    hide ProjectAll, Project, Indexed, CommitEventObligations, ProcessedIds, StepAfter, TakenUp, CallsForReview, Marked,
      TriggersMarked, ReviewId, ReviewFor;
    TakenUpFacts(d, eventRef, context, assessments);
    var os := ProjectAll(d.config, eventRef, context, assessments).value.ready;
    EventObligationsFacts(d, eventRef, os);
    MarkedExactly(d, eventRef);
    forall i | 0 <= i < |assessments|
      ensures assessments[i].changeRef != ""
      ensures CallsForReview(assessments[i].action) ==>
        && assessments[i].affectedRef in d.config.states
        && !EverOpened(d.journal, ReviewId(eventRef, assessments[i].affectedRef, context))
    {
      ReadyIncludes(d.config, eventRef, context, assessments, i);
      ProjectedExactly(d.config, eventRef, context, assessments[i]);
      if CallsForReview(assessments[i].action) {
        var o := Project(d.config, eventRef, context, assessments[i]).value.obligation;
        IdOfReview(o, d.config, eventRef, context, assessments[i]);
        if EverOpened(d.journal, o.id) {
          var e :| e in d.journal && e.body.ReviewOpened? && e.body.obligation.id == o.id;
          SpentIdIsRefused(d, eventRef, os, o, e);
        }
      }
    }
    forall i, j | 0 <= i < j < |assessments| && CallsForReview(assessments[i].action) && CallsForReview(assessments[j].action)
      ensures assessments[i].affectedRef != assessments[j].affectedRef
    {
      var p, q := ReadyPositions(d.config, eventRef, context, assessments, i, j);
      ProjectedExactly(d.config, eventRef, context, assessments[i]);
      ProjectedExactly(d.config, eventRef, context, assessments[j]);
      IdOfReview(os[p], d.config, eventRef, context, assessments[i]);
      IdOfReview(os[q], d.config, eventRef, context, assessments[j]);
      if assessments[i].affectedRef == assessments[j].affectedRef {
        RepeatedIdsRefused(d, eventRef, os, p, q);
      }
    }
  }

  /** The reviews to open: of this event, on different schemes, under ids never used. */
  ghost predicate AllFresh(d: Durable, eventRef: string, os: seq<ReviewObligation>) {
    && (forall o | o in os :: o.triggerRef == eventRef && !EverOpened(d.journal, o.id))
    && (forall i, j | 0 <= i < j < |os| :: os[i].target != os[j].target && os[i].id != os[j].id)
  }

  lemma {:induction false} AcceptableProjects(d: Durable, eventRef: string, context: string, assessments: seq<Assessment>)
    requires Acceptable(d, eventRef, context, assessments)
    ensures ProjectAll(d.config, eventRef, context, assessments).Ok?
    ensures var p := ProjectAll(d.config, eventRef, context, assessments).value;
      && !p.unavailable && AllFresh(d, eventRef, p.ready)
      && forall o | o in p.ready :: exists i | 0 <= i < |assessments| ::
           CallsForReview(assessments[i].action) && o.target == assessments[i].affectedRef
           && o.id == ReviewId(eventRef, assessments[i].affectedRef, context)
  {
    hide Project, CallsForReview, ReviewId, EverOpened, Marked;
    if assessments != [] {
      var prefix, last := assessments[..|assessments| - 1], assessments[|assessments| - 1];
      AcceptableProjects(d, eventRef, context, prefix);
      ProjectedExactly(d.config, eventRef, context, last);
      var before := ProjectAll(d.config, eventRef, context, prefix).value.ready;
      forall o | o in before ensures exists i | 0 <= i < |prefix| ::
        CallsForReview(assessments[i].action) && o.target == assessments[i].affectedRef
        && o.id == ReviewId(eventRef, assessments[i].affectedRef, context)
      {
        var i :| 0 <= i < |prefix| && CallsForReview(prefix[i].action) && o.target == prefix[i].affectedRef
          && o.id == ReviewId(eventRef, prefix[i].affectedRef, context);
        assert prefix[i] == assessments[i];
      }
      if CallsForReview(last.action) {
        assert CallsForReview(assessments[|prefix|].action);
        forall o | o in before ensures o.target != last.affectedRef && o.id != ReviewId(eventRef, last.affectedRef, context) {
          var i :| 0 <= i < |prefix| && CallsForReview(assessments[i].action) && o.target == assessments[i].affectedRef
            && o.id == ReviewId(eventRef, assessments[i].affectedRef, context);
          ReviewIdsDiffer(eventRef, assessments[i].affectedRef, last.affectedRef, context);
        }
      }
    }
  }

  lemma ReviewIdsDiffer(eventRef: string, t: string, u: string, context: string)
    requires t != u
    ensures ReviewId(eventRef, t, context) != ReviewId(eventRef, u, context)
  {
    var head, tail := "review_" + eventRef + "\U{1f}", "\U{1f}" + context;
    assert ReviewId(eventRef, t, context) == head + (t + tail) && ReviewId(eventRef, u, context) == head + (u + tail);
    assert (head + (t + tail))[|head|..] == t + tail && (head + (u + tail))[|head|..] == u + tail;
    assert (t + tail)[..|t + tail| - |tail|] == t && (u + tail)[..|u + tail| - |tail|] == u;
  }

  lemma OpenWasOpened(d: Durable, id: string)
    requires Indexed(d) && id in d.config.obligations
    ensures var o := d.config.obligations[id];
      o.id == id && exists e | e in d.journal :: e.body.ReviewOpened? && RestoreObligation(e.body.obligation) == o
  {
    hide StatesMatch, DischargesMatch, Reconstruct;
    var h, o := FoldOf(d), d.config.obligations[id];
    FiledUnderOwnId(d);
    assert Lookup(h, ReviewKey(id)) == Some(Opened(o));
    var e :| e in d.journal && FactOf(e) == Some((ReviewKey(id), Opened(o)));
  }

  lemma FreshIsValid(d: Durable, eventRef: string, o: ReviewObligation)
    requires Indexed(d) && TriggersMarked(d.journal) && !Marked(d.journal, eventRef)
    requires o.triggerRef == eventRef && !EverOpened(d.journal, o.id)
    ensures ValidateObligation(d.config, o) == Ok(true)
  {
    hide Indexed, Marked;
    if o.id in d.config.obligations {
      OpenWasOpened(d, o.id);
    } else if KeyOpen(d.config.obligations, KeyOf(o)) {
      var id :| id in d.config.obligations && KeyOf(d.config.obligations[id]) == KeyOf(o);
      OpenWasOpened(d, id);
    }
  }

  lemma {:induction false} FreshBatchIsValid(d: Durable, eventRef: string, os: seq<ReviewObligation>)
    requires Indexed(d) && TriggersMarked(d.journal) && !Marked(d.journal, eventRef) && AllFresh(d, eventRef, os)
    ensures ValidateBatch(d.config, os).Ok?
  {
    hide Indexed, Marked, TriggersMarked, EverOpened, ValidateObligation;
    if os != [] {
      var prefix, o := os[..|os| - 1], os[|os| - 1];
      assert os == prefix + [o];
      FreshBatchIsValid(d, eventRef, prefix);
      BatchKeys(d.config, prefix);
      FreshIsValid(d, eventRef, o);
    }
  }

  lemma {:induction false} FreshBatchOpens(d: Durable, eventRef: string, os: seq<ReviewObligation>)
    requires Indexed(d) && AllFresh(d, eventRef, os)
    ensures OpenBatch(d, os).Ok?
    ensures forall e | e in OpenBatch(d, os).value.journal :: e in d.journal || exists o | o in os :: e == ReviewOpenedEvent(o)
  {
    hide Absorbs, EverOpened, Append, ReviewOpenedEvent;
    if os != [] {
      var prefix, o := os[..|os| - 1], os[|os| - 1];
      assert os == prefix + [o];
      FreshBatchOpens(d, eventRef, prefix);
      var j := OpenBatch(d, prefix).value.journal;
      forall e | e in j ensures e.id != ReviewOpenedEvent(o).id {
        if e in d.journal {
          NeverOpenedIsFree(d, e, o);
        } else {
          var x :| x in prefix && e == ReviewOpenedEvent(x);
          ReviewEventIds(x, o);
        }
      }
      AppendsFree(j, ReviewOpenedEvent(o));
    }
  }

  lemma AppendsFree(j: Journal, e: Event)
    requires forall x | x in j :: x.id != e.id
    ensures Append(j, e) == Ok(j + [e])
  {
  }

  lemma ReviewEventIds(x: ReviewObligation, o: ReviewObligation)
    requires x.id != o.id
    ensures ReviewOpenedEvent(x).id != ReviewOpenedEvent(o).id
  {
    hide EncodeObligation;
  }

  lemma NeverOpenedIsFree(d: Durable, e: Event, o: ReviewObligation)
    requires Indexed(d) && e in d.journal && !EverOpened(d.journal, o.id)
    ensures e.id != ReviewOpenedEvent(o).id
  {
    hide Absorbs, EncodeObligation;
    assert Minted(e);
  }

  lemma AcceptableIsTakenUp(d: Durable, eventRef: string, context: string, assessments: seq<Assessment>)
    requires Indexed(d) && TriggersMarked(d.journal) && Acceptable(d, eventRef, context, assessments)
    ensures TakenUp(d, eventRef, context, assessments)
  {
    hide ProjectAll, Indexed, ProcessedIds, Marked, TriggersMarked, CallsForReview, ReviewId, AllFresh, OpenBatch, ValidateBatch,
      Append;
    AcceptableProjects(d, eventRef, context, assessments);
    var os := ProjectAll(d.config, eventRef, context, assessments).value.ready;
    TriggersOf(d, eventRef, os);
    MarkedExactly(d, eventRef);
    FreshBatchIsValid(d, eventRef, os);
    FreshBatchOpens(d, eventRef, os);
    var j := OpenBatch(d, os).value.journal;
    forall e | e in j ensures e.id != ProcessedEvent(eventRef, IdsOf(os)).id {
      if e in d.journal {
        UnmarkedIsFree(d, e, eventRef);
      }
    }
    AppendsFree(j, ProcessedEvent(eventRef, IdsOf(os)));
  }

  lemma TriggersOf(d: Durable, eventRef: string, os: seq<ReviewObligation>)
    requires AllFresh(d, eventRef, os)
    ensures forall o | o in os :: o.triggerRef == eventRef
  {
  }

  lemma UnmarkedIsFree(d: Durable, e: Event, eventRef: string)
    requires Indexed(d) && e in d.journal && !Marked(d.journal, eventRef)
    ensures e.id != GovernanceId("processed", eventRef)
  {
    hide Absorbs;
    assert Minted(e);
  }

  /**
   On every lifecycle run a change is taken up exactly when it is new, every
   assessment names a change, every scheme to be reviewed is known and named once,
   and none of the ids was ever used.
   */
  lemma TakenUpExactly(steps: seq<LifecycleStep>, eventRef: string, context: string, assessments: seq<Assessment>)
    ensures TakenUp(LifecycleRun(steps), eventRef, context, assessments)
       <==> Acceptable(LifecycleRun(steps), eventRef, context, assessments)
  {
    hide TakenUp, Acceptable, Indexed, LifecycleRun, Run, Coherent, TriggersMarked;
    LifecycleIsIndexed(steps);
    var ops := LifecycleRunIsARun(steps);
    EventRunsStayCoherent(ops);
    if TakenUp(LifecycleRun(steps), eventRef, context, assessments) {
      TakenUpIsAcceptable(LifecycleRun(steps), eventRef, context, assessments);
    }
    if Acceptable(LifecycleRun(steps), eventRef, context, assessments) {
      AcceptableIsTakenUp(LifecycleRun(steps), eventRef, context, assessments);
    }
  }
}
