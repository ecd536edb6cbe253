/**
 What opening the reviews of a change does: use under the change's context stops,
 and earlier decisions made there can no longer be acted on.
 */
module ReviewEffects {
  import opened Wrappers
  import opened Distinction
  import opened Canonical
  import opened History
  import opened Durable
  import opened Coherence
  import opened Runs
  import opened Lifecycle

  lemma {:induction false} ReadyIncludes(
    config: Configuration, eventRef: string, context: string, assessments: seq<Assessment>, i: nat
  )
    requires ProjectAll(config, eventRef, context, assessments).Ok? && i < |assessments|
    ensures Project(config, eventRef, context, assessments[i]).Ok?
    ensures var p := Project(config, eventRef, context, assessments[i]).value;
      && (p.Ready? ==> p.obligation in ProjectAll(config, eventRef, context, assessments).value.ready)
      && (p.Unprojectable? ==> ProjectAll(config, eventRef, context, assessments).value.unavailable && !p.blocking)
  {
    hide Project;
    var prefix := assessments[..|assessments| - 1];
    if i < |prefix| {
      ReadyIncludes(config, eventRef, context, prefix, i);
    }
  }

  lemma {:induction false} BatchRecords(d: Durable, os: seq<ReviewObligation>, o: ReviewObligation)
    requires OpenBatch(d, os).Ok? && o in os
    ensures ReviewOpenedEvent(o) in OpenBatch(d, os).value.journal
    ensures o.id in OpenBatch(d, os).value.config.obligations
  {
    hide Append, ReviewOpenedEvent;
    var prefix, last := os[..|os| - 1], os[|os| - 1];
    assert os == prefix + [last];
    AppendAdds(OpenBatch(d, prefix).value.journal, ReviewOpenedEvent(last));
    if o in prefix {
      BatchRecords(d, prefix, o);
    }
  }

  /** Each review of a committed event is open afterwards, as projected. */
  lemma CommittedReviewsAreOpen(d: Durable, eventRef: string, os: seq<ReviewObligation>, o: ReviewObligation)
    requires Indexed(d) && o in os && ProcessedIds(d.journal, eventRef) == Ok(None)
    requires CommitEventObligations(d, eventRef, os).Ok?
    ensures var after := CommitEventObligations(d, eventRef, os).value.0.config;
      && o.id in after.obligations && after.obligations[o.id] == o
      && after.states == d.config.states && after.decisions == d.config.decisions
  {
    hide Indexed, CommitEventObligations, ReviewOpenedEvent, Append;
    EventObligationsFacts(d, eventRef, os);
    var all := OpenBatch(d, os).value;
    BatchRecords(d, os, o);
    BatchIndexed(d, os);
    ReopeningIndexed(all, o);
    OpenIsAsOpened(all, o.id);
    BatchKeepsRest(d, os);
  }

  lemma OpenIsAsOpened(d: Durable, id: string)
    requires Indexed(d) && id in d.config.obligations
    ensures id in FoldOf(d).obligations && FoldOf(d).obligations[id] == d.config.obligations[id]
  {
  }

  lemma {:induction false} BatchKeepsRest(d: Durable, os: seq<ReviewObligation>)
    requires OpenBatch(d, os).Ok?
    ensures OpenBatch(d, os).value.config.states == d.config.states
    ensures OpenBatch(d, os).value.config.decisions == d.config.decisions
  {
    if os != [] {
      BatchKeepsRest(d, os[..|os| - 1]);
    }
  }

  /** The change was taken up: its reviews were admitted and committed. */
  ghost predicate TakenUp(d: Durable, eventRef: string, context: string, assessments: seq<Assessment>) {
    var step := Observe(eventRef, context, assessments);
    Admitted(d, step).Some? && Perform(d, Admitted(d, step).value).Ok?
  }

  lemma TakenUpFacts(d: Durable, eventRef: string, context: string, assessments: seq<Assessment>)
    requires TakenUp(d, eventRef, context, assessments)
    ensures ProjectAll(d.config, eventRef, context, assessments).Ok?
    ensures ProcessedIds(d.journal, eventRef) == Ok(None)
    ensures var p := ProjectAll(d.config, eventRef, context, assessments).value;
      && !p.unavailable
      && CommitEventObligations(d, eventRef, p.ready).Ok?
      && StepAfter(d, Observe(eventRef, context, assessments)) == CommitEventObligations(d, eventRef, p.ready).value.0
  {
    hide ProjectAll, CommitEventObligations, ProcessedIds;
  }

  /**
   A change taken up with a blocking disposition stops every use of the affected
   scheme under its context, and makes every earlier decision on that scheme and
   context unfit for application or discharge.
   */
  lemma BlockingChangeStopsUse(
    d: Durable, eventRef: string, context: string, assessments: seq<Assessment>, i: nat,
    use: UseContext, decision: GovernanceDecision, freshness: FreshnessLookup
  )
    requires Indexed(d) && TakenUp(d, eventRef, context, assessments) && i < |assessments|
    requires Reviewable(assessments[i].action)
    ensures var a, after := assessments[i], StepAfter(d, Observe(eventRef, context, assessments)).config;
      && a.affectedRef in after.states
      && (Blocking(a.action) && use.name == context ==>
            BlockingReviewOpen(after, a.affectedRef, use) && !Usable(after, a.affectedRef, use))
      && (decision.id in d.config.decisions && d.config.decisions[decision.id] == decision
          && decision.target == a.affectedRef && decision.context == context ==>
            !CommonFreshness(decision, after, freshness))
  {
    hide ProjectAll, Indexed, CommitEventObligations, ProcessedIds, StepAfter, ObligationId, BasisUnchanged, ScopeMatches,
      TakenUp;
    var a := assessments[i];
    TakenUpFacts(d, eventRef, context, assessments);
    ReadyIncludes(d.config, eventRef, context, assessments, i);
    var o := Project(d.config, eventRef, context, a).value.obligation;
    CommittedReviewsAreOpen(d, eventRef, ProjectAll(d.config, eventRef, context, assessments).value.ready, o);
    var after := StepAfter(d, Observe(eventRef, context, assessments)).config;
    assert after.obligations[o.id] == o;
    if Blocking(a.action) && use.name == context {
      assert ObligationBlocks(o, use, after.states[a.affectedRef].scope);
    }
    if decision.id in d.config.decisions && d.config.decisions[decision.id] == decision
       && decision.target == a.affectedRef && decision.context == context {
      assert decision.id in o.invalidatesDecisions;
    }
  }
}
