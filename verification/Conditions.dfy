/**
 When each governed step is admitted, and what it then does, in plain facts about
 configuration, decision and application: a second description of the kernel,
 proved to agree with the first on every input.
 */
module Conditions {
  import opened Wrappers
  import opened Text
  import opened Distinction
  import opened Canonical
  import opened History
  import opened Durable
  import opened Coherence
  import opened Lifecycle

  // ------------------------------------------------------------------ references

  /** What a stored state looks like. */
  ghost predicate MayStand(k: string, s: DistinctionState) {
    && k != ""
    && EachItemOnce(s.partition, s.scope)
    && match s.activation {
         case "active" => s.qualification == "qualified" && s.scope != {}
         case "suspended" => s.qualification == "candidate" || s.qualification == "qualified" || s.qualification == "disqualified"
         case _ => false
       }
  }

  lemma MayStandExactly(k: string, s: DistinctionState)
    ensures StateAdmissibleFor(k, s) <==> MayStand(k, s)
  {
    ExactCoverMeans(s.partition, s.scope);
  }

  /** Every anchored basis still stands where the decision saw it. */
  ghost predicate BasesStand(d: GovernanceDecision, freshness: FreshnessLookup) {
    forall basis, anchor | (basis, anchor) in d.basisAnchors :: freshness(basis).Some? && freshness(basis).value == anchor
  }

  /** No open review takes the decision's ground away. */
  ghost predicate Unchallenged(d: GovernanceDecision, config: Configuration) {
    !exists o | o in config.obligations.Values :: d.id in o.invalidatesDecisions
  }

  /** Scope and cells are those the decision was taken on, in whatever order the cells come. */
  ghost predicate AsDecided(d: GovernanceDecision, s: DistinctionState) {
    s.scope == d.scopeSnapshot && multiset(s.partition) == multiset(d.partitionSnapshot)
  }

  lemma AsDecidedExactly(d: GovernanceDecision, s: DistinctionState)
    ensures MatchesSnapshot(d, s) <==> AsDecided(d, s)
  {
    CanonicalPartitionMeans(s.partition, d.partitionSnapshot);
  }

  lemma BasesStandExactly(d: GovernanceDecision, freshness: FreshnessLookup)
    ensures BasisUnchanged(d, freshness) <==> BasesStand(d, freshness)
  {
    if BasesStand(d, freshness) {
      forall i | 0 <= i < |d.basisAnchors| ensures freshness(d.basisAnchors[i].0) == Some(d.basisAnchors[i].1) {
        assert (d.basisAnchors[i].0, d.basisAnchors[i].1) == d.basisAnchors[i];
        assert (d.basisAnchors[i].0, d.basisAnchors[i].1) in d.basisAnchors;
      }
    }
  }

  lemma UnchallengedExactly(d: GovernanceDecision, config: Configuration)
    ensures NoInvalidatingReview(d, config) <==> Unchallenged(d, config)
  {
    forall id | id in config.obligations ensures config.obligations[id] in config.obligations.Values {
    }
  }

  // ------------------------------------------------------------ recording a decision

  /** The authority asked for is over the scheme as the decision saw it. */
  function OverProjection(actor: string, operation: string, d: GovernanceDecision, context: string): AuthorityRequest {
    AuthorityRequest(
      actor, operation,
      AuthorityTarget("distinction_projection", d.target, "distinction:" + d.target, Some(d.scopeSnapshot),
                      Some(d.partitionSnapshot), Some(d.expectedStateAnchor)),
      context)
  }

  /** The decision answers this review: open, of its scheme and context, and every basis of it anchored. */
  ghost predicate Answers(d: GovernanceDecision, config: Configuration, ref: string) {
    && ref in config.obligations
    && var o := config.obligations[ref];
    && o.target == d.target && o.context == d.context
    && forall basis | basis in o.basisRefs :: exists anchor :: (basis, anchor) in d.basisAnchors
  }

  lemma AnswersExactly(d: GovernanceDecision, config: Configuration)
    ensures ReviewInputMatches(d, config) <==> d.reviewRefs != [] && forall ref | ref in d.reviewRefs :: Answers(d, config, ref)
  {
    forall basis ensures basis in BasisKeys(d) <==> exists anchor :: (basis, anchor) in d.basisAnchors {
      if basis in BasisKeys(d) {
        var i :| 0 <= i < |d.basisAnchors| && d.basisAnchors[i].0 == basis;
        assert (basis, d.basisAnchors[i].1) in d.basisAnchors;
      }
      if exists anchor :: (basis, anchor) in d.basisAnchors {
        var anchor :| (basis, anchor) in d.basisAnchors;
        var i :| 0 <= i < |d.basisAnchors| && d.basisAnchors[i] == (basis, anchor);
      }
    }
    forall ref | ref in config.obligations
      ensures Elements(config.obligations[ref].basisRefs) <= BasisKeys(d)
         <==> forall basis | basis in config.obligations[ref].basisRefs :: exists anchor :: (basis, anchor) in d.basisAnchors
    {
      AllElements(config.obligations[ref].basisRefs, BasisKeys(d));
    }
  }

  lemma AllElements(q: seq<string>, s: set<string>)
    ensures Elements(q) <= s <==> forall x | x in q :: x in s
  {
    forall x ensures x in q <==> x in Elements(q) {}
  }

  /** A decision is recorded exactly when it is on record already, or is authorized and answers open reviews of a known scheme. */
  lemma RecordedExactly(config: Configuration, d: GovernanceDecision, authority: AuthorityCheck)
    ensures RecordDecision(config, d, authority).Some?
       <==> if d.id in config.decisions then config.decisions[d.id] == d
            else
              && d.target in config.states
              && authority(OverProjection(d.actor, d.operation, d, d.context))
              && d.reviewRefs != [] && forall ref | ref in d.reviewRefs :: Answers(d, config, ref)
    ensures RecordDecision(config, d, authority).Some? ==>
      RecordDecision(config, d, authority).value == Configuration(
        config.states, config.obligations, config.decisions[d.id := d], config.applications)
  {
    hide ReviewInputMatches, Answers;
    AnswersExactly(d, config);
    assert d.id in config.decisions && config.decisions[d.id] == d ==> config.decisions == config.decisions[d.id := d];
  }

  // --------------------------------------------------------------- moving the state

  /** The state the application proposes. */
  function Proposed(a: GovernedApplication, s: DistinctionState): DistinctionState {
    DistinctionState(
      match a.newQualification case Some(q) => q case None => s.qualification,
      match a.newActivation case Some(q) => q case None => s.activation,
      s.scope, s.partition, s.version + 1)
  }

  /** The decision called for a change of one kind, and this application makes a change of that kind. */
  predicate SameKind(decided: string, applied: string) {
    match decided
    case "decide_qualification" => applied == "apply_qualification_transition"
    case "decide_activation" => applied == "apply_activation_transition"
    case _ => false
  }

  ghost predicate Delivers(d: GovernanceDecision, s: DistinctionState) {
    && (d.requiredQualification.None? || d.requiredQualification == Some(s.qualification))
    && (d.requiredActivation.None? || d.requiredActivation == Some(s.activation))
  }

  /** Everything an application has to bring along. */
  ghost predicate MayMove(config: Configuration, a: GovernedApplication, authority: AuthorityCheck, freshness: FreshnessLookup) {
    && a.id != "" && a.id !in config.applications
    && a.target == a.schemeId && a.schemeId in config.states
    && a.decisionRef in config.decisions
    && var d, s := config.decisions[a.decisionRef], config.states[a.schemeId];
    && d.id == a.decisionRef && d.target == a.schemeId && !d.superseded
    && d.disposition == "transition_required" && SameKind(d.operation, a.operation)
    && authority(OverProjection(a.actor, a.operation, d, a.context))
    && BasesStand(d, freshness) && Unchallenged(d, config)
    && StateAnchor(s) == d.expectedStateAnchor && AsDecided(d, s)
    && MayStand(a.schemeId, Proposed(a, s)) && Delivers(d, Proposed(a, s))
  }

  /** A transition is applied exactly under those facts, and then moves its scheme, files its receipt and does nothing else. */
  lemma AppliedExactly(config: Configuration, a: GovernedApplication, authority: AuthorityCheck, freshness: FreshnessLookup)
    ensures ApplyStateTransition(config, a, authority, freshness).Some? <==> MayMove(config, a, authority, freshness)
    ensures ApplyStateTransition(config, a, authority, freshness).Some? ==>
      var s := config.states[a.schemeId];
      ApplyStateTransition(config, a, authority, freshness).value == Configuration(
        config.states[a.schemeId := Proposed(a, s)], config.obligations, config.decisions,
        config.applications[a.id := ApplicationReceipt(a, "state", StateAnchor(s), StateAnchor(Proposed(a, s)))])
  {
    hide BasisUnchanged, BasesStand, NoInvalidatingReview, Unchallenged, MatchesSnapshot, AsDecided, StateAdmissibleFor, MayStand,
      StateAnchor;
    if a.decisionRef in config.decisions && a.schemeId in config.states {
      var d, s := config.decisions[a.decisionRef], config.states[a.schemeId];
      BasesStandExactly(d, freshness);
      UnchallengedExactly(d, config);
      AsDecidedExactly(d, s);
      assert CandidateEffect(a, s) == Proposed(a, s);
      MayStandExactly(a.schemeId, Proposed(a, s));
      NoNamelessScheme(a.schemeId, Proposed(a, s));
    }
  }

  lemma NoNamelessScheme(k: string, s: DistinctionState)
    ensures MayStand(k, s) ==> k != ""
  {
  }

  // ------------------------------------------------------------- discharging a review

  /** The scheme still stands where the decision left it: unmoved, or moved by the decision's own transition and no further. */
  ghost predicate CarriedThrough(
    d: GovernanceDecision, config: Configuration, transition: Option<GovernedApplication>
  ) {
    && d.target in config.states
    && var s := config.states[d.target];
    && match d.disposition {
         case "no_change" => transition.None? && StateAnchor(s) == d.expectedStateAnchor
         case "transition_required" =>
           && transition.Some? && transition.value.id in config.applications
           && config.applications[transition.value.id]
                == ApplicationReceipt(transition.value, "state", d.expectedStateAnchor, StateAnchor(s))
           && transition.value.decisionRef == d.id && transition.value.schemeId == d.target
           && (SameKind(d.operation, transition.value.operation) || transition.value.operation == "apply_review_discharge")
           && Delivers(d, s) && MayStand(d.target, s)
         case _ => false
       }
  }

  /** The authority asked for is over the review, given the scheme as it stands. */
  function OverReview(a: GovernedApplication, o: ReviewObligation, s: DistinctionState): AuthorityRequest {
    AuthorityRequest(
      a.actor, a.operation,
      AuthorityTarget("review_obligation", o.target, "review_obligation:" + o.id, Some(s.scope), Some(s.partition),
                      Some(StateAnchor(s))),
      a.context)
  }

  ghost predicate MayClose(
    config: Configuration, a: GovernedApplication, authority: AuthorityCheck, freshness: FreshnessLookup,
    transition: Option<GovernedApplication>
  ) {
    && a.id != "" && a.id !in config.applications && a.schemeId != ""
    && a.operation == "apply_review_discharge"
    && a.reviewObligationId.Some? && a.reviewObligationId.value != "" && a.reviewObligationId.value in config.obligations
    && a.decisionRef in config.decisions
    && var d, o := config.decisions[a.decisionRef], config.obligations[a.reviewObligationId.value];
    && o.id in config.obligations && config.obligations[o.id] == o && a.target == "review_obligation:" + o.id
    && d.id == a.decisionRef && d.target == a.schemeId && d.target in config.states && !d.superseded
    && o.id in d.reviewRefs && o.target == d.target && o.context == d.context
    && (forall fact | fact in o.closureRequirements :: fact in d.closureFacts)
    && authority(OverReview(a, o, config.states[d.target]))
    && BasesStand(d, freshness) && Unchallenged(d, config)
    && AsDecided(d, config.states[d.target])
    && CarriedThrough(d, config, transition)
  }

  lemma CarriedThroughExactly(
    d: GovernanceDecision, config: Configuration, freshness: FreshnessLookup, transition: Option<GovernedApplication>
  )
    requires d.target in config.states && MatchesSnapshot(d, config.states[d.target]) && CommonFreshness(d, config, freshness)
    ensures FreshForDischarge(d, config, freshness, transition) && (d.disposition == "no_change" ==> transition.None?)
       <==> CarriedThrough(d, config, transition)
  {
    hide CommonFreshness, MatchesSnapshot, StateAdmissibleFor, MayStand, StateAnchor;
    MayStandExactly(d.target, config.states[d.target]);
  }

  /** A review is discharged exactly under those facts, and then it alone is gone, with its receipt filed. */
  lemma DischargedExactly(
    config: Configuration, a: GovernedApplication, authority: AuthorityCheck, freshness: FreshnessLookup,
    transition: Option<GovernedApplication>
  )
    ensures ApplyReviewDischarge(config, a, authority, freshness, transition).Some?
       <==> MayClose(config, a, authority, freshness, transition)
    ensures ApplyReviewDischarge(config, a, authority, freshness, transition).Some? ==>
      var left := map id | id in config.obligations && Some(id) != a.reviewObligationId :: config.obligations[id];
      ApplyReviewDischarge(config, a, authority, freshness, transition).value == Configuration(
        config.states, left, config.decisions,
        config.applications[a.id := ApplicationReceipt(
          a, "review_discharge", ObligationsAnchor(config.obligations), ObligationsAnchor(left))])
  {
    hide BasisUnchanged, BasesStand, NoInvalidatingReview, Unchallenged, MatchesSnapshot, AsDecided, StateAnchor,
      FreshForDischarge, CarriedThrough, ObligationsAnchor;
    if a.decisionRef in config.decisions && a.reviewObligationId.Some? && a.reviewObligationId.value in config.obligations {
      var d, o := config.decisions[a.decisionRef], config.obligations[a.reviewObligationId.value];
      BasesStandExactly(d, freshness);
      UnchallengedExactly(d, config);
      if d.target in config.states {
        AsDecidedExactly(d, config.states[d.target]);
        if MatchesSnapshot(d, config.states[d.target]) && CommonFreshness(d, config, freshness) {
          CarriedThroughExactly(d, config, freshness, transition);
        }
        FreshIsCommon(d, config, freshness, transition);
      }
      assert config.obligations - {a.reviewObligationId.value}
          == map id | id in config.obligations && Some(id) != a.reviewObligationId :: config.obligations[id];
    }
  }

  lemma FreshIsCommon(
    d: GovernanceDecision, config: Configuration, freshness: FreshnessLookup, transition: Option<GovernedApplication>
  )
    ensures FreshForDischarge(d, config, freshness, transition) ==>
      CommonFreshness(d, config, freshness) && d.disposition in {"no_change", "transition_required"}
    ensures CarriedThrough(d, config, transition) ==> d.disposition in {"no_change", "transition_required"}
  {
    hide BasisUnchanged, NoInvalidatingReview, StateAnchor, MatchesSnapshot, RequiredTransitionRealized;
  }

  // ------------------------------------------------------------ the durable commits

  /** The application and the decision it cites belong together. */
  predicate BelongsTo(a: GovernedApplication, d: GovernanceDecision) {
    && a.decisionRef == d.id && a.schemeId == d.target
    && (SameKind(d.operation, a.operation)
        || (a.operation == "apply_review_discharge" && (d.disposition == "no_change" || d.disposition == "transition_required")))
  }

  lemma BelongsToExactly(a: GovernedApplication, d: GovernanceDecision)
    ensures Linked(a, d) && a.operation != "apply_review_discharge" ==> SameKind(d.operation, a.operation)
    ensures Linked(a, d) <==> BelongsTo(a, d)
  {
  }

  lemma FreeApplicationId(d: Durable, id: string)
    requires Indexed(d) && id !in d.config.applications
    ensures !IdTaken(d.journal, GovernanceId("application", id))
  {
    hide Indexed;
    SpentExactlyWhenKnown(d, ApplicationKey(id));
    KnownDecisions(d);
  }

  /** A state application is committed exactly when the facts it was admitted on still hold of the store it meets. */
  lemma StateCommittedExactly(
    d: Durable, k: string, next: DistinctionState, r: ApplicationReceipt, freshness: Option<FreshnessLookup>
  )
    requires Indexed(d)
    ensures CommitStateApplication(d, k, next, r, freshness).Ok?
       <==> var a := r.application;
            && a.id !in d.config.applications && k in d.config.states && a.decisionRef in d.config.decisions
            && var s, decision := d.config.states[k], d.config.decisions[a.decisionRef];
            && (freshness.None? || BasesStand(decision, freshness.value))
            && BelongsTo(a, decision) && a.schemeId == k && a.target == k
            && next == Proposed(a, s) && MayStand(k, next) && Delivers(decision, next)
            && StateAnchor(s) == decision.expectedStateAnchor
            && r == ApplicationReceipt(a, "state", StateAnchor(s), StateAnchor(next))
    ensures CommitStateApplication(d, k, next, r, freshness).Ok? ==>
      CommitStateApplication(d, k, next, r, freshness).value == Durable(
        Configuration(d.config.states[k := next], d.config.obligations, d.config.decisions,
                      d.config.applications[r.application.id := r]),
        d.journal + [ApplicationCommittedEvent(r, Some(next))])
  {
    hide Indexed, BasisUnchanged, BasesStand, StateAdmissibleFor, MayStand, StateAnchor, Linked, BelongsTo, Append;
    var a := r.application;
    if a.id !in d.config.applications && k in d.config.states && a.decisionRef in d.config.decisions {
      var s, decision := d.config.states[k], d.config.decisions[a.decisionRef];
      BasesStandExactly(decision, if freshness.Some? then freshness.value else (x: string) => None);
      BelongsToExactly(a, decision);
      NamesAgree(a, decision);
      MayStandExactly(k, next);
      FreeApplicationId(d, a.id);
      assert CandidateEffect(a, s) == Proposed(a, s);
      LandsWhenFresh(
        d, d.config.(states := d.config.states[k := next], applications := d.config.applications[a.id := r]),
        ApplicationCommittedEvent(r, Some(next)));
    }
  }

  lemma NamesAgree(a: GovernedApplication, d: GovernanceDecision)
    ensures BelongsTo(a, d) ==> a.schemeId == d.target && a.decisionRef == d.id
  {
  }

  /** Likewise a review discharge; the answered review is the one filed under the id. */
  lemma DischargeCommittedExactly(d: Durable, id: string, r: ApplicationReceipt, freshness: Option<FreshnessLookup>)
    requires Indexed(d)
    ensures var left := map x | x in d.config.obligations && x != id :: d.config.obligations[x];
      CommitReviewDischarge(d, id, r, freshness).Ok?
      <==> var a := r.application;
           && a.id !in d.config.applications && id in d.config.obligations && a.decisionRef in d.config.decisions
           && var o, decision := d.config.obligations[id], d.config.decisions[a.decisionRef];
           && (freshness.None? || BasesStand(decision, freshness.value))
           && a.operation == "apply_review_discharge" && BelongsTo(a, decision)
           && a.reviewObligationId == Some(id) && a.target == "review_obligation:" + id
           && id in decision.reviewRefs && o.target == decision.target && o.context == decision.context
           && r == ApplicationReceipt(a, "review_discharge", ObligationsAnchor(d.config.obligations), ObligationsAnchor(left))
    ensures var left := map x | x in d.config.obligations && x != id :: d.config.obligations[x];
      CommitReviewDischarge(d, id, r, freshness).Ok? ==>
        CommitReviewDischarge(d, id, r, freshness).value == Durable(
          Configuration(d.config.states, left, d.config.decisions, d.config.applications[r.application.id := r]),
          d.journal + [ApplicationCommittedEvent(r, None)])
  {
    hide Indexed, BasisUnchanged, BasesStand, ObligationsAnchor, Linked, BelongsTo, Append;
    var a := r.application;
    assert d.config.obligations - {id} == map x | x in d.config.obligations && x != id :: d.config.obligations[x];
    if a.id !in d.config.applications && id in d.config.obligations && a.decisionRef in d.config.decisions {
      var decision := d.config.decisions[a.decisionRef];
      BasesStandExactly(decision, if freshness.Some? then freshness.value else (x: string) => None);
      BelongsToExactly(a, decision);
      NamesAgree(a, decision);
      FreeApplicationId(d, a.id);
      LandsWhenFresh(
        d, d.config.(obligations := d.config.obligations - {id}, applications := d.config.applications[a.id := r]),
        ApplicationCommittedEvent(r, None));
    }
  }

  /** A decision is committed exactly when it is on record already, or answers open reviews of a known scheme. */
  lemma DecisionCommittedExactly(d: Durable, decision: GovernanceDecision)
    requires Indexed(d)
    ensures CommitDecision(d, decision).Ok?
       <==> if decision.id in d.config.decisions then d.config.decisions[decision.id] == decision
            else
              && decision.target in d.config.states
              && decision.reviewRefs != [] && forall ref | ref in decision.reviewRefs :: Answers(decision, d.config, ref)
    ensures CommitDecision(d, decision).Ok? ==>
      CommitDecision(d, decision).value ==
        if decision.id in d.config.decisions then d
        else Durable(Configuration(d.config.states, d.config.obligations, d.config.decisions[decision.id := decision],
                                   d.config.applications),
                     d.journal + [DecisionRecordedEvent(decision)])
  {
    hide Indexed, ReviewInputMatches, Answers, Append;
    AnswersExactly(decision, d.config);
    if decision.id !in d.config.decisions {
      SpentExactlyWhenKnown(d, DecisionKey(decision.id));
      KnownDecisions(d);
      LandsWhenFresh(d, d.config.(decisions := d.config.decisions[decision.id := decision]), DecisionRecordedEvent(decision));
    }
  }

  /** A basis that moved stops every step taken on the decision, in the kernel as in the store. */
  lemma MovedBasisStopsAll(
    d: Durable, decision: GovernanceDecision, i: nat, a: GovernedApplication, authority: AuthorityCheck,
    freshness: FreshnessLookup, transition: Option<GovernedApplication>, k: string, next: DistinctionState,
    r: ApplicationReceipt, id: string
  )
    requires i < |decision.basisAnchors| && freshness(decision.basisAnchors[i].0) != Some(decision.basisAnchors[i].1)
    requires a.decisionRef in d.config.decisions && d.config.decisions[a.decisionRef] == decision
    requires Indexed(d) && r.application.decisionRef == a.decisionRef
    ensures ApplyStateTransition(d.config, a, authority, freshness).None?
    ensures ApplyReviewDischarge(d.config, a, authority, freshness, transition).None?
    ensures CommitStateApplication(d, k, next, r, Some(freshness)).Err?
    ensures CommitReviewDischarge(d, id, r, Some(freshness)).Err?
  {
    hide ApplyStateTransition, ApplyReviewDischarge, CommitStateApplication, CommitReviewDischarge, Indexed, StateAnchor,
      ObligationsAnchor, CarriedThrough, MayStand;
    assert (decision.basisAnchors[i].0, decision.basisAnchors[i].1) == decision.basisAnchors[i];
    assert (decision.basisAnchors[i].0, decision.basisAnchors[i].1) in decision.basisAnchors;
    AppliedExactly(d.config, a, authority, freshness);
    DischargedExactly(d.config, a, authority, freshness, transition);
    StateCommittedExactly(d, k, next, r, Some(freshness));
    DischargeCommittedExactly(d, id, r, Some(freshness));
  }
}
