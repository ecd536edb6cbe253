/**
 Laws of the pure transitions: what an admitted step establishes for the next
 one, and what it rules out.
 */
module Kernel {
  import opened Wrappers
  import opened Distinction

  /** An applied transition is just what a discharge under its decision asks for. */
  lemma AppliedIsRealized(config: Configuration, a: GovernedApplication, authority: AuthorityCheck, freshness: FreshnessLookup)
    requires ApplyStateTransition(config, a, authority, freshness).Some?
    ensures a.decisionRef in config.decisions
    ensures RequiredTransitionRealized(
      config.decisions[a.decisionRef], a, ApplyStateTransition(config, a, authority, freshness).value)
  {
    hide StateAnchor, StateAdmissibleFor, CandidateEffect, EffectMatches, BasisUnchanged, MatchesSnapshot;
  }

  lemma EffectMovesAnchor(a: GovernedApplication, s: DistinctionState)
    ensures StateAnchor(CandidateEffect(a, s)) != StateAnchor(s)
  {
    hide StateAnchor;
    if StateAnchor(CandidateEffect(a, s)) == StateAnchor(s) {
      AnchorFixesVersion(CandidateEffect(a, s), s);
    }
  }

  lemma AppliedFacts(config: Configuration, a: GovernedApplication, authority: AuthorityCheck, freshness: FreshnessLookup)
    requires ApplyStateTransition(config, a, authority, freshness).Some?
    ensures a.decisionRef in config.decisions && a.schemeId in config.states && a.id !in config.applications
    ensures var d, s, next := config.decisions[a.decisionRef], config.states[a.schemeId],
                              ApplyStateTransition(config, a, authority, freshness).value;
      && d.target == a.schemeId && StateAnchor(s) == d.expectedStateAnchor
      && StateAdmissibleFor(a.schemeId, CandidateEffect(a, s))
      && next == config.(states := config.states[a.schemeId := CandidateEffect(a, s)],
                         applications := config.applications[a.id := StateReceipt(a, s)])
  {
    hide StateAnchor, StateAdmissibleFor, CandidateEffect, EffectMatches, BasisUnchanged, MatchesSnapshot;
  }

  /** Once applied, a decision moves nothing any more: neither by the same application nor by another in its name. */
  lemma DecisionIsSpent(
    config: Configuration, a: GovernedApplication, authority: AuthorityCheck, freshness: FreshnessLookup,
    b: GovernedApplication, later: AuthorityCheck, laterFreshness: FreshnessLookup
  )
    requires ApplyStateTransition(config, a, authority, freshness).Some?
    requires b.decisionRef == a.decisionRef
    ensures ApplyStateTransition(ApplyStateTransition(config, a, authority, freshness).value, b, later, laterFreshness).None?
  {
    hide StateAnchor, StateAdmissibleFor, CandidateEffect, ApplyStateTransition;
    AppliedFacts(config, a, authority, freshness);
    var next := ApplyStateTransition(config, a, authority, freshness).value;
    EffectMovesAnchor(a, config.states[a.schemeId]);
    if ApplyStateTransition(next, b, later, laterFreshness).Some? {
      AppliedFacts(next, b, later, laterFreshness);
    }
  }

  /** No admitted step leaves a state that may not be stored, touches another scheme, or forgets a decision or a receipt. */
  lemma StepsConserve(
    config: Configuration, a: GovernedApplication, authority: AuthorityCheck, freshness: FreshnessLookup,
    transition: Option<GovernedApplication>, next: Configuration
  )
    requires GlobalStateAdmissible(config)
    requires ApplyStateTransition(config, a, authority, freshness) == Some(next)
          || ApplyReviewDischarge(config, a, authority, freshness, transition) == Some(next)
    ensures GlobalStateAdmissible(next)
    ensures next.states.Keys == config.states.Keys && next.decisions == config.decisions
    ensures forall k | k in config.states && k != a.schemeId :: next.states[k] == config.states[k]
    ensures forall id | id in config.applications :: id in next.applications && next.applications[id] == config.applications[id]
    ensures next.obligations == config.obligations || exists id :: next.obligations == config.obligations - {id}
  {
    hide StateAnchor, StateAdmissibleFor, CandidateEffect, ApplyStateTransition, ApplicationAdmissible, ClosureAdmissible,
      FreshForDischarge, ObligationsAnchor, Linked;
    if ApplyStateTransition(config, a, authority, freshness) == Some(next) {
      AppliedFacts(config, a, authority, freshness);
    } else {
      assert next.obligations == config.obligations - {a.reviewObligationId.value};
    }
  }
}
