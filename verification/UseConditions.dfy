/**
 When a use is admitted, refused or not judged at all, in plain facts about the
 folded history; and what its snapshot digest lists.
 */
module UseConditions {
  import opened Wrappers
  import opened Text
  import opened Distinction
  import opened ExecutionIdentity
  import opened Canonical
  import opened History
  import opened UseAdmission

  /** The part of the scope the use is about: what it asks for, or everything. */
  predicate InReach(x: string, use: UseContext, scope: set<string>) {
    if use.requestedScope == {} then x in scope else x in use.requestedScope
  }

  /** An open review of the scheme that stops the use. */
  ghost predicate StopsUse(o: ReviewObligation, k: string, use: UseContext, scope: set<string>) {
    && o.target == k && o.blocking
    && match o.blockingCondition {
         case None => o.context == use.name
         case Some(c) =>
           && (|c.contextNames| == 0 || use.name in c.contextNames)
           && (|c.scopeAny| == 0 || exists x :: x in c.scopeAny && InReach(x, use, scope))
           && (forall x | x in c.scopeAll :: InReach(x, use, scope))
       }
  }

  lemma StopsUseExactly(o: ReviewObligation, r: UseRequirement, scope: set<string>)
    ensures Relevant(o, r, scope) <==> StopsUse(o, r.schemeId, r.use, scope)
  {
    if o.blockingCondition.Some? {
      var c, use := o.blockingCondition.value, r.use;
      var effective := if use.requestedScope != {} then use.requestedScope else scope;
      assert forall x :: x in effective <==> InReach(x, use, scope);
      if c.scopeAny * effective != {} {
        var x :| x in c.scopeAny * effective;
        assert x in c.scopeAny && InReach(x, use, scope);
      }
      if exists x :: x in c.scopeAny && InReach(x, use, scope) {
        var x :| x in c.scopeAny && InReach(x, use, scope);
        assert x in c.scopeAny * effective;
      }
    }
  }

  /** Nothing asked for lies outside the scheme's scope, and there is a scope. */
  ghost predicate WithinScope(use: UseContext, scope: set<string>) {
    |scope| > 0 && forall x | x in use.requestedScope :: x in scope
  }

  ghost predicate StoppedByReview(config: Configuration, k: string, use: UseContext)
    requires k in config.states
  {
    exists id :: id in config.obligations && StopsUse(config.obligations[id], k, use, config.states[k].scope)
  }

  /** The judgment on a scheme that is known, with the first reason that applies. */
  lemma JudgedExactly(config: Configuration, r: UseRequirement)
    requires r.schemeId in config.states
    ensures var s, j := config.states[r.schemeId], Judge(config.states[r.schemeId], config, r);
      (j.status, j.reason) ==
        if s.qualification != "qualified" then (Blocked, NotQualified)
        else if s.activation != "active" then (Blocked, NotActive)
        else if !WithinScope(r.use, s.scope) then (Blocked, OutsideScope)
        else if StoppedByReview(config, r.schemeId, r.use) then (Blocked, ReviewOpen)
        else (Allowed, Permitted)
  {
    hide SnapshotOf, ObligationBlocks, StopsUse;
    var s := config.states[r.schemeId];
    forall id | id in config.obligations
      ensures config.obligations[id].target == r.schemeId && ObligationBlocks(config.obligations[id], r.use, s.scope)
         <==> StopsUse(config.obligations[id], r.schemeId, r.use, s.scope)
    {
      StopsUseExactly(config.obligations[id], r, s.scope);
    }
    ScopeExactly(s.scope, r.use);
  }

  lemma ScopeExactly(scope: set<string>, use: UseContext)
    ensures ScopeMatches(scope, use) <==> WithinScope(use, scope)
  {
  }

  /** Both reads of the journal show the same governance history, and it folds. */
  ghost predicate Settled(before: Option<Journal>, after: Option<Journal>) {
    && before.Some? && after.Some?
    && GovernanceEvents(before.value) == GovernanceEvents(after.value)
    && Reconstruct(before.value).Ok?
  }

  /** A use is allowed exactly when the settled history has its scheme qualified, active, wide enough and under no stopping review. */
  lemma AllowedInPlainFacts(r: UseRequirement, before: Option<Journal>, after: Option<Journal>)
    ensures Evaluate(Bound(r), before, after).status == Allowed
       <==> && r.schemeId != "" && Settled(before, after)
            && var config := Reconstruct(before.value).value.configuration;
            && r.schemeId in config.states
            && config.states[r.schemeId].qualification == "qualified"
            && config.states[r.schemeId].activation == "active"
            && WithinScope(r.use, config.states[r.schemeId].scope)
            && !StoppedByReview(config, r.schemeId, r.use)
  {
    hide Evaluate, Absorbs, Judge, GovernanceEvents, WithinScope, StoppedByReview;
    VerdictExactlyWhenJudged(r, before, after);
    if Evaluate(Bound(r), before, after).status in {Allowed, Blocked} {
      JudgedFromHistory(r, before.value, after.value);
      JudgedExactly(Reconstruct(before.value).value.configuration, r);
    }
  }

  /** Which kind of answer is given at all. */
  lemma StatusExactly(resolution: Resolution, before: Option<Journal>, after: Option<Journal>)
    ensures var status := Evaluate(resolution, before, after).status;
      && (status == NotApplicable <==> resolution == NoResolver || resolution == NotBound)
      && (status == Stale <==>
            && resolution.Bound? && resolution.requirement.schemeId != "" && before.Some? && after.Some?
            && GovernanceEvents(before.value) != [] && Reconstruct(before.value).Ok?
            && GovernanceEvents(before.value) != GovernanceEvents(after.value))
      && (status == Allowed || status == Blocked <==>
            && resolution.Bound? && resolution.requirement.schemeId != "" && Settled(before, after)
            && resolution.requirement.schemeId in Reconstruct(before.value).value.configuration.states)
  {
    hide Absorbs, GovernanceEvents, SnapshotOf, BlockingReviewOpen, ScopeMatches;
    if before.Some? {
      OtherEventsIrrelevant(before.value);
      NothingReconstructs();
    }
  }

  /** What the answer carries along: the digest of the requirement wherever there is one, and a snapshot with every verdict. */
  lemma DigestsCarried(resolution: Resolution, before: Option<Journal>, after: Option<Journal>)
    ensures var j := Evaluate(resolution, before, after);
      && j.requirement == (match resolution
                           case Bound(r) => Some(BoundRequirement(r.schemeId, r.use.name, r.use.requestedScope))
                           case ResolverFailed => None
                           case _ => Some(NotBoundRequirement))
      && (j.snapshot.Some? <==> j.status == NotApplicable || j.status == Allowed || j.status == Blocked)
      && (j.status == NotApplicable ==> j.snapshot == Some(NotBoundSnapshot))
  {
    hide Reconstruct, GovernanceEvents, SnapshotOf, BlockingReviewOpen, ScopeMatches;
  }

  // ---------------------------------------------------------------- the snapshot

  /** The review stops the use, and under this condition. */
  ghost predicate StopsUnder(
    o: ReviewObligation, r: UseRequirement, scope: set<string>, context: Option<string>, condition: Option<BlockingCondition>
  ) {
    && StopsUse(o, r.schemeId, r.use, scope)
    && o.blockingCondition == condition && (condition.None? ==> context == Some(o.context))
  }

  ghost function StoppingUnder(
    obligations: map<string, ReviewObligation>, r: UseRequirement, scope: set<string>, context: Option<string>,
    condition: Option<BlockingCondition>
  ): set<string> {
    set id | id in obligations && StopsUnder(obligations[id], r, scope, context, condition)
  }

  function PredicateFor(context: Option<string>, condition: Option<BlockingCondition>): BlockingPredicate
    requires condition.None? ==> context.Some?
  {
    match condition
    case Some(c) => OnCondition(c.contextNames, c.scopeAny, c.scopeAll)
    case None => OnContext(context.value)
  }

  lemma OneCounted(
    o: ReviewObligation, r: UseRequirement, scope: set<string>, context: Option<string>, condition: Option<BlockingCondition>
  )
    requires condition.None? ==> context.Some?
    ensures BlockerOf(o, r, scope)[PredicateFor(context, condition)] == if StopsUnder(o, r, scope, context, condition) then 1 else 0
  {
    hide StopsUse, Relevant;
    StopsUseExactly(o, r, scope);
  }

  lemma OneLessStopping(
    obligations: map<string, ReviewObligation>, id: string, r: UseRequirement, scope: set<string>, context: Option<string>,
    condition: Option<BlockingCondition>
  )
    requires id in obligations
    ensures |StoppingUnder(obligations, r, scope, context, condition)|
         == |StoppingUnder(obligations - {id}, r, scope, context, condition)|
            + if StopsUnder(obligations[id], r, scope, context, condition) then 1 else 0
  {
    hide StopsUnder;
    var rest, stops := obligations - {id}, StopsUnder(obligations[id], r, scope, context, condition);
    var all, others := StoppingUnder(obligations, r, scope, context, condition), StoppingUnder(rest, r, scope, context, condition);
    forall x ensures x in others <==> x in all && x != id {
      if x in rest {
        assert rest[x] == obligations[x];
      }
    }
    assert others == all - {id};
    assert id in all <==> stops;
  }

  /** The digest lists each stopping condition once for every open review that stops the use under it. */
  lemma {:induction false} BlockersCount(
    obligations: map<string, ReviewObligation>, r: UseRequirement, scope: set<string>, context: Option<string>,
    condition: Option<BlockingCondition>
  )
    requires condition.None? ==> context.Some?
    ensures Blockers(obligations, r, scope)[PredicateFor(context, condition)]
         == |StoppingUnder(obligations, r, scope, context, condition)|
    decreases |obligations|
  {
    hide StopsUnder, BlockerOf, PredicateFor;
    if obligations == map[] {
      assert StoppingUnder(obligations, r, scope, context, condition) == {};
    } else {
      hide StoppingUnder;
      var id := Least(obligations.Keys);
      OneKeyLess(obligations, id);
      BlockersCount(obligations - {id}, r, scope, context, condition);
      OneCounted(obligations[id], r, scope, context, condition);
      OneLessStopping(obligations, id, r, scope, context, condition);
    }
  }

  /** Two snapshots are one exactly when requirement, projection and stopping conditions are, each as often. */
  lemma SnapshotsAgreeExactly(
    s: DistinctionState, x: map<string, ReviewObligation>, r: UseRequirement,
    t: DistinctionState, y: map<string, ReviewObligation>, q: UseRequirement
  )
    ensures SnapshotOf(s, x, r) == SnapshotOf(t, y, q)
       <==> && r == q
            && s.qualification == t.qualification && s.activation == t.activation && s.scope == t.scope
            && forall context: Option<string>, condition: Option<BlockingCondition> | condition.None? ==> context.Some? ::
                 |StoppingUnder(x, r, s.scope, context, condition)| == |StoppingUnder(y, q, t.scope, context, condition)|
  {
    hide Blockers, StoppingUnder;
    forall context: Option<string>, condition: Option<BlockingCondition> | condition.None? ==> context.Some?
      ensures |StoppingUnder(x, r, s.scope, context, condition)| == Blockers(x, r, s.scope)[PredicateFor(context, condition)]
      ensures |StoppingUnder(y, q, t.scope, context, condition)| == Blockers(y, q, t.scope)[PredicateFor(context, condition)]
    {
      BlockersCount(x, r, s.scope, context, condition);
      BlockersCount(y, q, t.scope, context, condition);
    }
    var a, b := Blockers(x, r, s.scope), Blockers(y, q, t.scope);
    if forall context: Option<string>, condition: Option<BlockingCondition> | condition.None? ==> context.Some? ::
         |StoppingUnder(x, r, s.scope, context, condition)| == |StoppingUnder(y, q, t.scope, context, condition)|
    {
      forall p: BlockingPredicate ensures a[p] == b[p] {
        match p
        case OnContext(name) => assert p == PredicateFor(Some(name), None);
        case OnCondition(n, any, all) => assert p == PredicateFor(None, Some(BlockingCondition(n, any, all)));
      }
    }
  }
}
