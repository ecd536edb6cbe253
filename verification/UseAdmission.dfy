/**
 Admission of one capability use, judged from the canonical history alone, and
 the digest of exactly those facts that can change the judgment.
 */
module UseAdmission {
  import opened Wrappers
  import opened Text
  import opened Distinction
  import opened ExecutionIdentity
  import opened Canonical
  import opened History
  import opened Durable
  import opened Coherence
  import opened Runs
  import opened Provenance
  import opened Lifecycle

  datatype UseRequirement = UseRequirement(schemeId: string, use: UseContext)

  /** What the runtime-owned resolver says about one request. */
  datatype Resolution = NoResolver | ResolverFailed | NotBound | Bound(requirement: UseRequirement)

  datatype Status = NotApplicable | Allowed | Blocked | Unavailable | Stale

  datatype Reason =
    | NotGoverned
    | ResolutionFailed
    | NoSchemeIdentity
    | HistoryUnreadable
    | NoCanonicalHistory
    | HistoryBroken
    | RecheckFailed
    | ChangedMeanwhile
    | NoProjection
    | NotQualified
    | NotActive
    | OutsideScope
    | ReviewOpen
    | Permitted

  datatype Judgment = Judgment(
    status: Status,
    requirement: Option<RequirementDigest>,
    snapshot: Option<SnapshotDigest>,
    reason: Reason)

  function RequirementOf(r: UseRequirement): RequirementDigest {
    BoundRequirement(r.schemeId, r.use.name, r.use.requestedScope)
  }

  // ------------------------------------------------------------------- digest

  predicate Relevant(o: ReviewObligation, r: UseRequirement, scope: set<string>) {
    o.target == r.schemeId && ObligationBlocks(o, r.use, scope)
  }

  function PredicateOf(o: ReviewObligation): BlockingPredicate {
    match o.blockingCondition
    case None => OnContext(o.context)
    case Some(c) => OnCondition(c.contextNames, c.scopeAny, c.scopeAll)
  }

  function BlockerOf(o: ReviewObligation, r: UseRequirement, scope: set<string>): multiset<BlockingPredicate> {
    if Relevant(o, r, scope) then multiset{PredicateOf(o)} else multiset{}
  }

  /** The blocking predicates of the relevant reviews, each as often as it occurs. */
  function Blockers(
    obligations: map<string, ReviewObligation>, r: UseRequirement, scope: set<string>
  ): multiset<BlockingPredicate>
    decreases |obligations|
  {
    if obligations == map[] then multiset{}
    else
      var id := Least(obligations.Keys);
      assert |obligations - {id}| < |obligations| by { OneKeyLess(obligations, id); }
      Blockers(obligations - {id}, r, scope) + BlockerOf(obligations[id], r, scope)
  }

  lemma OneKeyLess(obligations: map<string, ReviewObligation>, id: string)
    requires id in obligations
    ensures |obligations - {id}| < |obligations|
  {
    assert (obligations - {id}).Keys == obligations.Keys - {id};
    assert |obligations.Keys - {id}| < |obligations.Keys|;
  }

  function SnapshotOf(s: DistinctionState, obligations: map<string, ReviewObligation>, r: UseRequirement): SnapshotDigest {
    BoundSnapshot(r.schemeId, r.use.name, r.use.requestedScope, s.qualification, s.activation, s.scope,
                  Blockers(obligations, r, s.scope))
  }

  /** The listing may start anywhere: any review can be taken out first. */
  lemma {:induction false} TakeOut(obligations: map<string, ReviewObligation>, id: string, r: UseRequirement, scope: set<string>)
    requires id in obligations
    ensures Blockers(obligations, r, scope) == Blockers(obligations - {id}, r, scope) + BlockerOf(obligations[id], r, scope)
    decreases |obligations|
  {
    hide BlockerOf;
    var least := Least(obligations.Keys);
    if least != id {
      var rest := obligations - {least};
      OneKeyLess(obligations, least);
      OneKeyLess(obligations, id);
      TakeOut(rest, id, r, scope);
      assert rest - {id} == (obligations - {id}) - {least};
      assert least in obligations - {id};
      TakeOut(obligations - {id}, least, r, scope);
    }
  }

  lemma PutIn(obligations: map<string, ReviewObligation>, o: ReviewObligation, r: UseRequirement, scope: set<string>)
    requires o.id !in obligations
    ensures Blockers(obligations[o.id := o], r, scope) == Blockers(obligations, r, scope) + BlockerOf(o, r, scope)
  {
    TakeOut(obligations[o.id := o], o.id, r, scope);
    assert obligations[o.id := o] - {o.id} == obligations;
  }

  /** No blocker is listed exactly when no relevant review is open. */
  lemma {:induction false} NoBlockersExactly(obligations: map<string, ReviewObligation>, r: UseRequirement, scope: set<string>)
    ensures Blockers(obligations, r, scope) == multiset{}
       <==> forall id | id in obligations :: !Relevant(obligations[id], r, scope)
    decreases |obligations|
  {
    hide Relevant;
    if obligations != map[] {
      var id := Least(obligations.Keys);
      OneKeyLess(obligations, id);
      NoBlockersExactly(obligations - {id}, r, scope);
      assert forall k | k in obligations :: k == id || k in obligations - {id};
    }
  }

  /** Collected in any order; the digest is the same. */
  method CollectBlockers(obligations: map<string, ReviewObligation>, r: UseRequirement, scope: set<string>)
    returns (blockers: multiset<BlockingPredicate>)
    ensures blockers == Blockers(obligations, r, scope)
  {
    hide Blockers, BlockerOf;
    blockers := multiset{};
    var rest := obligations;
    while rest != map[]
      invariant blockers + Blockers(rest, r, scope) == Blockers(obligations, r, scope)
      decreases |rest|
    {
      var id :| id in rest;
      TakeOut(rest, id, r, scope);
      OneKeyLess(rest, id);
      blockers := blockers + BlockerOf(rest[id], r, scope);
      rest := rest - {id};
    }
    NoneToList(r, scope);
  }

  lemma {:induction false} NoneToList(r: UseRequirement, scope: set<string>)
    ensures Blockers(map[], r, scope) == multiset{}
  {
  }

  // --------------------------------------------------------------- the judgment

  function GovernanceEvents(journal: Journal): Journal {
    if journal == [] then []
    else
      var before := GovernanceEvents(journal[..|journal| - 1]);
      if IsGovernance(journal[|journal| - 1]) then before + [journal[|journal| - 1]] else before
  }

  method CanonicalEvents(journal: Journal) returns (events: Journal)
    ensures events == GovernanceEvents(journal)
  {
    events := [];
    for i := 0 to |journal|
      invariant events == GovernanceEvents(journal[..i])
    {
      assert journal[..i + 1][..i] == journal[..i];
      if IsGovernance(journal[i]) {
        events := events + [journal[i]];
      }
    }
    assert journal[..|journal|] == journal;
  }

  /** The judgment on a projection that exists. */
  function Judge(s: DistinctionState, config: Configuration, r: UseRequirement): Judgment {
    var requirement, snapshot := Some(RequirementOf(r)), Some(SnapshotOf(s, config.obligations, r));
    if s.qualification != "qualified" then Judgment(Blocked, requirement, snapshot, NotQualified)
    else if s.activation != "active" then Judgment(Blocked, requirement, snapshot, NotActive)
    else if !ScopeMatches(s.scope, r.use) then Judgment(Blocked, requirement, snapshot, OutsideScope)
    else if BlockingReviewOpen(config, r.schemeId, r.use) then Judgment(Blocked, requirement, snapshot, ReviewOpen)
    else Judgment(Allowed, requirement, snapshot, Permitted)
  }

  /** Both reads of the journal are given; a read that fails is absent. */
  function Evaluate(resolution: Resolution, before: Option<Journal>, after: Option<Journal>): Judgment {
    match resolution
    case NoResolver => Judgment(NotApplicable, Some(NotBoundRequirement), Some(NotBoundSnapshot), NotGoverned)
    case NotBound => Judgment(NotApplicable, Some(NotBoundRequirement), Some(NotBoundSnapshot), NotGoverned)
    case ResolverFailed => Judgment(Unavailable, None, None, ResolutionFailed)
    case Bound(r) =>
      var requirement := Some(RequirementOf(r));
      if r.schemeId == "" then Judgment(Unavailable, requirement, None, NoSchemeIdentity)
      else if before.None? then Judgment(Unavailable, requirement, None, HistoryUnreadable)
      else
        var events := GovernanceEvents(before.value);
        if events == [] then Judgment(Unavailable, requirement, None, NoCanonicalHistory)
        else
          match Reconstruct(events)
          case Err(_) => Judgment(Unavailable, requirement, None, HistoryBroken)
          case Ok(history) =>
            if after.None? then Judgment(Unavailable, requirement, None, RecheckFailed)
            else if GovernanceEvents(after.value) != events then Judgment(Stale, requirement, None, ChangedMeanwhile)
            else
              var config := history.configuration;
              if r.schemeId !in config.states then Judgment(Unavailable, requirement, None, NoProjection)
              else Judge(config.states[r.schemeId], config, r)
  }

  // ------------------------------------------------------ admission means usable

  lemma {:induction false} OtherEventsFoldAway(journal: Journal)
    ensures Absorbs(GovernanceEvents(journal)) == Absorbs(journal)
  {
    if journal != [] {
      var prefix, last := journal[..|journal| - 1], journal[|journal| - 1];
      OtherEventsFoldAway(prefix);
      if IsGovernance(last) {
        assert (GovernanceEvents(prefix) + [last])[..|GovernanceEvents(prefix)|] == GovernanceEvents(prefix);
      }
    }
  }

  lemma OtherEventsIrrelevant(journal: Journal)
    ensures Reconstruct(GovernanceEvents(journal)) == Reconstruct(journal)
  {
    OtherEventsFoldAway(journal);
  }

  /** Everything a judgment with a snapshot rests on. */
  predicate Judged(journal: Journal, schemeId: string) {
    && Reconstruct(journal).Ok?
    && schemeId in Reconstruct(journal).value.configuration.states
  }

  lemma JudgedFromHistory(r: UseRequirement, before: Journal, after: Journal)
    requires r.schemeId != "" && GovernanceEvents(before) == GovernanceEvents(after) && Judged(before, r.schemeId)
    ensures Judged(after, r.schemeId) && Reconstruct(after) == Reconstruct(before)
    ensures var config := Reconstruct(before).value.configuration;
      Evaluate(Bound(r), Some(before), Some(after)) == Judge(config.states[r.schemeId], config, r)
  {
    hide Absorbs, Judge;
    OtherEventsIrrelevant(before);
    OtherEventsIrrelevant(after);
    if GovernanceEvents(before) == [] {
      NothingReconstructs();
    }
  }

  lemma NothingReconstructs()
    ensures Reconstruct([]) == Ok(CanonicalHistory(EMPTY_CONFIGURATION, map[]))
  {
  }

  lemma JudgeExactly(s: DistinctionState, config: Configuration, r: UseRequirement)
    requires r.schemeId in config.states && config.states[r.schemeId] == s
    ensures Judge(s, config, r).status == if Usable(config, r.schemeId, r.use) then Allowed else Blocked
  {
  }

  /** Once the scheme is resolved, a use is allowed exactly when it is usable, and blocked otherwise. */
  lemma AllowedExactlyWhenUsable(r: UseRequirement, before: Journal, after: Journal)
    requires r.schemeId != "" && GovernanceEvents(before) == GovernanceEvents(after) && Judged(before, r.schemeId)
    ensures Evaluate(Bound(r), Some(before), Some(after)).status
         == if Usable(Reconstruct(before).value.configuration, r.schemeId, r.use) then Allowed else Blocked
  {
    hide Absorbs, Judge, Usable, Evaluate, GovernanceEvents;
    JudgedFromHistory(r, before, after);
    var config := Reconstruct(before).value.configuration;
    JudgeExactly(config.states[r.schemeId], config, r);
  }

  /** Where a verdict on the scheme itself is reached, and where it is not. */
  lemma VerdictExactlyWhenJudged(r: UseRequirement, before: Option<Journal>, after: Option<Journal>)
    ensures Evaluate(Bound(r), before, after).status in {Allowed, Blocked}
       <==> && r.schemeId != "" && before.Some? && after.Some?
            && GovernanceEvents(before.value) == GovernanceEvents(after.value)
            && Judged(before.value, r.schemeId)
  {
    hide Absorbs, SnapshotOf, BlockingReviewOpen, ScopeMatches;
    if before.Some? {
      OtherEventsIrrelevant(before.value);
      if GovernanceEvents(before.value) == [] {
        NothingReconstructs();
      }
    }
  }

  /** An allowed answer already holds of the journal as read the second time. */
  lemma AllowedStillHolds(r: UseRequirement, before: Option<Journal>, after: Option<Journal>)
    requires Evaluate(Bound(r), before, after).status == Allowed
    ensures after.Some? && Judged(after.value, r.schemeId)
    ensures Usable(Reconstruct(after.value).value.configuration, r.schemeId, r.use)
  {
    hide Absorbs, Usable, Evaluate, GovernanceEvents, Judge;
    VerdictExactlyWhenJudged(r, before, after);
    AllowedExactlyWhenUsable(r, before.value, after.value);
    JudgedFromHistory(r, before.value, after.value);
  }

  // ------------------------------------------------ the digest decides the verdict

  predicate DigestAllows(d: SnapshotDigest) {
    && d.BoundSnapshot?
    && d.qualification == "qualified"
    && d.activation == "active"
    && ScopeMatches(d.scope, UseContext(d.name, d.requestedScope))
    && d.blockers == multiset{}
  }

  lemma JudgeByDigest(s: DistinctionState, config: Configuration, r: UseRequirement)
    requires r.schemeId in config.states && config.states[r.schemeId] == s
    ensures Judge(s, config, r).status == if DigestAllows(SnapshotOf(s, config.obligations, r)) then Allowed else Blocked
  {
    NoBlockersExactly(config.obligations, r, s.scope);
    hide ObligationBlocks;
  }

  /** Two judgments with one snapshot digest reach one verdict, whatever the histories behind them. */
  lemma DigestDecidesVerdict(r: UseRequirement, before: Option<Journal>, after: Option<Journal>)
    requires Evaluate(Bound(r), before, after).status in {Allowed, Blocked}
    ensures var j := Evaluate(Bound(r), before, after);
      && j.snapshot.Some?
      && j.status == if DigestAllows(j.snapshot.value) then Allowed else Blocked
  {
    hide Absorbs, Usable, Evaluate, GovernanceEvents, DigestAllows;
    VerdictExactlyWhenJudged(r, before, after);
    JudgedFromHistory(r, before.value, after.value);
    var config := Reconstruct(before.value).value.configuration;
    JudgeByDigest(config.states[r.schemeId], config, r);
    JudgeCarriesSnapshot(config.states[r.schemeId], config, r);
  }

  lemma JudgeCarriesSnapshot(s: DistinctionState, config: Configuration, r: UseRequirement)
    ensures Judge(s, config, r).snapshot == Some(SnapshotOf(s, config.obligations, r))
    ensures Judge(s, config, r).requirement == Some(RequirementOf(r))
  {
    hide SnapshotOf, BlockingReviewOpen;
  }

  // ------------------------------------------------- what leaves the digest alone

  /** The step concerns the required scheme's state or a review that bears on this use. */
  predicate Touches(config: Configuration, op: Operation, r: UseRequirement)
    requires r.schemeId in config.states
  {
    var scope := config.states[r.schemeId].scope;
    match op
    case ApplyState(k, _, _, _) => k == r.schemeId
    case OpenOne(o) => Relevant(o, r, scope)
    case OpenFor(_, os) => exists o | o in os :: Relevant(o, r, scope)
    case Discharge(id, _, _) => id in config.obligations && Relevant(config.obligations[id], r, scope)
    case _ => false
  }

  lemma PuttingIrrelevantIn(obligations: map<string, ReviewObligation>, o: ReviewObligation, r: UseRequirement, scope: set<string>)
    requires !Relevant(o, r, scope)
    requires o.id in obligations ==> !Relevant(obligations[o.id], r, scope)
    ensures Blockers(obligations[o.id := o], r, scope) == Blockers(obligations, r, scope)
  {
    hide Relevant, Blockers;
    var rest := obligations - {o.id};
    PutIn(rest, o, r, scope);
    assert rest[o.id := o] == obligations[o.id := o];
    if o.id in obligations {
      TakeOut(obligations, o.id, r, scope);
    } else {
      assert rest == obligations;
    }
  }

  lemma {:induction false} IrrelevantBatch(d: Durable, os: seq<ReviewObligation>, r: UseRequirement, scope: set<string>)
    requires ValidateBatch(d.config, os).Ok? && OpenBatch(d, os).Ok?
    requires forall o | o in os :: !Relevant(o, r, scope)
    ensures Blockers(OpenBatch(d, os).value.config.obligations, r, scope) == Blockers(d.config.obligations, r, scope)
    ensures OpenBatch(d, os).value.config.states == d.config.states
  {
    hide ValidateBatch, KeyOpen, KeyOf, Append, Relevant, Blockers;
    if os != [] {
      var prefix, o := os[..|os| - 1], os[|os| - 1];
      assert os == prefix + [o];
      LastIsNew(d.config, os);
      IrrelevantBatch(d, prefix, r, scope);
      OpeningEachOnce(d, prefix);
      assert OnlyAdds(d.config, OpenBatch(d, prefix).value.config, prefix);
      PuttingIrrelevantIn(OpenBatch(d, prefix).value.config.obligations, o, r, scope);
    }
  }

  lemma {:induction false} SnapshotByParts(
    s: DistinctionState, x: map<string, ReviewObligation>, y: map<string, ReviewObligation>, r: UseRequirement
  )
    requires Blockers(x, r, s.scope) == Blockers(y, r, s.scope)
    ensures SnapshotOf(s, x, r) == SnapshotOf(s, y, r)
  {
  }

  lemma {:induction false} DischargingIrrelevant(d: Durable, id: string, receipt: ApplicationReceipt, freshness: Option<FreshnessLookup>,
                              r: UseRequirement, scope: set<string>)
    requires CommitReviewDischarge(d, id, receipt, freshness).Ok?
    requires id in d.config.obligations ==> !Relevant(d.config.obligations[id], r, scope)
    ensures var after := CommitReviewDischarge(d, id, receipt, freshness).value.config;
      after.states == d.config.states && Blockers(after.obligations, r, scope) == Blockers(d.config.obligations, r, scope)
  {
    hide CommitReviewDischarge, Relevant, Blockers, Linked, Append;
    DischargeFacts(d, id, receipt, freshness);
    TakeOut(d.config.obligations, id, r, scope);
  }

  lemma {:induction false} OpeningIrrelevant(d: Durable, op: Operation, r: UseRequirement, scope: set<string>)
    requires Perform(d, op).Ok?
    requires op.OpenOne? || op.OpenFor?
    requires op.OpenOne? ==> !Relevant(op.obligation, r, scope)
    requires op.OpenFor? ==> forall o | o in op.obligations :: !Relevant(o, r, scope)
    ensures After(d, op).config.states == d.config.states
    ensures Blockers(After(d, op).config.obligations, r, scope) == Blockers(d.config.obligations, r, scope)
  {
    hide Relevant, Blockers, KeyOpen, CommitEventObligations, Append;
    if op.OpenOne? {
      if ValidateObligation(d.config, op.obligation) == Ok(true) {
        PuttingIrrelevantIn(d.config.obligations, op.obligation, r, scope);
      }
    } else {
      CommitEventCases(d, op.eventRef, op.obligations);
      if OpenBatch(d, op.obligations).Ok? && ValidateBatch(d.config, op.obligations).Ok? {
        IrrelevantBatch(d, op.obligations, r, scope);
      }
    }
  }

  lemma {:induction false} CommitEventCases(d: Durable, eventRef: string, os: seq<ReviewObligation>)
    requires CommitEventObligations(d, eventRef, os).Ok?
    ensures var after := CommitEventObligations(d, eventRef, os).value.0;
      || after == d
      || (OpenBatch(d, os).Ok? && ValidateBatch(d.config, os).Ok? && after.config == OpenBatch(d, os).value.config)
  {
  }

  /** Steps on other schemes, or on reviews that do not bear on the use, leave its snapshot digest as it was. */
  lemma UnrelatedStepsKeepSnapshot(d: Durable, op: Operation, r: UseRequirement)
    requires Coherent(d) && Perform(d, op).Ok? && r.schemeId in d.config.states && !Touches(d.config, op, r)
    ensures r.schemeId in After(d, op).config.states
    ensures SnapshotOf(After(d, op).config.states[r.schemeId], After(d, op).config.obligations, r)
         == SnapshotOf(d.config.states[r.schemeId], d.config.obligations, r)
  {
    hide Coherent, SnapshotOf, Blockers, Relevant, CommitEventObligations, CommitStateApplication, CommitReviewDischarge,
      OpenReview, StateAdmissibleFor, ReviewInputMatches, Append, Minted;
    var scope, after := d.config.states[r.schemeId].scope, After(d, op);
    match op {
      case ApplyState(k, next, receipt, freshness) => StateApplicationFacts(d, k, next, receipt, freshness);
      case Discharge(id, receipt, freshness) => DischargingIrrelevant(d, id, receipt, freshness, r, scope);
      case OpenOne(_) => OpeningIrrelevant(d, op, r, scope);
      case OpenFor(_, _) => OpeningIrrelevant(d, op, r, scope);
      case RebuildAll => RebuildIsIdentity(d);
      case _ =>
    }
    assert after.config.states[r.schemeId] == d.config.states[r.schemeId];
    SnapshotByParts(d.config.states[r.schemeId], after.config.obligations, d.config.obligations, r);
  }
}
