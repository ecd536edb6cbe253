/**
 The pure distinction-governance kernel: states, review obligations, decisions
 and application receipts, and the three admitted transitions over them.
 Nothing here touches a store; every step is a function of a configuration.
 */
module Distinction {
  import opened Wrappers
  import opened Text

  const DECIDE_QUALIFICATION := "decide_qualification"
  const APPLY_QUALIFICATION := "apply_qualification_transition"
  const DECIDE_ACTIVATION := "decide_activation"
  const APPLY_ACTIVATION := "apply_activation_transition"
  const APPLY_REVIEW_DISCHARGE := "apply_review_discharge"

  /** Where a text-keyed fact stands now, if it is known at all. */
  type FreshnessLookup = string -> Option<string>
  type AuthorityCheck = AuthorityRequest -> bool

  datatype DistinctionState = DistinctionState(
    qualification: string,
    activation: string,
    scope: set<string>,
    partition: seq<set<string>>,
    version: int)

  datatype UseContext = UseContext(name: string, requestedScope: set<string>)

  datatype BlockingCondition = BlockingCondition(
    contextNames: set<string>,
    scopeAny: set<string>,
    scopeAll: set<string>)

  datatype AuthorityTarget = AuthorityTarget(
    kind: string,
    schemeId: string,
    resourceRef: string,
    scope: Option<set<string>>,
    partition: Option<seq<set<string>>>,
    operationalAnchor: Option<string>)

  datatype AuthorityRequest = AuthorityRequest(
    actor: string,
    operation: string,
    target: AuthorityTarget,
    context: string)

  datatype ReviewObligation = ReviewObligation(
    id: string,
    target: string,
    triggerRef: string,
    basisRefs: seq<string>,
    context: string,
    blocking: bool,
    blockingCondition: Option<BlockingCondition>,
    closureRequirements: set<string>,
    invalidatesDecisions: set<string>)

  datatype GovernanceDecision = GovernanceDecision(
    id: string,
    actor: string,
    operation: string,
    target: string,
    context: string,
    reviewRefs: seq<string>,
    disposition: string,
    expectedStateAnchor: string,
    basisAnchors: seq<(string, string)>,
    scopeSnapshot: set<string>,
    partitionSnapshot: seq<set<string>>,
    closureFacts: set<string>,
    requiredQualification: Option<string>,
    requiredActivation: Option<string>,
    superseded: bool)

  datatype GovernedApplication = GovernedApplication(
    id: string,
    actor: string,
    operation: string,
    schemeId: string,
    target: string,
    decisionRef: string,
    context: string,
    newQualification: Option<string>,
    newActivation: Option<string>,
    reviewObligationId: Option<string>)

  datatype ApplicationReceipt = ApplicationReceipt(
    application: GovernedApplication,
    effectKind: string,
    preAnchor: string,
    postAnchor: string)

  /** Governed states together with open reviews, decisions and applications. */
  datatype Configuration = Configuration(
    states: map<string, DistinctionState>,
    obligations: map<string, ReviewObligation>,
    decisions: map<string, GovernanceDecision>,
    applications: map<string, ApplicationReceipt>)

  const EMPTY_CONFIGURATION := Configuration(map[], map[], map[], map[])

  // ------------------------------------------------------------ anchors

  function CanonicalPartition(partition: seq<set<string>>): seq<seq<string>> {
    SortCells(SortedCells(partition))
  }

  /** Two partitions come out alike exactly when they have the same cells, in whatever order. */
  lemma CanonicalPartitionMeans(p: seq<set<string>>, q: seq<set<string>>)
    ensures CanonicalPartition(p) == CanonicalPartition(q) <==> multiset(p) == multiset(q)
  {
    SortCellsForgetsOrder(SortedCells(p), SortedCells(q));
    SortedCellsMeans(p, q);
  }

  function AnchorTail(s: DistinctionState): string {
    "q=" + s.qualification + "|a=" + s.activation
    + "|scope=" + Join(",", Sorted(s.scope))
    + "|partition=" + CellsRepr(CanonicalPartition(s.partition))
  }

  /** The text naming one exact operational state. */
  function StateAnchor(s: DistinctionState): string {
    "v=" + (Decimal(s.version) + ['|'] + AnchorTail(s))
  }

  function ObligationsAnchor(obligations: map<string, ReviewObligation>): string {
    Join("|", Sorted(obligations.Keys))
  }

  /** Two states named by the same anchor carry the same version. */
  lemma AnchorFixesVersion(a: DistinctionState, b: DistinctionState)
    requires StateAnchor(a) == StateAnchor(b)
    ensures a.version == b.version
  {
    var x, y := Decimal(a.version), Decimal(b.version);
    assert StateAnchor(a)[2..] == x + ['|'] + AnchorTail(a);
    assert StateAnchor(b)[2..] == y + ['|'] + AnchorTail(b);
    DecimalHasNoBar(a.version);
    DecimalHasNoBar(b.version);
    HeadDetermined('|', x, y, AnchorTail(a), AnchorTail(b));
    DecimalInjective(a.version, b.version);
  }

  // ------------------------------------------------------- admissibility

  /** The remaining cells are non-empty, miss everything seen so far and each other, and complete the scope. */
  predicate CoverRest(partition: seq<set<string>>, union: set<string>, scope: set<string>) {
    if partition == [] then union == scope
    else
      && partition[0] != {}
      && union !! partition[0]
      && CoverRest(partition[1..], union + partition[0], scope)
  }

  predicate ExactCover(partition: seq<set<string>>, scope: set<string>) {
    CoverRest(partition, {}, scope)
  }

  /** Each item lies in exactly one cell, and no cell is empty or strays outside. */
  ghost predicate EachItemOnce(cells: seq<set<string>>, items: set<string>) {
    && (forall i | 0 <= i < |cells| :: cells[i] != {} && cells[i] <= items)
    && (forall i, j | 0 <= i < j < |cells| :: cells[i] !! cells[j])
    && (forall x | x in items :: InSomeCell(x, cells))
  }

  ghost predicate InSomeCell(x: string, cells: seq<set<string>>) {
    exists i :: 0 <= i < |cells| && x in cells[i]
  }

  lemma CellTakenOff(cells: seq<set<string>>, items: set<string>)
    requires cells != [] && EachItemOnce(cells, items)
    ensures EachItemOnce(cells[1..], items - cells[0])
  {
    var rest := cells[1..];
    assert forall i | 0 <= i < |rest| :: rest[i] == cells[i + 1];
    forall x | x in items - cells[0] ensures InSomeCell(x, rest) {
      assert InSomeCell(x, cells);
      var i :| 0 <= i < |cells| && x in cells[i];
      assert rest[i - 1] == cells[i];
    }
  }

  lemma CellPutBack(cells: seq<set<string>>, items: set<string>)
    requires cells != [] && cells[0] != {} && cells[0] <= items && EachItemOnce(cells[1..], items - cells[0])
    ensures EachItemOnce(cells, items)
  {
    var rest := cells[1..];
    assert forall i | 0 < i < |cells| :: cells[i] == rest[i - 1];
    forall x | x in items ensures InSomeCell(x, cells) {
      if x !in cells[0] {
        assert InSomeCell(x, rest);
        var i :| 0 <= i < |rest| && x in rest[i];
        assert cells[i + 1] == rest[i];
      }
    }
  }

  lemma {:induction false} CoverRestMeans(partition: seq<set<string>>, union: set<string>, items: set<string>)
    requires union !! items
    ensures CoverRest(partition, union, union + items) <==> EachItemOnce(partition, items)
  {
    if partition == [] {
      if items != {} {
        var x :| x in items;
        assert x in union + items && !InSomeCell(x, partition);
      }
    } else {
      var cell := partition[0];
      if CoverRest(partition, union, union + items) {
        CoverRestGrows(partition[1..], union + cell, union + items);
      }
      if cell <= items {
        assert (union + cell) + (items - cell) == union + items;
        CoverRestMeans(partition[1..], union + cell, items - cell);
        if EachItemOnce(partition, items) {
          CellTakenOff(partition, items);
        } else if CoverRest(partition, union, union + items) {
          CellPutBack(partition, items);
        }
      }
    }
  }

  /** The scan's verdict is the set-theoretic one. */
  lemma ExactCoverMeans(partition: seq<set<string>>, scope: set<string>)
    ensures ExactCover(partition, scope) <==> EachItemOnce(partition, scope)
  {
    CoverRestMeans(partition, {}, scope);
    assert {} + scope == scope;
  }

  lemma {:induction false} CoverRestGrows(partition: seq<set<string>>, union: set<string>, scope: set<string>)
    requires CoverRest(partition, union, scope)
    ensures union <= scope
  {
    if partition != [] {
      CoverRestGrows(partition[1..], union + partition[0], scope);
    }
  }

  method PartitionMatchesScope(partition: seq<set<string>>, scope: set<string>) returns (matches: bool)
    ensures matches <==> ExactCover(partition, scope)
  {
    if scope == {} {
      if partition != [] && ExactCover(partition, scope) {
        CoverRestGrows(partition[1..], {} + partition[0], scope);
      }
      return partition == [];
    }
    if partition == [] {
      return false;
    }
    var union: set<string> := {};
    var i := 0;
    while i < |partition|
      invariant 0 <= i <= |partition|
      invariant ExactCover(partition, scope) <==> CoverRest(partition[i..], union, scope)
    {
      var cell := partition[i];
      if cell == {} || union * cell != {} {
        return false;
      }
      assert forall x | x in union && x in cell :: x in union * cell;
      union := union + cell;
      i := i + 1;
    }
    matches := union == scope;
  }

  predicate StateAdmissible(s: DistinctionState) {
    && s.qualification in {"candidate", "qualified", "disqualified"}
    && s.activation in {"active", "suspended"}
    && ExactCover(s.partition, s.scope)
    && (s.activation == "active" ==> s.qualification == "qualified" && s.scope != {})
    && (s.qualification == "disqualified" ==> s.activation == "suspended")
    && (s.scope != {} || s.activation == "suspended")
  }

  predicate StateAdmissibleFor(schemeId: string, s: DistinctionState) {
    schemeId != "" && StateAdmissible(s)
  }

  predicate GlobalStateAdmissible(config: Configuration) {
    forall k | k in config.states :: StateAdmissibleFor(k, config.states[k])
  }

  // ------------------------------------------------------- blocking, use

  predicate ScopeMatches(scope: set<string>, use: UseContext) {
    scope != {} && (use.requestedScope == {} || use.requestedScope <= scope)
  }

  predicate ConditionMatches(condition: BlockingCondition, use: UseContext, stateScope: set<string>) {
    var effective := if use.requestedScope != {} then use.requestedScope else stateScope;
    && (condition.contextNames == {} || use.name in condition.contextNames)
    && (condition.scopeAny == {} || condition.scopeAny * effective != {})
    && (condition.scopeAll == {} || condition.scopeAll <= effective)
  }

  predicate ObligationBlocks(o: ReviewObligation, use: UseContext, stateScope: set<string>) {
    o.blocking &&
    match o.blockingCondition
    case Some(condition) => ConditionMatches(condition, use, stateScope)
    case None => o.context == use.name
  }

  predicate BlockingReviewOpen(config: Configuration, schemeId: string, use: UseContext) {
    schemeId in config.states &&
    exists id | id in config.obligations ::
      && config.obligations[id].target == schemeId
      && ObligationBlocks(config.obligations[id], use, config.states[schemeId].scope)
  }

  predicate Usable(config: Configuration, schemeId: string, use: UseContext) {
    && schemeId in config.states
    && config.states[schemeId].qualification == "qualified"
    && config.states[schemeId].activation == "active"
    && ScopeMatches(config.states[schemeId].scope, use)
    && !BlockingReviewOpen(config, schemeId, use)
  }

  // ----------------------------------------------------- opening reviews

  datatype ObligationKey = ObligationKey(target: string, triggerRef: string, basis: set<string>, context: string)

  /** What makes two reviews the same responsibility; basis order is irrelevant. */
  function KeyOf(o: ReviewObligation): ObligationKey {
    ObligationKey(o.target, o.triggerRef, Elements(o.basisRefs), o.context)
  }

  predicate KeyOpen(obligations: map<string, ReviewObligation>, key: ObligationKey) {
    exists id | id in obligations :: KeyOf(obligations[id]) == key
  }

  function OpenObligation(config: Configuration, o: ReviewObligation): Option<Configuration> {
    if KeyOpen(config.obligations, KeyOf(o)) then None
    else Some(config.(obligations := config.obligations[o.id := o]))
  }

  function OpenEach(config: Configuration, requested: seq<ReviewObligation>): Configuration {
    if requested == [] then config
    else
      var before := OpenEach(config, requested[..|requested| - 1]);
      match OpenObligation(before, requested[|requested| - 1])
      case Some(after) => after
      case None => before
  }

  /** Opens the reviews one event calls for, once per event. */
  function CommitEventOpening(
    config: Configuration, requested: seq<ReviewObligation>, eventKey: string, processed: set<string>
  ): Option<(Configuration, set<string>)> {
    if eventKey in processed then None
    else if exists o | o in requested :: o.triggerRef != eventKey then None
    else Some((OpenEach(config, requested), processed + {eventKey}))
  }

  /** One pass over the requested reviews; what is already open is skipped. */
  method CommitEventOpeningPass(
    config: Configuration, requested: seq<ReviewObligation>, eventKey: string, processed: set<string>
  ) returns (r: Option<(Configuration, set<string>)>)
    ensures r == CommitEventOpening(config, requested, eventKey, processed)
  {
    if eventKey in processed {
      return None;
    }
    if exists o | o in requested :: o.triggerRef != eventKey {
      return None;
    }
    var runtime := config;
    for i := 0 to |requested|
      invariant runtime == OpenEach(config, requested[..i])
    {
      assert requested[..i + 1][..i] == requested[..i];
      var next := OpenObligation(runtime, requested[i]);
      if next.Some? {
        runtime := next.value;
      }
    }
    assert requested[..|requested|] == requested;
    return Some((runtime, processed + {eventKey}));
  }

  /** No two open reviews are the same responsibility. */
  predicate NoTwins(obligations: map<string, ReviewObligation>) {
    forall x, y | x in obligations && y in obligations && x != y :: KeyOf(obligations[x]) != KeyOf(obligations[y])
  }

  lemma OpeningMakesNoTwin(config: Configuration, o: ReviewObligation)
    requires NoTwins(config.obligations) && OpenObligation(config, o).Some?
    ensures NoTwins(OpenObligation(config, o).value.obligations)
  {
    hide KeyOf;
  }

  /** However often responsibilities are requested, none is ever open twice. */
  lemma {:induction false} RequestsMakeNoTwins(config: Configuration, requested: seq<ReviewObligation>)
    requires NoTwins(config.obligations)
    ensures NoTwins(OpenEach(config, requested).obligations)
  {
    hide NoTwins, KeyOpen;
    if requested != [] {
      var before, o := OpenEach(config, requested[..|requested| - 1]), requested[|requested| - 1];
      RequestsMakeNoTwins(config, requested[..|requested| - 1]);
      if OpenObligation(before, o).Some? {
        OpeningMakesNoTwin(before, o);
      }
    }
  }

  // ------------------------------------------------ decisions, freshness

  predicate DecisionRecorded(d: GovernanceDecision, config: Configuration) {
    d.id in config.decisions && config.decisions[d.id] == d
  }

  predicate BasisUnchanged(d: GovernanceDecision, freshness: FreshnessLookup) {
    forall i | 0 <= i < |d.basisAnchors| :: freshness(d.basisAnchors[i].0) == Some(d.basisAnchors[i].1)
  }

  predicate NoInvalidatingReview(d: GovernanceDecision, config: Configuration) {
    forall id | id in config.obligations :: d.id !in config.obligations[id].invalidatesDecisions
  }

  predicate CommonFreshness(d: GovernanceDecision, config: Configuration, freshness: FreshnessLookup) {
    && DecisionRecorded(d, config)
    && !d.superseded
    && BasisUnchanged(d, freshness)
    && NoInvalidatingReview(d, config)
  }

  predicate MatchesSnapshot(d: GovernanceDecision, s: DistinctionState) {
    s.scope == d.scopeSnapshot && CanonicalPartition(s.partition) == CanonicalPartition(d.partitionSnapshot)
  }

  predicate FreshForApplication(d: GovernanceDecision, config: Configuration, freshness: FreshnessLookup) {
    && d.target in config.states
    && CommonFreshness(d, config, freshness)
    && StateAnchor(config.states[d.target]) == d.expectedStateAnchor
    && MatchesSnapshot(d, config.states[d.target])
  }

  predicate Precondition(a: GovernedApplication, config: Configuration) {
    && a.id != "" && a.operation != "" && a.target != "" && a.schemeId != ""
    && a.id !in config.applications
    && a.schemeId in config.states
    && (a.operation == APPLY_REVIEW_DISCHARGE ==> a.reviewObligationId.Some? && a.reviewObligationId.value != "")
  }

  function CandidateEffect(a: GovernedApplication, s: DistinctionState): DistinctionState {
    s.(qualification := if a.newQualification.Some? then a.newQualification.value else s.qualification,
       activation := if a.newActivation.Some? then a.newActivation.value else s.activation,
       version := s.version + 1)
  }

  predicate Linked(a: GovernedApplication, d: GovernanceDecision) {
    && a.decisionRef == d.id
    && a.schemeId == d.target
    && if a.operation == APPLY_REVIEW_DISCHARGE then d.disposition in {"no_change", "transition_required"}
       else
         || (d.operation == DECIDE_QUALIFICATION && a.operation == APPLY_QUALIFICATION)
         || (d.operation == DECIDE_ACTIVATION && a.operation == APPLY_ACTIVATION)
  }

  predicate EffectMatches(d: GovernanceDecision, s: DistinctionState) {
    && (d.requiredQualification.Some? ==> s.qualification == d.requiredQualification.value)
    && (d.requiredActivation.Some? ==> s.activation == d.requiredActivation.value)
  }

  function BasisKeys(d: GovernanceDecision): set<string> {
    set i | 0 <= i < |d.basisAnchors| :: d.basisAnchors[i].0
  }

  /** A decision answers reviews that are open, on its target and context, and whose bases it anchors. */
  predicate ReviewInputMatches(d: GovernanceDecision, config: Configuration) {
    && d.reviewRefs != []
    && forall ref | ref in d.reviewRefs ::
         && ref in config.obligations
         && config.obligations[ref].target == d.target
         && config.obligations[ref].context == d.context
         && Elements(config.obligations[ref].basisRefs) <= BasisKeys(d)
  }

  // ---------------------------------------------------- authority targets

  function ProjectionTarget(d: GovernanceDecision): AuthorityTarget {
    AuthorityTarget("distinction_projection", d.target, "distinction:" + d.target,
                    Some(d.scopeSnapshot), Some(d.partitionSnapshot), Some(d.expectedStateAnchor))
  }

  function DecisionAuthorityRequest(d: GovernanceDecision): AuthorityRequest {
    AuthorityRequest(d.actor, d.operation, ProjectionTarget(d), d.context)
  }

  function ApplicationAuthorityRequest(a: GovernedApplication, d: GovernanceDecision): AuthorityRequest {
    AuthorityRequest(a.actor, a.operation, ProjectionTarget(d), a.context)
  }

  function DischargeAuthorityRequest(a: GovernedApplication, o: ReviewObligation, s: DistinctionState): AuthorityRequest {
    AuthorityRequest(
      a.actor, a.operation,
      AuthorityTarget("review_obligation", o.target, "review_obligation:" + o.id,
                      Some(s.scope), Some(s.partition), Some(StateAnchor(s))),
      a.context)
  }

  // -------------------------------------------------- the three transitions

  predicate DecisionAdmissible(config: Configuration, d: GovernanceDecision, authority: AuthorityCheck) {
    if d.id in config.decisions then config.decisions[d.id] == d
    else
      && d.target in config.states
      && authority(DecisionAuthorityRequest(d))
      && ReviewInputMatches(d, config)
  }

  function RecordDecision(config: Configuration, d: GovernanceDecision, authority: AuthorityCheck): Option<Configuration> {
    if !DecisionAdmissible(config, d, authority) then None
    else if d.id in config.decisions then Some(config)
    else Some(config.(decisions := config.decisions[d.id := d]))
  }

  predicate ApplicationAdmissible(
    config: Configuration, a: GovernedApplication, authority: AuthorityCheck, freshness: FreshnessLookup
  ) {
    && a.operation in {APPLY_QUALIFICATION, APPLY_ACTIVATION}
    && a.target == a.schemeId
    && a.decisionRef in config.decisions
    && var d := config.decisions[a.decisionRef];
    && authority(ApplicationAuthorityRequest(a, d))
    && Linked(a, d)
    && FreshForApplication(d, config, freshness)
    && Precondition(a, config)
    && var candidate := CandidateEffect(a, config.states[a.schemeId]);
    && StateAdmissibleFor(a.schemeId, candidate)
    && d.disposition == "transition_required"
    && EffectMatches(d, candidate)
  }

  function StateReceipt(a: GovernedApplication, s: DistinctionState): ApplicationReceipt {
    ApplicationReceipt(a, "state", StateAnchor(s), StateAnchor(CandidateEffect(a, s)))
  }

  function ApplyStateTransition(
    config: Configuration, a: GovernedApplication, authority: AuthorityCheck, freshness: FreshnessLookup
  ): Option<Configuration> {
    if !ApplicationAdmissible(config, a, authority, freshness) then None
    else
      var current := config.states[a.schemeId];
      Some(config.(states := config.states[a.schemeId := CandidateEffect(a, current)],
                   applications := config.applications[a.id := StateReceipt(a, current)]))
  }

  predicate ClosureAdmissible(
    d: GovernanceDecision, o: ReviewObligation, config: Configuration, freshness: FreshnessLookup
  ) {
    && DecisionRecorded(d, config)
    && o.id in config.obligations && config.obligations[o.id] == o
    && o.id in d.reviewRefs
    && d.target == o.target && d.context == o.context
    && d.disposition in {"no_change", "transition_required"}
    && d.target in config.states
    && MatchesSnapshot(d, config.states[d.target])
    && BasisUnchanged(d, freshness)
    && o.closureRequirements <= d.closureFacts
  }

  /** The decision's own transition is committed and is where the scheme stands. */
  predicate RequiredTransitionRealized(d: GovernanceDecision, a: GovernedApplication, config: Configuration) {
    && d.target in config.states
    && a.id in config.applications
    && var s, receipt := config.states[d.target], config.applications[a.id];
    && d.disposition == "transition_required"
    && receipt.application == a
    && a.decisionRef == d.id
    && Linked(a, d)
    && receipt.effectKind == "state"
    && receipt.preAnchor == d.expectedStateAnchor
    && receipt.postAnchor == StateAnchor(s)
    && EffectMatches(d, s)
    && StateAdmissibleFor(d.target, s)
  }

  predicate FreshForDischarge(
    d: GovernanceDecision, config: Configuration, freshness: FreshnessLookup, transition: Option<GovernedApplication>
  ) {
    && d.target in config.states
    && CommonFreshness(d, config, freshness)
    && if d.disposition == "no_change" then
         StateAnchor(config.states[d.target]) == d.expectedStateAnchor && MatchesSnapshot(d, config.states[d.target])
       else
         && d.disposition == "transition_required"
         && transition.Some?
         && RequiredTransitionRealized(d, transition.value, config)
  }

  predicate DischargeAdmissible(
    config: Configuration, a: GovernedApplication, authority: AuthorityCheck, freshness: FreshnessLookup,
    transition: Option<GovernedApplication>
  ) {
    && a.operation == APPLY_REVIEW_DISCHARGE
    && a.decisionRef in config.decisions
    && a.reviewObligationId.Some?
    && a.reviewObligationId.value in config.obligations
    && var d, o := config.decisions[a.decisionRef], config.obligations[a.reviewObligationId.value];
    && a.target == "review_obligation:" + o.id
    && d.target in config.states
    && authority(DischargeAuthorityRequest(a, o, config.states[d.target]))
    && Precondition(a, config)
    && Linked(a, d)
    && ClosureAdmissible(d, o, config, freshness)
    && FreshForDischarge(d, config, freshness, transition)
    && (d.disposition == "no_change" ==> transition.None?)
  }

  function DischargeReceipt(a: GovernedApplication, config: Configuration): ApplicationReceipt
    requires a.reviewObligationId.Some?
  {
    ApplicationReceipt(
      a, "review_discharge",
      ObligationsAnchor(config.obligations),
      ObligationsAnchor(config.obligations - {a.reviewObligationId.value}))
  }

  function ApplyReviewDischarge(
    config: Configuration, a: GovernedApplication, authority: AuthorityCheck, freshness: FreshnessLookup,
    transition: Option<GovernedApplication>
  ): Option<Configuration> {
    if !DischargeAdmissible(config, a, authority, freshness, transition) then None
    else
      Some(config.(obligations := config.obligations - {a.reviewObligationId.value},
                   applications := config.applications[a.id := DischargeReceipt(a, config)]))
  }
}
