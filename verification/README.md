# Governed capability execution: a Dafny model

The runtime decides, durably and under concurrent change, whether a capability
may be used, and keeps the facts that decision rests on. This project models
that machinery and proves what it guarantees on every input and every run.

* **Governance.** A *distinction scheme* has a state (qualification, activation,
  scope, partition, version). Changes open *review obligations*; *decisions*
  answer them; *applications* move the state or discharge a review. The same
  state exists three times: as a pure step function (`Distinction`, `Kernel`),
  as a mutable projection written together with an append-only journal
  (`Durable` as a function, `Persistence` as the live object), and as the fold
  of that journal (`Canonical`, `History`). `Coherence`, `Runs`, `Divergence`,
  `Provenance`, `Precedence`, `Lifecycle`, `LifecycleRuns`, `ReviewEffects` and
  `RevalidationLifecycle` prove that the three agree, and what runs preserve;
  `Walkthrough` follows one review from opening to renewed use. `Anchors` proves
  what the textual anchors tell apart; `Conditions`, `Openings` and
  `ReviewContents` say a second time, in plain facts, when each step is admitted
  and what it then leaves behind.
* **Admission and dispatch.** `UseAdmission` judges one use from the fold, and
  `UseConditions` says when; `Registry`, `RegistryConditions` and
  `ExecutionIdentity` pin configured providers; `Stores`, `Dispatch` and
  `DispatchProtocol` commit a dispatch in one linearized write, under any
  interleaving with governance commits and registry changes.
* **Around the exit to reality.** `CircuitBreaker`, `Reliability`,
  `AdmissionLimits`, `Boundary`, `BoundaryRuns` and `Outcomes` bound and account
  for each invocation; `Controller`, `ControllerRuns` and `ControllerEffects` are
  the cognitive controller's versioned state machine.
* **Reliance on experience and policy.** `ExperienceUse`, `ExperienceVerdicts`,
  `ExperienceSnapshot` and `HistoricalUse` admit and bind reliance on experience;
  `ExperienceConditions`, `SnapshotContents`, `ReasonContents` and `UseBindings`
  say what each verdict, snapshot, reason and binding means in facts about the
  exported state; `Policies` is the decision algebra.

## How to read the model

* A digest (SHA-256 over canonical JSON) is represented by the value it is
  computed from, so digests are equal exactly when the digested facts are. The
  textual state anchor is *not* abstracted this way: it is built character by
  character, and that it names exactly one state is proved from its characters.
* A journal is a sequence of events. Appending an identical event under a taken
  id is silently absorbed and a different one is refused, as the stores do.
* A transaction is one step: the specification functions in `Durable` return a
  successor or an error, and the methods of `Persistence` are proved to reach
  that successor or to leave projection and journal exactly as they were.
* Clocks, generated ids, provider answers, routing, the resolver's answer and
  other calls into surrounding code are parameters.
* Runs are sequences of operations with arbitrary arguments; a refused
  operation leaves the state as it was.
* Main operations are described twice. The functions follow the source's
  branches; the lemmas whose names end in `Exactly` or `InPlainFacts` state the
  outcome without calling the guards and tables those functions use, so that a
  guard or a table that said something else would contradict them.

## What the proofs found

* Projection and fold do *not* agree on every run of the persistence layer.
  Reopening a review under an id that was discharged before is accepted when the
  content is identical, is absorbed by the journal, and leaves the projection
  with an open review the journal considers closed (`Divergence.ReopeningDiverges`).
  Discharging a review whose id is empty is ignored by the fold
  (`Divergence.EmptyDischargeDiverges`). These are the only two ways
  (`Runs.CoherentThroughoutExactly`). Where reviews are opened for events and
  under non-empty ids, as the lifecycle does, neither happens: a new event that
  claims an id already opened for another is refused by the journal, even when
  two events derive the same id (`LifecycleRuns.EventRunsStayCoherent`,
  `LifecycleRuns.SpentIdIsRefused`, `LifecycleRuns.SeparatorsAlias`).
* The fold ignores event order exactly when no scheme has two different states
  at its highest version (`History.OrderIrrelevantExactly`); every reachable
  journal satisfies this (`Provenance.ReachableOrderIrrelevant`), a journal with two
  seeds for one scheme does not (`History.OrderCanDecide`).
* A batch with repeated ids needs no premise: it is always refused, by the
  responsibility key or by the journal (`LifecycleRuns.RepeatedIdsRefused`).
* The anchor of an admissible state names that state and no other, whatever
  quotes, commas or bars its items contain: a reader of the cells that starts
  inside a quoted item never gets in step with one that starts outside
  (`Anchors.AnchorNamesOneState`). The anchor of the open reviews does not have
  this property where a review id contains a bar (`Anchors.BarsAlias`); without
  bars it tells them apart (`Anchors.ReviewsAnchorExactly`).
* The breaker's verdict is a function of the recorded outcomes for every number
  of half-open probes, not only for one. How soon it closes again is not: reading
  the state of an overdue breaker before it is asked keeps the successes of the
  half-open spell before, so it can close on fewer probes than it was set to
  (`CircuitBreaker.ReadingKeepsTheCount`, `CircuitBreaker.ReadFirstClosesEarly`).
* A controller that is made to wait on an empty id, by a decision to wait or by a
  revision that neither closes nor reopens, becomes unreadable for good; no other
  call can do that (`ControllerRuns.ReadableExactly`, `ControllerRuns.NamelessWaitIsFatal`).
* A second closure formed under an id already used does not replace the first: a
  proposal that names no capabilities gets those of the first
  (`ControllerRuns.ReusedIdEscapes`; exactly when is stated by
  `ControllerRuns.HandoffKeepsToLastExactly`).
* An invocation refused before the provider is called does not always cancel its
  records: when the accounting or the provider lookup fails, or the abort cannot be
  saved, they stay running (`BoundaryRuns.LeftRunningExactly`, with
  `BoundaryRuns.LostProviderLeavesRunning` as an instance). The step of an
  observation whose attempt the store refused stays running on every way out past
  precommit (`BoundaryRuns.StepLeftRunningExactly`,
  `BoundaryRuns.HalfRecordedStepStays`).
* The store takes a dispatch that names no binding from anyone; appended for an
  attempt past the committer it can leave the attempt to recover as uncommitted
  (`DispatchProtocol.ForeignDispatchMisleads`). Recovery is right about an attempt
  exactly when it carries a commitment by then or no step appended a new dispatch
  of that kind for it while it carried none (`DispatchProtocol.RecoveryRightExactly`,
  step by step `DispatchProtocol.StepTracksExactly`).
* A request id with surrounding whitespace cannot be dispatched against a
  repeat-safe contract: the captured authority names the stripped id
  (`DispatchProtocol.CapturedExactly`, `DispatchProtocol.PaddedRequestsAreRefused`).
* Policy decisions whose disposition and status disagree make the verdict depend
  on their order, and let one more policy loosen it; exactly when is stated by
  `Policies.OrderIrrelevantExactly` and `Policies.AddingLoosensExactly`. Decisions
  that leave one of the two fields out are safe.

## Model

| member | source | states |
|---|---|---|
| Distinction.PartitionMatchesScope | src/portable_runtime/governance/distinction.py:347-360 | the scan over the cells answers whether the partition covers the scope cell by cell |
| Distinction.ExactCoverMeans | src/portable_runtime/governance/distinction.py:347-360 | that scan accepts exactly the partitions in which every item lies in one cell and no cell is empty, overlaps or strays |
| Distinction.AnchorFixesVersion | src/portable_runtime/governance/distinction.py:180-193 | two states with the same anchor text have the same version |
| Text.LeqExactly | src/portable_runtime/governance/distinction.py:180-188 | the order in which items are listed: a text comes first if it begins the other, or has the smaller character where they first differ |
| Distinction.CanonicalPartitionMeans | src/portable_runtime/governance/distinction.py:180-183 | two partitions come out alike exactly when they have the same cells, each as often, in whatever order |
| Anchors.CellsReprInjective | src/portable_runtime/governance/distinction.py:186-192 | different lists of cells are written differently, whatever characters their items hold |
| Anchors.AnchorNamesOneState | src/portable_runtime/governance/distinction.py:186-192 | two admissible states have one anchor exactly when they agree in version, qualification, activation, scope and cells, whatever their items are called |
| Anchors.AnchorText | src/portable_runtime/governance/distinction.py:180-192 | one anchor in full, character by character |
| Anchors.AppliedToTheStateDecidedUpon | src/portable_runtime/governance/distinction.py:568-583 | a transition decided upon under an admissible state's anchor is applied to no other state |
| Anchors.ReviewsAnchorExactly | src/portable_runtime/governance/distinction.py:343-344 | open reviews whose ids hold no bar have one anchor exactly when their ids are the same, but for a single nameless review and none |
| Anchors.BarsAlias | src/portable_runtime/governance/distinction.py:343-344 | with a bar in an id, one open review has the anchor of two |
| Distinction.CommitEventOpeningPass | src/portable_runtime/governance/distinction.py:433-466 | the pass over the requested reviews opens each new responsibility, once per event |
| Distinction.RequestsMakeNoTwins | src/portable_runtime/governance/distinction.py:422-466 | however reviews are requested, no responsibility is ever open twice |
| Conditions.RecordedExactly | src/portable_runtime/governance/distinction.py:669-714 | a decision is recorded exactly when it is on record already, or is authorized for the projection it was taken on and answers open reviews of a known scheme with all their bases anchored; then it alone is added |
| Conditions.AppliedExactly | src/portable_runtime/governance/distinction.py:748-807 | a transition is applied exactly when it is new, authorized and of the kind decided, every anchored basis has the value it was anchored at, no open review invalidates the decision, scheme and cells are those decided on, and the outcome is admissible and required; then one scheme moves by one version |
| Conditions.DischargedExactly | src/portable_runtime/governance/distinction.py:853-925 | a review is discharged exactly when the cited decision lists it, shows every fact it asks for, still has its bases, and its own transition, if required, is where the scheme stands; then that review alone is gone |
| Conditions.MovedBasisStopsAll | src/portable_runtime/governance/distinction.py:538-542 | one anchored basis that no longer has its anchored value stops transition and discharge, in the kernel as in the store |
| Kernel.AppliedIsRealized | src/portable_runtime/governance/distinction.py:783-830 | applying a transition establishes exactly what a discharge under its decision requires |
| Kernel.DecisionIsSpent | src/portable_runtime/governance/distinction.py:568-583 | after one application no application in the name of the same decision is admissible |
| Kernel.StepsConserve | src/portable_runtime/governance/distinction.py:783-925 | admitted steps keep every state admissible, touch one scheme, and lose no decision or receipt |
| Walkthrough.UseResumesOnlyAfterDischarge | src/portable_runtime/governance/distinction.py:508-521 | in a concrete course of review, decision, activation and discharge, use resumes only once the answered review is discharged |
| Canonical.StateRoundTrip | src/portable_runtime/governance/canonical.py:105-130 | a state payload restores to the state, or is refused exactly when the state is inadmissible |
| Canonical.ObligationRoundTrip | src/portable_runtime/governance/canonical.py:133-162 | restoring an obligation's payload gives the obligation back |
| Canonical.DecisionRoundTrip | src/portable_runtime/governance/canonical.py:165-218 | restoring a decision's payload gives the decision back |
| Coherence.ReceiptRoundTrip | src/portable_runtime/governance/canonical.py:221-271 | restoring a receipt's payload gives the receipt back |
| Canonical.AppendKeepsIdsDistinct | src/portable_runtime/stores/memory.py:356-392 | appending never puts two events under one id, and a successful append leaves the event in the journal |
| History.ReconstructGovernanceHistory | src/portable_runtime/governance/canonical.py:338-417 | the scan over the journal computes the specified fold, first error included |
| History.FoldSucceedsExactly | src/portable_runtime/governance/canonical.py:338-417 | the fold succeeds exactly on journals in which every event is readable and no identity has two meanings |
| History.ReconstructsWheneverItFolds | src/portable_runtime/governance/canonical.py:400-417 | the final admissibility check never fails after a successful fold |
| History.FoldDescribes | src/portable_runtime/governance/canonical.py:338-417 | the result holds exactly the facts, highest-version states and discharges that occur in the events |
| History.OrderIrrelevant | src/portable_runtime/governance/canonical.py:338-417 | reordering or repeating events changes neither success nor result, when no scheme has two states at its top version |
| History.OrderIrrelevantExactly | src/portable_runtime/governance/canonical.py:338-417 | that condition is exact: without it some reordering folds to something else |
| History.OrderCanDecide | src/portable_runtime/governance/canonical.py:353-359 | two seeds of one scheme at one version: each order of the two events folds, and the first seed is believed |
| Persistence.DistinctionGovernancePersistence.SeedState | src/portable_runtime/governance/persistence.py:333-348 | seeds as specified, or is refused for the specified reason with projection and journal untouched |
| Persistence.DistinctionGovernancePersistence.ValidateNewObligation | src/portable_runtime/governance/persistence.py:361-375 | tells new, identical, rebound and equivalent reviews apart |
| Persistence.DistinctionGovernancePersistence.OpenObligation | src/portable_runtime/governance/persistence.py:377-382 | opens one review and journals it, or changes nothing |
| Persistence.DistinctionGovernancePersistence.ProcessedEventObligationIds | src/portable_runtime/governance/persistence.py:384-394 | reads the processed marker from the journal, refusing an inconsistent one |
| Persistence.DistinctionGovernancePersistence.ValidateRequested | src/portable_runtime/governance/persistence.py:410-421 | the batch is accepted when all responsibilities are new and distinct, else refused for the first that is not |
| Persistence.DistinctionGovernancePersistence.CommitEventObligations | src/portable_runtime/governance/persistence.py:396-426 | opens the whole batch and marks the event processed, answers an already processed event from its marker, or leaves everything untouched |
| Persistence.DistinctionGovernancePersistence.RecordDecision | src/portable_runtime/governance/persistence.py:458-477 | records a decision that answers open reviews, or changes nothing |
| Persistence.DistinctionGovernancePersistence.CommitStateApplication | src/portable_runtime/governance/persistence.py:495-556 | moves state, receipt and journal together when every anchor, link and invariant holds; any failure restores all three |
| Persistence.DistinctionGovernancePersistence.CommitReviewDischarge | src/portable_runtime/governance/persistence.py:558-609 | discharges one review together with its receipt and event, or restores all three |
| Persistence.DistinctionGovernancePersistence.RebuildProjectionFromCanonicalHistory | src/portable_runtime/governance/persistence.py:611-626 | replaces the projection by the fold of the journal, or leaves it when the journal cannot be folded |
| Persistence.DistinctionGovernancePersistence.Rollback | src/portable_runtime/governance/persistence.py:669-678 | a failed transaction puts projection and journal back as they were |
| Openings.SeededExactly | src/portable_runtime/governance/persistence.py:333-348 | a state is taken in exactly when it is admissible and its scheme has none or the very same, and then as stated; with the error for each other case |
| Openings.ReviewOpenedExactly | src/portable_runtime/governance/persistence.py:361-382 | a review is opened exactly when neither its id nor an equivalent call is open and the journal takes it; the very same one is left open |
| Openings.EventCommittedExactly | src/portable_runtime/governance/persistence.py:396-426 | on a reachable store the reviews of an event are committed exactly when each is for that event and, unless it is marked processed, none repeats another or an open one; then all are open and the event is marked with their ids |
| Openings.HeadersExactly | src/portable_runtime/governance/canonical.py:274-335 | how each governance event is named, about whom it is, and under which schema and contract |
| Conditions.DecisionCommittedExactly | src/portable_runtime/governance/persistence.py:458-477 | on a reachable store a decision is committed exactly when it is on record already or answers open reviews of a known scheme; then it and its event are added |
| Conditions.StateCommittedExactly | src/portable_runtime/governance/persistence.py:486-556 | on a reachable store a state application is committed exactly when receipt, anchors, decision and bases fit the state it meets; then state, receipt and event are added together |
| Conditions.DischargeCommittedExactly | src/portable_runtime/governance/persistence.py:558-609 | on a reachable store a discharge is committed exactly when receipt, anchors, decision, bases and review fit; then that review is gone and receipt and event are added |
| Coherence.RebuildIsIdentity | src/portable_runtime/governance/persistence.py:611-626 | while projection and fold agree, rebuilding changes nothing |
| Coherence.RebuildRestoresCoherence | src/portable_runtime/governance/persistence.py:611-626 | rebuilding succeeds on every reachable store and makes projection and fold agree |
| Coherence.ProcessedMarkersAgree | src/portable_runtime/governance/persistence.py:384-394 | the markers read by id are the fold's processed markers |
| Coherence.OpenReviewCoherentExactly | src/portable_runtime/governance/persistence.py:377-382 | opening a review keeps projection and fold equal exactly when its id was never discharged |
| Coherence.EventObligationsCoherentExactly | src/portable_runtime/governance/persistence.py:396-426 | likewise for a batch, exactly when none of its ids was discharged |
| Coherence.DischargeCoherentExactly | src/portable_runtime/governance/persistence.py:558-609 | discharging keeps them equal exactly when the id is not empty |
| Runs.EveryRunIsIndexed | src/portable_runtime/governance/persistence.py:333-626 | on every run the journal folds, its ids are distinct and earned, and states, decisions and receipts of the projection are the fold's |
| Runs.StepCoherentExactly | src/portable_runtime/governance/persistence.py:333-626 | an accepted step keeps projection and fold equal exactly when it neither reopens a discharged id nor discharges an empty one |
| Runs.CoherentThroughoutExactly | src/portable_runtime/governance/persistence.py:333-626 | projection and fold agree at every point of a run exactly when no step of it strays in one of those two ways |
| Runs.StepExtends | src/portable_runtime/governance/persistence.py:312-313 | an operation only appends to the journal, and only events of its own kind |
| Divergence.ReopeningDiverges | src/portable_runtime/governance/persistence.py:361-382 | for every non-empty id a five-step run, all accepted, ends with that review open in the projection and closed in the fold |
| Divergence.EmptyDischargeDiverges | src/portable_runtime/governance/canonical.py:380-388 | under the empty id the first four of those steps, all accepted, end with the review discharged from the projection and open in the fold |
| Provenance.EveryRunIsTraceable | src/portable_runtime/governance/persistence.py:495-556 | each scheme's receipts chain pre-anchor to post-anchor from its seed to its current state, and every receipt answers a recorded decision |
| Provenance.VersionCountsTransitions | src/portable_runtime/governance/persistence.py:495-556 | version minus seed version counts the transitions, scope and partition never change, states stay admissible with an exact partition |
| Provenance.OneStateChangePerDecision | src/portable_runtime/governance/persistence.py:528-535 | over any run two state receipts of one decision are the same receipt |
| Provenance.SameVersionSameState | src/portable_runtime/governance/canonical.py:353-359 | a reachable journal never carries two states for one scheme and version |
| Provenance.ReachableOrderIrrelevant | src/portable_runtime/governance/canonical.py:338-417 | any reordering or repetition of a reachable journal folds to the same history |
| Precedence.EveryRunIsInOrder | src/portable_runtime/governance/persistence.py:458-609 | every decision is preceded by the opening of each review it cites, with bases it anchors, and every receipt by its decision |
| Lifecycle.RecordingRefines | src/portable_runtime/governance/revalidation.py:292-299 | a decision the kernel admits is committed durably, arriving at the kernel's configuration |
| Lifecycle.ApplyingRefines | src/portable_runtime/governance/revalidation.py:301-321 | an application the kernel admits is committed durably under the same freshness, arriving at the kernel's configuration |
| Lifecycle.DischargingRefines | src/portable_runtime/governance/revalidation.py:323-352 | a discharge the kernel admits is committed durably under the same freshness, arriving at the kernel's configuration |
| Lifecycle.EventOpeningRefines | src/portable_runtime/governance/distinction.py:448-466 | a committed batch opens exactly the reviews the kernel's pass would open |
| Lifecycle.LifecycleRunIsARun | src/portable_runtime/governance/revalidation.py:202-352 | every lifecycle run is a run of durable operations that opens reviews for events and under non-empty ids, so the invariants of those carry over |
| RevalidationLifecycle.RevalidationGovernanceLifecycle.ProjectAssessments | src/portable_runtime/governance/revalidation.py:252-274 | projects all assessments before anything is written, stopping at the first blocking one that cannot be represented |
| RevalidationLifecycle.RevalidationGovernanceLifecycle.ObserveChange | src/portable_runtime/governance/revalidation.py:222-290 | opens the projected reviews once per event, answers a processed event from its marker, writes nothing when a projection is unavailable |
| RevalidationLifecycle.RevalidationGovernanceLifecycle.RecordDecision | src/portable_runtime/governance/revalidation.py:292-299 | ends in the kernel's configuration when the kernel admits the decision, else changes nothing |
| RevalidationLifecycle.RevalidationGovernanceLifecycle.ApplyState | src/portable_runtime/governance/revalidation.py:301-321 | ends in the kernel's configuration and returns its receipt, else changes nothing |
| RevalidationLifecycle.RevalidationGovernanceLifecycle.Discharge | src/portable_runtime/governance/revalidation.py:323-352 | ends in the kernel's configuration and returns its receipt, else changes nothing |
| Openings.KernelStepsExactly | src/portable_runtime/governance/revalidation.py:292-352 | on a reachable store a lifecycle step arrives at exactly the kernel's configuration, with exactly its event added, or changes nothing |
| Openings.OtherStepsExactly | src/portable_runtime/governance/persistence.py:611-626 | the remaining steps do what their one durable operation does, or nothing |
| ReviewContents.ProjectedExactly | src/portable_runtime/governance/revalidation.py:94-176 | which assessments call for a review, and what that review says: whom it stops, on which grounds, which decisions it invalidates, and which facts must be shown before it closes |
| ReviewContents.TakenUpExactly | src/portable_runtime/governance/revalidation.py:222-290 | on every lifecycle run a change is taken up exactly when it is new, every assessment names a change, each scheme to be reviewed is known and named once, and none of the ids was ever used |
| ReviewContents.OpenedExactly | src/portable_runtime/governance/revalidation.py:222-290 | a change taken up opens for every assessment that calls for it the review it describes, opens no other, and leaves the open ones as they are |
| ReviewContents.AskedForIsShown | src/portable_runtime/governance/revalidation.py:102-108 | over runs a review opened by a change leaves only under a decision that shows the basis checked, shows a human review if the change required one, and shows the reopening resolved if it asked for that |
| ReviewEffects.BlockingChangeStopsUse | src/portable_runtime/governance/revalidation.py:146-176 | a change taken up stops use under its context when blocking, and disqualifies every earlier decision on that scheme and context |
| LifecycleRuns.SpentIdIsRefused | src/portable_runtime/governance/persistence.py:396-426 | where every review was opened for a processed event, a new event whose batch claims an id ever opened is refused |
| LifecycleRuns.RepeatedIdsRefused | src/portable_runtime/governance/persistence.py:396-426 | a batch for a new event in which two reviews share an id is refused |
| LifecycleRuns.ObligationIdFixesEvent | src/portable_runtime/governance/revalidation.py:94-99 | a derived review id determines its event when event refs are free of the separator |
| LifecycleRuns.SeparatorsAlias | src/portable_runtime/governance/revalidation.py:94-99 | with a separator in an event ref, two events derive the same id |
| LifecycleRuns.EventRunsStayCoherent | src/portable_runtime/governance/persistence.py:333-626 | on every run that opens reviews for events and discharges none under the empty id, projection and fold agree |
| LifecycleRuns.LifecycleStaysCoherent | src/portable_runtime/governance/revalidation.py:202-352 | through the lifecycle, projection and fold agree at the end of every run, whatever the events are called |
| LifecycleRuns.RealizedIsLatest | src/portable_runtime/governance/distinction.py:810-830 | a required transition that counts as realized is its scheme's latest committed transition |
| LifecycleRuns.ReviewLeavesOnlyAnswered | src/portable_runtime/governance/distinction.py:832-925 | an open review leaves only by discharge, under a decision that cites it, meets its closure requirements, and whose own transition, if required, is the latest |
| LifecycleRuns.LeavesUnderItsDecision | src/portable_runtime/governance/distinction.py:832-925 | the decision under which a review leaves is the one the discharge cites, on record at that point |
| UseAdmission.CollectBlockers | src/portable_runtime/governance/use_admission.py:181-203 | the relevant blocking predicates come out the same whatever order the reviews are visited in |
| UseAdmission.CanonicalEvents | src/portable_runtime/governance/use_admission.py:110-117 | keeps exactly the governance events, in order |
| UseAdmission.OtherEventsIrrelevant | src/portable_runtime/governance/use_admission.py:110-117 | events of other kinds do not influence the fold |
| UseAdmission.NoBlockersExactly | src/portable_runtime/governance/use_admission.py:181-203 | the digest lists no blocker exactly when no relevant review is open |
| UseAdmission.VerdictExactlyWhenJudged | src/portable_runtime/governance/use_admission.py:219-371 | allowed or blocked is answered exactly when both reads agree, fold, and contain the scheme; everything else is unavailable or stale |
| UseAdmission.AllowedExactlyWhenUsable | src/portable_runtime/governance/use_admission.py:313-371 | once the scheme is resolved the answer is allowed exactly when the use is usable on the folded history, else blocked |
| UseAdmission.AllowedStillHolds | src/portable_runtime/governance/use_admission.py:293-311 | an allowed answer holds of the journal as read the second time |
| UseAdmission.DigestDecidesVerdict | src/portable_runtime/governance/use_admission.py:181-217 | the snapshot digest determines the verdict, whatever history is behind it |
| UseAdmission.UnrelatedStepsKeepSnapshot | src/portable_runtime/governance/use_admission.py:181-217 | steps on other schemes or on reviews that do not bear on the use leave its digest unchanged |
| UseConditions.StopsUseExactly | src/portable_runtime/governance/distinction.py:405-491 | a review stops a use exactly when it is of that scheme, blocking, and its context names, some of its any-scope and all of its all-scope, or its bare context, fit the use |
| UseConditions.JudgedExactly | src/portable_runtime/governance/use_admission.py:313-371 | the verdict and the first reason that applies: not qualified, not active, asking for something outside a non-empty scope, stopped by a review, or none of these |
| UseConditions.AllowedInPlainFacts | src/portable_runtime/governance/use_admission.py:219-371 | a use is allowed exactly when both reads agree and fold, the scheme is qualified and active, all that is asked for is in its non-empty scope, and no open review stops it |
| UseConditions.StatusExactly | src/portable_runtime/governance/use_admission.py:219-311 | when the answer is not applicable, stale, a verdict, or unavailable |
| UseConditions.DigestsCarried | src/portable_runtime/governance/use_admission.py:152-164 | which requirement digest each answer carries, and that it carries a snapshot exactly with a verdict or where nothing is governed |
| UseConditions.BlockersCount | src/portable_runtime/governance/use_admission.py:166-217 | the digest lists each stopping condition as often as open reviews stop the use under it |
| UseConditions.SnapshotsAgreeExactly | src/portable_runtime/governance/use_admission.py:181-217 | two snapshot digests are one exactly when requirement, qualification, activation, scope and the number of reviews stopping under each condition are the same |
| ExecutionIdentity.EligibleExactlyUnderSameContract | src/portable_runtime/core/reconciliation_repeatability.py:293-367 | captured authority is honoured exactly under the identical contract and for the subject it was captured for |
| Registry.EveryRegistryRunIsConsistent | src/portable_runtime/core/registry.py:81-145 | on every run the maps share their keys, each contract names the binding beside it, and each entry is one registration |
| Registry.DriftBranchesUnreachable | src/portable_runtime/core/registry.py:179-259 | the consistency checks between id, binding and contract never fail |
| Registry.CapturedFromOneRegistration | src/portable_runtime/core/registry.py:158-224 | provider, binding and authority captured together stem from one registration of the expected provider, undrifted |
| Registry.EligibleExactlyWhenUnchanged | src/portable_runtime/core/registry.py:261-310 | authority captured at dispatch is eligible later exactly when the id has the equal, undrifted binding and the equal contract |
| Registry.ProviderRegistry.Register | src/portable_runtime/core/registry.py:81-126 | installs provider, enablement, binding and contract together, or changes nothing |
| Registry.ProviderRegistry.Unregister | src/portable_runtime/core/registry.py:128-133 | removes all traces of the id |
| Registry.ProviderRegistry.SetEnabled | src/portable_runtime/core/registry.py:135-145 | switches a known provider and refuses an unknown one |
| RegistryConditions.RegistersExactly | src/portable_runtime/core/registry.py:81-126 | a registration succeeds exactly for a free id with both or neither of identity and configuration given, neither of them blank and the identity more than the id; then all four maps gain exactly its entries |
| RegistryConditions.ChangesExactly | src/portable_runtime/core/registry.py:128-145 | what removing, enabling and disabling leave of each map |
| RegistryConditions.CapturedOnRunsExactly | src/portable_runtime/core/registry.py:158-224 | on every run a provider is captured exactly while registered, expected and describing itself alike, and beside it the stated authority exactly under a repeat-safe contract and a subject that is not blank |
| RegistryConditions.EntriesAreBuilt | src/portable_runtime/core/registry.py:81-126 | on every run each binding is genuine and its provider's own, and each contract is one built for the binding beside it |
| RegistryConditions.FoundAgainExactly | src/portable_runtime/core/registry.py:261-276 | a historical binding resolves exactly while its id carries that binding on a provider describing itself alike |
| RegistryConditions.ContractOnRunsExactly | src/portable_runtime/core/registry.py:239-259 | on every run the configured contract is reported exactly where the provider is captured |
| RegistryConditions.EligibilityExactly | src/portable_runtime/core/registry.py:278-310 | a reconciliation query may be repeated exactly when none of ten things stands in the way, each on its own terms; otherwise the first of them is the reason given |
| RegistryConditions.BindingReadExactly | src/portable_runtime/governance/provider_execution_binding.py:138-153 | a committed dispatch gives up its binding exactly when it names and holds a genuine one of its own provider |
| RegistryConditions.AuthorityReadExactly | src/portable_runtime/core/reconciliation_repeatability.py:263-290 | and its authority exactly when it also names and holds a genuine one, of that binding and for its own request |
| Stores.StateStore.AppendEvent | src/portable_runtime/stores/memory.py:356-392 | appends, absorbs or refuses; an event of a gated kind is refused unless a commit of that kind holds its gate open |
| Stores.StateStore.ShutExactly | src/portable_runtime/stores/memory.py:356-392 | which events are shut out while which gate is down |
| Dispatch.GovernanceDispatchCommitter.MarkFor | src/portable_runtime/governance/dispatch.py:355-391 | marks the attempt, unless it is missing or carries another commitment |
| Dispatch.GovernanceDispatchCommitter.AppendThroughGate | src/portable_runtime/governance/dispatch.py:92-112 | opens the gate for one append and leaves it as found |
| Dispatch.GovernanceDispatchCommitter.Commit | src/portable_runtime/governance/dispatch.py:201-410 | records attempt and event together under a re-evaluated judgment equal to the permit's, or neither, for the specified reason |
| DispatchProtocol.AuthorizedIsJustified | src/portable_runtime/governance/dispatch.py:224-261 | the commit passes only if the journal folds to a usable configuration with the permit's digests |
| DispatchProtocol.IdentityRecomputes | src/portable_runtime/governance/dispatch.py:115-168 | recomputing the identity from the committed payload gives the event id, with and without binding and authority |
| DispatchProtocol.CapturedExactly | src/portable_runtime/governance/dispatch.py:270-313 | on every reachable registry binding and authority are captured exactly when the provider is and, under a repeat-safe contract, the request id is non-empty and without blanks around it |
| DispatchProtocol.PaddedRequestsAreRefused | src/portable_runtime/governance/dispatch.py:302-313 | in a concrete registry one request id is captured and the same with a blank before it is not |
| DispatchProtocol.CommittedPayloadDecodes | src/portable_runtime/governance/provider_execution_binding.py:138-153 | a committed payload decodes to the binding and authority captured, or reports that none was |
| DispatchProtocol.EveryDispatchIsJustified | src/portable_runtime/governance/dispatch.py:201-410 | in every interleaving the journal prefix before a dispatch, unless it is unbound and was appended past the committer, permits its use with exactly its digests, and its binding and authority share a registration |
| DispatchProtocol.CommitmentIsRecorded | src/portable_runtime/governance/dispatch.py:355-397 | in every interleaving the commitment an attempt refers to is a dispatch in the journal, made for that attempt |
| DispatchProtocol.AttemptsAndDispatchesAgree | src/portable_runtime/governance/dispatch.py:355-397 | a committed dispatch is the one its attempt refers to, and the only one for that attempt |
| DispatchProtocol.StepTracksExactly | src/portable_runtime/governance/dispatch.py:171-182 | a step lets a dispatch for an attempt go unnoticed exactly when it appends a new, unbound one past the committer while the attempt carries no commitment |
| DispatchProtocol.TrackedThroughoutExactly | src/portable_runtime/governance/dispatch.py:171-182 | in any interleaving no dispatch for the attempt is ever unnoticed exactly when no step is of that kind |
| DispatchProtocol.RecoversRightlyExactly | src/portable_runtime/governance/dispatch.py:171-182 | uncommitted means no dispatch in the journal exactly when none there goes unnoticed by the attempt |
| DispatchProtocol.RecoveryRightExactly | src/portable_runtime/governance/dispatch.py:171-182 | at the end of any interleaving recovery is right about an attempt exactly when it carries a commitment or no step on the way was of that kind |
| DispatchProtocol.UncommittedExactly | src/portable_runtime/governance/dispatch.py:171-182 | in particular an attempt for which no dispatch was ever offered past the committer recovers as uncommitted exactly when the journal has none for it |
| DispatchProtocol.ForeignDispatchMisleads | src/portable_runtime/governance/dispatch.py:171-182 | an unbound dispatch appended for an attempt past the committer leaves it uncommitted |
| DispatchProtocol.CommitmentNeverChanges | src/portable_runtime/governance/dispatch.py:369-374 | an attempt's commitment survives every later step, including projection and abort |
| DispatchProtocol.RecoveryModesExactly | src/portable_runtime/governance/dispatch.py:171-182 | in every interleaving an attempt recovers as uncommitted exactly without a commitment; with one, which is then in the journal, it is retried exactly for pure, idempotent or deduplicatable effects, reconciled exactly for reconcilable ones, and else unknown |
| Outcomes.DispatchRefusedExactly | src/portable_runtime/governance/dispatch.py:224-261 | which status a dispatch that is not committed is refused with, whatever the journal it meets |
| Outcomes.DispatchWrittenExactly | src/portable_runtime/governance/dispatch.py:355-410 | a committed dispatch adds exactly the stated event, marks exactly its attempt, field by field, and returns exactly what was written |
| CircuitBreaker.RefusesExactlyWhileTripped | src/portable_runtime/core/reliability.py:45-58 | the breaker refuses exactly while a run of at least threshold (and one) failures has its last failure within the timeout |
| CircuitBreaker.LiveBreaker.RecordSuccess | src/portable_runtime/core/reliability.py:29-37 | keeps the fields equal to the replay of the recorded calls |
| CircuitBreaker.LiveBreaker.RecordFailure | src/portable_runtime/core/reliability.py:39-43 | keeps the fields equal to the replay of the recorded calls |
| CircuitBreaker.LiveBreaker.Allow | src/portable_runtime/core/reliability.py:45-58 | answers from the recorded outcomes, moving an overdue breaker to half-open |
| CircuitBreaker.LiveBreaker.State | src/portable_runtime/core/reliability.py:60-68 | reports open exactly while tripped |
| CircuitBreaker.ClosesAfterProbes | src/portable_runtime/core/reliability.py:29-37 | a half-open breaker is closed by n successes exactly when there is one and they bring its count up to the number of probes |
| CircuitBreaker.ReadingKeepsTheCount | src/portable_runtime/core/reliability.py:45-68 | an overdue breaker that is asked starts its count of successes anew; read first and then asked, it goes on from the old one |
| CircuitBreaker.ReadFirstClosesEarly | src/portable_runtime/core/reliability.py:59-68 | a concrete history after which a breaker asking for three probes closes on one, because its state was read first |
| Reliability.ReliabilityControls.AssessRequest | src/portable_runtime/core/reliability.py:366-430 | prunes, decides and remembers the reason, spending nothing; the live counters stay the replay of all events |
| Reliability.ReliabilityControls.RecordOne | src/portable_runtime/core/reliability.py:452-464 | counts the action, and for a side effect its slot, exposure and cooldown, keeping the counters the replay of all events |
| Reliability.ReliabilityControls.CompleteOne | src/portable_runtime/core/reliability.py:466-470 | releases one slot if one is held, keeping the counters the replay of all events |
| Reliability.EveryWindowWithinRate | src/portable_runtime/core/reliability.py:386-398 | one at a time, no sixty-second window of all actions ever recorded holds more of them than the limit |
| Reliability.NothingWithinCooldown | src/portable_runtime/core/reliability.py:389-391 | one at a time, nothing is recorded within the cooldown after a side effect |
| Reliability.BudgetsHold | src/portable_runtime/core/reliability.py:238-249 | one at a time, side effects, exposure and active side effects stay within their limits |
| Reliability.LiveCountersHold | src/portable_runtime/core/reliability.py:366-470 | the counters of a live object used one at a time are the sums and the latest times of all it ever recorded, and within the limits |
| AdmissionLimits.RefusedExactly | src/portable_runtime/core/reliability.py:113-262 | a request is refused for a reason exactly when that one of twelve, each on its own terms, applies and no earlier one does, and admitted exactly when none applies |
| AdmissionLimits.AdmittedOverHistory | src/portable_runtime/core/reliability.py:366-430 | in every orderly course of events, however many requests await recording, a request is admitted exactly when it is sound, recovers in time where it must, and rate, blast radius, parallelism, budgets and cooldown hold over everything ever recorded |
| Reliability.ParallelWithinSlack | src/portable_runtime/core/reliability.py:241-242 | with at most k awaiting recording, active plus awaiting never exceeds the limit plus k - 1 |
| Reliability.SlackIsReached | src/portable_runtime/core/reliability.py:366-470 | for every limit and every k some orderly run has exactly that many side effects active |
| Boundary.RealityBoundary.Select | src/portable_runtime/core/boundary_stages.py:132-159 | the breaker of a healthy provider is asked, and the provider is offered exactly when the recorded outcomes do not trip it |
| Boundary.RealityBoundary.Precommit | src/portable_runtime/core/boundary_stages.py:173-304 | a side effect gets its three running records in one transaction or none; an observation keeps what the store took, and its ids only if that was all |
| Boundary.RealityBoundary.AbortBeforeRealityExit | src/portable_runtime/core/boundary.py:969-1016 | computes the specified exit and state: the slot is released, the records are cancelled together, or it is reported that they were not |
| Boundary.RealityBoundary.Report | src/portable_runtime/core/boundary.py:1081-1091 | the breaker is told of a failure, an exception or a success, and of nothing else |
| Boundary.RealityBoundary.Invoke | src/portable_runtime/core/boundary.py:1079-1095 | one call, the breaker read before, told of the outcome and read again unless cut off, and the slot released whatever happened |
| Boundary.RealityBoundary.FinalChecks | src/portable_runtime/core/boundary.py:1018-1055 | computes the specified code and writes nothing but the dispatch |
| Boundary.RealityBoundary.Conclude | src/portable_runtime/core/boundary.py:1110-1168 | computes the specified exit and records: fenced and demoted as far as the store goes, projected together, or left as they were |
| Boundary.RealityBoundary.Execute | src/portable_runtime/core/boundary.py:811-1168 | the whole invocation computes the specified exit together with records, journal, counters, breaker and call count |
| BoundaryRuns.CalledExactly | src/portable_runtime/core/boundary.py:811-1095 | the provider is called once exactly when nothing stands in the way, else not at all; its breaker is asked by selection, and hears of a call and its outcome only when there is one |
| BoundaryRuns.BreakerCountsFailedCalls | src/portable_runtime/core/reliability.py:29-68 | over any sequence of invocations the breaker's count of failures is that of the failed calls since the last successful one |
| BoundaryRuns.BreakerStopsExactly | src/portable_runtime/core/boundary_stages.py:142-150 | after any sequence of invocations the breaker keeps a healthy provider from being selected, and so from being called, exactly while enough calls in a row have failed and the last failure is recent |
| BoundaryRuns.ChecksPassExactly | src/portable_runtime/core/boundary.py:1018-1055 | the last checks pass exactly when the qualification and the permit's judgment still stand and, where governance applies, the target is captured and the journal takes the dispatch |
| BoundaryRuns.CalledUnderTheSameJudgment | src/portable_runtime/core/boundary.py:174-218 | at the call the current judgment is, in status and digests, the one the permit was issued from, and the recheck after routing would pass as well |
| BoundaryRuns.CalledIsJustified | src/portable_runtime/core/boundary.py:1018-1055 | where governance applies a call means that the journal's history permits the use under the permit's digests, and that a dispatch for exactly this attempt is written and referred to |
| BoundaryRuns.RecordsLeft | src/portable_runtime/core/boundary.py:811-1168 | each way out leaves the stated statuses on all three records, and no other record changes |
| BoundaryRuns.SucceededExactly | src/portable_runtime/core/boundary_stages.py:383-443 | the attempt is recorded as succeeded exactly when the provider was called, answered so, the run was still fenced in and the store took the projection |
| Outcomes.EndsExactly | src/portable_runtime/core/boundary.py:945-1168 | the status in which every invocation leaves its attempt and its step, by what the checks said, what the provider answered, and what the store took |
| Outcomes.ActionEndsExactly | src/portable_runtime/core/boundary_stages.py:387-442 | likewise its action, which an observation gains only with the provider's answer |
| Outcomes.UnknownExactly | src/portable_runtime/core/boundary_stages.py:406-410 | attempt, step and action of a side effect are unknown exactly when the provider answered so and the projection was taken, or the lease was lost and the demotion reached the record |
| Outcomes.CancelledExactly | src/portable_runtime/core/boundary_stages.py:313-378 | they are cancelled exactly when the provider answered so and the projection was taken, or a failed check was aborted before the call |
| Outcomes.FailedExactly | src/portable_runtime/core/boundary_stages.py:406-410 | they have failed exactly when the provider failed, raised, was unavailable or wanted input and the projection was taken |
| Outcomes.SignalsExactly | src/portable_runtime/core/boundary.py:1079-1095 | exactly what the breaker is asked and told, in order, by an invocation |
| Outcomes.CodesExactly | src/portable_runtime/core/boundary.py:1018-1055 | which code the last checks give in which case |
| Outcomes.RecheckCodesExactly | src/portable_runtime/core/boundary.py:174-194 | which code the recheck after routing gives in which case |
| BoundaryRuns.LeftRunningExactly | src/portable_runtime/core/boundary.py:945-1168 | the attempt stays running exactly when accounting or lookup failed after precommit, a failed check could not be recorded, or the call's result was not |
| BoundaryRuns.StepLeftRunningExactly | src/portable_runtime/core/boundary.py:945-1168 | likewise its step, which also stays running when only the step of an observation could be saved |
| BoundaryRuns.LostProviderLeavesRunning | src/portable_runtime/core/boundary.py:963-968 | a concrete recorded side effect whose provider lookup fails: no call, and its three records running |
| BoundaryRuns.HalfRecordedStepStays | src/portable_runtime/core/boundary_stages.py:265-304 | a concrete observation whose attempt the store refuses: called and answered with success, and its step running |
| BoundaryRuns.ActiveRestored | src/portable_runtime/core/boundary.py:945-1095 | on every way out as many side effects count as active as before |
| BoundaryRuns.SequencesStayWithinLimits | src/portable_runtime/core/boundary.py:811-1168 | invocations one after the other, however each ends, keep rate, cooldown and budgets over all that was ever counted |
| Controller.CognitiveController.CurrentState | src/portable_runtime/controller/service.py:66-76 | reads the first of the latest states, refusing when any recorded state is invalid |
| Controller.CognitiveController.ApplyDecision | src/portable_runtime/controller/service.py:132-167 | records the decision once the guards admit it and takes exactly the specified step |
| Controller.CognitiveController.Invoke | src/portable_runtime/controller/service.py:243-299 | waits during the call and resumes only on an answer |
| Controller.CognitiveController.AskToReopen | src/portable_runtime/controller/service.py:169-190 | requires reopening from any readable state |
| ControllerRuns.EveryRunIsLawful | src/portable_runtime/controller/service.py:43-508 | every run numbers its states without a gap, keeps their shape, and makes only sound handoffs |
| ControllerRuns.StatesAreShaped | src/portable_runtime/controller/models.py:59-67 | in every recorded state a ref is pending exactly while waiting, and an open state carries no proposal |
| ControllerRuns.ReadingIgnoresOrder | src/portable_runtime/controller/service.py:66-76 | reading by highest version finds the last write in any listing of the journal |
| ControllerRuns.CallKeepsReadableExactly | src/portable_runtime/controller/service.py:132-167 | a readable controller stays readable exactly when the call does not get a wait, or a revision left pending, through under an empty id |
| ControllerRuns.ReadableExactly | src/portable_runtime/controller/service.py:66-76 | a run ends readable exactly when none of its calls was of that kind and let through |
| ControllerRuns.NamelessWaitIsFatal | src/portable_runtime/controller/service.py:160-167 | every new controller whose first decision is a wait without an id is unreadable and never written to again |
| ControllerRuns.HandoffsAreSeparated | src/portable_runtime/controller/service.py:192-241 | between two work handoffs lie an explicit reopen and after it a new closure |
| ControllerRuns.ProposalKeepsToItsClosure | src/portable_runtime/controller/service.py:346-418 | on every run each proposal keeps to the capabilities and effect class of the closure first formed under its id |
| ControllerRuns.ProposalWithinClosure | src/portable_runtime/controller/service.py:346-418 | with unique closure ids that is the closure formed last before it |
| ControllerRuns.HandoffKeepsToLastExactly | src/portable_runtime/controller/service.py:346-418 | a handoff keeps to the closure formed last exactly when what is asked for, or what the first closure under the id grants if nothing is, does |
| ControllerRuns.ReusedIdEscapes | src/portable_runtime/controller/service.py:301-344 | a concrete run that forms two closures under one id and hands off work the second does not cover |
| ControllerEffects.ReadExactly | src/portable_runtime/controller/service.py:66-76 | the state read is the first recorded of those latest updated of those with the highest version; none is read while any on record is invalid, told field by field |
| ControllerEffects.GetClosureExactly | src/portable_runtime/controller/service.py:98-99 | the closure found is the first formed under the id, and none is found exactly when none was |
| ControllerEffects.CarriedOutExactly | src/portable_runtime/controller/service.py:132-477 | a decision is carried out exactly when it is current, in season for the state and brings the grounds its action needs, and then leads to the stated state, every field of it |
| ControllerEffects.WrittenExactly | src/portable_runtime/controller/service.py:132-528 | what a decision carried out puts on record, in order, and nothing else |
| ControllerEffects.ReopenAskedExactly | src/portable_runtime/controller/service.py:169-190 | asking to reopen always succeeds on a readable controller and leads to the stated state |
| ControllerEffects.RevisionLeavesExactly | src/portable_runtime/controller/service.py:420-477 | on every run a revision that took effect leaves the controller closed exactly when it recommends closing the work, to be reopened exactly when it recommends revising the work, reopening cognition or acquiring evidence, and else waiting on it |
| ControllerEffects.ReadAfter | src/portable_runtime/controller/service.py:132-190 | on every run the state read after a call is what the call returned, a wait for an answer that did not come, or what was read before |
| ControllerEffects.PutThereByLastEffect | src/portable_runtime/controller/service.py:132-190 | on every run a controller that is closed or to be reopened was put there by the last call that took effect |
| ControllerEffects.ClosedOnlyWhenAsked | src/portable_runtime/controller/service.py:456-468 | on every run a closed controller was closed by a decision to close or by a revision that recommends closing the work |
| ExperienceUse.RelatedGraph | src/portable_runtime/experience/use_admission.py:289-341 | selects exactly the derivations of the projection and the relations one hop from its frozen seed |
| ExperienceUse.AdmissionIsAJoin | src/portable_runtime/experience/use_admission.py:743-757 | for a non-empty selection the status is the worst of the single statuses |
| ExperienceVerdicts.AllowedExactly | src/portable_runtime/experience/use_admission.py:621-746 | allowed exactly when every selected projection is known, official, fully resolved, in scope, undrifted, undoubted, and clear of applicable negative facts |
| ExperienceVerdicts.BlockedExactly | src/portable_runtime/experience/use_admission.py:621-746 | blocked exactly when some selected projection is known and resolved facts rule it out |
| ExperienceConditions.FoundExactly | src/portable_runtime/experience/use_admission.py:224-239 | a reference resolves to an object exactly when it is the only one of that id in the whole export |
| ExperienceConditions.AppliesExactly | src/portable_runtime/experience/use_admission.py:392-491 | a negative fact holds elsewhere exactly when in scope, version or environment all that is stated agrees and does not fit the use, and holds here exactly when in all three it agrees and fits |
| ExperienceConditions.AllowedInPlainFacts | src/portable_runtime/experience/use_admission.py:621-757 | allowed exactly when something is selected and all of it is registered, official, in place, made of sole, sound and rightly typed parts, contradicted only by facts stated to hold elsewhere, and touched by no demand to revalidate |
| ExperienceConditions.BlockedInPlainFacts | src/portable_runtime/experience/use_admission.py:621-757 | blocked exactly when something selected is registered and not official, out of scope, relies on a disputed assertion, or is contradicted by a fact that holds here |
| ExperienceConditions.StaleInPlainFacts | src/portable_runtime/experience/use_admission.py:621-757 | stale exactly when nothing is blocked and something selected is outdated: environment or versions moved on, a part was superseded or cast in doubt, or a relation demands revalidation |
| ExperienceSnapshot.EvaluateUse | src/portable_runtime/experience/use_admission.py:621-776 | the pass over the selected refs collects the specified status, reasons and snapshot |
| ExperienceSnapshot.ExportOrderIrrelevant | src/portable_runtime/experience/use_admission.py:590-619 | permuting each exported bucket changes neither status nor reasons nor snapshot, when ids are unique |
| ExperienceSnapshot.SortForgetsOrder | src/portable_runtime/experience/use_admission.py:604-617 | listing by id forgets the original order when ids tell the objects apart |
| SnapshotContents.DigestTellsExactly | src/portable_runtime/experience/use_admission.py:145-164 | two requirements have one digest exactly when they ask for the same, but for times of creation and update |
| SnapshotContents.SnapshotQuotesExactly | src/portable_runtime/experience/use_admission.py:590-619 | schemas, contract and requirement as the admission quotes them |
| SnapshotContents.SnapshotListsExactly | src/portable_runtime/experience/use_admission.py:289-341 | the snapshot lists exactly the projections selected, the derivations from or to what they rely on, and the relations one hop away, each without its times |
| SnapshotContents.SnapshotHoldsExactly | src/portable_runtime/experience/use_admission.py:247-287 | it holds under each id exactly the object some selected projection holds in one of its roles |
| SnapshotContents.SnapshotIsOrdered | src/portable_runtime/experience/use_admission.py:604-617 | derivations and relations are listed by id, those without one first |
| SnapshotContents.UnresolvedExactly | src/portable_runtime/experience/use_admission.py:247-287 | it reports exactly the references that no single object answers, and those answered by one of the wrong type |
| ReasonContents.ReasonsExactly | src/portable_runtime/experience/use_admission.py:621-776 | each of the nineteen kinds of reason is given exactly when what it says holds, up to the first disputed assertion, unusable judgment or contradicting fact |
| HistoricalUse.MintedEventsRead | src/portable_runtime/experience/historical_use.py:203-320 | every event minted from an allowed admission passes its own reader and reads back what was admitted |
| HistoricalUse.BoundAnewExactly | src/portable_runtime/experience/historical_use.py:331-422 | a new judgment is bound exactly when it is usable, separate, new, and every expectation still holds |
| HistoricalUse.AnsweredExactlyWhenAgreeing | src/portable_runtime/experience/historical_use.py:355-391 | against a bound judgment a request is answered exactly when it agrees with the binding in digest, contract and selection |
| HistoricalUse.ReplayIsIdentical | src/portable_runtime/experience/historical_use.py:331-391 | after a commit the same request returns the identical binding whatever happens to experience meanwhile, and a differing one is refused |
| HistoricalUse.AtMostOneBinding | src/portable_runtime/experience/historical_use.py:392-393 | over any run a judgment id is bound at most once |
| HistoricalUse.ValidateAuthorityGraph | src/portable_runtime/experience/historical_use.py:425-456 | accepts exactly the listings in which every use is grounded and none is repeated |
| UseBindings.UseReadExactly | src/portable_runtime/experience/historical_use.py:232-320 | what a use event has to say of itself to be read, literally, and what it is then read as |
| UseBindings.GroundedExactly | src/portable_runtime/experience/historical_use.py:425-456 | a use is grounded exactly when it can be read and its judgment is on record as an assertion, in that version, made as a task domain judgment |
| UseBindings.BoundInPlainFacts | src/portable_runtime/experience/historical_use.py:331-422 | in a sound store a judgment not yet bound is bound exactly when it is a named task domain judgment, not on record, does not judge itself, all experience selected is registered and trustworthy, and requirement, snapshot and contract are those expected |
| UseBindings.BoundWritesExactly | src/portable_runtime/experience/historical_use.py:203-229 | binding puts exactly the judgment and the stated use on record, or nothing |
| UseBindings.OneUsePerJudgment | src/portable_runtime/experience/historical_use.py:392-393 | on every run each use is filed under the judgment it names, which is on record, and no judgment has two |
| Policies.EvaluatePolicies | src/portable_runtime/core/policies.py:382-452 | the scans compute the specified decision |
| Policies.DetectObligationConflict | src/portable_runtime/core/policies.py:356-377 | reports a conflict exactly when two obligations of one kind differ in parameters |
| Policies.EvaluateMeans | src/portable_runtime/core/policies.py:382-452 | for normalized decisions the disposition is deny over defer over conflict over require over allow |
| Policies.OrderIrrelevantExactly | src/portable_runtime/core/policies.py:382-452 | every ordering of the decisions comes to the same disposition exactly when all deniers agree or, absent these, a defer or a demand decides or all legacy requirements agree |
| Policies.SomeListingYields | src/portable_runtime/core/policies.py:382-452 | every disposition the decisions can come to, by membership alone, is reached by some ordering |
| Policies.OrderDoesNotMatter | src/portable_runtime/core/policies.py:382-452 | for normalized decisions order and repetition do not change the disposition, which is the algebra's |
| Policies.WrittenPoliciesAreSafe | src/portable_runtime/core/policies.py:108-164 | decisions that each leave one field out are order-safe and come to the algebra's verdict |
| Policies.UnnormalizedOrderMatters | src/portable_runtime/core/policies.py:445-452 | a concrete pair of decisions with disagreeing fields whose order decides, and one of which lifts the other's requirement |
| Policies.AddingLoosensExactly | src/portable_runtime/core/policies.py:382-452 | one more decision loosens the verdict exactly when it becomes the first denier but says less than was said, or the first of the legacy requirements that alone decide and allows |
| Policies.AddingNeverLoosens | src/portable_runtime/core/policies.py:382-452 | for normalized decisions one more never loosens the verdict |
| Policies.SurvivingObligations | src/portable_runtime/core/policies.py:404-443 | where nobody denies or defers, the surviving obligations are the duplicate-free union of those demanded, conflicting or not |
| Policies.EvaluateExactly | src/portable_runtime/core/policies.py:382-452 | what any decisions come to, whether or not their fields agree: the first denial, else the first deferral, else the demands with their status, each kept once, else the first legacy requirement, else allow |
| Policies.SyncedExactly | src/portable_runtime/core/policies.py:108-164 | what validation makes of each decision as written: a field given stays, and a field left out follows as stated |

## Left out

- SQLite text, locks, JSON bytes and SHA-256 internals: a transaction is one atomic step and a digest is the value digested.
- Lifecycle runs open reviews through changes only, as the lifecycle does; reviews opened one by one are among the steps of `Runs`.
- Runs.RecordOther: events outside governance use ids of their own kind, as their generated ids do; the store would also take one under a governance id, and would then refuse the governance event entitled to it.
- Change assessment (`records/revalidation.py`) is not part of this model; its assessments are arguments of `ObserveChange`.
- Authority grants and their targets (`distinction.py:262-333`), the aggregate `transition_admissible` and `resolve_allowed` (`distinction.py:928-975`): the authority check is an arbitrary predicate on the request.
- The payload fields of events are typed; the reader's handling of missing or mistyped JSON fields is modelled only for decision anchors of the wrong arity, unsupported versions and inadmissible states.
- Characters that a textual repr would escape for being unprintable are kept as they are in state anchors, and blanks are the ASCII ones.
- Legacy sidecar detection before migration: it only changes the wording of an unavailable answer.
- A dispatch without any state store answers unavailable; the committer modelled always has one.
- Validation of saved attempts by the store, run leases and fencing reads are outcomes given to `Boundary.RealityBoundary.Execute`, not modelled state; other writers between the last check and the dispatch are in `DispatchProtocol` instead.
- The boundary stages before reliability (qualification, policy, authorization, procedure), provider health and routing: outcomes, whether the provider is healthy and whether a permit was issued for it.
- Trace events the boundary appends to the journal: events of no governance kind do not influence the fold (`UseAdmission.OtherEventsIrrelevant`).
- The table of breakers: an invocation is modelled with the breaker of its own provider; selection asks those of the other candidates too.
- Several controllers sharing one store: a controller's journal is its own events, as its reads filter by subject.
- Decisions applied while a capability call is still being awaited, since the controller's guarantees are not claimed there.
- The contents of a closure, revision or work proposal that no guard or transition reads, and the responsibility kernel, which either accepts a proposal or does not.
- Malformed digest strings in historical-use requests: expectations are typed as digests.
- Free-text reasons of policies, and the `waivable` flag of a deduplicated obligation, which is that of the first one seen.
- Subject bindings of reconciliation contracts are always by request id, the only subject model there is.
- Outcome-impact modules, qualification freezing, capability contract tables, router sorting, HTTP, CLI, plugins and subprocess providers: no further protocol, or easy members only.
