/**
 Where each governed state came from. Along every run a scheme's committed
 transitions form one unbroken chain from its seed to its current state, and
 every fact in the journal is preceded by the facts it rests on.
 */
module Provenance {
  import opened Wrappers
  import opened Distinction
  import opened Canonical
  import opened History
  import opened Durable
  import opened Coherence
  import opened Runs

  /** One committed transition: the receipt and the state it produced. */
  datatype Transition = Transition(receipt: ApplicationReceipt, next: DistinctionState)

  function SeedIn(e: Event, k: string): Option<DistinctionState> {
    if e.body.StateSeeded? && Carries(e).Some? && Carries(e).value.0 == k then Some(Carries(e).value.1) else None
  }

  function TransitionIn(e: Event, k: string): seq<Transition> {
    if e.body.ApplicationCommitted? && Carries(e).Some? && Carries(e).value.0 == k then
      [Transition(RestoreReceipt(e.body.receipt), Carries(e).value.1)]
    else []
  }

  /** The state the scheme was seeded with. */
  function SeedOf(journal: Journal, k: string): Option<DistinctionState> {
    if journal == [] then None
    else if SeedOf(journal[..|journal| - 1], k).Some? then SeedOf(journal[..|journal| - 1], k)
    else SeedIn(journal[|journal| - 1], k)
  }

  /** The scheme's transitions in journal order. */
  function Track(journal: Journal, k: string): seq<Transition> {
    if journal == [] then []
    else Track(journal[..|journal| - 1], k) + TransitionIn(journal[|journal| - 1], k)
  }

  function Latest(seed: DistinctionState, track: seq<Transition>): DistinctionState {
    if track == [] then seed else track[|track| - 1].next
  }

  predicate Fits(k: string, current: DistinctionState, t: Transition) {
    && t.receipt.effectKind == "state"
    && t.receipt.application.schemeId == k
    && t.receipt.preAnchor == StateAnchor(current)
    && t.receipt.postAnchor == StateAnchor(t.next)
    && t.next == CandidateEffect(t.receipt.application, current)
    && StateAdmissibleFor(k, t.next)
  }

  ghost predicate Chained(k: string, seed: DistinctionState, track: seq<Transition>) {
    forall i | 0 <= i < |track| :: Fits(k, Latest(seed, track[..i]), track[i])
  }

  ghost predicate TracksChain(d: Durable) {
    forall k | k in d.config.states :: SchemeChains(d, k)
  }

  ghost predicate SchemeChains(d: Durable, k: string) {
    k in d.config.states ==>
      && SeedOf(d.journal, k).Some?
      && StateAdmissibleFor(k, SeedOf(d.journal, k).value)
      && Chained(k, SeedOf(d.journal, k).value, Track(d.journal, k))
      && Latest(SeedOf(d.journal, k).value, Track(d.journal, k)) == d.config.states[k]
  }

  /** Each receipt answers a recorded decision; each state receipt starts where that decision was taken. */
  predicate Answers(config: Configuration, r: ApplicationReceipt) {
    && r.application.decisionRef in config.decisions
    && var decision := config.decisions[r.application.decisionRef];
    && Linked(r.application, decision)
    && (r.effectKind == "state" ==> r.preAnchor == decision.expectedStateAnchor)
  }

  ghost predicate AllAnswer(config: Configuration) {
    forall id | id in config.applications :: Answers(config, config.applications[id])
  }

  ghost predicate ReceiptsTracked(d: Durable) {
    forall id | id in d.config.applications :: Tracked(d.journal, d.config.applications[id])
  }

  ghost predicate Tracked(journal: Journal, r: ApplicationReceipt) {
    r.effectKind == "state" ==> exists t | t in Track(journal, r.application.schemeId) :: t.receipt == r
  }

  // --------------------------------------------- what each step adds to a track

  predicate Quiet(e: Event) {
    Carries(e).None?
  }

  ghost predicate QuietlyExtends(j: Journal, longer: Journal) {
    && j <= longer
    && forall i | |j| <= i < |longer| :: Quiet(longer[i])
  }

  lemma {:induction false} QuietKeepsTracks(j: Journal, longer: Journal, k: string)
    requires QuietlyExtends(j, longer)
    ensures SeedOf(longer, k) == SeedOf(j, k) && Track(longer, k) == Track(j, k)
  {
    if j != longer {
      var prefix := longer[..|longer| - 1];
      assert j <= prefix && Quiet(longer[|longer| - 1]);
      QuietKeepsTracks(j, prefix, k);
    } else {
      assert j == longer;
    }
  }

  lemma AppendTracks(j: Journal, e: Event, k: string)
    ensures Track(j + [e], k) == Track(j, k) + TransitionIn(e, k)
    ensures SeedOf(j + [e], k) == if SeedOf(j, k).Some? then SeedOf(j, k) else SeedIn(e, k)
  {
    assert (j + [e])[..|j|] == j;
  }

  lemma LandQuiet(d: Durable, config: Configuration, e: Event)
    requires Land(d, config, e).Ok? && Quiet(e)
    ensures QuietlyExtends(d.journal, Land(d, config, e).value.journal)
  {
  }

  lemma QuietTransitive(i: Journal, j: Journal, k: Journal)
    requires QuietlyExtends(i, j) && QuietlyExtends(j, k)
    ensures QuietlyExtends(i, k)
  {
    forall n | |i| <= n < |k| ensures Quiet(k[n]) {
      if n < |j| {
        assert k[n] == j[n];
      }
    }
  }

  lemma {:induction false} BatchQuiet(d: Durable, os: seq<ReviewObligation>)
    requires OpenBatch(d, os).Ok?
    ensures var after := OpenBatch(d, os).value;
      && QuietlyExtends(d.journal, after.journal)
      && after.config == d.config.(obligations := after.config.obligations)
  {
    if os != [] {
      var o := os[|os| - 1];
      BatchQuiet(d, os[..|os| - 1]);
      var before := OpenBatch(d, os[..|os| - 1]).value;
      LandQuiet(before, WithObligation(before.config, o), ReviewOpenedEvent(o));
      QuietTransitive(d.journal, before.journal, OpenBatch(d, os).value.journal);
    }
  }

  /** Tracks and states stay; decisions at most grow. */
  ghost predicate Undisturbed(d: Durable, after: Durable) {
    && QuietlyExtends(d.journal, after.journal)
    && after.config.states == d.config.states
    && forall id | id in d.config.decisions ::
         id in after.config.decisions && after.config.decisions[id] == d.config.decisions[id]
  }

  lemma OpenForQuiet(d: Durable, eventRef: string, os: seq<ReviewObligation>)
    requires CommitEventObligations(d, eventRef, os).Ok?
    ensures Undisturbed(d, CommitEventObligations(d, eventRef, os).value.0)
    ensures CommitEventObligations(d, eventRef, os).value.0.config.applications == d.config.applications
  {
    if ProcessedIds(d.journal, eventRef) == Ok(None) {
      EventObligationsFacts(d, eventRef, os);
      BatchQuiet(d, os);
      var all := OpenBatch(d, os).value;
      LandQuiet(all, all.config, ProcessedEvent(eventRef, IdsOf(os)));
      QuietTransitive(d.journal, all.journal, CommitEventObligations(d, eventRef, os).value.0.journal);
    }
  }

  lemma OpenOneQuiet(d: Durable, o: ReviewObligation)
    requires OpenReview(d, o).Ok?
    ensures Undisturbed(d, OpenReview(d, o).value)
    ensures OpenReview(d, o).value.config.applications == d.config.applications
  {
    hide ValidateObligation;
    if ValidateObligation(d.config, o) == Ok(true) {
      LandQuiet(d, WithObligation(d.config, o), ReviewOpenedEvent(o));
    }
  }

  lemma DecideQuiet(d: Durable, decision: GovernanceDecision)
    requires CommitDecision(d, decision).Ok?
    ensures Undisturbed(d, CommitDecision(d, decision).value)
    ensures CommitDecision(d, decision).value.config.applications == d.config.applications
  {
    hide ReviewInputMatches;
    if decision.id !in d.config.decisions {
      LandQuiet(d, d.config.(decisions := d.config.decisions[decision.id := decision]), DecisionRecordedEvent(decision));
    }
  }

  lemma DischargeQuiet(d: Durable, id: string, r: ApplicationReceipt, freshness: Option<FreshnessLookup>)
    requires Indexed(d) && CommitReviewDischarge(d, id, r, freshness).Ok?
    ensures var after := CommitReviewDischarge(d, id, r, freshness).value;
      && Undisturbed(d, after)
      && after.config.applications == d.config.applications[r.application.id := r]
      && r.effectKind == "review_discharge"
      && Answers(after.config, r)
  {
    DischargeFacts(d, id, r, freshness);
    hide CommitReviewDischarge, Linked, ObligationsAnchor, Indexed;
    LandQuiet(d, d.config.(obligations := d.config.obligations - {id},
                           applications := d.config.applications[r.application.id := r]),
              ApplicationCommittedEvent(r, None));
  }

  lemma RebuildQuiet(d: Durable)
    requires Indexed(d)
    ensures Rebuild(d).Ok? && Undisturbed(d, Rebuild(d).value)
    ensures Rebuild(d).value.config.applications == d.config.applications
  {
    ReconstructsWheneverItFolds(d.journal);
  }

  lemma OtherQuiet(d: Durable, e: Event)
    requires RecordOther(d, e).Ok?
    ensures Undisturbed(d, RecordOther(d, e).value)
    ensures RecordOther(d, e).value.config.applications == d.config.applications
  {
    LandQuiet(d, d.config, e);
  }

  /** Every step but seeding and applying leaves tracks, states and state receipts alone. */
  lemma QuietSteps(d: Durable, op: Operation)
    requires Indexed(d) && Perform(d, op).Ok? && !op.Seed? && !op.ApplyState?
    ensures Undisturbed(d, After(d, op))
    ensures !op.Discharge? ==> After(d, op).config.applications == d.config.applications
  {
    hide Indexed, Undisturbed, Answers, OpenReview, CommitEventObligations, CommitDecision, CommitReviewDischarge,
      CommitStateApplication, SeedState, Rebuild, RecordOther;
    match op
    case OpenOne(o) => OpenOneQuiet(d, o);
    case OpenFor(eventRef, os) => OpenForQuiet(d, eventRef, os);
    case Decide(decision) => DecideQuiet(d, decision);
    case Discharge(id, r, freshness) => DischargeQuiet(d, id, r, freshness);
    case RebuildAll => RebuildQuiet(d);
    case OtherEvent(e) => OtherQuiet(d, e);
  }

  // ---------------------------------------------------- the chain is never broken

  lemma UnknownSchemeHasNoTrack(d: Durable, k: string)
    requires Indexed(d) && k !in d.config.states
    ensures SeedOf(d.journal, k).None? && Track(d.journal, k) == []
  {
    hide StateAdmissibleFor, FactsMatch, DischargesMatch;
    assert StatesMatch(d.journal, FoldOf(d).states);
    forall e | e in d.journal ensures SeedIn(e, k).None? && TransitionIn(e, k) == [] {}
    NothingToTrack(d.journal, k);
  }

  lemma {:induction false} NothingToTrack(journal: Journal, k: string)
    requires forall e | e in journal :: SeedIn(e, k).None? && TransitionIn(e, k) == []
    ensures SeedOf(journal, k).None? && Track(journal, k) == []
  {
    if journal != [] {
      assert journal[|journal| - 1] in journal;
      NothingToTrack(journal[..|journal| - 1], k);
    }
  }

  ghost predicate Traceable(d: Durable) {
    TracksChain(d) && AllAnswer(d.config) && ReceiptsTracked(d)
  }

  lemma UndisturbedTraceable(d: Durable, after: Durable)
    requires TracksChain(d) && Undisturbed(d, after)
    ensures TracksChain(after)
    ensures forall r | Tracked(d.journal, r) :: Tracked(after.journal, r)
  {
    hide Track, SeedOf, Chained;
    forall k ensures SeedOf(after.journal, k) == SeedOf(d.journal, k) && Track(after.journal, k) == Track(d.journal, k) {
      QuietKeepsTracks(d.journal, after.journal, k);
    }
    forall k | k in after.config.states ensures SchemeChains(after, k) {
      assert SchemeChains(d, k);
    }
  }

  lemma QuietStepsTraceable(d: Durable, op: Operation)
    requires Indexed(d) && Perform(d, op).Ok? && !op.Seed? && !op.ApplyState? && Traceable(d)
    ensures Traceable(After(d, op))
  {
    QuietSteps(d, op);
    if op.Discharge? {
      DischargeQuiet(d, op.obligationId, op.receipt, op.freshness);
    }
    UndisturbedTraceable(d, After(d, op));
    hide Tracked, SchemeChains, Indexed, QuietlyExtends, CommitReviewDischarge, CommitDecision, OpenReview,
      CommitEventObligations, Rebuild, RecordOther;
    var after := After(d, op);
    forall id | id in after.config.applications
      ensures Answers(after.config, after.config.applications[id])
      ensures Tracked(after.journal, after.config.applications[id])
    {
      DischargeIsTracked(after.journal, after.config.applications[id]);
    }
  }

  lemma DischargeIsTracked(journal: Journal, r: ApplicationReceipt)
    ensures r.effectKind != "state" ==> Tracked(journal, r)
  {
  }

  lemma {:induction false} ChainExtends(k: string, seed: DistinctionState, track: seq<Transition>, t: Transition)
    requires Chained(k, seed, track) && Fits(k, Latest(seed, track), t)
    ensures Chained(k, seed, track + [t]) && Latest(seed, track + [t]) == t.next
  {
    hide Fits;
    var longer := track + [t];
    forall i | 0 <= i < |longer| ensures Fits(k, Latest(seed, longer[..i]), longer[i]) {
      assert longer[..i] == if i < |track| then track[..i] else track;
    }
  }

  lemma AppliedTransition(r: ApplicationReceipt, schemeId: string, next: DistinctionState, k: string)
    requires StateAdmissibleFor(schemeId, next) && r.application.schemeId == schemeId
    ensures SeedIn(ApplicationCommittedEvent(r, Some(next)), k).None?
    ensures TransitionIn(ApplicationCommittedEvent(r, Some(next)), k) == if k == schemeId then [Transition(r, next)] else []
  {
    StateRoundTrip(schemeId, next);
    ReceiptRoundTrip(r);
  }

  lemma SeededState(schemeId: string, s: DistinctionState, k: string)
    requires StateAdmissibleFor(schemeId, s)
    ensures SeedIn(StateSeedEvent(schemeId, s), k) == if k == schemeId then Some(s) else None
    ensures TransitionIn(StateSeedEvent(schemeId, s), k) == []
  {
    StateRoundTrip(schemeId, s);
  }

  lemma SeedChains(d: Durable, after: Durable, schemeId: string, s: DistinctionState, k: string)
    requires SchemeChains(d, k) && StateAdmissibleFor(schemeId, s)
    requires schemeId !in d.config.states && SeedOf(d.journal, schemeId).None? && Track(d.journal, schemeId) == []
    requires after.journal == d.journal + [StateSeedEvent(schemeId, s)]
    requires after.config.states == d.config.states[schemeId := s]
    ensures Track(after.journal, k) == Track(d.journal, k) && SchemeChains(after, k)
  {
    hide StateAdmissibleFor, SeedIn, TransitionIn, Fits, SeedOf, Track;
    SeededState(schemeId, s, k);
    AppendTracks(d.journal, StateSeedEvent(schemeId, s), k);
  }

  lemma SeedTraceable(d: Durable, schemeId: string, s: DistinctionState)
    requires Indexed(d) && Traceable(d) && SeedState(d, schemeId, s).Ok?
    ensures Traceable(SeedState(d, schemeId, s).value)
  {
    hide Indexed, SchemeChains, Linked, SeedOf, Track, StateAdmissibleFor, StateSeedEvent;
    if schemeId !in d.config.states {
      UnknownSchemeHasNoTrack(d, schemeId);
      SeedFirst(d, schemeId, s);
      var after := SeedState(d, schemeId, s).value;
      forall k ensures Track(after.journal, k) == Track(d.journal, k) && SchemeChains(after, k) {
        NoChainNeeded(d, k);
        SeedChains(d, after, schemeId, s, k);
      }
      forall r | Tracked(d.journal, r) ensures Tracked(after.journal, r) {}
    }
  }

  lemma NoChainNeeded(d: Durable, k: string)
    requires TracksChain(d)
    ensures SchemeChains(d, k)
  {
    if k in d.config.states {
      assert SchemeChains(d, k);
    }
  }

  lemma SeedFirst(d: Durable, schemeId: string, s: DistinctionState)
    requires Indexed(d) && SeedState(d, schemeId, s).Ok? && schemeId !in d.config.states
    ensures StateAdmissibleFor(schemeId, s)
    ensures SeedState(d, schemeId, s).value
         == Durable(d.config.(states := d.config.states[schemeId := s]), d.journal + [StateSeedEvent(schemeId, s)])
  {
    if IdTaken(d.journal, StateSeedEvent(schemeId, s).id) {
      OldSchemeId(d, schemeId);
    }
  }

  lemma ApplyChains(d: Durable, after: Durable, schemeId: string, next: DistinctionState, r: ApplicationReceipt, k: string)
    requires SchemeChains(d, k) && schemeId in d.config.states && StateAdmissibleFor(schemeId, next)
    requires r.application.schemeId == schemeId
    requires Fits(schemeId, d.config.states[schemeId], Transition(r, next))
    requires after.journal == d.journal + [ApplicationCommittedEvent(r, Some(next))]
    requires after.config.states == d.config.states[schemeId := next]
    ensures SchemeChains(after, k)
  {
    hide StateAdmissibleFor, SeedIn, TransitionIn, Fits, SeedOf, Track, Chained, ApplicationCommittedEvent;
    AppliedTransition(r, schemeId, next, k);
    AppendTracks(d.journal, ApplicationCommittedEvent(r, Some(next)), k);
    if k == schemeId {
      ChainExtends(k, SeedOf(d.journal, k).value, Track(d.journal, k), Transition(r, next));
    } else {
      assert Track(d.journal, k) + [] == Track(d.journal, k);
    }
  }

  /** What applying does to chain, projection and journal, without how it was checked. */
  lemma ApplyFits(
    d: Durable, schemeId: string, next: DistinctionState, r: ApplicationReceipt, freshness: Option<FreshnessLookup>
  )
    requires Indexed(d) && CommitStateApplication(d, schemeId, next, r, freshness).Ok?
    ensures schemeId in d.config.states && Fits(schemeId, d.config.states[schemeId], Transition(r, next))
    ensures r.application.schemeId == schemeId && StateAdmissibleFor(schemeId, next)
    ensures Answers(d.config, r)
    ensures CommitStateApplication(d, schemeId, next, r, freshness).value
         == Durable(d.config.(states := d.config.states[schemeId := next],
                              applications := d.config.applications[r.application.id := r]),
                    d.journal + [ApplicationCommittedEvent(r, Some(next))])
  {
    hide CommitStateApplication, StateAdmissibleFor, Linked, StateAnchor, CandidateEffect, EffectMatches, Indexed;
    StateApplicationFacts(d, schemeId, next, r, freshness);
    StateApplicationIndexed(d, schemeId, next, r, freshness);
  }

  lemma ApplyTraceable(
    d: Durable, schemeId: string, next: DistinctionState, r: ApplicationReceipt, freshness: Option<FreshnessLookup>
  )
    requires Indexed(d) && Traceable(d) && CommitStateApplication(d, schemeId, next, r, freshness).Ok?
    ensures Traceable(CommitStateApplication(d, schemeId, next, r, freshness).value)
  {
    hide Indexed, CommitStateApplication, StateAdmissibleFor, Fits, SchemeChains, Tracked, Linked,
      ApplicationCommittedEvent;
    var after := CommitStateApplication(d, schemeId, next, r, freshness).value;
    ApplyFits(d, schemeId, next, r, freshness);
    forall k ensures SchemeChains(after, k) {
      NoChainNeeded(d, k);
      ApplyChains(d, after, schemeId, next, r, k);
    }
    forall id | id in after.config.applications ensures Tracked(after.journal, after.config.applications[id]) {
      ApplyKeepsTracked(d.journal, schemeId, next, r, after.config.applications[id]);
    }
  }

  lemma ApplyKeepsTracked(
    journal: Journal, schemeId: string, next: DistinctionState, r: ApplicationReceipt, other: ApplicationReceipt
  )
    requires StateAdmissibleFor(schemeId, next) && r.application.schemeId == schemeId
    ensures Tracked(journal + [ApplicationCommittedEvent(r, Some(next))], r)
    ensures Tracked(journal, other) ==> Tracked(journal + [ApplicationCommittedEvent(r, Some(next))], other)
  {
    var e, k := ApplicationCommittedEvent(r, Some(next)), other.application.schemeId;
    AppliedTransition(r, schemeId, next, k);
    AppliedTransition(r, schemeId, next, schemeId);
    AppendTracks(journal, e, k);
    AppendTracks(journal, e, schemeId);
    assert Transition(r, next) in Track(journal + [e], schemeId);
    if t :| t in Track(journal, k) && t.receipt == other {
      assert t in Track(journal + [e], k);
    }
  }

  lemma StepTraceable(d: Durable, op: Operation)
    requires Indexed(d) && Traceable(d)
    ensures Traceable(After(d, op))
  {
    hide Indexed, Traceable, SeedState, CommitStateApplication, OpenReview, CommitEventObligations, CommitDecision,
      CommitReviewDischarge, Rebuild, RecordOther;
    if Perform(d, op).Ok? {
      if op.Seed? {
        SeedTraceable(d, op.schemeId, op.state);
      } else if op.ApplyState? {
        ApplyTraceable(d, op.schemeId, op.next, op.receipt, op.freshness);
      } else {
        QuietStepsTraceable(d, op);
      }
    }
  }

  /** On every run, each scheme's transitions chain from its seed to where it now stands. */
  lemma {:induction false} EveryRunIsTraceable(ops: seq<Operation>)
    ensures Indexed(Run(ops)) && Traceable(Run(ops))
  {
    EveryRunIsIndexed(ops);
    if ops != [] {
      EveryRunIsTraceable(ops[..|ops| - 1]);
      StepTraceable(Run(ops[..|ops| - 1]), ops[|ops| - 1]);
    }
  }

  // ------------------------------------------------------- what a chain implies

  lemma {:induction false} ChainConserves(k: string, seed: DistinctionState, track: seq<Transition>)
    requires Chained(k, seed, track) && StateAdmissibleFor(k, seed)
    ensures Latest(seed, track).version == seed.version + |track|
    ensures Latest(seed, track).scope == seed.scope
    ensures Latest(seed, track).partition == seed.partition
    ensures StateAdmissibleFor(k, Latest(seed, track))
  {
    hide StateAdmissibleFor;
    if track != [] {
      var prefix := track[..|track| - 1];
      forall i | 0 <= i < |prefix| ensures Fits(k, Latest(seed, prefix[..i]), prefix[i]) {
        assert prefix[..i] == track[..i];
      }
      ChainConserves(k, seed, prefix);
      assert Fits(k, Latest(seed, prefix), track[|track| - 1]);
    }
  }

  lemma ChainPrefix(k: string, seed: DistinctionState, track: seq<Transition>, n: nat)
    requires Chained(k, seed, track) && n <= |track|
    ensures Chained(k, seed, track[..n])
  {
    hide Fits, Latest;
    forall i | 0 <= i < n ensures Fits(k, Latest(seed, track[..n][..i]), track[..n][i]) {
      assert track[..n][..i] == track[..i];
    }
  }

  /** The version counts transitions; scope and partition are those of the seed; the partition covers the scope exactly. */
  lemma VersionCountsTransitions(ops: seq<Operation>, k: string)
    requires k in Run(ops).config.states
    ensures SeedOf(Run(ops).journal, k).Some?
    ensures var d, seed := Run(ops), SeedOf(Run(ops).journal, k).value;
      && d.config.states[k].version == seed.version + |Track(d.journal, k)|
      && d.config.states[k].scope == seed.scope
      && d.config.states[k].partition == seed.partition
      && StateAdmissibleFor(k, d.config.states[k])
      && EachItemOnce(d.config.states[k].partition, d.config.states[k].scope)
  {
    EveryRunIsTraceable(ops);
    assert SchemeChains(Run(ops), k);
    ChainConserves(k, SeedOf(Run(ops).journal, k).value, Track(Run(ops).journal, k));
    ExactCoverMeans(Run(ops).config.states[k].partition, Run(ops).config.states[k].scope);
  }

  /** An anchor names one position of the chain. */
  lemma AnchorsArePositions(k: string, seed: DistinctionState, track: seq<Transition>, i: nat, j: nat)
    requires Chained(k, seed, track) && StateAdmissibleFor(k, seed) && i <= |track| && j <= |track|
    requires StateAnchor(Latest(seed, track[..i])) == StateAnchor(Latest(seed, track[..j]))
    ensures i == j
  {
    ChainPrefix(k, seed, track, i);
    ChainPrefix(k, seed, track, j);
    ChainConserves(k, seed, track[..i]);
    ChainConserves(k, seed, track[..j]);
    AnchorFixesVersion(Latest(seed, track[..i]), Latest(seed, track[..j]));
  }

  /** Over any run a decision produces at most one state change. */
  lemma OneStateChangePerDecision(ops: seq<Operation>, x: string, y: string)
    requires var apps := Run(ops).config.applications;
      && x in apps && y in apps
      && apps[x].effectKind == "state" && apps[y].effectKind == "state"
      && apps[x].application.decisionRef == apps[y].application.decisionRef
    ensures Run(ops).config.applications[x] == Run(ops).config.applications[y]
  {
    EveryRunIsTraceable(ops);
    var d := Run(ops);
    var r, q := d.config.applications[x], d.config.applications[y];
    assert Answers(d.config, r) && Answers(d.config, q) && Tracked(d.journal, r) && Tracked(d.journal, q);
    var k := r.application.schemeId;
    hide StateAnchor, Indexed, StateAdmissibleFor;
    var track := Track(d.journal, k);
    var i :| 0 <= i < |track| && track[i].receipt == r;
    var j :| 0 <= j < |track| && track[j].receipt == q;
    SomeTrackMeansSeeded(ops, k);
    var seed := SeedOf(d.journal, k).value;
    assert Fits(k, Latest(seed, track[..i]), track[i]) && Fits(k, Latest(seed, track[..j]), track[j]);
    AnchorsArePositions(k, seed, track, i, j);
  }

  lemma SomeTrackMeansSeeded(ops: seq<Operation>, k: string)
    requires Track(Run(ops).journal, k) != []
    ensures k in Run(ops).config.states && SchemeChains(Run(ops), k)
  {
    EveryRunIsTraceable(ops);
    if k !in Run(ops).config.states {
      UnknownSchemeHasNoTrack(Run(ops), k);
    }
  }

  // ------------------------------------------ one state per scheme and version

  lemma {:induction false} SeedComesFromAnEvent(journal: Journal, k: string)
    ensures SeedOf(journal, k).Some? ==> exists e | e in journal :: SeedIn(e, k) == SeedOf(journal, k)
    ensures SeedOf(journal, k).None? ==> forall e | e in journal :: SeedIn(e, k).None?
  {
    hide SeedIn;
    if journal != [] {
      var prefix, last := journal[..|journal| - 1], journal[|journal| - 1];
      SeedComesFromAnEvent(prefix, k);
      assert journal == prefix + [last] && last in journal;
    }
  }

  lemma SeedIsUnique(journal: Journal, e: Event, k: string)
    requires WellFormed(journal) && e in journal && SeedIn(e, k).Some?
    ensures SeedOf(journal, k) == SeedIn(e, k)
  {
    hide StateAdmissibleFor;
    SeedComesFromAnEvent(journal, k);
    var f :| f in journal && SeedIn(f, k) == SeedOf(journal, k);
    assert e.id == f.id == GovernanceId("state", k);
  }

  lemma {:induction false} TransitionIsOnTrack(journal: Journal, e: Event, k: string)
    requires e in journal && TransitionIn(e, k) != []
    ensures TransitionIn(e, k)[0] in Track(journal, k)
  {
    hide TransitionIn;
    var prefix, last := journal[..|journal| - 1], journal[|journal| - 1];
    assert journal == prefix + [last];
    if e in prefix {
      TransitionIsOnTrack(prefix, e, k);
    }
  }

  lemma CarriedByEither(e: Event, k: string, s: DistinctionState)
    requires Carries(e) == Some((k, s))
    ensures SeedIn(e, k) == Some(s) || (SeedIn(e, k).None? && |TransitionIn(e, k)| == 1 && TransitionIn(e, k)[0].next == s)
  {
    hide StateAdmissibleFor;
  }

  /** Every state the journal carries is a position on its scheme's chain. */
  lemma CarriedIsAPosition(ops: seq<Operation>, e: Event, k: string, s: DistinctionState) returns (n: nat)
    requires e in Run(ops).journal && Carries(e) == Some((k, s))
    ensures k in Run(ops).config.states && SchemeChains(Run(ops), k)
    ensures n <= |Track(Run(ops).journal, k)|
    ensures s == Latest(SeedOf(Run(ops).journal, k).value, Track(Run(ops).journal, k)[..n])
  {
    hide Carries, SeedIn, TransitionIn, SchemeChains, TracksChain, StatesMatch, FactsMatch, DischargesMatch, Chained;
    var d := Run(ops);
    EveryRunIsTraceable(ops);
    CarriedByEither(e, k, s);
    CarriedSchemeKnown(d, e);
    NoChainNeeded(d, k);
    if SeedIn(e, k).Some? {
      SeedIsUnique(d.journal, e, k);
      n := 0;
    } else {
      TransitionIsOnTrack(d.journal, e, k);
      var i :| 0 <= i < |Track(d.journal, k)| && Track(d.journal, k)[i] == TransitionIn(e, k)[0];
      n := i + 1;
      assert Track(d.journal, k)[..n][n - 1] == Track(d.journal, k)[i];
    }
    SeedKnown(d, k);
  }

  lemma SeedKnown(d: Durable, k: string)
    requires k in d.config.states && SchemeChains(d, k)
    ensures SeedOf(d.journal, k).Some?
  {
  }

  lemma CarriedSchemeKnown(d: Durable, e: Event)
    requires Indexed(d) && e in d.journal && Carries(e).Some?
    ensures Carries(e).value.0 in d.config.states
  {
    hide Carries, FactsMatch, DischargesMatch;
    assert StatesMatch(d.journal, FoldOf(d).states);
  }

  lemma PositionVersion(d: Durable, k: string, n: nat)
    requires k in d.config.states && SchemeChains(d, k) && n <= |Track(d.journal, k)|
    ensures Latest(SeedOf(d.journal, k).value, Track(d.journal, k)[..n]).version == SeedOf(d.journal, k).value.version + n
  {
    ChainPrefix(k, SeedOf(d.journal, k).value, Track(d.journal, k), n);
    ChainConserves(k, SeedOf(d.journal, k).value, Track(d.journal, k)[..n]);
  }

  lemma SameVersionSameState(ops: seq<Operation>, e: Event, f: Event)
    requires e in Run(ops).journal && f in Run(ops).journal && Carries(e).Some? && Carries(f).Some?
    requires Carries(e).value.0 == Carries(f).value.0 && Carries(e).value.1.version == Carries(f).value.1.version
    ensures Carries(e) == Carries(f)
  {
    hide *;
    var k, d := Carries(e).value.0, Run(ops);
    var i := CarriedIsAPosition(ops, e, k, Carries(e).value.1);
    var j := CarriedIsAPosition(ops, f, k, Carries(f).value.1);
    PositionVersion(d, k, i);
    PositionVersion(d, k, j);
  }

  /** Every reachable journal meets the condition under which the fold ignores order. */
  lemma ReachableOrderIrrelevant(ops: seq<Operation>, fs: Journal)
    requires SameEvents(Run(ops).journal, fs)
    ensures VersionsFixStates(Run(ops).journal)
    ensures Reconstruct(fs) == Reconstruct(Run(ops).journal) && Reconstruct(fs).Ok?
  {
    hide Carries;
    var es := Run(ops).journal;
    forall e, f | e in es && f in es && Carries(e).Some? && Carries(f).Some?
      && Carries(e).value.0 == Carries(f).value.0 && Carries(e).value.1.version == Carries(f).value.1.version
      ensures Carries(e) == Carries(f)
    {
      SameVersionSameState(ops, e, f);
    }
    VersionsFixTop(es);
    OrderIrrelevant(es, fs);
    EveryRunIsIndexed(ops);
    ReconstructsWheneverItFolds(es);
  }
}
