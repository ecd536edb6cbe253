/**
 What a request is admitted on, over everything ever recorded: each reason for a
 refusal on its own terms, the one of several that is reported, and the admission
 itself, without the pruned counters the decision is taken from.
 */
module AdmissionLimits {
  import opened Wrappers
  import opened Reliability

  // ------------------------------------------------------------------- the reasons

  function Exposed(q: Request): int {
    match q.exposure
    case Some(stated) => stated
    case None => q.blastRadius
  }

  predicate MustRecoverInTime(q: Request) {
    q.irreversible || q.enhancedProfile
  }

  predicate AllFourGiven(q: Request) {
    && q.timing.Some?
    && q.timing.value.detect.Some? && q.timing.value.judge.Some?
    && q.timing.value.correct.Some? && q.timing.value.irreversible.Some?
  }

  /** Detecting, judging and correcting are over before the effect becomes irreversible. */
  predicate RecoversInTime(q: Request) {
    && AllFourGiven(q)
    && var t := q.timing.value;
    && 0.0 <= t.detect.value && 0.0 <= t.judge.value && 0.0 <= t.correct.value
    && t.irreversible.value > t.detect.value + t.judge.value + t.correct.value
  }

  ghost predicate Applies(l: Limits, c: Counters, q: Request, now: real, r: Refusal) {
    match r
    case BlastRadiusNotPositive => q.sideEffect && q.blastRadius <= 0
    case ExposureNotPositive => q.sideEffect && Exposed(q) <= 0
    case TimingRequired => MustRecoverInTime(q) && q.timing.None?
    case TimingIncomplete => MustRecoverInTime(q) && q.timing.Some? && !AllFourGiven(q)
    case TimingNegative =>
      && MustRecoverInTime(q) && AllFourGiven(q)
      && var t := q.timing.value;
         t.detect.value < 0.0 || t.judge.value < 0.0 || t.correct.value < 0.0 || t.irreversible.value < 0.0
    case RecoveryTooSlow => MustRecoverInTime(q) && AllFourGiven(q) && !RecoversInTime(q)
    case RateExceeded => l.maxActionRate <= |set i | 0 <= i < |c.timestamps| && now - c.timestamps[i] < 60.0|
    case BlastRadiusExceeded => l.blastRadius < q.blastRadius
    case ParallelExceeded => l.maxParallel <= c.active
    case SideEffectsExhausted => l.sideEffectBudget <= c.sideEffects
    case ExposureExhausted => l.exposureBudget - c.exposureUsed < Exposed(q)
    case CoolingDown => c.lastSideEffectAt.Some? && now < c.lastSideEffectAt.value + l.cooldown
  }

  /** Which reason is given before which. */
  function Precedence(r: Refusal): nat {
    match r
    case BlastRadiusNotPositive => 1
    case ExposureNotPositive => 2
    case TimingRequired => 3
    case TimingIncomplete => 4
    case TimingNegative => 5
    case RecoveryTooSlow => 6
    case RateExceeded => 7
    case BlastRadiusExceeded => 8
    case ParallelExceeded => 9
    case SideEffectsExhausted => 10
    case ExposureExhausted => 11
    case CoolingDown => 12
  }

  /** Pruning counts the timestamps less than sixty seconds old, in whatever order they stand. */
  lemma {:induction false} RecentCounts(times: seq<real>, now: real)
    ensures |Recent(times, now)| == |set i | 0 <= i < |times| && now - times[i] < 60.0|
  {
    var recent := set i | 0 <= i < |times| && now - times[i] < 60.0;
    if times != [] {
      var prefix := times[..|times| - 1];
      RecentCounts(prefix, now);
      var before := set i | 0 <= i < |prefix| && now - prefix[i] < 60.0;
      assert forall i | 0 <= i < |prefix| :: prefix[i] == times[i];
      if now - times[|prefix|] < 60.0 {
        assert recent == before + {|prefix|};
      } else {
        assert recent == before;
      }
    }
  }

  lemma GivenReasonApplies(l: Limits, c: Counters, q: Request, now: real)
    ensures var given := Assess(l, c, q, now).0;
      given.Some? ==> Applies(l, c, q, now, given.value)
    ensures var given := Assess(l, c, q, now).0;
      forall r | given.None? || Precedence(r) < Precedence(given.value) :: !Applies(l, c, q, now, r)
  {
    hide Recent;
    RecentCounts(c.timestamps, now);
  }

  /** The reason reported is the first that applies; with none that applies the request is admitted. */
  lemma RefusedExactly(l: Limits, c: Counters, q: Request, now: real)
    ensures forall r ::
      Assess(l, c, q, now).0 == Some(r)
      <==> Applies(l, c, q, now, r) && forall s | Precedence(s) < Precedence(r) :: !Applies(l, c, q, now, s)
    ensures Assess(l, c, q, now).0.None? <==> forall r :: !Applies(l, c, q, now, r)
  {
    hide Assess, Applies, Precedence;
    GivenReasonApplies(l, c, q, now);
    forall r, s ensures Precedence(r) < Precedence(s) || Precedence(s) < Precedence(r) || r == s {
      PrecedenceDecides(r, s);
    }
  }

  lemma PrecedenceDecides(r: Refusal, s: Refusal)
    ensures Precedence(r) < Precedence(s) || Precedence(s) < Precedence(r) || r == s
  {
  }

  // ---------------------------------------------------------------- over all events

  /** Side effects begun and not yet completed; a completion too many is forgotten. */
  function Underway(events: seq<Event>): nat {
    if events == [] then 0
    else
      var before := Underway(events[..|events| - 1]);
      match events[|events| - 1]
      case Recorded(q, _, _) => if q.sideEffect then before + 1 else before
      case Completed(sideEffect) => if sideEffect && before >= 1 then before - 1 else before
      case _ => before
  }

  /** What the recorded side effects exposed, all together. */
  function Spent(history: seq<Action>): int {
    if history == [] then 0
    else
      var last := history[|history| - 1].request;
      Spent(history[..|history| - 1]) + if last.sideEffect then Exposed(last) else 0
  }

  ghost predicate Mirrored(g: Gate, events: seq<Event>) {
    && InTime(g.history, g.clock) && Tracks(g)
    && g.history == Actions(events)
    && g.counters.active == Underway(events)
    && g.counters.sideEffects == |set i | 0 <= i < |g.history| && g.history[i].request.sideEffect|
    && g.counters.exposureUsed == Spent(g.history)
    && g.counters.lastSideEffectAt == LastSideEffect(g.history)
  }

  lemma OneMoreCounted(history: seq<Action>, a: Action)
    ensures |set i | 0 <= i < |history + [a]| && (history + [a])[i].request.sideEffect|
         == |set i | 0 <= i < |history| && history[i].request.sideEffect| + if a.request.sideEffect then 1 else 0
    ensures Spent(history + [a]) == Spent(history) + if a.request.sideEffect then Exposed(a.request) else 0
    ensures LastSideEffect(history + [a]) == if a.request.sideEffect then Some(a.stampedAt) else LastSideEffect(history)
  {
    var longer := history + [a];
    assert longer[..|history|] == history;
    var before, after := set i | 0 <= i < |history| && history[i].request.sideEffect,
                         set i | 0 <= i < |longer| && longer[i].request.sideEffect;
    assert after == before + if a.request.sideEffect then {|history|} else {};
  }

  lemma RecordingMirrors(l: Limits, g: Gate, events: seq<Event>, q: Request, at: real, stampedAt: real)
    requires events != [] && events[|events| - 1] == Recorded(q, at, stampedAt) && Mirrored(g, events[..|events| - 1])
    requires g.clock <= at <= stampedAt
    ensures Mirrored(Next(l, g, Recorded(q, at, stampedAt)), events)
  {
    hide Spent, LastSideEffect, Tracks, InTime;
    RecordingTracks(g, q, at, stampedAt);
    OneMoreCounted(g.history, Action(q, at, stampedAt));
  }

  lemma AssessingMirrors(l: Limits, g: Gate, events: seq<Event>, now: real, q: Request)
    requires events != [] && events[|events| - 1] == Assessed(now, q) && Mirrored(g, events[..|events| - 1]) && g.clock <= now
    ensures Mirrored(Next(l, g, Assessed(now, q)), events)
  {
    hide Spent, LastSideEffect, Decide, Recent;
    PruningTracks(g, now);
  }

  /** However many requests await recording, the counters say what the events say. */
  lemma {:induction false} CountersMirrorEvents(l: Limits, start: real, events: seq<Event>, k: nat)
    requires Orderly(l, start, events, k)
    ensures Mirrored(Run(l, start, events), events)
  {
    hide Orderly, Spent, LastSideEffect, Tracks, InTime, Assess, RecordAction;
    if events == [] {
      OpeningMirrors(start);
    } else {
      var prefix, last := events[..|events| - 1], events[|events| - 1];
      var before := Run(l, start, prefix);
      OrderlyPrefix(l, start, events, k);
      CountersMirrorEvents(l, start, prefix, k);
      match last
      case Assessed(now, q) => AssessingMirrors(l, before, events, now, q);
      case Abandoned(q) => OthersMirror(l, before, events);
      case Recorded(q, at, stampedAt) => RecordingMirrors(l, before, events, q, at, stampedAt);
      case Completed(sideEffect) => OthersMirror(l, before, events);
    }
  }

  lemma OpeningMirrors(start: real)
    ensures Mirrored(Opening(start), [])
  {
  }

  lemma OthersMirror(l: Limits, g: Gate, events: seq<Event>)
    requires events != [] && Mirrored(g, events[..|events| - 1])
    requires events[|events| - 1].Abandoned? || events[|events| - 1].Completed?
    ensures Mirrored(Next(l, g, events[|events| - 1]), events)
  {
    hide Spent, LastSideEffect;
  }

  lemma {:induction false} OldOnesDoNotCount(times: seq<real>, dropped: nat, now: real)
    requires dropped <= |times| && forall i | 0 <= i < dropped :: now - times[i] >= WINDOW
    ensures Recent(times, now) == Recent(times[dropped..], now)
  {
    if times != [] {
      var prefix := times[..|times| - 1];
      if dropped < |times| {
        OldOnesDoNotCount(prefix, dropped, now);
        assert times[dropped..][..|times| - dropped - 1] == prefix[dropped..];
      } else {
        OldOnesDoNotCount(prefix, dropped - 1, now);
        assert prefix[dropped - 1..] == times[dropped..] == [];
      }
    }
  }

  /** The pruned timestamps count the same as the whole history. */
  lemma RecentActions(g: Gate, now: real)
    requires InTime(g.history, g.clock) && Tracks(g) && g.clock <= now
    ensures |set i | 0 <= i < |g.counters.timestamps| && now - g.counters.timestamps[i] < 60.0|
         == |set i | 0 <= i < |g.history| && now - g.history[i].at < 60.0|
  {
    hide Recent;
    var times := Times(g.history);
    RecentCounts(g.counters.timestamps, now);
    RecentCounts(times, now);
    OldOnesDoNotCount(times, |g.history| - |g.counters.timestamps|, now);
    assert (set i | 0 <= i < |g.history| && now - g.history[i].at < 60.0)
        == set i | 0 <= i < |times| && now - times[i] < 60.0;
  }

  lemma {:induction false} LastDecidesCooldown(l: Limits, history: seq<Action>, clock: real, now: real)
    requires InTime(history, clock)
    ensures (LastSideEffect(history).Some? ==> now - LastSideEffect(history).value >= l.cooldown)
       <==> forall i | 0 <= i < |history| && history[i].request.sideEffect :: now - history[i].stampedAt >= l.cooldown
  {
    if history != [] {
      var prefix, last := history[..|history| - 1], history[|history| - 1];
      LastDecidesCooldown(l, prefix, clock, now);
      assert forall i | 0 <= i < |prefix| :: prefix[i] == history[i] && history[i].stampedAt <= last.stampedAt;
    }
  }

  /**
   In every orderly course of events, however many admitted requests await
   recording: a request is admitted exactly when it is sound in itself, few enough
   actions were recorded in the last sixty seconds, few enough side effects are
   under way, the budgets hold for everything ever recorded, and every side effect
   ever recorded has cooled down.
   */
  lemma {:induction false} AdmittedOverHistory(l: Limits, start: real, events: seq<Event>, k: nat, now: real, q: Request)
    requires Orderly(l, start, events, k) && Run(l, start, events).clock <= now
    ensures var done := Actions(events);
      Assess(l, Run(l, start, events).counters, q, now).0.None? <==>
        && (q.sideEffect ==> q.blastRadius >= 1 && Exposed(q) >= 1)
        && (MustRecoverInTime(q) ==> RecoversInTime(q))
        && |set i | 0 <= i < |done| && now - done[i].at < 60.0| < l.maxActionRate
        && q.blastRadius <= l.blastRadius
        && Underway(events) < l.maxParallel
        && |set i | 0 <= i < |done| && done[i].request.sideEffect| < l.sideEffectBudget
        && Spent(done) + Exposed(q) <= l.exposureBudget
        && forall i | 0 <= i < |done| && done[i].request.sideEffect :: now - done[i].stampedAt >= l.cooldown
  {
    hide Orderly, Run, Assess, Spent, LastSideEffect, Underway, Actions, Tracks, InTime, Precedence;
    var g := Run(l, start, events);
    CountersMirrorEvents(l, start, events, k);
    RefusedExactly(l, g.counters, q, now);
    RecentActions(g, now);
    LastDecidesCooldown(l, g.history, g.clock, now);
    NoneAppliesExactly(l, g.counters, q, now);
  }

  lemma NoneAppliesExactly(l: Limits, c: Counters, q: Request, now: real)
    ensures (forall r :: !Applies(l, c, q, now, r)) <==>
      && (q.sideEffect ==> q.blastRadius >= 1 && Exposed(q) >= 1)
      && (MustRecoverInTime(q) ==> RecoversInTime(q))
      && |set i | 0 <= i < |c.timestamps| && now - c.timestamps[i] < 60.0| < l.maxActionRate
      && q.blastRadius <= l.blastRadius
      && c.active < l.maxParallel
      && c.sideEffects < l.sideEffectBudget
      && c.exposureUsed + Exposed(q) <= l.exposureBudget
      && (c.lastSideEffectAt.Some? ==> now - c.lastSideEffectAt.value >= l.cooldown)
  {
    hide Exposed;
    if forall r :: !Applies(l, c, q, now, r) {
      assert !Applies(l, c, q, now, BlastRadiusNotPositive) && !Applies(l, c, q, now, ExposureNotPositive);
      assert !Applies(l, c, q, now, TimingRequired) && !Applies(l, c, q, now, TimingIncomplete);
      assert !Applies(l, c, q, now, RecoveryTooSlow) && !Applies(l, c, q, now, RateExceeded);
      assert !Applies(l, c, q, now, BlastRadiusExceeded) && !Applies(l, c, q, now, ParallelExceeded);
      assert !Applies(l, c, q, now, SideEffectsExhausted) && !Applies(l, c, q, now, ExposureExhausted);
      assert !Applies(l, c, q, now, CoolingDown);
    }
  }
}
