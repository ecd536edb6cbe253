/**
 Admission by rate, parallelism, blast radius, budgets and cooldown. What the
 pruned, mutable counters admit is bounded against the full history of actions.
 */
module Reliability {
  import opened Wrappers

  const WINDOW := 60.0

  datatype Limits = Limits(
    maxActionRate: int,
    maxParallel: int,
    blastRadius: int,
    exposureBudget: int,
    sideEffectBudget: int,
    cooldown: real)

  /** Recovery timings as given; an entry that is missing or not a number is absent. */
  datatype Timing = Timing(detect: Option<real>, judge: Option<real>, correct: Option<real>, irreversible: Option<real>)

  datatype Request = Request(
    sideEffect: bool,
    blastRadius: int,
    exposure: Option<int>,
    irreversible: bool,
    enhancedProfile: bool,
    timing: Option<Timing>)

  function ExposureOf(q: Request): int {
    if q.exposure.Some? then q.exposure.value else q.blastRadius
  }

  datatype Refusal =
    | BlastRadiusNotPositive
    | ExposureNotPositive
    | TimingRequired
    | TimingIncomplete
    | TimingNegative
    | RecoveryTooSlow
    | RateExceeded
    | BlastRadiusExceeded
    | ParallelExceeded
    | SideEffectsExhausted
    | ExposureExhausted
    | CoolingDown

  // -------------------------------------------------------------- risk and decision

  function TimingRisk(timing: Option<Timing>): Option<Refusal> {
    if timing.None? then Some(TimingRequired)
    else
      var t := timing.value;
      if t.detect.None? || t.judge.None? || t.correct.None? || t.irreversible.None? then Some(TimingIncomplete)
      else if t.detect.value < 0.0 || t.judge.value < 0.0 || t.correct.value < 0.0 || t.irreversible.value < 0.0 then
        Some(TimingNegative)
      else if t.detect.value + t.judge.value + t.correct.value >= t.irreversible.value then Some(RecoveryTooSlow)
      else None
  }

  function Risk(q: Request): Option<Refusal> {
    if q.sideEffect && q.blastRadius < 1 then Some(BlastRadiusNotPositive)
    else if q.sideEffect && ExposureOf(q) < 1 then Some(ExposureNotPositive)
    else if q.enhancedProfile || q.irreversible then TimingRisk(q.timing)
    else None
  }

  datatype Counters = Counters(
    timestamps: seq<real>,
    sideEffects: nat,
    active: nat,
    exposureUsed: int,
    lastSideEffectAt: Option<real>)

  const NEW_COUNTERS := Counters([], 0, 0, 0, None)

  /** The timestamps still inside the window. */
  function Recent(timestamps: seq<real>, now: real): seq<real> {
    if timestamps == [] then []
    else
      var rest := Recent(timestamps[..|timestamps| - 1], now);
      var last := timestamps[|timestamps| - 1];
      if now - last < WINDOW then rest + [last] else rest
  }

  function CooldownRemaining(l: Limits, c: Counters, now: real): real {
    if c.lastSideEffectAt.None? then 0.0
    else
      var remaining := l.cooldown - (now - c.lastSideEffectAt.value);
      if remaining > 0.0 then remaining else 0.0
  }

  function Decide(l: Limits, c: Counters, q: Request, now: real): Option<Refusal> {
    if Risk(q).Some? then Risk(q)
    else if |c.timestamps| >= l.maxActionRate then Some(RateExceeded)
    else if q.blastRadius > l.blastRadius then Some(BlastRadiusExceeded)
    else if c.active >= l.maxParallel then Some(ParallelExceeded)
    else if c.sideEffects >= l.sideEffectBudget then Some(SideEffectsExhausted)
    else if c.exposureUsed + ExposureOf(q) > l.exposureBudget then Some(ExposureExhausted)
    else if CooldownRemaining(l, c, now) > 0.0 then Some(CoolingDown)
    else None
  }

  function Pruned(c: Counters, now: real): Counters {
    c.(timestamps := Recent(c.timestamps, now))
  }

  function Assess(l: Limits, c: Counters, q: Request, now: real): (Option<Refusal>, Counters) {
    (Decide(l, Pruned(c, now), q, now), Pruned(c, now))
  }

  function RecordAction(c: Counters, q: Request, at: real, stampedAt: real): Counters {
    var counted := c.(timestamps := c.timestamps + [at]);
    if q.sideEffect then
      counted.(sideEffects := c.sideEffects + 1, active := c.active + 1,
               exposureUsed := c.exposureUsed + ExposureOf(q), lastSideEffectAt := Some(stampedAt))
    else counted
  }

  function CompleteAction(c: Counters, sideEffect: bool): Counters {
    if sideEffect && c.active > 0 then c.(active := c.active - 1) else c
  }

  /** A request is admitted exactly when it is sound in itself and every limit still has room. */
  lemma AdmittedExactly(l: Limits, c: Counters, q: Request, now: real)
    ensures Assess(l, c, q, now).0.None? <==>
      && Risk(q).None?
      && |Recent(c.timestamps, now)| < l.maxActionRate
      && q.blastRadius <= l.blastRadius
      && c.active < l.maxParallel
      && c.sideEffects < l.sideEffectBudget
      && c.exposureUsed + ExposureOf(q) <= l.exposureBudget
      && (c.lastSideEffectAt.Some? ==> now - c.lastSideEffectAt.value >= l.cooldown)
  {
  }

  lemma AssessingSpendsNothing(l: Limits, c: Counters, q: Request, now: real)
    ensures Assess(l, c, q, now).1 == c.(timestamps := Recent(c.timestamps, now))
  {
  }

  // ------------------------------------------------------------------------- runs

  /** One recorded action: when it was counted and when its cooldown started. */
  datatype Action = Action(request: Request, at: real, stampedAt: real)

  /** Time passes between admission and recording, and not every admitted request comes to be recorded. */
  datatype Event =
    | Assessed(now: real, request: Request)
    | Abandoned(request: Request)
    | Recorded(request: Request, at: real, stampedAt: real)
    | Completed(sideEffect: bool)

  /** The counters, the requests admitted and not yet recorded or given up, and all that was ever recorded. */
  datatype Gate = Gate(counters: Counters, pending: multiset<Request>, history: seq<Action>, clock: real)

  function Opening(clock: real): Gate {
    Gate(NEW_COUNTERS, multiset{}, [], clock)
  }

  function Next(l: Limits, g: Gate, e: Event): Gate {
    match e
    case Assessed(now, q) =>
      var (refusal, counters) := Assess(l, g.counters, q, now);
      Gate(counters, if refusal.None? then g.pending + multiset{q} else g.pending, g.history, now)
    case Abandoned(q) => g.(pending := g.pending - multiset{q})
    case Recorded(q, at, stampedAt) =>
      Gate(RecordAction(g.counters, q, at, stampedAt), g.pending - multiset{q}, g.history + [Action(q, at, stampedAt)], stampedAt)
    case Completed(sideEffect) => g.(counters := CompleteAction(g.counters, sideEffect))
  }

  /** The clock moves forward, and only what was admitted is recorded. */
  predicate Timely(g: Gate, e: Event) {
    match e
    case Assessed(now, _) => g.clock <= now
    case Abandoned(_) => true
    case Recorded(q, at, stampedAt) => q in g.pending && g.clock <= at <= stampedAt
    case Completed(_) => true
  }

  function Run(l: Limits, start: real, events: seq<Event>): Gate {
    if events == [] then Opening(start) else Next(l, Run(l, start, events[..|events| - 1]), events[|events| - 1])
  }

  /** What the events record, whatever was admitted. */
  function Actions(events: seq<Event>): seq<Action> {
    if events == [] then []
    else
      match events[|events| - 1]
      case Recorded(q, at, stampedAt) => Actions(events[..|events| - 1]) + [Action(q, at, stampedAt)]
      case _ => Actions(events[..|events| - 1])
  }

  lemma {:induction false} HistoryIsRecorded(l: Limits, start: real, events: seq<Event>)
    ensures Run(l, start, events).history == Actions(events)
  {
    hide Assess, RecordAction, CompleteAction;
    if events != [] {
      HistoryIsRecorded(l, start, events[..|events| - 1]);
    }
  }

  predicate OrderlyAt(l: Limits, start: real, events: seq<Event>, n: nat, k: nat)
    requires n < |events|
  {
    && Timely(Run(l, start, events[..n]), events[n])
    && |Run(l, start, events[..n + 1]).pending| <= k
  }

  /** Time never goes back, only admitted requests are recorded, and at most k of them ever await it. */
  predicate Orderly(l: Limits, start: real, events: seq<Event>, k: nat) {
    forall n | 0 <= n < |events| :: OrderlyAt(l, start, events, n, k)
  }

  // ------------------------------------------------------ at most k await recording

  function Max(a: int, b: int): int {
    if a >= b then a else b
  }

  /** Nothing where nothing is admitted; else one short of the limit, and k more admitted before any is recorded. */
  function SlackBound(limit: int, k: nat): nat {
    if limit <= 0 || k == 0 then 0 else limit + k - 1
  }

  lemma NextWithinParallel(l: Limits, g: Gate, e: Event, k: nat)
    requires g.counters.active + |g.pending| <= SlackBound(l.maxParallel, k)
    requires Timely(g, e) && |Next(l, g, e).pending| <= k
    ensures Next(l, g, e).counters.active + |Next(l, g, e).pending| <= SlackBound(l.maxParallel, k)
  {
    hide Recent, Risk, CooldownRemaining;
  }

  lemma {:induction false} OrderlyPrefix(l: Limits, start: real, events: seq<Event>, k: nat)
    requires Orderly(l, start, events, k) && events != []
    ensures Orderly(l, start, events[..|events| - 1], k)
    ensures Timely(Run(l, start, events[..|events| - 1]), events[|events| - 1])
    ensures |Run(l, start, events).pending| <= k
  {
    hide Run, Timely;
    var prefix, last := events[..|events| - 1], |events| - 1;
    assert events[..|events|] == events;
    assert OrderlyAt(l, start, events, last, k);
    forall n | 0 <= n < |prefix| ensures OrderlyAt(l, start, prefix, n, k) {
      assert prefix[..n] == events[..n] && prefix[..n + 1] == events[..n + 1];
      assert OrderlyAt(l, start, events, n, k);
    }
  }

  /** With at most k admitted requests awaiting recording, active and awaiting together exceed the limit by at most k - 1. */
  lemma {:induction false} ParallelWithinSlack(l: Limits, start: real, events: seq<Event>, k: nat)
    requires Orderly(l, start, events, k)
    ensures Run(l, start, events).counters.active + |Run(l, start, events).pending| <= SlackBound(l.maxParallel, k)
  {
    hide Next, Orderly, SlackBound, Timely;
    if events != [] {
      OrderlyPrefix(l, start, events, k);
      ParallelWithinSlack(l, start, events[..|events| - 1], k);
      NextWithinParallel(l, Run(l, start, events[..|events| - 1]), events[|events| - 1], k);
    }
  }

  lemma {:induction false} RunExtends(l: Limits, start: real, events: seq<Event>, e: Event)
    ensures Run(l, start, events + [e]) == Next(l, Run(l, start, events), e)
  {
    assert (events + [e])[..|events|] == events;
  }

  lemma {:induction false} OrderlyExtends(l: Limits, start: real, events: seq<Event>, k: nat, e: Event)
    requires Orderly(l, start, events, k) && Timely(Run(l, start, events), e)
    requires |Next(l, Run(l, start, events), e).pending| <= k
    ensures Orderly(l, start, events + [e], k)
    ensures Run(l, start, events + [e]) == Next(l, Run(l, start, events), e)
  {
    hide Next, Timely;
    var longer := events + [e];
    assert longer[..|events|] == events && longer[..|longer|] == longer;
    forall n | 0 <= n < |longer| ensures OrderlyAt(l, start, longer, n, k) {
      if n < |events| {
        assert OrderlyAt(l, start, events, n, k);
        assert longer[..n] == events[..n] && longer[..n + 1] == events[..n + 1];
      }
    }
  }

  // ------------------------------------------------------------- the slack is real

  const HARMLESS := Request(true, 1, None, false, false, None)

  function Tight(limit: nat, k: nat): Limits {
    Limits(limit + k, limit, 1, limit + k, limit + k, 0.0)
  }

  function Zeros(n: nat): (zs: seq<real>)
    ensures |zs| == n && forall i | 0 <= i < n :: zs[i] == 0.0
  {
    seq(n, i => 0.0)
  }

  predicate At(g: Gate, recorded: nat, waiting: nat) {
    && g.counters == Counters(Zeros(recorded), recorded, recorded, recorded, if recorded == 0 then None else Some(0.0))
    && g.pending == multiset{}[HARMLESS := waiting]
    && g.clock == 0.0
  }

  lemma {:induction false} ZerosAreRecent(n: nat)
    ensures Recent(Zeros(n), 0.0) == Zeros(n)
  {
    if n > 0 {
      assert Zeros(n)[..n - 1] == Zeros(n - 1);
      assert Zeros(n) == Zeros(n - 1) + [0.0];
      ZerosAreRecent(n - 1);
    }
  }

  lemma OneMoreAdmitted(limit: nat, k: nat, g: Gate, n: nat, p: nat)
    requires At(g, n, p) && n < limit && k > 0
    ensures At(Next(Tight(limit, k), g, Assessed(0.0, HARMLESS)), n, p + 1)
    ensures |Next(Tight(limit, k), g, Assessed(0.0, HARMLESS)).pending| == p + 1
  {
    hide Recent;
    ZerosAreRecent(n);
    assert multiset{}[HARMLESS := p] + multiset{HARMLESS} == multiset{}[HARMLESS := p + 1];
  }

  lemma OneMoreRecorded(limit: nat, k: nat, g: Gate, n: nat, p: nat)
    requires At(g, n, p) && p > 0
    ensures At(Next(Tight(limit, k), g, Recorded(HARMLESS, 0.0, 0.0)), n + 1, p - 1)
    ensures |Next(Tight(limit, k), g, Recorded(HARMLESS, 0.0, 0.0)).pending| == p - 1
  {
    assert Zeros(n) + [0.0] == Zeros(n + 1);
    assert multiset{}[HARMLESS := p] - multiset{HARMLESS} == multiset{}[HARMLESS := p - 1];
  }

  /** First n requests one after the other, then p at once. */
  lemma {:induction false} Fill(limit: nat, k: nat, n: nat, p: nat) returns (events: seq<Event>)
    requires n < limit && p <= k && k > 0
    ensures Orderly(Tight(limit, k), 0.0, events, k) && At(Run(Tight(limit, k), 0.0, events), n, p)
    decreases n, p
  {
    hide Orderly, Next, At, Run;
    var l := Tight(limit, k);
    if p > 0 {
      var before := Fill(limit, k, n, p - 1);
      OneMoreAdmitted(limit, k, Run(l, 0.0, before), n, p - 1);
      StillAt(Run(l, 0.0, before), n, p - 1);
      OrderlyExtends(l, 0.0, before, k, Assessed(0.0, HARMLESS));
      events := before + [Assessed(0.0, HARMLESS)];
    } else if n > 0 {
      var before := Fill(limit, k, n - 1, 1);
      OneMoreRecorded(limit, k, Run(l, 0.0, before), n - 1, 1);
      StillAt(Run(l, 0.0, before), n - 1, 1);
      OrderlyExtends(l, 0.0, before, k, Recorded(HARMLESS, 0.0, 0.0));
      events := before + [Recorded(HARMLESS, 0.0, 0.0)];
    } else {
      events := [];
      NothingYet(l, k);
    }
  }

  lemma StillAt(g: Gate, n: nat, p: nat)
    requires At(g, n, p)
    ensures g.clock == 0.0 && (p > 0 ==> HARMLESS in g.pending) && g.counters.active == n
  {
  }

  lemma {:induction false} NothingYet(l: Limits, k: nat)
    ensures Orderly(l, 0.0, [], k) && At(Run(l, 0.0, []), 0, 0)
  {
  }

  lemma {:induction false} Drain(limit: nat, k: nat, r: nat) returns (events: seq<Event>)
    requires limit > 0 && r <= k && k > 0
    ensures Orderly(Tight(limit, k), 0.0, events, k) && At(Run(Tight(limit, k), 0.0, events), limit - 1 + r, k - r)
  {
    hide Orderly, Next, At, Run;
    var l := Tight(limit, k);
    if r == 0 {
      events := Fill(limit, k, limit - 1, k);
    } else {
      var before := Drain(limit, k, r - 1);
      OneMoreRecorded(limit, k, Run(l, 0.0, before), limit - 1 + r - 1, k - r + 1);
      StillAt(Run(l, 0.0, before), limit - 1 + r - 1, k - r + 1);
      OrderlyExtends(l, 0.0, before, k, Recorded(HARMLESS, 0.0, 0.0));
      events := before + [Recorded(HARMLESS, 0.0, 0.0)];
    }
  }

  /** The bound is exact: for every limit and every k some orderly run has that many side effects active. */
  lemma SlackIsReached(limit: int, k: nat) returns (l: Limits, events: seq<Event>)
    ensures l.maxParallel == limit && Orderly(l, 0.0, events, k)
    ensures Run(l, 0.0, events).counters.active == SlackBound(limit, k)
  {
    hide Orderly, At, Run;
    l := if limit <= 0 then Tight(0, k).(maxParallel := limit) else Tight(limit, k);
    if limit <= 0 || k == 0 {
      events := [];
      NothingYet(l, k);
      StillAt(Run(l, 0.0, []), 0, 0);
    } else {
      events := Drain(limit, k, k);
      StillAt(Run(l, 0.0, events), limit - 1 + k, 0);
    }
  }

  // -------------------------------------------------------------- one at a time

  function Times(history: seq<Action>): seq<real> {
    seq(|history|, i requires 0 <= i < |history| => history[i].at)
  }

  predicate InTime(history: seq<Action>, clock: real) {
    && (forall i | 0 <= i < |history| :: history[i].at <= history[i].stampedAt <= clock)
    && (forall i, j | 0 <= i < j < |history| :: history[i].stampedAt <= history[j].at)
  }

  /** The kept timestamps are the latest of the history; whatever was dropped is out of the window for good. */
  predicate Tracks(g: Gate) {
    && |g.counters.timestamps| <= |g.history|
    && g.counters.timestamps == Times(g.history)[|g.history| - |g.counters.timestamps|..]
    && forall i | 0 <= i < |g.history| - |g.counters.timestamps| :: g.clock - g.history[i].at >= WINDOW
  }

  function SideEffectsIn(history: seq<Action>): nat {
    if history == [] then 0
    else SideEffectsIn(history[..|history| - 1]) + if history[|history| - 1].request.sideEffect then 1 else 0
  }

  function ExposureIn(history: seq<Action>): int {
    if history == [] then 0
    else
      var last := history[|history| - 1].request;
      ExposureIn(history[..|history| - 1]) + if last.sideEffect then ExposureOf(last) else 0
  }

  function LastSideEffect(history: seq<Action>): Option<real> {
    if history == [] then None
    else if history[|history| - 1].request.sideEffect then Some(history[|history| - 1].stampedAt)
    else LastSideEffect(history[..|history| - 1])
  }

  predicate Counts(g: Gate) {
    && g.counters.sideEffects == SideEffectsIn(g.history)
    && g.counters.exposureUsed == ExposureIn(g.history)
    && g.counters.lastSideEffectAt == LastSideEffect(g.history)
  }

  predicate Spaced(l: Limits, history: seq<Action>) {
    forall i, j | 0 <= i <= j < |history| && history[j].at - history[i].at < WINDOW :: j - i + 1 <= l.maxActionRate
  }

  predicate Cooled(l: Limits, history: seq<Action>) {
    forall i, j | 0 <= i < j < |history| && history[i].request.sideEffect :: history[j].at - history[i].stampedAt >= l.cooldown
  }

  predicate WithinBudgets(l: Limits, history: seq<Action>) {
    && SideEffectsIn(history) <= Max(0, l.sideEffectBudget)
    && ExposureIn(history) <= Max(0, l.exposureBudget)
  }

  /** The room that was there when the waiting request was admitted is still there. */
  predicate RoomFor(l: Limits, history: seq<Action>, q: Request, clock: real) {
    && Risk(q).None?
    && (forall i | 0 <= i < |history| && clock - history[i].at < WINDOW :: |history| - i + 1 <= l.maxActionRate)
    && l.maxActionRate >= 1
    && (forall i | 0 <= i < |history| && history[i].request.sideEffect :: clock - history[i].stampedAt >= l.cooldown)
    && SideEffectsIn(history) < l.sideEffectBudget
    && ExposureIn(history) + ExposureOf(q) <= l.exposureBudget
  }

  predicate Lawful(l: Limits, g: Gate) {
    && InTime(g.history, g.clock)
    && Tracks(g)
    && Counts(g)
    && Spaced(l, g.history)
    && Cooled(l, g.history)
    && WithinBudgets(l, g.history)
    && |g.pending| <= 1
    && (forall q | q in g.pending :: RoomFor(l, g.history, q, g.clock))
  }

  /** Pruning drops a prefix: what is out of the window, and nothing else. */
  lemma {:induction false} RecentIsSuffix(times: seq<real>, now: real) returns (k: nat)
    requires forall i, j | 0 <= i < j < |times| :: times[i] <= times[j]
    ensures k <= |times| && Recent(times, now) == times[k..]
    ensures forall i | 0 <= i < k :: now - times[i] >= WINDOW
    ensures forall i | k <= i < |times| :: now - times[i] < WINDOW
  {
    if times == [] {
      k := 0;
    } else {
      var prefix, last := times[..|times| - 1], times[|times| - 1];
      k := RecentIsSuffix(prefix, now);
      if now - last < WINDOW {
        assert times[k..] == prefix[k..] + [last];
      } else {
        k := |times|;
      }
    }
  }

  lemma PruningTracks(g: Gate, now: real)
    requires InTime(g.history, g.clock) && Tracks(g) && g.clock <= now
    ensures Tracks(g.(counters := Pruned(g.counters, now), clock := now))
    ensures forall i | 0 <= i < |g.history| && now - g.history[i].at < WINDOW ::
      |g.history| - i <= |Pruned(g.counters, now).timestamps|
  {
    hide Recent;
    var times, kept := Times(g.history), g.counters.timestamps;
    var dropped := |times| - |kept|;
    assert forall i | 0 <= i < |kept| :: kept[i] == times[dropped + i];
    var k := RecentIsSuffix(kept, now);
    assert Recent(kept, now) == times[dropped + k..];
    forall i | 0 <= i < dropped + k ensures now - g.history[i].at >= WINDOW {
      if i >= dropped {
        assert kept[i - dropped] == times[i];
      }
    }
  }

  lemma {:induction false} CooldownCovers(history: seq<Action>, clock: real)
    requires InTime(history, clock)
    ensures LastSideEffect(history).None? ==> forall i | 0 <= i < |history| :: !history[i].request.sideEffect
    ensures LastSideEffect(history).Some? ==>
      forall i | 0 <= i < |history| && history[i].request.sideEffect :: history[i].stampedAt <= LastSideEffect(history).value
  {
    if history != [] {
      CooldownCovers(history[..|history| - 1], clock);
    }
  }

  lemma AdmissionLeavesRoom(l: Limits, g: Gate, q: Request, now: real)
    requires Lawful(l, g) && g.clock <= now && Assess(l, g.counters, q, now).0.None?
    ensures RoomFor(l, g.history, q, now)
  {
    hide Recent, Risk, Spaced, Cooled, WithinBudgets, SideEffectsIn, ExposureIn, LastSideEffect;
    AdmittedExactly(l, g.counters, q, now);
    PruningTracks(g, now);
    CooldownCovers(g.history, g.clock);
    SizesAgree(g.counters, now);
  }

  lemma SizesAgree(c: Counters, now: real)
    ensures |Pruned(c, now).timestamps| == |Recent(c.timestamps, now)|
  {
  }

  lemma AssessLawful(l: Limits, g: Gate, now: real, q: Request)
    requires Lawful(l, g) && g.clock <= now && |Next(l, g, Assessed(now, q)).pending| <= 1
    ensures Lawful(l, Next(l, g, Assessed(now, q)))
  {
    hide Recent, Risk, Spaced, Cooled, WithinBudgets, SideEffectsIn, ExposureIn, LastSideEffect, Decide;
    PruningTracks(g, now);
    if Assess(l, g.counters, q, now).0.None? {
      AdmissionLeavesRoom(l, g, q, now);
    }
  }

  lemma RecordingTracks(g: Gate, q: Request, at: real, stampedAt: real)
    requires InTime(g.history, g.clock) && Tracks(g) && g.clock <= at <= stampedAt
    ensures var a := Action(q, at, stampedAt);
      && InTime(g.history + [a], stampedAt)
      && Tracks(Gate(RecordAction(g.counters, q, at, stampedAt), g.pending - multiset{q}, g.history + [a], stampedAt))
  {
    var a := Action(q, at, stampedAt);
    var kept := g.counters.timestamps;
    assert Times(g.history + [a]) == Times(g.history) + [at];
    assert Times(g.history + [a])[|g.history| - |kept|..] == kept + [at];
  }

  lemma RecordingKeepsRate(l: Limits, history: seq<Action>, a: Action, clock: real)
    requires InTime(history, clock) && Spaced(l, history) && RoomFor(l, history, a.request, clock) && clock <= a.at
    ensures Spaced(l, history + [a])
  {
    hide Risk, SideEffectsIn, ExposureIn;
    var longer := history + [a];
    forall i, j | 0 <= i <= j < |longer| && longer[j].at - longer[i].at < WINDOW ensures j - i + 1 <= l.maxActionRate {
      if j == |history| && i < j {
        assert clock - history[i].at < WINDOW;
      }
    }
  }

  lemma RecordingKeepsCooldown(l: Limits, history: seq<Action>, a: Action, clock: real)
    requires Cooled(l, history) && RoomFor(l, history, a.request, clock) && clock <= a.at
    ensures Cooled(l, history + [a])
  {
    hide Risk, SideEffectsIn, ExposureIn;
  }

  lemma RecordingKeepsBudgets(l: Limits, history: seq<Action>, a: Action, clock: real)
    requires WithinBudgets(l, history) && RoomFor(l, history, a.request, clock)
    ensures WithinBudgets(l, history + [a])
  {
    hide Risk;
    assert (history + [a])[..|history|] == history;
  }

  lemma RecordLawful(l: Limits, g: Gate, q: Request, at: real, stampedAt: real)
    requires Lawful(l, g) && q in g.pending && g.clock <= at <= stampedAt
    ensures Lawful(l, Next(l, g, Recorded(q, at, stampedAt)))
  {
    hide Risk, Spaced, Cooled, WithinBudgets;
    var a := Action(q, at, stampedAt);
    RecordingTracks(g, q, at, stampedAt);
    RecordingKeepsRate(l, g.history, a, g.clock);
    RecordingKeepsCooldown(l, g.history, a, g.clock);
    RecordingKeepsBudgets(l, g.history, a, g.clock);
    assert (g.history + [a])[..|g.history|] == g.history;
    assert |g.pending - multiset{q}| == 0;
  }

  lemma {:induction false} OneAtATimeIsLawful(l: Limits, start: real, events: seq<Event>)
    requires Orderly(l, start, events, 1)
    ensures Lawful(l, Run(l, start, events))
  {
    hide Orderly, Spaced, Cooled, WithinBudgets, Tracks, RoomFor, Assess, RecordAction;
    if events == [] {
      OpeningIsLawful(l, start);
    } else {
      var before, last := Run(l, start, events[..|events| - 1]), events[|events| - 1];
      OrderlyPrefix(l, start, events, 1);
      OneAtATimeIsLawful(l, start, events[..|events| - 1]);
      match last
      case Assessed(now, q) => AssessLawful(l, before, now, q);
      case Abandoned(q) => AbandoningLawful(l, before, q);
      case Recorded(q, at, stampedAt) => RecordLawful(l, before, q, at, stampedAt);
      case Completed(sideEffect) => CompletionLawful(l, before, sideEffect);
    }
  }

  lemma OpeningIsLawful(l: Limits, start: real)
    ensures Lawful(l, Opening(start))
  {
    hide Risk, RoomFor, Recent, ExposureOf;
  }

  lemma CompletionLawful(l: Limits, g: Gate, sideEffect: bool)
    requires Lawful(l, g)
    ensures Lawful(l, Next(l, g, Completed(sideEffect)))
  {
    hide Spaced, Cooled, WithinBudgets, SideEffectsIn, ExposureIn, LastSideEffect, Risk;
  }

  lemma AbandoningLawful(l: Limits, g: Gate, q: Request)
    requires Lawful(l, g)
    ensures Lawful(l, Next(l, g, Abandoned(q)))
  {
    hide Spaced, Cooled, WithinBudgets, SideEffectsIn, ExposureIn, LastSideEffect, Risk;
    assert g.pending - multiset{q} <= g.pending;
  }

  /** Over everything ever recorded, pruned or not: no window of sixty seconds holds more actions than the limit. */
  lemma EveryWindowWithinRate(l: Limits, start: real, events: seq<Event>, i: nat, j: nat)
    requires Orderly(l, start, events, 1)
    requires i <= j < |Actions(events)| && Actions(events)[j].at - Actions(events)[i].at < WINDOW
    ensures j - i + 1 <= l.maxActionRate
  {
    HistoryIsRecorded(l, start, events);
    OneAtATimeIsLawful(l, start, events);
  }

  /** Nothing is recorded within the cooldown after a side effect. */
  lemma NothingWithinCooldown(l: Limits, start: real, events: seq<Event>, i: nat, j: nat)
    requires Orderly(l, start, events, 1)
    requires i < j < |Actions(events)| && Actions(events)[i].request.sideEffect
    ensures Actions(events)[j].at - Actions(events)[i].stampedAt >= l.cooldown
  {
    HistoryIsRecorded(l, start, events);
    OneAtATimeIsLawful(l, start, events);
  }

  /** Side effects and their exposure, summed over all that was recorded, stay within budget; active ones within the limit. */
  lemma {:induction false} BudgetsHold(l: Limits, start: real, events: seq<Event>)
    requires Orderly(l, start, events, 1)
    ensures SideEffectsIn(Actions(events)) <= Max(0, l.sideEffectBudget)
    ensures ExposureIn(Actions(events)) <= Max(0, l.exposureBudget)
    ensures Run(l, start, events).counters.active <= Max(0, l.maxParallel)
  {
    HistoryIsRecorded(l, start, events);
    OneAtATimeIsLawful(l, start, events);
    ParallelWithinSlack(l, start, events, 1);
  }

  // ---------------------------------------------------------------- the live object

  class ReliabilityControls {
    const limits: Limits
    ghost const start: real
    var actionTimestamps: seq<real>
    var sideEffectCount: nat
    var activeSideEffects: nat
    var exposureUsed: int
    var lastSideEffectAt: Option<real>
    var lastBlockReason: Option<Refusal>
    ghost var events: seq<Event>

    constructor (limits: Limits, ghost start: real)
      ensures this.limits == limits && this.start == start
      ensures events == [] && lastBlockReason.None? && Valid()
    {
      this.limits, this.start := limits, start;
      actionTimestamps, sideEffectCount, activeSideEffects := [], 0, 0;
      exposureUsed, lastSideEffectAt, lastBlockReason := 0, None, None;
      events := [];
    }

    function Abs(): Counters
      reads this
    {
      Counters(actionTimestamps, sideEffectCount, activeSideEffects, exposureUsed, lastSideEffectAt)
    }

    /** The counters are what the events so far lead to. */
    ghost predicate Valid()
      reads this
    {
      Abs() == Run(limits, start, events).counters
    }

    /** The reason is the refusal, and it is remembered. */
    method AssessRequest(q: Request, now: real) returns (refusal: Option<Refusal>)
      requires Valid()
      modifies this
      ensures Valid() && events == old(events) + [Assessed(now, q)]
      ensures (refusal, Abs()) == Assess(limits, old(Abs()), q, now)
      ensures lastBlockReason == refusal
    {
      hide Risk, Run;
      var kept: seq<real> := [];
      for i := 0 to |actionTimestamps|
        invariant kept == Recent(actionTimestamps[..i], now)
        invariant Abs() == old(Abs()) && events == old(events)
      {
        assert actionTimestamps[..i + 1][..i] == actionTimestamps[..i];
        if now - actionTimestamps[i] < WINDOW {
          kept := kept + [actionTimestamps[i]];
        }
      }
      assert actionTimestamps[..|actionTimestamps|] == actionTimestamps;
      actionTimestamps := kept;
      refusal := Decide(limits, Abs(), q, now);
      lastBlockReason := refusal;
      RunExtends(limits, start, events, Assessed(now, q));
      events := events + [Assessed(now, q)];
    }

    method RecordOne(q: Request, at: real, stampedAt: real)
      requires Valid()
      modifies this
      ensures Valid() && events == old(events) + [Recorded(q, at, stampedAt)]
      ensures Abs() == RecordAction(old(Abs()), q, at, stampedAt)
      ensures lastBlockReason == old(lastBlockReason)
    {
      hide Run;
      actionTimestamps := actionTimestamps + [at];
      if q.sideEffect {
        sideEffectCount := sideEffectCount + 1;
        activeSideEffects := activeSideEffects + 1;
        exposureUsed := exposureUsed + ExposureOf(q);
        lastSideEffectAt := Some(stampedAt);
      }
      RunExtends(limits, start, events, Recorded(q, at, stampedAt));
      events := events + [Recorded(q, at, stampedAt)];
    }

    method CompleteOne(sideEffect: bool)
      requires Valid()
      modifies this
      ensures Valid() && events == old(events) + [Completed(sideEffect)]
      ensures Abs() == CompleteAction(old(Abs()), sideEffect)
      ensures lastBlockReason == old(lastBlockReason)
    {
      hide Run;
      if sideEffect && activeSideEffects > 0 {
        activeSideEffects := activeSideEffects - 1;
      }
      RunExtends(limits, start, events, Completed(sideEffect));
      events := events + [Completed(sideEffect)];
    }

    /** The admitted request will never be recorded. Nothing happens to the counters. */
    ghost method Abandon(q: Request)
      requires Valid()
      modifies this`events
      ensures Valid() && events == old(events) + [Abandoned(q)]
    {
      RunExtends(limits, start, events, Abandoned(q));
      events := events + [Abandoned(q)];
    }
  }

  /** The live counters of controls used one at a time: what they spent is what was recorded, and within the limits. */
  lemma LiveCountersHold(c: ReliabilityControls)
    requires c.Valid() && Orderly(c.limits, c.start, c.events, 1)
    ensures c.sideEffectCount == SideEffectsIn(Actions(c.events)) <= Max(0, c.limits.sideEffectBudget)
    ensures c.exposureUsed == ExposureIn(Actions(c.events)) <= Max(0, c.limits.exposureBudget)
    ensures c.lastSideEffectAt == LastSideEffect(Actions(c.events))
    ensures c.activeSideEffects <= Max(0, c.limits.maxParallel)
    ensures |c.actionTimestamps| <= |Actions(c.events)|
    ensures c.actionTimestamps == Times(Actions(c.events))[|Actions(c.events)| - |c.actionTimestamps|..]
  {
    hide Orderly, Run;
    HistoryIsRecorded(c.limits, c.start, c.events);
    OneAtATimeIsLawful(c.limits, c.start, c.events);
    BudgetsHold(c.limits, c.start, c.events);
  }
}
