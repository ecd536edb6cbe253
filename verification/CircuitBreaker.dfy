/**
 The circuit breaker. Its four mutable fields compute a function of the recorded
 outcomes alone: it refuses exactly while a long enough run of failures is recent.
 */
module CircuitBreaker {
  import opened Wrappers

  datatype BreakerState = Closed | Open | HalfOpen

  datatype Settings = Settings(failureThreshold: int, recoveryTimeout: real, halfOpenProbes: int)

  datatype Breaker = Breaker(failures: int, state: BreakerState, openedAt: Option<real>, successes: int)

  const NEW_BREAKER := Breaker(0, Closed, None, 0)

  function OnSuccess(s: Settings, b: Breaker): Breaker {
    if b.state != HalfOpen then b.(failures := 0, state := Closed)
    else if b.successes + 1 >= s.halfOpenProbes then b.(failures := 0, state := Closed, successes := 0)
    else b.(failures := 0, successes := b.successes + 1)
  }

  function OnFailure(s: Settings, b: Breaker, now: real): Breaker {
    if b.failures + 1 >= s.failureThreshold then b.(failures := b.failures + 1, state := Open, openedAt := Some(now))
    else b.(failures := b.failures + 1)
  }

  predicate Recovered(s: Settings, b: Breaker, now: real) {
    b.state == Open && b.openedAt.Some? && now - b.openedAt.value >= s.recoveryTimeout
  }

  function OnAllow(s: Settings, b: Breaker, now: real): (bool, Breaker) {
    if Recovered(s, b, now) then (true, b.(state := HalfOpen, successes := 0))
    else (b.state != Open, b)
  }

  /** Reading the state moves an overdue breaker to half-open as well, but keeps its count of successes. */
  function OnRead(s: Settings, b: Breaker, now: real): Breaker {
    if Recovered(s, b, now) then b.(state := HalfOpen) else b
  }

  // --------------------------------------------------------------------- history

  datatype Call = Succeed(at: real) | Failed(at: real) | Ask(at: real) | Read(at: real)

  function Respond(s: Settings, b: Breaker, c: Call): Breaker {
    match c
    case Succeed(_) => OnSuccess(s, b)
    case Failed(now) => OnFailure(s, b, now)
    case Ask(now) => OnAllow(s, b, now).1
    case Read(now) => OnRead(s, b, now)
  }

  function Replay(s: Settings, calls: seq<Call>): Breaker {
    if calls == [] then NEW_BREAKER else Respond(s, Replay(s, calls[..|calls| - 1]), calls[|calls| - 1])
  }

  predicate Monotone(calls: seq<Call>) {
    forall i, j | 0 <= i < j < |calls| :: calls[i].at <= calls[j].at
  }

  /** Failures since the last success; asking and reading do not count. */
  function TrailingFailures(calls: seq<Call>): nat {
    if calls == [] then 0
    else
      match calls[|calls| - 1]
      case Succeed(_) => 0
      case Failed(_) => TrailingFailures(calls[..|calls| - 1]) + 1
      case _ => TrailingFailures(calls[..|calls| - 1])
  }

  function LastFailure(calls: seq<Call>): Option<real> {
    if calls == [] then None
    else
      match calls[|calls| - 1]
      case Failed(now) => Some(now)
      case _ => LastFailure(calls[..|calls| - 1])
  }

  /** A long enough run of failures, the last of them too recent. */
  predicate Tripped(s: Settings, calls: seq<Call>, now: real) {
    && TrailingFailures(calls) >= 1
    && TrailingFailures(calls) >= s.failureThreshold
    && LastFailure(calls).Some?
    && now - LastFailure(calls).value < s.recoveryTimeout
  }

  predicate Mirrors(s: Settings, calls: seq<Call>, b: Breaker, clock: real) {
    && b.failures == TrailingFailures(calls)
    && (b.failures > 0 ==> LastFailure(calls).Some?)
    && (b.state == Closed ==> b.failures == 0 || b.failures < s.failureThreshold)
    && (b.state == Open ==> b.failures > 0 && b.failures >= s.failureThreshold && b.openedAt == LastFailure(calls))
    && (b.state == HalfOpen && b.failures > 0 && b.failures >= s.failureThreshold ==>
          LastFailure(calls).Some? && clock - LastFailure(calls).value >= s.recoveryTimeout)
  }

  lemma {:induction false} FieldsMirrorHistory(s: Settings, calls: seq<Call>, clock: real)
    requires Monotone(calls) && forall i | 0 <= i < |calls| :: calls[i].at <= clock
    ensures Mirrors(s, calls, Replay(s, calls), clock)
  {
    if calls != [] {
      var last := calls[|calls| - 1];
      FieldsMirrorHistory(s, calls[..|calls| - 1], last.at);
    }
  }

  /** The breaker refuses exactly while the history says it is tripped, for every number of half-open probes. */
  lemma {:induction false} RefusesExactlyWhileTripped(s: Settings, calls: seq<Call>, now: real)
    requires Monotone(calls) && forall i | 0 <= i < |calls| :: calls[i].at <= now
    ensures OnAllow(s, Replay(s, calls), now).0 <==> !Tripped(s, calls, now)
  {
    FieldsMirrorHistory(s, calls, now);
  }

  // ----------------------------------------------------------------------- probing

  function Succeeding(calls: seq<Call>, n: nat, at: real): seq<Call> {
    if n == 0 then calls else Succeeding(calls, n - 1, at) + [Succeed(at)]
  }

  /**
   A half-open breaker closes with the first success that brings the ones counted
   so far up to the number of probes, and not without one.
   */
  lemma {:induction false} ClosesAfterProbes(s: Settings, calls: seq<Call>, n: nat, at: real)
    requires Replay(s, calls).state == HalfOpen
    ensures Replay(s, Succeeding(calls, n, at)).state == Closed <==> n >= 1 && Replay(s, calls).successes + n >= s.halfOpenProbes
    ensures Replay(s, Succeeding(calls, n, at)).state == HalfOpen ==>
      Replay(s, Succeeding(calls, n, at)).successes == Replay(s, calls).successes + n
    ensures Replay(s, Succeeding(calls, n, at)).state != Open
  {
    if n > 0 {
      ClosesAfterProbes(s, calls, n - 1, at);
      assert Succeeding(calls, n, at)[..|Succeeding(calls, n, at)| - 1] == Succeeding(calls, n - 1, at);
    }
  }

  /** Asked when its time is up, a tripped breaker starts counting anew; read first, it goes on from the count it had. */
  lemma {:induction false} ReadingKeepsTheCount(s: Settings, calls: seq<Call>, at: real)
    requires Recovered(s, Replay(s, calls), at)
    ensures Replay(s, calls + [Ask(at)]) == Replay(s, calls).(state := HalfOpen, successes := 0)
    ensures Replay(s, calls + [Read(at), Ask(at)]) == Replay(s, calls).(state := HalfOpen)
  {
    assert (calls + [Ask(at)])[..|calls|] == calls && (calls + [Read(at)])[..|calls|] == calls;
    assert (calls + [Read(at), Ask(at)])[..|calls| + 1] == calls + [Read(at)];
  }

  const THREE_PROBES := Settings(1, 1.0, 3)

  /** Two of three probes succeeded, then one failed. */
  function OneProbeShort(): seq<Call> {
    [Failed(0.0), Ask(1.0), Succeed(1.0), Succeed(1.0), Failed(1.0)]
  }

  lemma {:induction false} ProbesSoFar()
    ensures Replay(THREE_PROBES, OneProbeShort()) == Breaker(1, Open, Some(1.0), 2)
  {
    var s, c := THREE_PROBES, OneProbeShort();
    assert c[..4] == [Failed(0.0), Ask(1.0), Succeed(1.0), Succeed(1.0)] && c[..4][..3] == [Failed(0.0), Ask(1.0), Succeed(1.0)];
    assert c[..4][..3][..2] == [Failed(0.0), Ask(1.0)] && c[..4][..3][..2][..1] == [Failed(0.0)];
    assert c[..4][..3][..2][..1][..0] == [];
    assert Replay(s, c[..4][..3][..2][..1]) == Breaker(1, Open, Some(0.0), 0);
    assert Replay(s, c[..4][..3][..2]) == Breaker(1, HalfOpen, Some(0.0), 0);
    assert Replay(s, c[..4][..3]) == Breaker(0, HalfOpen, Some(0.0), 1);
    assert Replay(s, c[..4]) == Breaker(0, HalfOpen, Some(0.0), 2);
  }

  /** So a breaker whose state was read first can close after a single success, where it would have asked for three. */
  lemma {:induction false} ReadFirstClosesEarly()
    ensures var c := OneProbeShort();
      && Replay(THREE_PROBES, c + [Ask(2.0), Succeed(2.0)]).state == HalfOpen
      && Replay(THREE_PROBES, c + [Read(2.0), Ask(2.0), Succeed(2.0)]).state == Closed
  {
    var c := OneProbeShort();
    ProbesSoFar();
    ReadingKeepsTheCount(THREE_PROBES, c, 2.0);
    assert (c + [Ask(2.0), Succeed(2.0)])[..|c| + 1] == c + [Ask(2.0)];
    assert (c + [Read(2.0), Ask(2.0), Succeed(2.0)])[..|c| + 2] == c + [Read(2.0), Ask(2.0)];
  }

  // ---------------------------------------------------------------- the live object

  class LiveBreaker {
    const settings: Settings
    var failures: int
    var state: BreakerState
    var openedAt: Option<real>
    var successes: int
    ghost var calls: seq<Call>

    constructor (settings: Settings)
      ensures this.settings == settings && calls == [] && Valid()
    {
      this.settings := settings;
      failures, state, openedAt, successes := 0, Closed, None, 0;
      calls := [];
    }

    function Abs(): Breaker
      reads this
    {
      Breaker(failures, state, openedAt, successes)
    }

    ghost predicate Valid()
      reads this
    {
      Monotone(calls) && Abs() == Replay(settings, calls)
    }

    ghost predicate NotBefore(now: real)
      reads this
    {
      forall i | 0 <= i < |calls| :: calls[i].at <= now
    }

    method RecordSuccess(now: real)
      requires Valid() && NotBefore(now)
      modifies this
      ensures Valid() && calls == old(calls) + [Succeed(now)]
    {
      failures := 0;
      if state == HalfOpen {
        successes := successes + 1;
        if successes >= settings.halfOpenProbes {
          state := Closed;
          successes := 0;
        }
      } else {
        state := Closed;
      }
      calls := calls + [Succeed(now)];
      assert calls[..|calls| - 1] == old(calls);
    }

    method RecordFailure(now: real)
      requires Valid() && NotBefore(now)
      modifies this
      ensures Valid() && calls == old(calls) + [Failed(now)]
    {
      failures := failures + 1;
      if failures >= settings.failureThreshold {
        state := Open;
        openedAt := Some(now);
      }
      calls := calls + [Failed(now)];
      assert calls[..|calls| - 1] == old(calls);
    }

    /** The answer is read off the recorded outcomes. */
    method Allow(now: real) returns (allowed: bool)
      requires Valid() && NotBefore(now)
      modifies this
      ensures Valid() && calls == old(calls) + [Ask(now)]
      ensures allowed <==> !Tripped(settings, old(calls), now)
    {
      hide Tripped, TrailingFailures, LastFailure;
      RefusesExactlyWhileTripped(settings, calls, now);
      calls := calls + [Ask(now)];
      assert calls[..|calls| - 1] == old(calls);
      if state == Closed {
        return true;
      }
      if state == Open {
        if openedAt.None? {
          return false;
        }
        if now - openedAt.value >= settings.recoveryTimeout {
          state := HalfOpen;
          successes := 0;
          return true;
        }
        return false;
      }
      return true;
    }

    method State(now: real) returns (current: BreakerState)
      requires Valid() && NotBefore(now)
      modifies this
      ensures Valid() && calls == old(calls) + [Read(now)]
      ensures current == state
      ensures current != Open <==> !Tripped(settings, old(calls), now)
    {
      FieldsMirrorHistory(settings, calls, now);
      if state == Open && openedAt.Some? && now - openedAt.value >= settings.recoveryTimeout {
        state := HalfOpen;
      }
      calls := calls + [Read(now)];
      assert calls[..|calls| - 1] == old(calls);
      return state;
    }
  }
}
