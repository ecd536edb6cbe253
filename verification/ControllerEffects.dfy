/**
 What each decision asks of the controller and what it then does to it, field by
 field; and which decisions alone can have brought the controller where it stands.
 */
module ControllerEffects {
  import opened Wrappers
  import opened Controller
  import opened ControllerRuns

  // ------------------------------------------------------------------- admission

  /** When an action is in season at all. */
  predicate InSeason(s: State, a: Action) {
    match a
    case Close => s.status == Open
    case Wait => s.status == Open
    case InvokeCapability(_) => s.status == Open && s.activeClosure.None?
    case FormClosure(_) => s.status == Open && s.activeClosure.None?
    case ProposeWork(_, _, _, _, _, _) => s.status == Open && s.activeClosure.Some?
    case AssessRevision(_) => s.status == Waiting && s.activeClosure.Some? && s.workProposal.Some?
    case Reopen =>
      || s.status == Closed || s.status == ReopenRequired
      || (s.status == Waiting && (s.activeClosure.None? || s.workProposal.None?))
  }

  /** The decision's policy does not contradict the one already named. */
  predicate PoliciesAgree(named: Option<string>, d: Decision) {
    d.policyRef.None? || named.None? || named.value == d.policyRef.value
  }

  function PolicyAfter(named: Option<string>, d: Decision): Option<string> {
    if d.policyRef.Some? then d.policyRef else named
  }

  /** The closure was formed at that point of the journal, and none under its id before. */
  ghost predicate FormedFirst(journal: Journal, n: int, id: string) {
    && 0 <= n < |journal| && journal[n].ClosureFormed? && journal[n].closure.id == id
    && forall m | 0 <= m < n && journal[m].ClosureFormed? :: journal[m].closure.id != id
  }

  lemma {:induction false} GetClosureExactly(journal: Journal, id: string)
    ensures GetClosure(journal, id).Some? <==> exists n :: FormedFirst(journal, n, id)
    ensures forall n | FormedFirst(journal, n, id) :: GetClosure(journal, id) == Some(journal[n].closure)
  {
    if journal != [] {
      var prefix := journal[..|journal| - 1];
      GetClosureExactly(prefix, id);
      forall n | FormedFirst(prefix, n, id) ensures FormedFirst(journal, n, id) {}
      forall n | FormedFirst(journal, n, id) && n < |prefix| ensures FormedFirst(prefix, n, id) {
        assert journal[n] == prefix[n];
      }
      if GetClosure(prefix, id).None? && journal[|prefix|].ClosureFormed? && journal[|prefix|].closure.id == id {
        forall m | 0 <= m < |prefix| && journal[m].ClosureFormed? ensures journal[m].closure.id != id {
          if journal[m].closure.id == id {
            NotFirstWithoutFirst(prefix, m, id);
          }
        }
        assert FormedFirst(journal, |prefix|, id);
      }
    }
  }

  lemma {:induction false} NotFirstWithoutFirst(journal: Journal, m: nat, id: string)
    requires m < |journal| && journal[m].ClosureFormed? && journal[m].closure.id == id
    ensures exists n :: FormedFirst(journal, n, id)
  {
    if k :| 0 <= k < m && journal[k].ClosureFormed? && journal[k].closure.id == id {
      NotFirstWithoutFirst(journal, k, id);
    } else {
      assert FormedFirst(journal, m, id);
    }
  }

  /** What else the action has to bring along. */
  ghost predicate Grounded(journal: Journal, s: State, d: Decision, env: Surroundings) {
    match d.action
    case InvokeCapability(_) => env.answered
    case FormClosure(c) =>
      && c.responsibilityRef == s.responsibilityRef && c.subjectRef == s.subjectRef
      && (|s.candidates| == 0 || forall x | x in c.selectedCandidates :: x in s.candidates)
      && (forall x | x in s.openIssues :: x in c.deferredIssues)
      && PoliciesAgree(c.policyRef, d)
    case ProposeWork(ref, capabilities, effectClass, _, _, _) =>
      && s.responsibilityRef.Some? && s.subjectRef.Some? && s.activeClosure == Some(ref) && env.kernelAccepts
      && exists n ::
           && FormedFirst(journal, n, ref)
           && effectClass == journal[n].closure.effectClass
           && forall x | x in capabilities :: x in journal[n].closure.capabilities
    case AssessRevision(r) =>
      && s.activeClosure == Some(r.closureRef)
      && r.workRef in env.works && env.works[r.workRef] == s.workProposal && s.workProposal.Some?
      && PoliciesAgree(r.policyRef, d)
    case _ => true
  }

  // ---------------------------------------------------------------------- reading

  /** Recorded at that point, and the first of those with the highest version, and of these the latest updated. */
  ghost predicate ReadAt(journal: Journal, n: int) {
    && 0 <= n < |journal| && journal[n].StateRecorded?
    && forall m | 0 <= m < |journal| && journal[m].StateRecorded? ::
         var best, other := journal[n].state, journal[m].state;
         other.version < best.version || (other.version == best.version && other.updatedAt < best.updatedAt)
         || (other.version == best.version && other.updatedAt == best.updatedAt && n <= m)
  }

  lemma {:induction false} StatesAreRecorded(journal: Journal)
    ensures forall s :: s in StatesOf(journal) <==> exists n :: 0 <= n < |journal| && journal[n].StateRecorded? && journal[n].state == s
  {
    if journal != [] {
      var prefix, last := journal[..|journal| - 1], |journal| - 1;
      StatesAreRecorded(prefix);
      forall s ensures s in StatesOf(journal) <==> exists n :: 0 <= n < |journal| && journal[n].StateRecorded? && journal[n].state == s {
        if n :| 0 <= n < |journal| && journal[n].StateRecorded? && journal[n].state == s {
          assert n < last ==> prefix[n] == journal[n];
        }
        if s in StatesOf(prefix) {
          var n :| 0 <= n < |prefix| && prefix[n].StateRecorded? && prefix[n].state == s;
          assert journal[n] == prefix[n];
        }
      }
    }
  }

  lemma {:induction false} NoneRecorded(journal: Journal)
    requires StatesOf(journal) == []
    ensures forall n | 0 <= n < |journal| :: !journal[n].StateRecorded?
  {
    if journal != [] {
      NoneRecorded(journal[..|journal| - 1]);
    }
  }

  lemma {:induction false} LatestIsReadAt(journal: Journal) returns (n: nat)
    requires StatesOf(journal) != []
    ensures ReadAt(journal, n) && journal[n].state == Latest(StatesOf(journal))
  {
    var prefix, last := journal[..|journal| - 1], |journal| - 1;
    if StatesOf(prefix) == [] {
      NoneRecorded(prefix);
      n := last;
      assert forall m | 0 <= m < last :: prefix[m] == journal[m];
      assert StatesOf(journal) == [journal[last].state];
    } else {
      n := LatestIsReadAt(prefix);
      assert forall m | 0 <= m < last :: prefix[m] == journal[m];
      if journal[last].StateRecorded? {
        assert StatesOf(journal)[..|StatesOf(journal)| - 1] == StatesOf(prefix);
        if Later(journal[last].state, journal[n].state) {
          n := last;
        }
      } else {
        assert StatesOf(journal) == StatesOf(prefix);
      }
    }
  }

  /**
   The state read is the one recorded with the highest version, the latest updated
   among those, and the first recorded among those; nothing is read while any
   state on record has a negative version, waits on nothing, or has a pending ref
   without waiting.
   */
  lemma ReadExactly(journal: Journal)
    ensures Get(journal).Ok? <==>
      && (exists n :: 0 <= n < |journal| && journal[n].StateRecorded?)
      && forall n | 0 <= n < |journal| && journal[n].StateRecorded? ::
           var s := journal[n].state;
           s.version >= 0 && (s.status == Waiting <==> s.pending.Some?) && s.pending != Some("")
    ensures Get(journal).Ok? ==> exists n :: ReadAt(journal, n) && Get(journal).value == journal[n].state
    ensures forall n, m | ReadAt(journal, n) && ReadAt(journal, m) :: n == m
    ensures Get(journal) == Err(UnknownController) <==> forall n | 0 <= n < |journal| :: !journal[n].StateRecorded?
  {
    hide Latest;
    StatesAreRecorded(journal);
    if StatesOf(journal) != [] {
      var n := LatestIsReadAt(journal);
    }
    forall n | 0 <= n < |journal| && journal[n].StateRecorded? ensures journal[n].state in StatesOf(journal) {}
    if s :| s in StatesOf(journal) && !ValidState(s) {
      var n :| 0 <= n < |journal| && journal[n].StateRecorded? && journal[n].state == s;
    }
    if StatesOf(journal) != [] {
      assert StatesOf(journal)[0] in StatesOf(journal);
    }
  }

  // ---------------------------------------------------------------------- effect

  /** The status a decision that is carried out leaves behind. */
  function StatusAfter(a: Action): Status {
    match a
    case InvokeCapability(_) => Open
    case FormClosure(_) => Open
    case Reopen => Open
    case ProposeWork(_, _, _, _, _, _) => Waiting
    case Wait => Waiting
    case Close => Closed
    case AssessRevision(r) =>
      if r.disposition == CloseWork then Closed
      else if r.disposition == ReviseWork || r.disposition == ReopenCognition || r.disposition == AcquireEvidence then ReopenRequired
      else Waiting
  }

  /** What the controller then waits on. */
  function PendingAfter(d: Decision, env: Surroundings): Option<string> {
    if StatusAfter(d.action) != Waiting then None
    else if d.action.ProposeWork? then Some("work_proposal_" + env.suffix)
    else if d.action.AssessRevision? then Some(d.action.revision.id)
    else Some(d.id)
  }

  /** The state a decision that is carried out leads to, field by field. */
  function StateAfter(s: State, d: Decision, env: Surroundings): State {
    var a := d.action;
    State(
      s.responsibilityRef, s.subjectRef, s.candidates, s.openIssues,
      StatusAfter(a),
      s.version + (if a.InvokeCapability? then 2 else 1),
      PendingAfter(d, env),
      if a.FormClosure? then Some(a.closure.id) else if a.Reopen? then None else s.activeClosure,
      if a.ProposeWork? then Some("work_proposal_" + env.suffix) else if a.Reopen? then None else s.workProposal,
      if a.AssessRevision? then Some(a.revision.id) else s.lastRevision,
      Some(d.id),
      if a.InvokeCapability? || a.FormClosure? then Some("event_" + env.suffix)
      else if a.ProposeWork? then Some("work_proposal_" + env.suffix)
      else if a.AssessRevision? then Some(a.revision.id)
      else s.lastResult,
      env.now)
  }

  lemma RefNames(env: Surroundings)
    ensures NewRef("request", env) == "request_" + env.suffix
    ensures NewRef("event", env) == "event_" + env.suffix
    ensures NewRef("work_proposal", env) == "work_proposal_" + env.suffix
  {
    assert "request" + "_" == "request_" && "event" + "_" == "event_" && "work_proposal" + "_" == "work_proposal_";
  }

  lemma InSeasonExactly(s: State, a: Action)
    ensures Admits(s, a) <==> InSeason(s, a)
  {
  }

  lemma ProposeGrounded(journal: Journal, s: State, d: Decision, env: Surroundings)
    requires d.action.ProposeWork?
    ensures ProposeStep(journal, s, d, env).0.Ok? <==> Grounded(journal, s, d, env)
    ensures ProposeStep(journal, s, d, env).0.Ok? ==> ProposeStep(journal, s, d, env).0.value == StateAfter(s, d, env)
  {
    hide GetClosure, FormedFirst, NewRef;
    RefNames(env);
    GetClosureExactly(journal, d.action.closureRef);
    if n :| FormedFirst(journal, n, d.action.closureRef) {
      FirstIsOne(journal, n, d.action.closureRef);
    }
  }

  lemma FirstIsOne(journal: Journal, n: int, id: string)
    requires FormedFirst(journal, n, id)
    ensures 0 <= n < |journal| && journal[n].ClosureFormed? && forall m | FormedFirst(journal, m, id) :: m == n
  {
  }

  /** A decision is carried out exactly when it is current, in season and grounded, and then leads to that state. */
  lemma CarriedOutExactly(journal: Journal, d: Decision, env: Surroundings)
    requires Get(journal).Ok?
    ensures var s := Get(journal).value;
      Apply(journal, d, env).0.Ok?
      <==> d.stateVersion == s.version && InSeason(s, d.action) && Grounded(journal + [DecisionSelected(d)], s, d, env)
    ensures Apply(journal, d, env).0.Ok? ==> Apply(journal, d, env).0.value == StateAfter(Get(journal).value, d, env)
  {
    hide Get, GetClosure, FormedFirst, NewRef;
    RefNames(env);
    var s, noted := Get(journal).value, journal + [DecisionSelected(d)];
    InSeasonExactly(s, d.action);
    if d.action.ProposeWork? {
      ProposeGrounded(noted, s, d, env);
    }
  }

  /** Asking to reopen always succeeds, and keeps everything but status, version and pending ref. */
  lemma ReopenAskedExactly(journal: Journal, now: int)
    requires Get(journal).Ok?
    ensures var s := Get(journal).value;
      RequireReopen(journal, now).0 == Ok(State(
        s.responsibilityRef, s.subjectRef, s.candidates, s.openIssues, ReopenRequired, s.version + 1, None,
        s.activeClosure, s.workProposal, s.lastRevision, s.lastDecision, s.lastResult, now))
  {
    hide Get;
  }

  // --------------------------------------------------------------- what is written

  /** The facts a carried out decision puts on record before the state it leads to. */
  ghost predicate OnRecord(journal: Journal, s: State, d: Decision, env: Surroundings, written: Journal) {
    match d.action
    case InvokeCapability(_) =>
      && |written| == 2
      && written[0] == StateRecorded(State(
           s.responsibilityRef, s.subjectRef, s.candidates, s.openIssues, Waiting, s.version + 1, Some("request_" + env.suffix),
           s.activeClosure, s.workProposal, s.lastRevision, Some(d.id), s.lastResult, env.now))
      && written[1] == ResultObserved(d.id, "event_" + env.suffix)
    case FormClosure(c) => written == [ClosureFormed(d.id, "event_" + env.suffix, c.(policyRef := PolicyAfter(c.policyRef, d)))]
    case AssessRevision(r) => written == [RevisionAssessed(d.id, r.(policyRef := PolicyAfter(r.policyRef, d)))]
    case ProposeWork(ref, capabilities, _, expected, stops, escalations) =>
      && |written| == 1 && written[0].WorkHandedOff? && written[0].decisionRef == d.id && written[0].closureRef == ref
      && s.responsibilityRef.Some? && s.subjectRef.Some?
      && exists n :: FormedFirst(journal, n, ref) && written[0].proposal == HandedOff(s, d, journal[n].closure, env)
    case _ => written == []
  }

  /** What the decision leaves open is taken from the closure. */
  function HandedOff(s: State, d: Decision, c: Closure, env: Surroundings): Proposal
    requires d.action.ProposeWork? && s.responsibilityRef.Some? && s.subjectRef.Some?
  {
    var a := d.action;
    Proposal(
      "work_proposal_" + env.suffix, s.responsibilityRef.value, s.subjectRef.value,
      if a.capabilities == [] then c.capabilities else a.capabilities,
      c.effectClass,
      if a.expectedResult == "" then c.acceptance else a.expectedResult,
      if a.stopConditions == [] then c.stopConditions else a.stopConditions,
      if a.escalationConditions == [] then c.escalationConditions else a.escalationConditions)
  }

  lemma ProposalWritten(journal: Journal, s: State, d: Decision, env: Surroundings)
    requires d.action.ProposeWork? && ProposeStep(journal, s, d, env).0.Ok?
    ensures var after := ProposeStep(journal, s, d, env).1;
      && |after| == |journal| + 2 && after[..|journal|] == journal
      && after[|journal| + 1] == StateRecorded(ProposeStep(journal, s, d, env).0.value)
      && OnRecord(journal, s, d, env, after[|journal|..|journal| + 1])
  {
    hide FormedFirst, GetClosure, NewRef;
    RefNames(env);
    var ref := d.action.closureRef;
    GetClosureExactly(journal, ref);
    GetClosureFindsId(journal, ref);
    var n :| FormedFirst(journal, n, ref);
    FirstIsOne(journal, n, ref);
    assert ProposeStep(journal, s, d, env).1[|journal|].proposal == HandedOff(s, d, journal[n].closure, env);
  }

  /** The decision, its facts, and the state it leads to, in that order and nothing else. */
  lemma WrittenExactly(journal: Journal, d: Decision, env: Surroundings)
    requires Get(journal).Ok? && Apply(journal, d, env).0.Ok?
    ensures var s, after, noted := Get(journal).value, Apply(journal, d, env).1, journal + [DecisionSelected(d)];
      && |after| >= |noted| + 1 && after[..|noted|] == noted
      && after[|after| - 1] == StateRecorded(StateAfter(s, d, env))
      && OnRecord(noted, s, d, env, after[|noted|..|after| - 1])
  {
    hide Get, GetClosure, FormedFirst, NewRef;
    RefNames(env);
    CarriedOutExactly(journal, d, env);
    var s, noted := Get(journal).value, journal + [DecisionSelected(d)];
    if d.action.ProposeWork? {
      ProposalWritten(noted, s, d, env);
    }
  }

  // ---------------------------------------------------------------- how it came there

  /** The call took effect: the decision was carried out, or reopening was asked for. */
  predicate TookEffect(journal: Journal, call: Call) {
    Progressed(journal, call).0.Ok?
  }

  /** The call failed only in that the capability did not answer, and left the controller waiting for it. */
  predicate LeftWaiting(journal: Journal, call: Call) {
    && call.Decide? && call.decision.action.InvokeCapability? && !call.env.answered
    && Get(journal).Ok? && call.decision.stateVersion == Get(journal).value.version
    && InSeason(Get(journal).value, call.decision.action)
  }

  lemma RefusedChangesNoState(journal: Journal, call: Call)
    requires Get(journal).Ok? && !TookEffect(journal, call) && !LeftWaiting(journal, call)
    ensures StatesOf(Handle(journal, call)) == StatesOf(journal)
  {
    hide Get, StatesOf, PhaseOf, LastClosure, GetClosure;
    if call.Decide? {
      InSeasonExactly(Get(journal).value, call.decision.action);
      OneMore(journal, DecisionSelected(call.decision));
    }
  }

  lemma SameStatesSameRead(a: Journal, b: Journal)
    requires StatesOf(a) == StatesOf(b)
    ensures Get(a) == Get(b)
  {
  }

  /** The state read after a call: what the call returned, a wait for an answer that did not come, or what was read before. */
  lemma {:induction false} ReadAfter(start: State, calls: seq<Call>, call: Call)
    requires IsInitial(start) && Get(Run(start, calls + [call])).Ok?
    ensures Get(Run(start, calls)).Ok?
    ensures var j, after := Run(start, calls), Get(Run(start, calls + [call])).value;
      if TookEffect(j, call) then Ok(after) == Progressed(j, call).0
      else if LeftWaiting(j, call) then after.status == Waiting && after.pending == Some("request_" + call.env.suffix)
      else after == Get(j).value
  {
    hide Get, StatesOf, PhaseOf, LastClosure, GetClosure, Run, Poisons, Lawful;
    var j := Run(start, calls);
    RunAppends(start, calls, call);
    if Get(j).Err? {
      UnreadableIsInert(j, call);
    }
    CallKeepsReadableExactly(j, call);
    if TookEffect(j, call) {
      ReturnedIsCurrent(start, calls, call);
    } else if LeftWaiting(j, call) {
      EveryRunIsLawful(start, calls + [call]);
      GetIsLastWrite(Run(start, calls + [call]));
      UnansweredWaits(j, call);
    } else {
      RefusedChangesNoState(j, call);
      SameStatesSameRead(Handle(j, call), j);
    }
  }

  lemma UnansweredWaits(journal: Journal, call: Call)
    requires LeftWaiting(journal, call)
    ensures var states := StatesOf(Handle(journal, call));
      && states != [] && states[|states| - 1].status == Waiting
      && states[|states| - 1].pending == Some("request_" + call.env.suffix)
  {
    hide Get, PhaseOf, LastClosure, GetClosure, StatesOf, NewRef;
    var s, d := Get(journal).value, call.decision;
    RefNames(call.env);
    InSeasonExactly(s, d.action);
    var noted := journal + [DecisionSelected(d)];
    var waiting := Moved(s, d, Waiting, Some(NewRef("request", call.env)), call.env.now);
    OneMore(noted, StateRecorded(waiting));
    assert Handle(journal, call) == noted + [StateRecorded(waiting)];
  }

  /** The call, having taken effect, leaves this status. */
  predicate Leaves(call: Call, status: Status) {
    match call
    case Decide(d, _) => StatusAfter(d.action) == status
    case AskReopen(_) => status == ReopenRequired
  }

  /** That call took effect, and the controller has stood where it put it ever since. */
  ghost predicate StandsSince(start: State, calls: seq<Call>, n: int) {
    && 0 <= n < |calls| && TookEffect(Run(start, calls[..n]), calls[n])
    && Get(Run(start, calls)) == Progressed(Run(start, calls[..n]), calls[n]).0
  }

  /**
   On every run: a controller that is closed, or to be reopened, was put there by
   the last call that took effect, a decision or revision that calls for it, or
   the request to reopen.
   */
  lemma {:induction false} PutThereByLastEffect(start: State, calls: seq<Call>)
    requires IsInitial(start) && Get(Run(start, calls)).Ok?
    ensures var s := Get(Run(start, calls)).value;
      s.status == Closed || s.status == ReopenRequired ==>
        exists n | 0 <= n < |calls| :: StandsSince(start, calls, n) && Leaves(calls[n], s.status)
  {
    hide Get, Run, StandsSince, TookEffect;
    if calls == [] {
      StartsOpen(start, calls);
    } else {
      var prefix, last := calls[..|calls| - 1], calls[|calls| - 1];
      assert calls == prefix + [last];
      ReadAfter(start, prefix, last);
      var j, s := Run(start, prefix), Get(Run(start, calls)).value;
      if TookEffect(j, last) {
        assert calls[..|prefix|] == prefix;
        EffectLeaves(j, last);
        SinceLast(start, calls);
      } else if s.status == Closed || s.status == ReopenRequired {
        PutThereByLastEffect(start, prefix);
        var n :| 0 <= n < |prefix| && StandsSince(start, prefix, n) && Leaves(prefix[n], s.status);
        StillStands(start, prefix, last, n);
      }
    }
  }

  lemma {:induction false} SinceLast(start: State, calls: seq<Call>)
    requires calls != [] && TookEffect(Run(start, calls[..|calls| - 1]), calls[|calls| - 1])
    requires Get(Run(start, calls)) == Progressed(Run(start, calls[..|calls| - 1]), calls[|calls| - 1]).0
    ensures StandsSince(start, calls, |calls| - 1)
  {
    hide Get, Run;
  }

  lemma {:induction false} StillStands(start: State, calls: seq<Call>, call: Call, n: int)
    requires StandsSince(start, calls, n) && Get(Run(start, calls + [call])) == Get(Run(start, calls))
    ensures 0 <= n < |calls| && StandsSince(start, calls + [call], n) && (calls + [call])[n] == calls[n]
  {
    hide Get, Run;
    assert (calls + [call])[..n] == calls[..n];
  }

  lemma EffectLeaves(journal: Journal, call: Call)
    requires Get(journal).Ok? && TookEffect(journal, call)
    ensures Leaves(call, Progressed(journal, call).0.value.status)
  {
    hide Get;
    match call
    case Decide(d, env) => CarriedOutExactly(journal, d, env);
    case AskReopen(now) => ReopenAskedExactly(journal, now);
  }

  lemma {:induction false} StartsOpen(start: State, calls: seq<Call>)
    requires IsInitial(start) && calls == [] && Get(Run(start, calls)).Ok?
    ensures Get(Run(start, calls)).value.status == Open
  {
    hide Run, Lawful;
    CreationLawful(start);
    FirstState(start);
    assert Run(start, calls) == Run(start, []);
  }

  predicate CallsForClosing(call: Call) {
    && call.Decide?
    && (call.decision.action == Close
        || (call.decision.action.AssessRevision? && call.decision.action.revision.disposition == CloseWork))
  }

  /** In particular a closed controller was closed by a decision to close, or by a revision that recommends it. */
  lemma {:induction false} ClosedOnlyWhenAsked(start: State, calls: seq<Call>)
    requires IsInitial(start) && Get(Run(start, calls)).Ok? && Get(Run(start, calls)).value.status == Closed
    ensures exists n | 0 <= n < |calls| :: StandsSince(start, calls, n) && CallsForClosing(calls[n])
  {
    hide Get, Run, StandsSince;
    PutThereByLastEffect(start, calls);
  }

  /** The disposition says what is to become of the work; otherwise the controller waits. */
  predicate Settles(disposition: Disposition) {
    disposition == CloseWork || disposition == ReviseWork || disposition == ReopenCognition || disposition == AcquireEvidence
  }

  /**
   On every run: a revision that took effect leaves the controller closed exactly
   when it recommends closing the work, to be reopened exactly when it recommends
   revising the work, reopening cognition or acquiring evidence, and otherwise
   waiting on that revision, unreadable only where the revision has no name to wait on.
   */
  lemma {:induction false} RevisionLeavesExactly(start: State, calls: seq<Call>, call: Call)
    requires IsInitial(start) && call.Decide? && call.decision.action.AssessRevision?
    requires TookEffect(Run(start, calls), call)
    ensures var r := call.decision.action.revision;
      Get(Run(start, calls + [call])).Ok? <==> Settles(r.disposition) || r.id != ""
    ensures Get(Run(start, calls + [call])).Ok? ==>
      var s, r := Get(Run(start, calls + [call])).value, call.decision.action.revision;
      && (s.status == Closed <==> r.disposition == CloseWork)
      && (s.status == ReopenRequired
          <==> r.disposition == ReviseWork || r.disposition == ReopenCognition || r.disposition == AcquireEvidence)
      && (s.status == Waiting <==> !Settles(r.disposition))
      && s.pending == (if Settles(r.disposition) then None else Some(r.id))
      && s.lastRevision == Some(r.id) && s.lastDecision == Some(call.decision.id)
  {
    hide Get, Run;
    var j := Run(start, calls);
    RunAppends(start, calls, call);
    CallKeepsReadableExactly(j, call);
    CarriedOutExactly(j, call.decision, call.env);
    if Get(Run(start, calls + [call])).Ok? {
      ReturnedIsCurrent(start, calls, call);
    }
  }
}
