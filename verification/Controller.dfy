/**
 The cognitive controller: a guarded, versioned state machine whose only memory
 is the journal it appends to. The journal modelled is one controller's own.
 */
module Controller {
  import opened Wrappers

  datatype Status = Open | Waiting | Closed | ReopenRequired

  datatype EffectClass = ReadOnly | InternalReversible | ExternalEffect

  datatype State = State(
    responsibilityRef: Option<string>,
    subjectRef: Option<string>,
    candidates: set<string>,
    openIssues: set<string>,
    status: Status,
    version: int,
    pending: Option<string>,
    activeClosure: Option<string>,
    workProposal: Option<string>,
    lastRevision: Option<string>,
    lastDecision: Option<string>,
    lastResult: Option<string>,
    updatedAt: int)

  datatype Closure = Closure(
    id: string,
    responsibilityRef: Option<string>,
    subjectRef: Option<string>,
    selectedCandidates: set<string>,
    deferredIssues: set<string>,
    acceptance: string,
    stopConditions: seq<string>,
    escalationConditions: seq<string>,
    capabilities: seq<string>,
    effectClass: EffectClass,
    policyRef: Option<string>)

  datatype Disposition = CloseWork | ReviseWork | ReopenCognition | AcquireEvidence | OtherDisposition

  datatype Revision = Revision(id: string, workRef: string, closureRef: string, disposition: Disposition, policyRef: Option<string>)

  datatype Action =
    | InvokeCapability(capability: string)
    | FormClosure(closure: Closure)
    | ProposeWork(closureRef: string, capabilities: seq<string>, effectClass: EffectClass, expectedResult: string,
                  stopConditions: seq<string>, escalationConditions: seq<string>)
    | AssessRevision(revision: Revision)
    | Close
    | Reopen
    | Wait

  datatype Decision = Decision(id: string, stateVersion: int, policyRef: Option<string>, action: Action)

  datatype Proposal = Proposal(
    id: string,
    responsibilityRef: string,
    subjectRef: string,
    capabilities: seq<string>,
    effectClass: EffectClass,
    expectedResult: string,
    stopConditions: seq<string>,
    escalationConditions: seq<string>)

  datatype Event =
    | StateRecorded(state: State)
    | DecisionSelected(decision: Decision)
    | ResultObserved(decisionRef: string, id: string)
    | ClosureFormed(decisionRef: string, id: string, closure: Closure)
    | WorkHandedOff(decisionRef: string, closureRef: string, proposal: Proposal)
    | RevisionAssessed(decisionRef: string, revision: Revision)
    | ReopenAsked(fromVersion: int)

  type Journal = seq<Event>

  datatype ControllerError =
    | UnknownController
    | UnreadableState
    | AlreadyExists
    | StaleDecision
    | NotAdmitted
    | CapabilityFailed
    | ForeignResponsibility
    | ForeignSubject
    | ForeignCandidate
    | IssueNotDeferred
    | PolicyConflict
    | MissingResponsibility
    | MissingSubject
    | NotActiveClosure
    | ClosureUnavailable
    | EffectClassDiffers
    | CapabilityOutsideClosure
    | KernelRefused
    | NoActiveClosure
    | NoWorkProposal
    | ForeignRevision
    | UnknownWork
    | ForeignWork

  /** What the runtime around the controller contributes to one call. */
  datatype Surroundings = Surroundings(
    now: int,
    suffix: string,
    answered: bool,
    works: map<string, Option<string>>,
    kernelAccepts: bool)

  // ------------------------------------------------------------------------ reads

  predicate ValidState(s: State) {
    && s.version >= 0
    && (s.status == Waiting ==> s.pending.Some? && s.pending.value != "")
    && (s.status != Waiting ==> s.pending.None?)
  }

  function StatesOf(journal: Journal): seq<State> {
    if journal == [] then []
    else
      var last := journal[|journal| - 1];
      StatesOf(journal[..|journal| - 1]) + if last.StateRecorded? then [last.state] else []
  }

  predicate Later(a: State, b: State) {
    a.version > b.version || (a.version == b.version && a.updatedAt > b.updatedAt)
  }

  /** The first of the latest. */
  function Latest(states: seq<State>): State
    requires states != []
  {
    if |states| == 1 then states[0]
    else
      var best := Latest(states[..|states| - 1]);
      if Later(states[|states| - 1], best) then states[|states| - 1] else best
  }

  function Get(journal: Journal): Result<State, ControllerError> {
    var states := StatesOf(journal);
    if exists s | s in states :: !ValidState(s) then Err(UnreadableState)
    else if states == [] then Err(UnknownController)
    else Ok(Latest(states))
  }

  /** The first closure formed under the id. */
  function GetClosure(journal: Journal, id: string): Option<Closure> {
    if journal == [] then None
    else
      match GetClosure(journal[..|journal| - 1], id)
      case Some(c) => Some(c)
      case None =>
        var last := journal[|journal| - 1];
        if last.ClosureFormed? && last.closure.id == id then Some(last.closure) else None
  }

  // ------------------------------------------------------------------- transitions

  predicate Admits(s: State, a: Action) {
    match s.status
    case Open =>
      if s.activeClosure.None? then a.InvokeCapability? || a.FormClosure? || a.Close? || a.Wait?
      else a.ProposeWork? || a.Close? || a.Wait?
    case Waiting => if s.activeClosure.Some? && s.workProposal.Some? then a.AssessRevision? else a.Reopen?
    case Closed => a.Reopen?
    case ReopenRequired => a.Reopen?
  }

  function Moved(s: State, d: Decision, status: Status, pending: Option<string>, now: int): State {
    s.(status := status, version := s.version + 1, pending := pending, lastDecision := Some(d.id), updatedAt := now)
  }

  function NewRef(prefix: string, env: Surroundings): string {
    prefix + "_" + env.suffix
  }

  function WithPolicy(existing: Option<string>, decided: Option<string>): Result<Option<string>, ControllerError> {
    if decided.None? then Ok(existing)
    else if existing.None? || existing == decided then Ok(decided)
    else Err(PolicyConflict)
  }

  type Progress = (Result<State, ControllerError>, Journal)

  function Settle(journal: Journal, s: State): Progress {
    (Ok(s), journal + [StateRecorded(s)])
  }

  function InvokeStep(journal: Journal, s: State, d: Decision, env: Surroundings): Progress {
    var waiting := Moved(s, d, Waiting, Some(NewRef("request", env)), env.now);
    if !env.answered then (Err(CapabilityFailed), journal + [StateRecorded(waiting)])
    else
      var resultId := NewRef("event", env);
      Settle(journal + [StateRecorded(waiting), ResultObserved(d.id, resultId)],
             waiting.(status := Open, version := waiting.version + 1, pending := None, lastResult := Some(resultId)))
  }

  function CheckClosure(s: State, c: Closure): Outcome<ControllerError> {
    if s.responsibilityRef != c.responsibilityRef then Fail(ForeignResponsibility)
    else if s.subjectRef != c.subjectRef then Fail(ForeignSubject)
    else if s.candidates != {} && !(c.selectedCandidates <= s.candidates) then Fail(ForeignCandidate)
    else if !(s.openIssues <= c.deferredIssues) then Fail(IssueNotDeferred)
    else Pass
  }

  function ClosureStep(journal: Journal, s: State, d: Decision, c: Closure, env: Surroundings): Progress {
    match CheckClosure(s, c)
    case Fail(e) => (Err(e), journal)
    case Pass =>
      match WithPolicy(c.policyRef, d.policyRef)
      case Err(e) => (Err(e), journal)
      case Ok(policyRef) =>
        var id := NewRef("event", env);
        Settle(journal + [ClosureFormed(d.id, id, c.(policyRef := policyRef))],
               Moved(s, d, Open, None, env.now).(activeClosure := Some(c.id), lastResult := Some(id)))
  }

  function OrElse<T>(asked: seq<T>, fallback: seq<T>): seq<T> {
    if asked != [] then asked else fallback
  }

  function ProposalFor(s: State, a: Action, c: Closure, env: Surroundings): Proposal
    requires a.ProposeWork? && s.responsibilityRef.Some? && s.subjectRef.Some?
  {
    Proposal(NewRef("work_proposal", env), s.responsibilityRef.value, s.subjectRef.value,
             OrElse(a.capabilities, c.capabilities), c.effectClass, OrElse(a.expectedResult, c.acceptance),
             OrElse(a.stopConditions, c.stopConditions), OrElse(a.escalationConditions, c.escalationConditions))
  }

  predicate Within(asked: seq<string>, granted: seq<string>) {
    forall x | x in asked :: x in granted
  }

  function ProposeStep(journal: Journal, s: State, d: Decision, env: Surroundings): Progress
    requires d.action.ProposeWork?
  {
    var a := d.action;
    if s.responsibilityRef.None? then (Err(MissingResponsibility), journal)
    else if s.subjectRef.None? then (Err(MissingSubject), journal)
    else if Some(a.closureRef) != s.activeClosure then (Err(NotActiveClosure), journal)
    else
      match GetClosure(journal, a.closureRef)
      case None => (Err(ClosureUnavailable), journal)
      case Some(c) =>
        if a.effectClass != c.effectClass then (Err(EffectClassDiffers), journal)
        else if !Within(a.capabilities, c.capabilities) then (Err(CapabilityOutsideClosure), journal)
        else if !env.kernelAccepts then (Err(KernelRefused), journal)
        else
          var proposal := ProposalFor(s, a, c, env);
          Settle(journal + [WorkHandedOff(d.id, c.id, proposal)],
                 Moved(s, d, Waiting, Some(proposal.id), env.now)
                 .(workProposal := Some(proposal.id), lastResult := Some(proposal.id)))
  }

  function CheckRevision(s: State, r: Revision, env: Surroundings): Outcome<ControllerError> {
    if s.activeClosure.None? then Fail(NoActiveClosure)
    else if s.workProposal.None? then Fail(NoWorkProposal)
    else if Some(r.closureRef) != s.activeClosure then Fail(ForeignRevision)
    else if r.workRef !in env.works then Fail(UnknownWork)
    else if env.works[r.workRef] != s.workProposal then Fail(ForeignWork)
    else Pass
  }

  function RevisionStep(journal: Journal, s: State, d: Decision, r: Revision, env: Surroundings): Progress {
    match CheckRevision(s, r, env)
    case Fail(e) => (Err(e), journal)
    case Pass =>
      match WithPolicy(r.policyRef, d.policyRef)
      case Err(e) => (Err(e), journal)
      case Ok(policyRef) =>
        var next :=
          match r.disposition
          case CloseWork => Moved(s, d, Closed, None, env.now)
          case ReviseWork => Moved(s, d, ReopenRequired, None, env.now)
          case ReopenCognition => Moved(s, d, ReopenRequired, None, env.now)
          case AcquireEvidence => Moved(s, d, ReopenRequired, None, env.now)
          case OtherDisposition => Moved(s, d, Waiting, Some(r.id), env.now);
        Settle(journal + [RevisionAssessed(d.id, r.(policyRef := policyRef))],
               next.(lastRevision := Some(r.id), lastResult := Some(r.id)))
  }

  /** The step proper; the decision is on record by now, whatever comes of it. */
  function Perform(journal: Journal, s: State, d: Decision, env: Surroundings): Progress {
    match d.action
    case InvokeCapability(_) => InvokeStep(journal, s, d, env)
    case FormClosure(c) => ClosureStep(journal, s, d, c, env)
    case ProposeWork(_, _, _, _, _, _) => ProposeStep(journal, s, d, env)
    case AssessRevision(r) => RevisionStep(journal, s, d, r, env)
    case Close => Settle(journal, Moved(s, d, Closed, None, env.now))
    case Reopen => Settle(journal, Moved(s, d, Open, None, env.now).(activeClosure := None, workProposal := None))
    case Wait => Settle(journal, Moved(s, d, Waiting, Some(d.id), env.now))
  }

  function Apply(journal: Journal, d: Decision, env: Surroundings): Progress {
    match Get(journal)
    case Err(e) => (Err(e), journal)
    case Ok(s) =>
      if d.stateVersion != s.version then (Err(StaleDecision), journal)
      else if !Admits(s, d.action) then (Err(NotAdmitted), journal)
      else Perform(journal + [DecisionSelected(d)], s, d, env)
  }

  function RequireReopen(journal: Journal, now: int): Progress {
    match Get(journal)
    case Err(e) => (Err(e), journal)
    case Ok(s) =>
      Settle(journal + [ReopenAsked(s.version)],
             s.(status := ReopenRequired, version := s.version + 1, pending := None, updatedAt := now))
  }

  function Initial(
    responsibilityRef: Option<string>, subjectRef: Option<string>, candidates: set<string>, openIssues: set<string>, now: int
  ): State {
    State(responsibilityRef, subjectRef, candidates, openIssues, Open, 0, None, None, None, None, None, None, now)
  }

  function Create(journal: Journal, s: State): Progress {
    match Get(journal)
    case Ok(_) => (Err(AlreadyExists), journal)
    case Err(UnknownController) => Settle(journal, s)
    case Err(e) => (Err(e), journal)
  }

  // --------------------------------------------------------------- the live object

  class CognitiveController {
    var journal: Journal

    constructor ()
      ensures journal == []
    {
      journal := [];
    }

    method CurrentState() returns (r: Result<State, ControllerError>)
      ensures r == Get(journal)
    {
      hide ValidState;
      var states: seq<State> := [];
      for i := 0 to |journal|
        invariant states == StatesOf(journal[..i])
        invariant forall s | s in states :: ValidState(s)
      {
        assert journal[..i + 1][..i] == journal[..i];
        if journal[i].StateRecorded? {
          if !ValidState(journal[i].state) {
            StatesOfPrefix(journal, i + 1);
            assert StatesOf(journal[..i + 1])[|states|] == journal[i].state;
            assert journal[i].state in StatesOf(journal);
            return Err(UnreadableState);
          }
          states := states + [journal[i].state];
        }
      }
      assert journal[..|journal|] == journal;
      if states == [] {
        return Err(UnknownController);
      }
      var best := states[0];
      for i := 1 to |states|
        invariant best == Latest(states[..i])
      {
        assert states[..i + 1][..i] == states[..i];
        if Later(states[i], best) {
          best := states[i];
        }
      }
      assert states[..|states|] == states;
      return Ok(best);
    }

    method Record(e: Event)
      modifies this
      ensures journal == old(journal) + [e]
    {
      journal := journal + [e];
    }

    method ApplyDecision(d: Decision, env: Surroundings) returns (r: Result<State, ControllerError>)
      modifies this
      ensures (r, journal) == Apply(old(journal), d, env)
    {
      hide ValidState, StatesOf, Latest, GetClosure;
      var current := CurrentState();
      if current.Err? {
        return current;
      }
      var s := current.value;
      if d.stateVersion != s.version {
        return Err(StaleDecision);
      }
      if !Admits(s, d.action) {
        return Err(NotAdmitted);
      }
      Record(DecisionSelected(d));
      if d.action.InvokeCapability? {
        r := Invoke(s, d, env);
      } else {
        var (outcome, written) := Perform(journal, s, d, env);
        journal := written;
        r := outcome;
      }
    }

    /** The controller is waiting while the capability runs; only an answer lets it go on. */
    method Invoke(s: State, d: Decision, env: Surroundings) returns (r: Result<State, ControllerError>)
      modifies this
      ensures (r, journal) == InvokeStep(old(journal), s, d, env)
    {
      var waiting := Moved(s, d, Waiting, Some(NewRef("request", env)), env.now);
      Record(StateRecorded(waiting));
      if !env.answered {
        return Err(CapabilityFailed);
      }
      Record(ResultObserved(d.id, NewRef("event", env)));
      var resumed := waiting.(status := Open, version := waiting.version + 1, pending := None,
                              lastResult := Some(NewRef("event", env)));
      Record(StateRecorded(resumed));
      assert journal == old(journal) + [StateRecorded(waiting), ResultObserved(d.id, NewRef("event", env))]
                      + [StateRecorded(resumed)];
      return Ok(resumed);
    }

    method AskToReopen(now: int) returns (r: Result<State, ControllerError>)
      modifies this
      ensures (r, journal) == RequireReopen(old(journal), now)
    {
      var current := CurrentState();
      if current.Err? {
        return current;
      }
      var s := current.value;
      Record(ReopenAsked(s.version));
      var next := s.(status := ReopenRequired, version := s.version + 1, pending := None, updatedAt := now);
      Record(StateRecorded(next));
      return Ok(next);
    }
  }

  lemma {:induction false} StatesOfPrefix(journal: Journal, n: nat)
    requires n <= |journal|
    ensures StatesOf(journal[..n]) <= StatesOf(journal)
    decreases |journal|
  {
    if n == |journal| {
      assert journal[..n] == journal;
    } else {
      assert journal[..|journal| - 1][..n] == journal[..n];
      StatesOfPrefix(journal[..|journal| - 1], n);
    }
  }
}
