/**
 Controller runs: whatever is decided, the journal's states are numbered without
 a gap, and work is handed off again only after an explicit reopen and a new
 closure.
 */
module ControllerRuns {
  import opened Wrappers
  import opened Controller

  datatype Call = Decide(decision: Decision, env: Surroundings) | AskReopen(now: int)

  function Progressed(journal: Journal, call: Call): Progress {
    match call
    case Decide(d, env) => Apply(journal, d, env)
    case AskReopen(now) => RequireReopen(journal, now)
  }

  function Handle(journal: Journal, call: Call): Journal {
    Progressed(journal, call).1
  }

  function Run(start: State, calls: seq<Call>): Journal {
    if calls == [] then Create([], start).1 else Handle(Run(start, calls[..|calls| - 1]), calls[|calls| - 1])
  }

  predicate IsInitial(s: State) {
    s == Initial(s.responsibilityRef, s.subjectRef, s.candidates, s.openIssues, s.updatedAt)
  }

  // -------------------------------------------------------------- shape of states

  /** What every recorded state satisfies, short of its pending ref being a usable text. */
  predicate Shaped(s: State) {
    && (s.status == Waiting <==> s.pending.Some?)
    && (s.status == Open ==> s.workProposal.None?)
    && (s.workProposal.Some? ==> s.activeClosure.Some?)
  }

  predicate Numbered(states: seq<State>) {
    forall i | 0 <= i < |states| :: states[i].version == i && Shaped(states[i])
  }

  /** Where the controller is between one handoff and the next. */
  datatype Phase = NeverHandedOff | HandedOff | Reopened | Reclosed

  function PhaseAfter(phase: Phase, e: Event): Phase {
    match e
    case WorkHandedOff(_, _, _) => HandedOff
    case DecisionSelected(d) => if d.action.Reopen? && phase == HandedOff then Reopened else phase
    case ClosureFormed(_, _, _) => if phase == Reopened then Reclosed else phase
    case _ => phase
  }

  function PhaseOf(journal: Journal): Phase {
    if journal == [] then NeverHandedOff else PhaseAfter(PhaseOf(journal[..|journal| - 1]), journal[|journal| - 1])
  }

  function LastClosure(journal: Journal): Option<Closure> {
    if journal == [] then None
    else if journal[|journal| - 1].ClosureFormed? then Some(journal[|journal| - 1].closure)
    else LastClosure(journal[..|journal| - 1])
  }

  /** The current state knows what the journal says about closures and handoffs. */
  predicate Informed(journal: Journal, s: State) {
    && (PhaseOf(journal) == HandedOff ==> s.workProposal.Some?)
    && (PhaseOf(journal) == Reopened ==> s.activeClosure.None?)
    && (s.activeClosure.Some? ==> LastClosure(journal).Some? && LastClosure(journal).value.id == s.activeClosure.value)
  }

  /** The handoff stays inside the closure it was made under, and follows a fresh one. */
  predicate HandoffSound(before: Journal, e: Event) {
    e.WorkHandedOff? ==>
      && PhaseOf(before) in {NeverHandedOff, Reclosed}
      && LastClosure(before).Some? && LastClosure(before).value.id == e.closureRef
      && GetClosure(before, e.closureRef).Some?
      && var c := GetClosure(before, e.closureRef).value;
      && e.proposal.effectClass == c.effectClass
      && Within(e.proposal.capabilities, c.capabilities)
  }

  ghost predicate HandoffsSound(journal: Journal) {
    forall i | 0 <= i < |journal| :: HandoffSound(journal[..i], journal[i])
  }

  ghost predicate Lawful(journal: Journal) {
    && StatesOf(journal) != []
    && Numbered(StatesOf(journal))
    && Informed(journal, StatesOf(journal)[|StatesOf(journal)| - 1])
    && HandoffsSound(journal)
  }

  // ------------------------------------------------------------------ one more event

  lemma OneMore(journal: Journal, e: Event)
    ensures StatesOf(journal + [e]) == StatesOf(journal) + if e.StateRecorded? then [e.state] else []
    ensures !e.StateRecorded? ==> StatesOf(journal + [e]) == StatesOf(journal)
    ensures PhaseOf(journal + [e]) == PhaseAfter(PhaseOf(journal), e)
    ensures LastClosure(journal + [e]) == if e.ClosureFormed? then Some(e.closure) else LastClosure(journal)
    ensures HandoffsSound(journal) && HandoffSound(journal, e) ==> HandoffsSound(journal + [e])
  {
    hide HandoffSound;
    assert (journal + [e])[..|journal|] == journal;
    if HandoffsSound(journal) && HandoffSound(journal, e) {
      forall i | 0 <= i <= |journal| ensures HandoffSound((journal + [e])[..i], (journal + [e])[i]) {
        assert (journal + [e])[..i] == if i < |journal| then journal[..i] else journal;
      }
    }
  }

  lemma {:induction false} LatestOfNumbered(states: seq<State>)
    requires states != [] && Numbered(states)
    ensures Latest(states) == states[|states| - 1]
  {
    if |states| > 1 {
      LatestOfNumbered(states[..|states| - 1]);
    }
  }

  /** Reading by highest version finds the last state written. */
  lemma GetIsLastWrite(journal: Journal)
    requires Lawful(journal) && Get(journal).Ok?
    ensures Get(journal).value == StatesOf(journal)[|StatesOf(journal)| - 1]
  {
    LatestOfNumbered(StatesOf(journal));
  }

  /** Recording the successor keeps the journal lawful. */
  lemma SettleLawful(journal: Journal, s: State)
    requires StatesOf(journal) != [] && Numbered(StatesOf(journal)) && HandoffsSound(journal)
    requires s.version == |StatesOf(journal)| && Shaped(s) && Informed(journal, s)
    ensures Lawful(Settle(journal, s).1)
  {
    hide HandoffsSound, Shaped, Informed;
    OneMore(journal, StateRecorded(s));
    InformedOfItself(journal, s);
    assert HandoffSound(journal, StateRecorded(s));
    assert Numbered(StatesOf(journal) + [s]);
  }

  lemma InformedOfItself(journal: Journal, s: State)
    requires Informed(journal, s)
    ensures Informed(journal + [StateRecorded(s)], s)
  {
    OneMore(journal, StateRecorded(s));
  }

  // --------------------------------------------------------------------- the steps

  /** The journal just before a step: lawful up to the decision now on record. */
  ghost predicate Ready(journal: Journal, s: State, d: Decision) {
    && StatesOf(journal) != [] && Numbered(StatesOf(journal)) && HandoffsSound(journal)
    && s == StatesOf(journal)[|StatesOf(journal)| - 1]
    && Admits(s, d.action)
    && (PhaseOf(journal) == HandedOff ==> s.workProposal.Some?)
    && (PhaseOf(journal) == Reopened ==> s.activeClosure.None? || d.action.Reopen?)
    && (PhaseOf(journal) == HandedOff ==> !d.action.Reopen?)
    && (s.activeClosure.Some? ==> LastClosure(journal).Some? && LastClosure(journal).value.id == s.activeClosure.value)
  }

  lemma DecisionRecorded(journal: Journal, s: State, d: Decision)
    requires Lawful(journal) && s == StatesOf(journal)[|StatesOf(journal)| - 1] && Admits(s, d.action)
    ensures Ready(journal + [DecisionSelected(d)], s, d)
  {
    hide HandoffsSound;
    OneMore(journal, DecisionSelected(d));
  }

  lemma ReadyVersion(journal: Journal, s: State, d: Decision)
    requires Ready(journal, s, d)
    ensures s.version == |StatesOf(journal)| - 1 && Shaped(s)
  {
  }

  lemma InvokeLawful(journal: Journal, s: State, d: Decision, env: Surroundings)
    requires Ready(journal, s, d) && d.action.InvokeCapability?
    ensures Lawful(InvokeStep(journal, s, d, env).1)
  {
    hide HandoffsSound, Numbered;
    ReadyVersion(journal, s, d);
    var waiting := Moved(s, d, Waiting, Some(NewRef("request", env)), env.now);
    var asked := journal + [StateRecorded(waiting)];
    SettleLawful(journal, waiting);
    OneMore(journal, StateRecorded(waiting));
    if env.answered {
      var resultId := NewRef("event", env);
      var answer := ResultObserved(d.id, resultId);
      OneMore(asked, answer);
      assert journal + [StateRecorded(waiting), answer] == asked + [answer];
      SettleLawful(asked + [answer],
                   waiting.(status := Open, version := waiting.version + 1, pending := None, lastResult := Some(resultId)));
    }
  }

  lemma Unmoved(journal: Journal, s: State, d: Decision)
    requires Ready(journal, s, d) && !d.action.Reopen?
    ensures Lawful(journal)
  {
  }

  lemma ClosureLawful(journal: Journal, s: State, d: Decision, c: Closure, env: Surroundings)
    requires Ready(journal, s, d) && d.action == FormClosure(c)
    ensures Lawful(ClosureStep(journal, s, d, c, env).1)
  {
    hide HandoffsSound, Numbered;
    ReadyVersion(journal, s, d);
    Unmoved(journal, s, d);
    if CheckClosure(s, c).Pass? && WithPolicy(c.policyRef, d.policyRef).Ok? {
      var id := NewRef("event", env);
      var e := ClosureFormed(d.id, id, c.(policyRef := WithPolicy(c.policyRef, d.policyRef).value));
      OneMore(journal, e);
      SettleLawful(journal + [e], Moved(s, d, Open, None, env.now).(activeClosure := Some(c.id), lastResult := Some(id)));
    }
  }

  lemma {:induction false} GetClosureFindsId(journal: Journal, id: string)
    ensures GetClosure(journal, id).Some? ==> GetClosure(journal, id).value.id == id
  {
    if journal != [] {
      GetClosureFindsId(journal[..|journal| - 1], id);
    }
  }

  lemma ProposeLawful(journal: Journal, s: State, d: Decision, env: Surroundings)
    requires Ready(journal, s, d) && d.action.ProposeWork?
    ensures Lawful(ProposeStep(journal, s, d, env).1)
  {
    hide HandoffsSound, Numbered, GetClosure;
    ReadyVersion(journal, s, d);
    Unmoved(journal, s, d);
    var a := d.action;
    if ProposeStep(journal, s, d, env).0.Ok? {
      var c := GetClosure(journal, a.closureRef).value;
      GetClosureFindsId(journal, a.closureRef);
      var proposal := ProposalFor(s, a, c, env);
      var e := WorkHandedOff(d.id, c.id, proposal);
      OneMore(journal, e);
      SettleLawful(journal + [e],
                   Moved(s, d, Waiting, Some(proposal.id), env.now)
                   .(workProposal := Some(proposal.id), lastResult := Some(proposal.id)));
    }
  }

  lemma RevisionLawful(journal: Journal, s: State, d: Decision, r: Revision, env: Surroundings)
    requires Ready(journal, s, d) && d.action == AssessRevision(r)
    ensures Lawful(RevisionStep(journal, s, d, r, env).1)
  {
    hide HandoffsSound, Numbered;
    ReadyVersion(journal, s, d);
    Unmoved(journal, s, d);
    if RevisionStep(journal, s, d, r, env).0.Ok? {
      var e := RevisionAssessed(d.id, r.(policyRef := WithPolicy(r.policyRef, d.policyRef).value));
      OneMore(journal, e);
      SettleLawful(journal + [e], RevisionStep(journal, s, d, r, env).0.value);
    }
  }

  lemma PlainMoveLawful(journal: Journal, s: State, d: Decision, env: Surroundings)
    requires Ready(journal, s, d) && (d.action.Close? || d.action.Reopen? || d.action.Wait?)
    ensures Lawful(Perform(journal, s, d, env).1)
  {
    hide HandoffsSound, Numbered;
    ReadyVersion(journal, s, d);
    SettleLawful(journal, Perform(journal, s, d, env).0.value);
  }

  lemma ApplyLawful(journal: Journal, d: Decision, env: Surroundings)
    requires Lawful(journal)
    ensures Lawful(Apply(journal, d, env).1)
  {
    hide Lawful, Ready, InvokeStep, ClosureStep, ProposeStep, RevisionStep;
    if Get(journal).Ok? && d.stateVersion == Get(journal).value.version && Admits(Get(journal).value, d.action) {
      var s, noted := Get(journal).value, journal + [DecisionSelected(d)];
      GetIsLastWrite(journal);
      DecisionRecorded(journal, s, d);
      match d.action
      case InvokeCapability(_) => InvokeLawful(noted, s, d, env);
      case FormClosure(c) => ClosureLawful(noted, s, d, c, env);
      case ProposeWork(_, _, _, _, _, _) => ProposeLawful(noted, s, d, env);
      case AssessRevision(r) => RevisionLawful(noted, s, d, r, env);
      case _ => PlainMoveLawful(noted, s, d, env);
    }
  }

  lemma RequireReopenLawful(journal: Journal, now: int)
    requires Lawful(journal)
    ensures Lawful(RequireReopen(journal, now).1)
  {
    hide HandoffsSound;
    if Get(journal).Ok? {
      var s := Get(journal).value;
      GetIsLastWrite(journal);
      OneMore(journal, ReopenAsked(s.version));
      SettleLawful(journal + [ReopenAsked(s.version)], RequireReopen(journal, now).0.value);
    }
  }

  /** Every run keeps the journal lawful, whatever is decided and whichever calls fail. */
  lemma {:induction false} EveryRunIsLawful(start: State, calls: seq<Call>)
    requires IsInitial(start)
    ensures Lawful(Run(start, calls))
  {
    hide Lawful, Apply, RequireReopen;
    if calls == [] {
      CreationLawful(start);
    } else {
      EveryRunIsLawful(start, calls[..|calls| - 1]);
      var before := Run(start, calls[..|calls| - 1]);
      match calls[|calls| - 1]
      case Decide(d, env) => ApplyLawful(before, d, env);
      case AskReopen(now) => RequireReopenLawful(before, now);
    }
  }

  lemma CreationLawful(start: State)
    requires IsInitial(start)
    ensures Lawful(Create([], start).1)
  {
    assert StatesOf([]) == [];
    assert [] + [StateRecorded(start)] == [StateRecorded(start)];
    OneMore([], StateRecorded(start));
    assert StatesOf([StateRecorded(start)]) == [start];
  }

  // ---------------------------------------------------------------------- theorems

  /** Open carries no proposal, and a ref is pending exactly while waiting, in every recorded state; versions have no gap. */
  lemma {:induction false} StatesAreShaped(start: State, calls: seq<Call>, i: nat)
    requires IsInitial(start) && i < |StatesOf(Run(start, calls))|
    ensures var s := StatesOf(Run(start, calls))[i];
      && s.version == i
      && (s.status == Waiting <==> s.pending.Some?)
      && (s.status == Open ==> s.workProposal.None?)
  {
    EveryRunIsLawful(start, calls);
  }

  ghost predicate SameStates(a: seq<State>, b: seq<State>) {
    forall s :: s in a <==> s in b
  }

  lemma {:induction false} LatestIsMaximal(states: seq<State>)
    requires states != []
    ensures Latest(states) in states
    ensures forall s | s in states :: !Later(s, Latest(states))
  {
    if |states| > 1 {
      var prefix, last := states[..|states| - 1], states[|states| - 1];
      LatestIsMaximal(prefix);
      assert states == prefix + [last];
    }
  }

  /** In whatever order, and however often, the journal is listed, reading finds the last write. */
  lemma {:induction false} ReadingIgnoresOrder(start: State, calls: seq<Call>, listed: Journal)
    requires IsInitial(start) && Get(Run(start, calls)).Ok?
    requires SameStates(StatesOf(listed), StatesOf(Run(start, calls)))
    ensures Get(listed) == Ok(StatesOf(Run(start, calls))[|StatesOf(Run(start, calls))| - 1])
  {
    hide Run, StatesOf;
    EveryRunIsLawful(start, calls);
    var states, others := StatesOf(Run(start, calls)), StatesOf(listed);
    var last := states[|states| - 1];
    assert last in others;
    LatestIsMaximal(others);
    var found := Latest(others);
    var i :| 0 <= i < |states| && states[i] == found;
    assert !Later(last, found);
  }

  // ------------------------------------------------------------------- readability

  /** The decision would have the controller wait on a ref that is the empty text. */
  predicate WaitsOnNothing(d: Decision) {
    match d.action
    case Wait => d.id == ""
    case AssessRevision(r) => r.disposition == OtherDisposition && r.id == ""
    case _ => false
  }

  /** The call waits on nothing, and every guard lets it through. */
  predicate Poisons(journal: Journal, call: Call) {
    && call.Decide? && WaitsOnNothing(call.decision)
    && Get(journal).Ok?
    && var s, d := Get(journal).value, call.decision;
    && d.stateVersion == s.version && Admits(s, d.action)
    && (d.action.AssessRevision? ==>
          && CheckRevision(s, d.action.revision, call.env).Pass?
          && WithPolicy(d.action.revision.policyRef, d.policyRef).Ok?)
  }

  lemma OneMoreReadable(journal: Journal, e: Event)
    requires Get(journal).Ok?
    ensures Get(journal + [e]).Ok? <==> (e.StateRecorded? ==> ValidState(e.state))
  {
    hide ValidState, Latest;
    OneMore(journal, e);
    assert e.StateRecorded? ==> StatesOf(journal + [e])[|StatesOf(journal)|] == e.state;
  }

  lemma SettleReadable(journal: Journal, s: State)
    requires Get(journal).Ok?
    ensures Get(Settle(journal, s).1).Ok? <==> ValidState(s)
  {
    hide Get, ValidState;
    OneMoreReadable(journal, StateRecorded(s));
  }

  lemma NoteReadable(journal: Journal, e: Event)
    requires Get(journal).Ok? && !e.StateRecorded?
    ensures Get(journal + [e]).Ok?
  {
    hide Get;
    OneMoreReadable(journal, e);
  }

  lemma InvokeReadable(journal: Journal, s: State, d: Decision, env: Surroundings)
    requires Get(journal).Ok? && s.version >= 0
    ensures Get(InvokeStep(journal, s, d, env).1).Ok?
  {
    hide Get;
    var waiting := Moved(s, d, Waiting, Some(NewRef("request", env)), env.now);
    var asked := journal + [StateRecorded(waiting)];
    OneMoreReadable(journal, StateRecorded(waiting));
    if env.answered {
      var answer := ResultObserved(d.id, NewRef("event", env));
      NoteReadable(asked, answer);
      assert journal + [StateRecorded(waiting), answer] == asked + [answer];
      SettleReadable(asked + [answer], InvokeStep(journal, s, d, env).0.value);
    }
  }

  lemma PerformReadable(journal: Journal, s: State, d: Decision, env: Surroundings)
    requires Get(journal).Ok? && s.version >= 0
    ensures Get(Perform(journal, s, d, env).1).Ok?
       <==> !(WaitsOnNothing(d) && (d.action.AssessRevision? ==>
                && CheckRevision(s, d.action.revision, env).Pass?
                && WithPolicy(d.action.revision.policyRef, d.policyRef).Ok?))
  {
    hide Get, GetClosure, InvokeStep, CheckRevision, CheckClosure;
    var r := Perform(journal, s, d, env);
    match d.action
    case InvokeCapability(_) => InvokeReadable(journal, s, d, env);
    case FormClosure(c) =>
      if r.0.Ok? {
        var e := r.1[|journal|];
        NoteReadable(journal, e);
        SettleReadable(journal + [e], r.0.value);
      }
    case ProposeWork(_, _, _, _, _, _) =>
      if r.0.Ok? {
        var e := r.1[|journal|];
        NoteReadable(journal, e);
        SettleReadable(journal + [e], r.0.value);
      }
    case AssessRevision(_) =>
      if r.0.Ok? {
        var e := r.1[|journal|];
        NoteReadable(journal, e);
        SettleReadable(journal + [e], r.0.value);
      }
    case _ => SettleReadable(journal, r.0.value);
  }

  lemma ReadStateIsValid(journal: Journal)
    requires Get(journal).Ok?
    ensures ValidState(Get(journal).value)
  {
    LatestIsMaximal(StatesOf(journal));
  }

  /** A readable controller stays readable exactly when the call does not have it wait on nothing. */
  lemma CallKeepsReadableExactly(journal: Journal, call: Call)
    requires Get(journal).Ok?
    ensures Get(Handle(journal, call)).Ok? <==> !Poisons(journal, call)
  {
    hide Get, Controller.Perform, CheckRevision;
    ReadStateIsValid(journal);
    var s := Get(journal).value;
    match call
    case Decide(d, env) =>
      if d.stateVersion == s.version && Admits(s, d.action) {
        NoteReadable(journal, DecisionSelected(d));
        PerformReadable(journal + [DecisionSelected(d)], s, d, env);
      }
    case AskReopen(now) =>
      NoteReadable(journal, ReopenAsked(s.version));
      SettleReadable(journal + [ReopenAsked(s.version)], RequireReopen(journal, now).0.value);
  }

  lemma {:induction false} CreationReadable(start: State)
    requires IsInitial(start)
    ensures Get(Run(start, [])).Ok?
  {
    hide StatesOf, Run;
    FirstState(start);
  }

  lemma {:induction false} FirstState(start: State)
    requires IsInitial(start)
    ensures StatesOf(Run(start, [])) == [start]
  {
    hide Handle, ValidState, Latest;
    assert StatesOf([]) == [];
    OneMore([], StateRecorded(start));
    assert [] + [StateRecorded(start)] == [StateRecorded(start)];
  }

  lemma UnreadableIsInert(journal: Journal, call: Call)
    requires Get(journal).Err?
    ensures Handle(journal, call) == journal
  {
  }

  /** A run ends readable exactly when none of its calls got through that has the controller wait on nothing. */
  lemma {:induction false} ReadableExactly(start: State, calls: seq<Call>)
    requires IsInitial(start)
    ensures Get(Run(start, calls)).Ok? <==> forall n | 0 <= n < |calls| :: !Poisons(Run(start, calls[..n]), calls[n])
  {
    hide Get, Poisons, Handle;
    if calls == [] {
      CreationReadable(start);
    } else {
      var prefix, last := calls[..|calls| - 1], calls[|calls| - 1];
      ReadableExactly(start, prefix);
      forall n | 0 <= n < |prefix| ensures prefix[..n] == calls[..n] && prefix[n] == calls[n] {}
      if Get(Run(start, prefix)).Ok? {
        CallKeepsReadableExactly(Run(start, prefix), last);
        assert Get(Run(start, calls)).Ok? <==> !Poisons(Run(start, calls[..|prefix|]), calls[|prefix|]);
      } else {
        UnreadableIsInert(Run(start, prefix), last);
        var n :| 0 <= n < |prefix| && Poisons(Run(start, prefix[..n]), prefix[n]);
        assert Poisons(Run(start, calls[..n]), calls[n]);
      }
    }
  }

  /** An unreadable controller is stuck: no call ever writes to it again. */
  lemma {:induction false} UnreadableForGood(start: State, calls: seq<Call>, more: seq<Call>)
    requires Get(Run(start, calls)).Err?
    ensures Run(start, calls + more) == Run(start, calls)
  {
    hide Get, Handle;
    if more == [] {
      assert calls + more == calls;
    } else {
      var prefix, last := more[..|more| - 1], more[|more| - 1];
      assert (calls + more)[..|calls + more| - 1] == calls + prefix;
      UnreadableForGood(start, calls, prefix);
      UnreadableIsInert(Run(start, calls + prefix), last);
    }
  }

  /** So it ends, for every controller, when its first decision is to wait and carries no id. */
  lemma {:induction false} NamelessWaitIsFatal(start: State, policyRef: Option<string>, env: Surroundings, more: seq<Call>)
    requires IsInitial(start)
    ensures var wait := Decide(Decision("", 0, policyRef, Wait), env);
      Get(Run(start, [wait])).Err? && Run(start, [wait] + more) == Run(start, [wait])
  {
    hide StatesOf, Handle;
    var wait := Decide(Decision("", 0, policyRef, Wait), env);
    CreationReadable(start);
    CreationLawful(start);
    GetIsLastWrite(Run(start, []));
    FirstState(start);
    assert [wait][..0] == [];
    assert Poisons(Run(start, [wait][..0]), [wait][0]);
    ReadableExactly(start, [wait]);
    UnreadableForGood(start, [wait], more);
  }

  lemma {:induction false} PhaseMeans(journal: Journal, i: nat)
    requires i < |journal| && journal[i].WorkHandedOff?
    ensures PhaseOf(journal) != NeverHandedOff
    ensures PhaseOf(journal) in {Reopened, Reclosed} ==>
      exists a | i < a < |journal| :: journal[a].DecisionSelected? && journal[a].decision.action.Reopen?
    ensures PhaseOf(journal) == Reclosed ==> ReopenedAndReclosed(journal, i, |journal|)
  {
    var prefix, last := journal[..|journal| - 1], journal[|journal| - 1];
    if i < |prefix| {
      PhaseMeans(prefix, i);
      if PhaseOf(prefix) in {Reopened, Reclosed} {
        var a :| i < a < |prefix| && prefix[a].DecisionSelected? && prefix[a].decision.action.Reopen?;
        assert journal[a] == prefix[a];
        if PhaseOf(prefix) == Reclosed {
          var x, y :| i < x < y < |prefix| && prefix[x].DecisionSelected? && prefix[x].decision.action.Reopen?
            && prefix[y].ClosureFormed?;
          assert journal[x] == prefix[x] && journal[y] == prefix[y];
        } else if last.ClosureFormed? {
          assert i < a < |journal| - 1 && journal[|journal| - 1].ClosureFormed?;
        }
      } else if last.DecisionSelected? && last.decision.action.Reopen? {
        assert i < |journal| - 1;
      }
    }
  }

  ghost predicate ReopenedAndReclosed(journal: Journal, i: int, j: int)
    requires 0 <= i < j <= |journal|
  {
    exists a, b :: i < a < b < j && journal[a].DecisionSelected? && journal[a].decision.action.Reopen? && journal[b].ClosureFormed?
  }

  /** Between two handoffs lie an explicit reopen and, after it, a new closure. */
  lemma {:induction false} HandoffsAreSeparated(start: State, calls: seq<Call>, i: nat, j: nat)
    requires IsInitial(start) && i < j < |Run(start, calls)|
    requires Run(start, calls)[i].WorkHandedOff? && Run(start, calls)[j].WorkHandedOff?
    ensures ReopenedAndReclosed(Run(start, calls), i, j)
  {
    hide Run, PhaseOf, LastClosure, GetClosure, Numbered, Informed;
    EveryRunIsLawful(start, calls);
    var journal := Run(start, calls);
    assert HandoffSound(journal[..j], journal[j]);
    PhaseMeans(journal[..j], i);
    var a, b :| i < a < b < j && journal[..j][a].DecisionSelected? && journal[..j][a].decision.action.Reopen?
      && journal[..j][b].ClosureFormed?;
    assert journal[a] == journal[..j][a] && journal[b] == journal[..j][b];
  }

  ghost predicate UniqueClosures(journal: Journal) {
    forall i, j | 0 <= i < j < |journal| && journal[i].ClosureFormed? && journal[j].ClosureFormed? ::
      journal[i].closure.id != journal[j].closure.id
  }

  lemma {:induction false} ClosureUnderItsId(journal: Journal)
    requires UniqueClosures(journal) && LastClosure(journal).Some?
    ensures GetClosure(journal, LastClosure(journal).value.id) == LastClosure(journal)
  {
    var prefix, last := journal[..|journal| - 1], journal[|journal| - 1];
    if last.ClosureFormed? {
      NotFormedBefore(prefix, last.closure.id);
    } else {
      ClosureUnderItsId(prefix);
    }
  }

  lemma {:induction false} NotFormedBefore(journal: Journal, id: string)
    requires forall i | 0 <= i < |journal| && journal[i].ClosureFormed? :: journal[i].closure.id != id
    ensures GetClosure(journal, id).None?
  {
    if journal != [] {
      NotFormedBefore(journal[..|journal| - 1], id);
    }
  }

  predicate KeepsTo(p: Proposal, c: Closure) {
    p.effectClass == c.effectClass && Within(p.capabilities, c.capabilities)
  }

  /** Each proposal keeps to the closure first formed under the id it is handed off with. */
  lemma {:induction false} ProposalKeepsToItsClosure(start: State, calls: seq<Call>, i: nat)
    requires IsInitial(start) && i < |Run(start, calls)| && Run(start, calls)[i].WorkHandedOff?
    ensures var journal := Run(start, calls);
      && GetClosure(journal[..i], journal[i].closureRef).Some?
      && KeepsTo(journal[i].proposal, GetClosure(journal[..i], journal[i].closureRef).value)
  {
    hide Run, PhaseOf, LastClosure, GetClosure, Numbered, Informed;
    EveryRunIsLawful(start, calls);
    assert HandoffSound(Run(start, calls)[..i], Run(start, calls)[i]);
  }

  /** With unique ids that is the closure formed last before it. */
  lemma {:induction false} ProposalWithinClosure(start: State, calls: seq<Call>, i: nat)
    requires IsInitial(start) && i < |Run(start, calls)| && Run(start, calls)[i].WorkHandedOff?
    requires UniqueClosures(Run(start, calls))
    ensures var journal := Run(start, calls);
      && LastClosure(journal[..i]).Some?
      && journal[i].closureRef == LastClosure(journal[..i]).value.id
      && journal[i].proposal.effectClass == LastClosure(journal[..i]).value.effectClass
      && Within(journal[i].proposal.capabilities, LastClosure(journal[..i]).value.capabilities)
  {
    hide Run, PhaseOf, LastClosure, GetClosure, Numbered, Informed;
    EveryRunIsLawful(start, calls);
    var journal := Run(start, calls);
    assert HandoffSound(journal[..i], journal[i]);
    ClosureUnderItsId(journal[..i]);
  }

  /** The first closure formed under the id, as opposed to the last one formed, decides what an empty request asks for. */
  predicate AskedWithin(journal: Journal, a: Action, last: Closure)
    requires a.ProposeWork? && GetClosure(journal, a.closureRef).Some?
  {
    && a.effectClass == last.effectClass
    && Within(OrElse(a.capabilities, GetClosure(journal, a.closureRef).value.capabilities), last.capabilities)
  }

  /** Whether ids are unique or not: a handoff keeps to the closure formed last exactly when what is asked for does. */
  lemma {:induction false} HandoffKeepsToLastExactly(start: State, calls: seq<Call>, d: Decision, env: Surroundings)
    requires IsInitial(start) && d.action.ProposeWork? && Apply(Run(start, calls), d, env).0.Ok?
    ensures var j, after := Run(start, calls), Apply(Run(start, calls), d, env).1;
      && |after| > |j| + 1 && after[|j| + 1].WorkHandedOff?
      && LastClosure(j).Some? && GetClosure(j, d.action.closureRef).Some?
      && (KeepsTo(after[|j| + 1].proposal, LastClosure(j).value) <==> AskedWithin(j, d.action, LastClosure(j).value))
  {
    hide Run, PhaseOf, LastClosure, GetClosure, StatesOf, Get, HandoffsSound, Numbered;
    EveryRunIsLawful(start, calls);
    var j := Run(start, calls);
    GetIsLastWrite(j);
    var noted := j + [DecisionSelected(d)];
    OneMore(j, DecisionSelected(d));
    OneMoreClosure(j, DecisionSelected(d), d.action.closureRef);
    assert Apply(j, d, env) == ProposeStep(noted, Get(j).value, d, env);
  }

  lemma OneMoreClosure(journal: Journal, e: Event, id: string)
    ensures GetClosure(journal + [e], id) ==
      if GetClosure(journal, id).None? && e.ClosureFormed? && e.closure.id == id then Some(e.closure) else GetClosure(journal, id)
  {
    assert (journal + [e])[..|journal|] == journal;
  }

  // ------------------------------------------------------- a closure under a taken id

  const QUIET := Surroundings(0, "", false, map[], true)

  function Granting(capability: string): Closure {
    Closure("c", Some("r"), Some("s"), {}, {}, "", [], [], [capability], ReadOnly, None)
  }

  /** Form a closure, reopen, form another under the same id, and hand off work without naming capabilities. */
  const REUSED := [
    Decide(Decision("d0", 0, None, FormClosure(Granting("a"))), QUIET),
    AskReopen(0),
    Decide(Decision("d1", 2, None, Reopen), QUIET),
    Decide(Decision("d2", 3, None, FormClosure(Granting("b"))), QUIET),
    Decide(Decision("d3", 4, None, ProposeWork("c", [], ReadOnly, "", [], [])), QUIET)]

  const BEGUN := Initial(Some("r"), Some("s"), {}, {}, 0)

  /** What an accepted call returns is what is read next, unless it waits on nothing. */
  lemma {:induction false} ReturnedIsCurrent(start: State, calls: seq<Call>, call: Call)
    requires IsInitial(start) && Get(Run(start, calls)).Ok? && !Poisons(Run(start, calls), call)
    requires Progressed(Run(start, calls), call).0.Ok?
    ensures Get(Run(start, calls + [call])) == Progressed(Run(start, calls), call).0
  {
    hide Get, Lawful, Poisons, GetClosure, CheckClosure, CheckRevision;
    var j, longer := Run(start, calls), calls + [call];
    assert longer[..|calls|] == calls;
    EveryRunIsLawful(start, longer);
    CallKeepsReadableExactly(j, call);
    GetIsLastWrite(Run(start, longer));
    var after, s := Progressed(j, call).1, Progressed(j, call).0.value;
    assert after == after[..|after| - 1] + [StateRecorded(s)];
    OneMore(after[..|after| - 1], StateRecorded(s));
  }

  /** The closures on record after an accepted call that forms none, and after one that does. */
  lemma ClosuresAfter(journal: Journal, call: Call, id: string)
    requires Progressed(journal, call).0.Ok?
    requires call.Decide? ==> call.decision.policyRef.None? && (call.decision.action.Reopen? || call.decision.action.FormClosure?)
    ensures var after := Handle(journal, call);
      if call.Decide? && call.decision.action.FormClosure? then
        var c := call.decision.action.closure;
        && LastClosure(after) == Some(c)
        && GetClosure(after, id) == if GetClosure(journal, id).None? && c.id == id then Some(c) else GetClosure(journal, id)
      else LastClosure(after) == LastClosure(journal) && GetClosure(after, id) == GetClosure(journal, id)
  {
    hide Get, GetClosure, LastClosure, PhaseOf, StatesOf, HandoffsSound;
    var after := Handle(journal, call);
    var one := journal + [after[|journal|]];
    OneMore(journal, after[|journal|]);
    OneMoreClosure(journal, after[|journal|], id);
    var two := one + [after[|journal| + 1]];
    OneMore(one, after[|journal| + 1]);
    OneMoreClosure(one, after[|journal| + 1], id);
    if call.Decide? && call.decision.action.FormClosure? {
      OneMore(two, after[|journal| + 2]);
      OneMoreClosure(two, after[|journal| + 2], id);
      assert after == two + [after[|journal| + 2]];
    } else {
      assert after == two;
    }
  }

  /** One more accepted call: the state read next and the closures on record. */
  lemma Onward(n: nat, s: State)
    requires n < 4 && Get(Run(BEGUN, REUSED[..n])).Ok? && Progressed(Run(BEGUN, REUSED[..n]), REUSED[n]).0 == Ok(s)
    ensures Get(Run(BEGUN, REUSED[..n + 1])) == Ok(s)
    ensures var before, after := Run(BEGUN, REUSED[..n]), Run(BEGUN, REUSED[..n + 1]);
      if n == 0 || n == 3 then
        var c := REUSED[n].decision.action.closure;
        && LastClosure(after) == Some(c)
        && GetClosure(after, "c") == if GetClosure(before, "c").None? then Some(c) else GetClosure(before, "c")
      else LastClosure(after) == LastClosure(before) && GetClosure(after, "c") == GetClosure(before, "c")
  {
    hide Get, Progressed, Run, GetClosure, LastClosure;
    assert REUSED[..n + 1] == REUSED[..n] + [REUSED[n]];
    ReturnedIsCurrent(BEGUN, REUSED[..n], REUSED[n]);
    RunAppends(BEGUN, REUSED[..n], REUSED[n]);
    ClosuresAfter(Run(BEGUN, REUSED[..n]), REUSED[n], "c");
  }

  lemma {:induction false} RunAppends(start: State, calls: seq<Call>, call: Call)
    ensures Run(start, calls + [call]) == Handle(Run(start, calls), call)
  {
    assert (calls + [call])[..|calls|] == calls;
  }

  lemma BegunReads()
    ensures Get(Run(BEGUN, REUSED[..0])) == Ok(BEGUN) && GetClosure(Run(BEGUN, REUSED[..0]), "c").None?
  {
    assert REUSED[..0] == [];
    CreationReadable(BEGUN);
    CreationLawful(BEGUN);
    GetIsLastWrite(Run(BEGUN, []));
    FirstState(BEGUN);
    OneMoreClosure([], StateRecorded(BEGUN), "c");
    assert [] + [StateRecorded(BEGUN)] == [StateRecorded(BEGUN)];
  }

  /** The work handed off may use what the first closure granted, although the one in force grants something else. */
  lemma ReusedIdEscapes()
    ensures var j, call := Run(BEGUN, REUSED[..4]), REUSED[4];
      && Apply(j, call.decision, call.env).0.Ok?
      && LastClosure(j) == Some(Granting("b"))
      && var after := Apply(j, call.decision, call.env).1;
      && |after| > |j| + 1 && after[|j| + 1].WorkHandedOff?
      && !KeepsTo(after[|j| + 1].proposal, Granting("b"))
  {
    hide Get, Run, GetClosure, LastClosure;
    BegunReads();
    var s1 := Progressed(Run(BEGUN, REUSED[..0]), REUSED[0]).0.value;
    Onward(0, s1);
    var s2 := Progressed(Run(BEGUN, REUSED[..1]), REUSED[1]).0.value;
    Onward(1, s2);
    var s3 := Progressed(Run(BEGUN, REUSED[..2]), REUSED[2]).0.value;
    Onward(2, s3);
    var s4 := Progressed(Run(BEGUN, REUSED[..3]), REUSED[3]).0.value;
    Onward(3, s4);
    var j, call := Run(BEGUN, REUSED[..4]), REUSED[4];
    OneMoreClosure(j, DecisionSelected(call.decision), "c");
    HandoffKeepsToLastExactly(BEGUN, REUSED[..4], call.decision, call.env);
    assert Granting("a").capabilities[0] !in Granting("b").capabilities;
  }
}
