/**
 Folding the journal back into a governance configuration, and what the fold
 depends on: only which events occurred, provided no scheme has two different
 states at its highest version.
 */
module History {
  import opened Wrappers
  import opened Distinction
  import opened Canonical

  datatype Partial = Partial(
    states: map<string, DistinctionState>,
    obligations: map<string, ReviewObligation>,
    decisions: map<string, GovernanceDecision>,
    applications: map<string, ApplicationReceipt>,
    discharged: set<string>,
    processed: map<string, seq<string>>)

  const NOTHING_YET := Partial(map[], map[], map[], map[], {}, map[])

  datatype CanonicalHistory = CanonicalHistory(
    configuration: Configuration,
    processedObligations: map<string, seq<string>>)

  // -------------------------------------------------------------- the fold

  function Raised(states: map<string, DistinctionState>, k: string, s: DistinctionState): map<string, DistinctionState> {
    if k !in states || s.version > states[k].version then states[k := s] else states
  }

  function AbsorbState(h: Partial, p: StatePayload): Result<Partial, HistoryError> {
    var (k, s) :- RestoreState(p);
    Ok(h.(states := Raised(h.states, k, s)))
  }

  function DischargedBy(r: ApplicationReceipt): set<string> {
    var id := r.application.reviewObligationId;
    if r.effectKind == "review_discharge" && id.Some? && id.value != "" then {id.value} else {}
  }

  function ProcessedKey(e: Event, eventKey: string): string {
    if eventKey != "" then eventKey else e.subject
  }

  function AbsorbOpening(h: Partial, o: ReviewObligation): Result<Partial, HistoryError> {
    if o.id in h.obligations && h.obligations[o.id] != o then Err(ObligationRebound)
    else Ok(h.(obligations := h.obligations[o.id := o]))
  }

  function AbsorbDecision(h: Partial, d: GovernanceDecision): Result<Partial, HistoryError> {
    if d.id in h.decisions && h.decisions[d.id] != d then Err(DecisionRebound)
    else Ok(h.(decisions := h.decisions[d.id := d]))
  }

  function AbsorbReceipt(h: Partial, r: ApplicationReceipt): Result<Partial, HistoryError> {
    var id := r.application.id;
    if id in h.applications && h.applications[id] != r then Err(ApplicationRebound)
    else Ok(h.(applications := h.applications[id := r], discharged := h.discharged + DischargedBy(r)))
  }

  function AbsorbProcessed(h: Partial, key: string, ids: seq<string>): Result<Partial, HistoryError> {
    if key in h.processed && h.processed[key] != ids then Err(ProcessedRebound)
    else Ok(h.(processed := h.processed[key := ids]))
  }

  function Absorb(h: Partial, e: Event): Result<Partial, HistoryError> {
    if !IsGovernance(e) then Ok(h)
    else if e.schema != HISTORY_SCHEMA || e.contract != CONTRACT_VERSION then Err(UnsupportedVersion)
    else
      match e.body
      case StateSeeded(p) => AbsorbState(h, p)
      case ReviewOpened(p) => AbsorbOpening(h, RestoreObligation(p))
      case DecisionEntered(p) =>
        (match RestoreDecision(p)
         case Err(error) => Err(error)
         case Ok(d) => AbsorbDecision(h, d))
      case ApplicationCommitted(p, next) =>
        (match AbsorbReceipt(h, RestoreReceipt(p))
         case Err(error) => Err(error)
         case Ok(noted) => if next.None? then Ok(noted) else AbsorbState(noted, next.value))
      case EventProcessed(eventKey, ids) => AbsorbProcessed(h, ProcessedKey(e, eventKey), ids)
      case DispatchCommitted(_) => Ok(h)
      case Unrelated(_, _) => Ok(h)
  }

  function Absorbs(events: Journal): Result<Partial, HistoryError> {
    if events == [] then Ok(NOTHING_YET)
    else
      var h :- Absorbs(events[..|events| - 1]);
      Absorb(h, events[|events| - 1])
  }

  function OpenConfiguration(h: Partial): Configuration {
    Configuration(h.states, h.obligations - h.discharged, h.decisions, h.applications)
  }

  function Reconstruct(events: Journal): Result<CanonicalHistory, HistoryError> {
    var h :- Absorbs(events);
    var config := OpenConfiguration(h);
    :- Need(GlobalStateAdmissible(config), InadmissibleState);
    Ok(CanonicalHistory(config, h.processed))
  }

  /** The scan over the journal, one event at a time. */
  method ReconstructGovernanceHistory(events: Journal) returns (r: Result<CanonicalHistory, HistoryError>)
    ensures r == Reconstruct(events)
  {
    var h := NOTHING_YET;
    var i := 0;
    while i < |events|
      invariant 0 <= i <= |events|
      invariant Absorbs(events[..i]) == Ok(h)
    {
      assert events[..i + 1][..i] == events[..i];
      var step := Absorb(h, events[i]);
      if step.Err? {
        FailureSticks(events, i + 1);
        return Err(step.error);
      }
      h := step.value;
      i := i + 1;
    }
    assert events[..i] == events;
    var config := OpenConfiguration(h);
    if !GlobalStateAdmissible(config) {
      return Err(InadmissibleState);
    }
    return Ok(CanonicalHistory(config, h.processed));
  }

  lemma {:induction false} FailureSticks(events: Journal, n: nat)
    requires n <= |events| && Absorbs(events[..n]).Err?
    ensures Absorbs(events) == Absorbs(events[..n])
    decreases |events|
  {
    if n == |events| {
      assert events[..n] == events;
    } else {
      var prefix := events[..|events| - 1];
      assert prefix[..n] == events[..n];
      FailureSticks(prefix, n);
    }
  }

  // ---------------------------------------------- what one event contributes

  datatype FactKey = ReviewKey(id: string) | DecisionKey(id: string) | ApplicationKey(id: string) | EventKey(id: string)

  datatype Fact =
    | Opened(obligation: ReviewObligation)
    | Decided(decision: GovernanceDecision)
    | Committed(receipt: ApplicationReceipt)
    | Processed(ids: seq<string>)

  function Lookup(h: Partial, k: FactKey): Option<Fact> {
    match k
    case ReviewKey(id) => if id in h.obligations then Some(Opened(h.obligations[id])) else None
    case DecisionKey(id) => if id in h.decisions then Some(Decided(h.decisions[id])) else None
    case ApplicationKey(id) => if id in h.applications then Some(Committed(h.applications[id])) else None
    case EventKey(id) => if id in h.processed then Some(Processed(h.processed[id])) else None
  }

  function StateIn(e: Event): Option<StatePayload> {
    match e.body
    case StateSeeded(p) => Some(p)
    case ApplicationCommitted(_, next) => next
    case _ => None
  }

  /** Every governance event that can be read at all. */
  predicate Sound(e: Event) {
    IsGovernance(e) ==>
      && e.schema == HISTORY_SCHEMA
      && e.contract == CONTRACT_VERSION
      && (StateIn(e).Some? ==> RestoreState(StateIn(e).value).Ok?)
      && (e.body.DecisionEntered? ==> RestoreDecision(e.body.decision).Ok?)
  }

  function Carries(e: Event): Option<(string, DistinctionState)> {
    if StateIn(e).None? then None
    else
      match RestoreState(StateIn(e).value)
      case Ok(named) => Some(named)
      case Err(_) => None
  }

  function FactOf(e: Event): Option<(FactKey, Fact)> {
    match e.body
    case ReviewOpened(p) => var o := RestoreObligation(p); Some((ReviewKey(o.id), Opened(o)))
    case DecisionEntered(p) =>
      (match RestoreDecision(p)
       case Ok(d) => Some((DecisionKey(d.id), Decided(d)))
       case Err(_) => None)
    case ApplicationCommitted(p, _) =>
      var r := RestoreReceipt(p); Some((ApplicationKey(r.application.id), Committed(r)))
    case EventProcessed(eventKey, ids) => Some((EventKey(ProcessedKey(e, eventKey)), Processed(ids)))
    case _ => None
  }

  function Discharges(e: Event): set<string> {
    if e.body.ApplicationCommitted? then DischargedBy(RestoreReceipt(e.body.receipt)) else {}
  }

  predicate FactAgrees(h: Partial, e: Event) {
    FactOf(e).Some? ==>
      var (k, f) := FactOf(e).value;
      Lookup(h, k).None? || Lookup(h, k) == Some(f)
  }

  function StatesAfter(states: map<string, DistinctionState>, e: Event): map<string, DistinctionState> {
    match Carries(e)
    case Some(named) => Raised(states, named.0, named.1)
    case None => states
  }

  function LookupAfter(h: Partial, e: Event, k: FactKey): Option<Fact> {
    if FactOf(e).Some? && FactOf(e).value.0 == k then Some(FactOf(e).value.1) else Lookup(h, k)
  }

  lemma AbsorbSucceedsExactly(h: Partial, e: Event)
    ensures Absorb(h, e).Ok? <==> Sound(e) && FactAgrees(h, e)
  {
    match e.body
    case StateSeeded(p) =>
    case ReviewOpened(p) =>
    case DecisionEntered(p) =>
    case ApplicationCommitted(p, next) =>
    case EventProcessed(eventKey, ids) =>
    case _ =>
  }

  lemma AbsorbStates(h: Partial, e: Event)
    requires Absorb(h, e).Ok?
    ensures Absorb(h, e).value.states == StatesAfter(h.states, e)
    ensures Absorb(h, e).value.discharged == h.discharged + Discharges(e)
  {
    hide StateAdmissibleFor;
    match e.body
    case StateSeeded(p) =>
    case ReviewOpened(p) =>
    case DecisionEntered(p) =>
    case ApplicationCommitted(p, next) =>
    case EventProcessed(eventKey, ids) =>
    case _ =>
  }

  lemma OpeningLookup(h: Partial, o: ReviewObligation, k: FactKey)
    requires AbsorbOpening(h, o).Ok?
    ensures Lookup(AbsorbOpening(h, o).value, k) == if k == ReviewKey(o.id) then Some(Opened(o)) else Lookup(h, k)
  {
  }

  lemma DecisionLookup(h: Partial, d: GovernanceDecision, k: FactKey)
    requires AbsorbDecision(h, d).Ok?
    ensures Lookup(AbsorbDecision(h, d).value, k) == if k == DecisionKey(d.id) then Some(Decided(d)) else Lookup(h, k)
  {
  }

  lemma ReceiptLookup(h: Partial, r: ApplicationReceipt, k: FactKey)
    requires AbsorbReceipt(h, r).Ok?
    ensures Lookup(AbsorbReceipt(h, r).value, k)
         == if k == ApplicationKey(r.application.id) then Some(Committed(r)) else Lookup(h, k)
  {
  }

  lemma ProcessedLookup(h: Partial, key: string, ids: seq<string>, k: FactKey)
    requires AbsorbProcessed(h, key, ids).Ok?
    ensures Lookup(AbsorbProcessed(h, key, ids).value, k)
         == if k == EventKey(key) then Some(Processed(ids)) else Lookup(h, k)
  {
  }

  lemma StateLookup(h: Partial, p: StatePayload, k: FactKey)
    requires AbsorbState(h, p).Ok?
    ensures Lookup(AbsorbState(h, p).value, k) == Lookup(h, k)
  {
  }

  lemma AbsorbLookup(h: Partial, e: Event, k: FactKey)
    requires Absorb(h, e).Ok?
    ensures Lookup(Absorb(h, e).value, k) == LookupAfter(h, e, k)
  {
    match e.body
    case StateSeeded(p) => StateLookup(h, p, k);
    case ReviewOpened(p) => OpeningLookup(h, RestoreObligation(p), k);
    case DecisionEntered(p) => DecisionLookup(h, RestoreDecision(p).value, k);
    case ApplicationCommitted(p, next) =>
      ReceiptLookup(h, RestoreReceipt(p), k);
      if next.Some? {
        StateLookup(AbsorbReceipt(h, RestoreReceipt(p)).value, next.value, k);
      }
    case EventProcessed(eventKey, ids) => ProcessedLookup(h, ProcessedKey(e, eventKey), ids, k);
    case _ =>
  }

  /** One step of the fold, read off the event alone. */
  lemma AbsorbStep(h: Partial, e: Event)
    ensures Absorb(h, e).Ok? <==> Sound(e) && FactAgrees(h, e)
    ensures Absorb(h, e).Ok? ==>
      var next := Absorb(h, e).value;
      && next.states == StatesAfter(h.states, e)
      && next.discharged == h.discharged + Discharges(e)
      && (forall k :: Lookup(next, k) == LookupAfter(h, e, k))
  {
    AbsorbSucceedsExactly(h, e);
    if Absorb(h, e).Ok? {
      AbsorbStates(h, e);
      forall k ensures Lookup(Absorb(h, e).value, k) == LookupAfter(h, e, k) {
        AbsorbLookup(h, e, k);
      }
    }
  }

  // ------------------------------------------------------- event sets decide

  ghost predicate SameEvents(es: Journal, fs: Journal) {
    forall e :: e in es <==> e in fs
  }

  ghost predicate FactsMatch(es: Journal, h: Partial) {
    && (forall e | e in es && FactOf(e).Some? :: Lookup(h, FactOf(e).value.0) == Some(FactOf(e).value.1))
    && (forall k | Lookup(h, k).Some? :: exists e | e in es :: FactOf(e) == Some((k, Lookup(h, k).value)))
  }

  ghost predicate StatesMatch(es: Journal, states: map<string, DistinctionState>) {
    && (forall e | e in es && Carries(e).Some? ::
          Carries(e).value.0 in states && Carries(e).value.1.version <= states[Carries(e).value.0].version)
    && (forall k | k in states :: exists e | e in es :: Carries(e) == Some((k, states[k])))
  }

  ghost predicate DischargesMatch(es: Journal, discharged: set<string>) {
    && (forall e | e in es :: Discharges(e) <= discharged)
    && (forall id | id in discharged :: exists e | e in es :: id in Discharges(e))
  }

  ghost predicate Describes(es: Journal, h: Partial) {
    && (forall e | e in es :: Sound(e))
    && FactsMatch(es, h)
    && StatesMatch(es, h.states)
    && DischargesMatch(es, h.discharged)
  }

  lemma {:induction false} FoldDescribes(es: Journal)
    requires Absorbs(es).Ok?
    ensures Describes(es, Absorbs(es).value)
  {
    if es != [] {
      var prefix, last := es[..|es| - 1], es[|es| - 1];
      FoldDescribes(prefix);
      var h := Absorbs(prefix).value;
      AbsorbStep(h, last);
      DescribesExtends(prefix, last, h, Absorb(h, last).value);
      assert es == prefix + [last];
    }
  }

  lemma FactsMatchExtends(es: Journal, e: Event, h: Partial, next: Partial)
    requires FactsMatch(es, h) && FactAgrees(h, e)
    requires forall k :: Lookup(next, k) == LookupAfter(h, e, k)
    ensures FactsMatch(es + [e], next)
  {
    var all := es + [e];
    assert e in all && forall x | x in es :: x in all;
    forall k | Lookup(next, k).Some? ensures exists x | x in all :: FactOf(x) == Some((k, Lookup(next, k).value)) {
      if FactOf(e) != Some((k, Lookup(next, k).value)) {
        var x :| x in es && FactOf(x) == Some((k, Lookup(h, k).value));
        assert x in all;
      }
    }
  }

  lemma StatesMatchExtends(es: Journal, e: Event, states: map<string, DistinctionState>)
    requires StatesMatch(es, states)
    ensures StatesMatch(es + [e], StatesAfter(states, e))
  {
    hide Carries;
    var all, next := es + [e], StatesAfter(states, e);
    assert e in all && forall x | x in es :: x in all;
    forall k | k in next ensures exists x | x in all :: Carries(x) == Some((k, next[k])) {
      if Carries(e) != Some((k, next[k])) {
        var x :| x in es && Carries(x) == Some((k, states[k]));
        assert x in all;
      }
    }
  }

  lemma DischargesMatchExtends(es: Journal, e: Event, discharged: set<string>)
    requires DischargesMatch(es, discharged)
    ensures DischargesMatch(es + [e], discharged + Discharges(e))
  {
    var all := es + [e];
    assert e in all && forall x | x in es :: x in all;
    forall id | id in discharged + Discharges(e) ensures exists x | x in all :: id in Discharges(x) {
      if id !in Discharges(e) {
        var x :| x in es && id in Discharges(x);
        assert x in all;
      }
    }
  }

  lemma DescribesExtends(es: Journal, e: Event, h: Partial, next: Partial)
    requires Describes(es, h) && Absorb(h, e) == Ok(next)
    ensures Describes(es + [e], next)
  {
    AbsorbStep(h, e);
    FactsMatchExtends(es, e, h, next);
    StatesMatchExtends(es, e, h.states);
    DischargesMatchExtends(es, e, h.discharged);
  }

  /** No identity is given two meanings, and everything can be read. */
  ghost predicate Agreeable(es: Journal) {
    && (forall e | e in es :: Sound(e))
    && (forall e, f | e in es && f in es && FactOf(e).Some? && FactOf(f).Some? ::
          FactOf(e).value.0 == FactOf(f).value.0 ==> FactOf(e) == FactOf(f))
  }

  /** The fold succeeds on exactly the agreeable event collections. */
  lemma {:induction false} FoldSucceedsExactly(es: Journal)
    ensures Absorbs(es).Ok? <==> Agreeable(es)
  {
    if Absorbs(es).Ok? {
      FoldDescribes(es);
    }
    if es != [] && Agreeable(es) {
      var prefix, last := es[..|es| - 1], es[|es| - 1];
      assert last in es && forall x | x in prefix :: x in es;
      FoldSucceedsExactly(prefix);
      FoldDescribes(prefix);
      var h := Absorbs(prefix).value;
      assert FactAgrees(h, last) by {
        if FactOf(last).Some? && Lookup(h, FactOf(last).value.0).Some? {
          var k := FactOf(last).value.0;
          var x :| x in prefix && FactOf(x) == Some((k, Lookup(h, k).value));
        }
      }
      AbsorbStep(h, last);
    }
  }

  lemma ReconstructsWheneverItFolds(es: Journal)
    ensures Reconstruct(es).Ok? <==> Absorbs(es).Ok?
    ensures Absorbs(es).Ok? ==>
      Reconstruct(es) == Ok(CanonicalHistory(OpenConfiguration(Absorbs(es).value), Absorbs(es).value.processed))
  {
    if Absorbs(es).Ok? {
      FoldDescribes(es);
      var h := Absorbs(es).value;
      forall k | k in h.states ensures StateAdmissibleFor(k, h.states[k]) {
        var e :| e in es && Carries(e) == Some((k, h.states[k]));
      }
    }
  }

  // ------------------------------------------------------ order independence

  ghost predicate TopFor(es: Journal, k: string, s: DistinctionState) {
    && (exists e | e in es :: Carries(e) == Some((k, s)))
    && (forall e | e in es && Carries(e).Some? && Carries(e).value.0 == k :: Carries(e).value.1.version <= s.version)
  }

  /** At its highest version, no scheme has two different states. */
  ghost predicate TopUnique(es: Journal) {
    forall k, s, t | TopFor(es, k, s) && TopFor(es, k, t) :: s == t
  }

  ghost predicate VersionsFixStates(es: Journal) {
    forall e, f | e in es && f in es && Carries(e).Some? && Carries(f).Some? ::
      Carries(e).value.0 == Carries(f).value.0 && Carries(e).value.1.version == Carries(f).value.1.version
      ==> Carries(e) == Carries(f)
  }

  lemma VersionsFixTop(es: Journal)
    requires VersionsFixStates(es)
    ensures TopUnique(es)
  {
    forall k, s, t | TopFor(es, k, s) && TopFor(es, k, t) ensures s == t {
      var e :| e in es && Carries(e) == Some((k, s));
      var f :| f in es && Carries(f) == Some((k, t));
    }
  }

  lemma FactsUnique(es: Journal, fs: Journal, g: Partial, h: Partial, k: FactKey)
    requires SameEvents(es, fs) && FactsMatch(es, g) && FactsMatch(fs, h)
    ensures Lookup(g, k) == Lookup(h, k)
  {
    if Lookup(g, k).Some? {
      var e :| e in es && FactOf(e) == Some((k, Lookup(g, k).value));
      assert e in fs;
    }
    if Lookup(h, k).Some? {
      var e :| e in fs && FactOf(e) == Some((k, Lookup(h, k).value));
      assert e in es;
    }
  }

  lemma StatesUnique(
    es: Journal, fs: Journal, s: map<string, DistinctionState>, t: map<string, DistinctionState>, k: string
  )
    requires SameEvents(es, fs) && TopUnique(es) && StatesMatch(es, s) && StatesMatch(fs, t)
    ensures (k in s <==> k in t) && (k in s ==> s[k] == t[k])
  {
    if k in s {
      var e :| e in es && Carries(e) == Some((k, s[k]));
      assert e in fs;
      assert TopFor(es, k, s[k]);
    }
    if k in t {
      var e :| e in fs && Carries(e) == Some((k, t[k]));
      assert e in es;
      assert TopFor(es, k, t[k]);
    }
  }

  lemma DischargesUnique(es: Journal, fs: Journal, s: set<string>, t: set<string>)
    requires SameEvents(es, fs) && DischargesMatch(es, s) && DischargesMatch(fs, t)
    ensures s == t
  {
    forall id ensures id in s <==> id in t {
      if id in s { var e :| e in es && id in Discharges(e); assert e in fs; }
      if id in t { var e :| e in fs && id in Discharges(e); assert e in es; }
    }
  }

  lemma DescriptionUnique(es: Journal, fs: Journal, g: Partial, h: Partial)
    requires SameEvents(es, fs) && TopUnique(es)
    requires Describes(es, g) && Describes(fs, h)
    ensures g == h
  {
    forall k ensures Lookup(g, k) == Lookup(h, k) {
      FactsUnique(es, fs, g, h, k);
    }
    LookupDecides(g, h);
    forall k ensures (k in g.states <==> k in h.states) && (k in g.states ==> g.states[k] == h.states[k]) {
      StatesUnique(es, fs, g.states, h.states, k);
    }
    assert g.states == h.states;
    DischargesUnique(es, fs, g.discharged, h.discharged);
  }

  lemma LookupDecides(g: Partial, h: Partial)
    requires forall k :: Lookup(g, k) == Lookup(h, k)
    ensures g.obligations == h.obligations && g.decisions == h.decisions
    ensures g.applications == h.applications && g.processed == h.processed
  {
    forall id
      ensures (id in g.obligations <==> id in h.obligations) && (id in g.obligations ==> g.obligations[id] == h.obligations[id])
    {
      assert Lookup(g, ReviewKey(id)) == Lookup(h, ReviewKey(id));
    }
    forall id
      ensures (id in g.decisions <==> id in h.decisions) && (id in g.decisions ==> g.decisions[id] == h.decisions[id])
    {
      assert Lookup(g, DecisionKey(id)) == Lookup(h, DecisionKey(id));
    }
    forall id
      ensures (id in g.applications <==> id in h.applications) && (id in g.applications ==> g.applications[id] == h.applications[id])
    {
      assert Lookup(g, ApplicationKey(id)) == Lookup(h, ApplicationKey(id));
    }
    forall id
      ensures (id in g.processed <==> id in h.processed) && (id in g.processed ==> g.processed[id] == h.processed[id])
    {
      assert Lookup(g, EventKey(id)) == Lookup(h, EventKey(id));
    }
    assert g.obligations == h.obligations && g.decisions == h.decisions;
    assert g.applications == h.applications && g.processed == h.processed;
  }

  lemma AgreementIsASetProperty(es: Journal, fs: Journal)
    requires SameEvents(es, fs) && Agreeable(es)
    ensures Agreeable(fs)
  {
  }

  lemma SameEventsSymmetric(es: Journal, fs: Journal)
    requires SameEvents(es, fs)
    ensures SameEvents(fs, es)
  {
  }

  /** Reordering or repeating events changes neither success nor result. */
  lemma OrderIrrelevant(es: Journal, fs: Journal)
    requires SameEvents(es, fs) && TopUnique(es)
    ensures Reconstruct(es).Ok? <==> Reconstruct(fs).Ok?
    ensures Reconstruct(es).Ok? ==> Reconstruct(es) == Reconstruct(fs)
  {
    ReconstructsWheneverItFolds(es);
    ReconstructsWheneverItFolds(fs);
    FoldSucceedsExactly(es);
    FoldSucceedsExactly(fs);
    if Agreeable(es) {
      AgreementIsASetProperty(es, fs);
      FoldDescribes(es);
      FoldDescribes(fs);
      DescriptionUnique(es, fs, Absorbs(es).value, Absorbs(fs).value);
    } else if Agreeable(fs) {
      SameEventsSymmetric(es, fs);
      AgreementIsASetProperty(fs, es);
    }
  }

  lemma {:induction false} FirstTopWins(e: Event, es: Journal, k: string, s: DistinctionState)
    requires Carries(e) == Some((k, s))
    requires forall x | x in es && Carries(x).Some? && Carries(x).value.0 == k :: Carries(x).value.1.version <= s.version
    requires Absorbs([e] + es).Ok?
    ensures var h := Absorbs([e] + es).value; k in h.states && h.states[k] == s
  {
    var all := [e] + es;
    if es == [] {
      assert all[..0] == [] && all[0] == e;
      AbsorbStep(NOTHING_YET, e);
    } else {
      var last := es[|es| - 1];
      assert all[..|all| - 1] == [e] + es[..|es| - 1];
      FirstTopWins(e, es[..|es| - 1], k, s);
      AbsorbStep(Absorbs([e] + es[..|es| - 1]).value, last);
      assert last in es;
    }
  }

  lemma PrependedTopWins(e: Event, es: Journal, k: string, s: DistinctionState)
    requires e in es && Absorbs(es).Ok? && Carries(e) == Some((k, s)) && TopFor(es, k, s)
    ensures SameEvents(es, [e] + es) && Reconstruct([e] + es).Ok?
    ensures var c := Reconstruct([e] + es).value.configuration; k in c.states && c.states[k] == s
  {
    FoldSucceedsExactly(es);
    FoldSucceedsExactly([e] + es);
    FirstTopWins(e, es, k, s);
    ReconstructsWheneverItFolds([e] + es);
  }

  /** The condition is exact: without it some reordering gives another configuration. */
  lemma OrderIrrelevantExactly(es: Journal)
    requires Reconstruct(es).Ok?
    ensures TopUnique(es) <==> (forall fs | SameEvents(es, fs) :: Reconstruct(fs) == Reconstruct(es))
  {
    if TopUnique(es) {
      forall fs | SameEvents(es, fs) ensures Reconstruct(fs) == Reconstruct(es) {
        OrderIrrelevant(es, fs);
      }
    } else {
      SomeOrderDiffers(es);
    }
  }

  lemma TwoTopsDiffer(es: Journal, k: string, s: DistinctionState, t: DistinctionState)
    requires Reconstruct(es).Ok? && TopFor(es, k, s) && TopFor(es, k, t) && s != t
    ensures exists fs, gs :: SameEvents(es, fs) && SameEvents(es, gs) && Reconstruct(fs) != Reconstruct(gs)
  {
    hide Carries;
    var e :| e in es && Carries(e) == Some((k, s));
    var f :| f in es && Carries(f) == Some((k, t));
    ReconstructsWheneverItFolds(es);
    PrependedTopWins(e, es, k, s);
    PrependedTopWins(f, es, k, t);
    var fs, gs := [e] + es, [f] + es;
    assert Reconstruct(fs).value.configuration.states[k] != Reconstruct(gs).value.configuration.states[k];
  }

  lemma SomeOrderDiffers(es: Journal)
    requires Reconstruct(es).Ok? && !TopUnique(es)
    ensures exists fs | SameEvents(es, fs) :: Reconstruct(fs) != Reconstruct(es)
  {
    var k, s, t :| TopFor(es, k, s) && TopFor(es, k, t) && s != t;
    TwoTopsDiffer(es, k, s, t);
    var fs, gs :| SameEvents(es, fs) && SameEvents(es, gs) && Reconstruct(fs) != Reconstruct(gs);
    assert Reconstruct(fs) != Reconstruct(es) || Reconstruct(gs) != Reconstruct(es);
  }

  lemma FirstSeedWins(k: string, s: DistinctionState, t: DistinctionState)
    requires StateAdmissibleFor(k, s) && StateAdmissibleFor(k, t) && s.version == t.version
    ensures var r := Reconstruct([StateSeedEvent(k, s), StateSeedEvent(k, t)]);
      r.Ok? && k in r.value.configuration.states && r.value.configuration.states[k] == s
  {
    hide StateAdmissibleFor, EncodeState;
    var e, f := StateSeedEvent(k, s), StateSeedEvent(k, t);
    StateRoundTrip(k, s);
    StateRoundTrip(k, t);
    assert [e] + [f] == [e, f];
    FoldSucceedsExactly([e, f]);
    FirstTopWins(e, [f], k, s);
    ReconstructsWheneverItFolds([e, f]);
  }

  const UNDECIDED := DistinctionState("candidate", "suspended", {}, [], 0)
  const REJECTED := DistinctionState("disqualified", "suspended", {}, [], 0)

  /** Two events that the condition shuts out: whichever comes first is believed. */
  lemma OrderCanDecide()
    ensures var a, b := StateSeedEvent("k", UNDECIDED), StateSeedEvent("k", REJECTED);
      && Reconstruct([a, b]).Ok? && Reconstruct([b, a]).Ok?
      && Reconstruct([a, b]).value.configuration.states["k"] == UNDECIDED
      && Reconstruct([b, a]).value.configuration.states["k"] == REJECTED
      && !TopUnique([a, b])
  {
    hide Reconstruct, EncodeState, TopUnique;
    var a, b := StateSeedEvent("k", UNDECIDED), StateSeedEvent("k", REJECTED);
    assert StateAdmissibleFor("k", UNDECIDED) && StateAdmissibleFor("k", REJECTED) by {
      assert ExactCover([], {});
    }
    FirstSeedWins("k", UNDECIDED, REJECTED);
    FirstSeedWins("k", REJECTED, UNDECIDED);
    if TopUnique([a, b]) {
      OrderIrrelevant([a, b], [b, a]);
      assert false;
    }
  }
}
