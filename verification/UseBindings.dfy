/**
 When a judgment is bound to the experience it relies on, and what a recorded use
 must look like to be believed, in plain facts.
 */
module UseBindings {
  import opened Wrappers
  import opened Text
  import opened ExperienceUse
  import opened ExperienceSnapshot
  import opened ExperienceVerdicts
  import opened ExperienceConditions
  import opened SnapshotContents
  import opened HistoricalUse

  /** The id is more than blanks. */
  ghost predicate Named(id: string) {
    exists i :: 0 <= i < |id| && !Blank(id[i])
  }

  lemma NamedExactly(id: string)
    ensures Strip(id) != "" <==> Named(id)
  {
    StripExactly(id, "");
    if !Named(id) {
      assert id[0..0] == "" && forall n | 0 <= n < 0 || 0 <= n < |id| :: Blank(id[n]);
    }
  }

  // --------------------------------------------------------------- recorded uses

  /** What a use event has to say of itself to be read at all, and what it is then read as. */
  lemma UseReadExactly(e: UseEvent)
    ensures ReadEvent(e).Ok? <==>
      var p, r := e.payload, e.payload.snapshot.requirement;
      && p.schema == "historical-experience-use-v1" && p.role == "historical-experience-use"
      && p.judgmentRef != "" && p.judgmentVersion >= 1
      && e.subject == p.judgmentRef
      && e.id == UseId("historical-experience-use-v1", "historical-experience-use", p.judgmentRef, p.judgmentVersion)
      && p.snapshotDigest == p.snapshot && p.contract == "experience-use-admission-v1"
      && p.snapshot.schema == "resolved-experience-use-snapshot-v1" && r.schema == "experience-use-requirement-v1"
      && "" !in p.selected && p.selected == Sorted(Elements(p.selected)) && r.refs == p.selected
      && p.requirementDigest
         == r.(useScope := Timeless(r.useScope), environment := Timeless(r.environment), context := Timeless(r.context))
      && |p.snapshot.projections| == |p.selected|
      && forall i | 0 <= i < |p.selected| :: p.snapshot.projections[i].id == p.selected[i]
    ensures ReadEvent(e).Ok? ==>
      var p := e.payload;
      ReadEvent(e).value == Binding(
        e.id, p.judgmentRef, p.judgmentVersion, p.requirementDigest, p.snapshot, p.snapshot, p.selected, "experience-use-admission-v1")
  {
    hide Sorted, Elements;
    var p, r := e.payload, e.payload.snapshot.requirement;
    TimelessExactly(r.useScope);
    TimelessExactly(r.environment);
    TimelessExactly(r.context);
    if |p.snapshot.projections| == |p.selected| && forall i | 0 <= i < |p.selected| :: p.snapshot.projections[i].id == p.selected[i] {
      assert ProjectionIds(p.snapshot.projections) == p.selected;
    }
  }

  /** The judgment of a recorded use is on record as an assertion, in that version, made as a task domain judgment. */
  lemma GroundedExactly(s: Store, e: UseEvent)
    ensures Grounded(s, e) <==>
      && ReadEvent(e).Ok?
      && exists j ::
           && e.payload.judgmentRef in s.records && s.records[e.payload.judgmentRef] == AssertionRecord(j)
           && j.version == e.payload.judgmentVersion && j.role == "task-domain-judgment"
  {
    hide ReadEvent;
    UseReadExactly(e);
  }

  // ------------------------------------------------------------------ binding anew

  /** A selected projection counts the judgment among its own judgments or assertions. */
  ghost predicate JudgesItself(state: State, q: Request) {
    exists ref, p ::
      ref in q.requirement.refs && Registered(state, ref, p) && (q.judgment.id in p.judgments || q.judgment.id in p.assertions)
  }

  lemma SeparateExactly(state: State, q: Request)
    ensures SeparateNow(state, q.judgment, q.requirement) <==> !JudgesItself(state, q)
  {
    hide FindProjection, Registered;
    if !SeparateNow(state, q.judgment, q.requirement) {
      var ref :| ref in q.requirement.refs && Known(state, ref)
        && Qualifies(FindProjection(state, ref).value.projection.value, q.judgment.id);
      RegisteredExactly(state, ref);
      assert Registered(state, ref, KnownAs(state, ref));
    }
    if JudgesItself(state, q) {
      var ref, p :| ref in q.requirement.refs && Registered(state, ref, p)
        && (q.judgment.id in p.judgments || q.judgment.id in p.assertions);
      RegisteredExactly(state, ref);
      assert Qualifies(FindProjection(state, ref).value.projection.value, q.judgment.id);
    }
  }

  lemma SeparateInSnapshot(state: State, q: Request)
    ensures SeparateNow(state, q.judgment, q.requirement) ==> SeparateIn(Evaluate(state, q.requirement).snapshot, q.judgment)
  {
    hide SeparateNow, Registered, Evaluate;
    SeparateExactly(state, q);
    SnapshotListsExactly(state, q.requirement);
  }

  /**
   In a sound store, a judgment that is not bound yet is bound exactly when it is a
   named task domain judgment in its first or a later version, nothing is on record
   under its id, it does not judge itself, the experience selected may be relied on
   now, and requirement, snapshot and contract are the ones expected.
   */
  lemma BoundInPlainFacts(s: Store, q: Request, accepted: bool)
    requires Sound(s) && GraphValid(s) && CanonicalRefs(q.requirement.refs)
    requires UseId("historical-experience-use-v1", "historical-experience-use", q.judgment.id, q.judgment.version) !in s.events
    ensures var a := Evaluate(s.exported, q.requirement);
      Commit(s, q, accepted).0.Ok? <==>
        && accepted
        && Named(q.judgment.id) && q.judgment.version >= 1 && q.judgment.role == "task-domain-judgment"
        && q.judgment.id !in s.records && !JudgesItself(s.exported, q)
        && q.requirement.refs != []
        && (forall ref | ref in q.requirement.refs ::
              exists p :: Registered(s.exported, ref, p) && Trustworthy(s.exported, p, q.requirement))
        && a.requirementDigest == q.expectedRequirement && a.snapshot == q.expectedSnapshot
        && (q.expectedContract.None? || q.expectedContract == Some("experience-use-admission-v1"))
  {
    hide Evaluate, Sound, GraphValid, CanonicalRefs, Commit, SeparateNow, SeparateIn, JudgesItself, Registered, Trustworthy, StatusOf;
    BoundAnewExactly(s, q, accepted);
    NamedExactly(q.judgment.id);
    SeparateExactly(s.exported, q);
    SeparateInSnapshot(s.exported, q);
    AllowedInPlainFacts(s.exported, q.requirement);
    StatusAdmitted(s.exported, q.requirement);
  }

  lemma StatusAdmitted(state: State, r: Requirement)
    ensures Evaluate(state, r).status == StatusOf(state, r)
  {
    hide StatusOf, SnapshotOf, ReasonsOf;
  }

  /** What is then on record: the judgment, and one use that names it with all it was bound to. */
  lemma BoundWritesExactly(s: Store, q: Request, accepted: bool)
    requires UseId("historical-experience-use-v1", "historical-experience-use", q.judgment.id, q.judgment.version) !in s.events
    ensures var (b, after) := Commit(s, q, accepted);
      var a := Evaluate(s.exported, q.requirement);
      var id := UseId("historical-experience-use-v1", "historical-experience-use", q.judgment.id, q.judgment.version);
      if b.Err? then after == s
      else
        after == Store(
          s.records[q.judgment.id := AssertionRecord(q.judgment)],
          s.events[id := UseEvent(
            id, q.judgment.id,
            UsePayload("historical-experience-use-v1", "historical-experience-use", q.judgment.id, q.judgment.version,
                       a.requirementDigest, a.snapshot, a.snapshot, q.requirement.refs, "experience-use-admission-v1"))],
          s.exported)
  {
    hide Evaluate, ReadEvent, GraphValid, SeparateNow, SeparateIn, UsableJudgment;
    SnapshotQuotesExactly(s.exported, q.requirement);
  }

  /** On every run each recorded use is filed under the judgment it names, which is on record, and no judgment has two. */
  lemma OneUsePerJudgment(steps: seq<Step>)
    ensures var s := Run(EMPTY_STORE, steps);
      && (forall id | id in s.events ::
            && s.events[id].id == id && id.judgmentRef in s.records
            && id == UseId("historical-experience-use-v1", "historical-experience-use", id.judgmentRef, id.judgmentVersion))
      && (forall id, other | id in s.events && other in s.events && id.judgmentRef == other.judgmentRef :: id == other)
  {
    hide Run;
    AtMostOneBinding(steps);
  }
}
