/**
 The two ways in which an accepted run parts projection and journal: a review
 opened a second time after its discharge, which the journal considers closed,
 and a review discharged under the empty id, which the journal considers open.
 */
module Divergence {
  import opened Wrappers
  import opened Text
  import opened Distinction
  import opened Canonical
  import opened History
  import opened Durable
  import opened Coherence
  import opened Runs

  const DORMANT := DistinctionState("candidate", "suspended", {}, [], 0)

  function Review(id: string): ReviewObligation {
    ReviewObligation(id, "k", "e", [], "c", true, None, {}, {})
  }

  function Answer(id: string): GovernanceDecision {
    GovernanceDecision("d", "a", DECIDE_QUALIFICATION, "k", "c", [id], "no_change", StateAnchor(DORMANT), [],
                       {}, [], {}, None, None, false)
  }

  function Closing(id: string): ApplicationReceipt {
    ApplicationReceipt(
      GovernedApplication("x", "a", APPLY_REVIEW_DISCHARGE, "k", "review_obligation:" + id, "d", "c", None, None, Some(id)),
      "review_discharge", ObligationsAnchor(map[id := Review(id)]), ObligationsAnchor(map[]))
  }

  const SEEDED := Configuration(map["k" := DORMANT], map[], map[], map[])

  function Open(id: string): Configuration {
    SEEDED.(obligations := map[id := Review(id)])
  }

  function Answered(id: string): Configuration {
    Open(id).(decisions := map["d" := Answer(id)])
  }

  function Closed(id: string): Configuration {
    Answered(id).(obligations := map[], applications := map["x" := Closing(id)])
  }

  function Written(id: string): Journal {
    [StateSeedEvent("k", DORMANT), ReviewOpenedEvent(Review(id)), DecisionRecordedEvent(Answer(id)),
     ApplicationCommittedEvent(Closing(id), None)]
  }

  /** Seed, open, decide, discharge, and open again. */
  function Course(id: string): seq<Operation> {
    [Seed("k", DORMANT), OpenOne(Review(id)), Decide(Answer(id)), Operation.Discharge(id, Closing(id), None), OpenOne(Review(id))]
  }

  lemma LandsWhenNothingTaken(d: Durable, config: Configuration, e: Event)
    requires forall x | x in d.journal :: x.id != e.id
    ensures Land(d, config, e) == Ok(Durable(config, d.journal + [e]))
  {
  }

  lemma SeedingWorks(id: string)
    ensures Perform(EMPTY, Course(id)[0]) == Ok(Durable(SEEDED, Written(id)[..1]))
  {
    hide EncodeState;
    assert StateAdmissibleFor("k", DORMANT) by {
      assert ExactCover([], {});
    }
    assert EMPTY_CONFIGURATION.(states := EMPTY_CONFIGURATION.states["k" := DORMANT]) == SEEDED;
    LandsWhenNothingTaken(EMPTY, SEEDED, StateSeedEvent("k", DORMANT));
    assert EMPTY.journal + [StateSeedEvent("k", DORMANT)] == Written(id)[..1];
    assert SeedState(EMPTY, "k", DORMANT) == Land(EMPTY, SEEDED, StateSeedEvent("k", DORMANT));
  }

  lemma OpeningWorks(id: string)
    ensures Perform(Durable(SEEDED, Written(id)[..1]), Course(id)[1]) == Ok(Durable(Open(id), Written(id)[..2]))
  {
    hide EncodeObligation, EncodeState;
    assert Written(id)[..2] == Written(id)[..1] + [ReviewOpenedEvent(Review(id))];
    LandsWhenNothingTaken(Durable(SEEDED, Written(id)[..1]), Open(id), ReviewOpenedEvent(Review(id)));
  }

  lemma AnsweringWorks(id: string)
    ensures Perform(Durable(Open(id), Written(id)[..2]), Course(id)[2]) == Ok(Durable(Answered(id), Written(id)[..3]))
  {
    hide StateAnchor, EncodeDecision, EncodeObligation, EncodeState;
    assert ReviewInputMatches(Answer(id), Open(id));
    assert Written(id)[..3] == Written(id)[..2] + [DecisionRecordedEvent(Answer(id))];
    LandsWhenNothingTaken(Durable(Open(id), Written(id)[..2]), Answered(id), DecisionRecordedEvent(Answer(id)));
  }

  lemma DischargingWorks(id: string)
    ensures Perform(Durable(Answered(id), Written(id)[..3]), Course(id)[3]) == Ok(Durable(Closed(id), Written(id)))
  {
    hide ObligationsAnchor, StateAnchor;
    assert Written(id) == Written(id)[..3] + [ApplicationCommittedEvent(Closing(id), None)];
    assert map[id := Review(id)] - {id} == map[];
  }

  lemma ReopeningWorks(id: string)
    ensures Perform(Durable(Closed(id), Written(id)), Course(id)[4])
         == Ok(Durable(Closed(id).(obligations := map[id := Review(id)]), Written(id)))
  {
    assert Written(id)[1] == ReviewOpenedEvent(Review(id));
  }

  /** Each of the five steps is accepted. */
  lemma EveryStepAccepted(id: string)
    ensures forall n | 0 <= n < 5 :: Perform(Run(Course(id)[..n]), Course(id)[n]).Ok?
    ensures Run(Course(id)[..4]) == Durable(Closed(id), Written(id))
    ensures Run(Course(id)) == Durable(Closed(id).(obligations := map[id := Review(id)]), Written(id))
  {
    hide Perform;
    SeedingWorks(id);
    OpeningWorks(id);
    AnsweringWorks(id);
    DischargingWorks(id);
    ReopeningWorks(id);
    assert Course(id)[..0] == [];
    OneMore(Course(id), 0);
    OneMore(Course(id), 1);
    OneMore(Course(id), 2);
    OneMore(Course(id), 3);
    OneMore(Course(id), 4);
    assert Course(id)[..5] == Course(id);
  }

  lemma WrittenFolds(d: Durable, id: string)
    requires Indexed(d) && d.journal == Written(id)
    ensures Reconstruct(d.journal).Ok?
    ensures var h := Reconstruct(d.journal).value.configuration;
      id in h.obligations <==> id == ""
  {
    hide FactsMatch, StatesMatch, Indexed;
    ReconstructsWheneverItFolds(d.journal);
    RebuildRestoresCoherence(d);
    ReceiptRoundTrip(Closing(id));
    assert Written(id)[3] in d.journal && Written(id)[1] in d.journal;
    ReopeningIndexed(d, Review(id));
    DischargedThere(id);
    assert FoldOf(d).discharged == DischargedIds(d.journal);
  }

  lemma DischargedThere(id: string)
    ensures id in DischargedIds(Written(id)) <==> id != ""
  {
    var w := Written(id);
    assert Discharges(w[0]) == Discharges(w[1]) == Discharges(w[2]) == {};
    assert Discharges(w[3]) == if id == "" then {} else {id} by {
      ReceiptRoundTrip(Closing(id));
    }
    assert w[3] in w;
    assert forall e | e in w :: e == w[0] || e == w[1] || e == w[2] || e == w[3];
  }

  /**
   Seeded, opened, answered, discharged and opened again, every step accepted: for
   every id but the empty one the review is now open in the projection, closed in the journal.
   */
  lemma ReopeningDiverges(id: string)
    requires id != ""
    ensures forall n | 0 <= n < 5 :: Perform(Run(Course(id)[..n]), Course(id)[n]).Ok?
    ensures Reconstruct(Run(Course(id)).journal).Ok? && id in Run(Course(id)).config.obligations
    ensures id !in Reconstruct(Run(Course(id)).journal).value.configuration.obligations
  {
    hide Perform, Indexed, Reconstruct;
    EveryStepAccepted(id);
    EveryRunIsIndexed(Course(id));
    WrittenFolds(Run(Course(id)), id);
  }

  /** Already before the last step, under the empty id: discharged from the projection, still open in the journal. */
  lemma EmptyDischargeDiverges()
    ensures forall n | 0 <= n < 4 :: Perform(Run(Course("")[..n]), Course("")[n]).Ok?
    ensures Reconstruct(Run(Course("")[..4]).journal).Ok? && "" !in Run(Course("")[..4]).config.obligations
    ensures "" in Reconstruct(Run(Course("")[..4]).journal).value.configuration.obligations
  {
    hide Perform, Indexed, Reconstruct;
    EveryStepAccepted("");
    EveryRunIsIndexed(Course("")[..4]);
    WrittenFolds(Run(Course("")[..4]), "");
  }
}
