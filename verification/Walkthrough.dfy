/**
 One review from opening to renewed use: a suspended scheme is reviewed, a
 decision to activate it is recorded and applied, the review is discharged on
 the strength of that transition, and only then may the scheme be used.
 */
module Walkthrough {
  import opened Wrappers
  import opened Distinction
  import opened Kernel

  const SUSPENDED := DistinctionState("qualified", "suspended", {"s"}, [{"s"}], 0)
  const ACTIVE := SUSPENDED.(activation := "active", version := 1)
  const USE := UseContext("c", {"s"})

  const REVIEW := ReviewObligation("r", "k", "e", ["b"], "c", true, Some(BlockingCondition({"c"}, {}, {})), {"basis_checked"}, {})

  const DECISION := GovernanceDecision(
    "d", "a", DECIDE_ACTIVATION, "k", "c", ["r"], "transition_required", StateAnchor(SUSPENDED), [("b", "1")],
    {"s"}, [{"s"}], {"basis_checked"}, None, Some("active"), false)

  const ACTIVATION := GovernedApplication("x", "a", APPLY_ACTIVATION, "k", "k", "d", "c", None, Some("active"), None)

  const DISCHARGE := GovernedApplication(
    "y", "a", APPLY_REVIEW_DISCHARGE, "k", "review_obligation:" + "r", "d", "c", None, None, Some("r"))

  const REVIEWED := Configuration(map["k" := SUSPENDED], map["r" := REVIEW], map[], map[])
  const DECIDED := REVIEWED.(decisions := map["d" := DECISION])

  const APPLIED := DECIDED.(states := map["k" := ACTIVE], applications := map["x" := StateReceipt(ACTIVATION, SUSPENDED)])

  function Anyone(q: AuthorityRequest): bool {
    true
  }

  function Unchanged(ref: string): Option<string> {
    if ref == "b" then Some("1") else None
  }

  lemma StatesAreAdmissible()
    ensures StateAdmissibleFor("k", SUSPENDED) && StateAdmissibleFor("k", ACTIVE)
  {
    var cells: seq<set<string>> := [{"s"}];
    assert cells[1..] == [] && cells[0] == {"s"};
    assert CoverRest(cells[1..], {} + cells[0], {"s"});
    assert ExactCover(cells, {"s"});
  }

  lemma Deciding()
    ensures RecordDecision(REVIEWED, DECISION, Anyone) == Some(DECIDED)
  {
    hide StateAnchor;
    assert DECISION.basisAnchors[0].0 == "b";
    assert ReviewInputMatches(DECISION, REVIEWED);
  }

  lemma Applying()
    ensures ApplyStateTransition(DECIDED, ACTIVATION, Anyone, Unchanged) == Some(APPLIED)
  {
    hide StateAnchor, StateAdmissibleFor, CanonicalPartition;
    StatesAreAdmissible();
    assert CandidateEffect(ACTIVATION, SUSPENDED) == ACTIVE;
    assert FreshForApplication(DECISION, DECIDED, Unchanged);
    assert DECIDED.states["k" := ACTIVE] == APPLIED.states;
    assert DECIDED.applications["x" := StateReceipt(ACTIVATION, SUSPENDED)] == APPLIED.applications;
  }

  lemma Discharging()
    ensures ApplyReviewDischarge(APPLIED, DISCHARGE, Anyone, Unchanged, Some(ACTIVATION)).Some?
    ensures ApplyReviewDischarge(APPLIED, DISCHARGE, Anyone, Unchanged, Some(ACTIVATION)).value.obligations == map[]
    ensures ApplyReviewDischarge(APPLIED, DISCHARGE, Anyone, Unchanged, Some(ACTIVATION)).value.states == APPLIED.states
  {
    hide StateAnchor, StateAdmissibleFor, CanonicalPartition, ApplicationAdmissible, ObligationsAnchor;
    Applying();
    AppliedIsRealized(DECIDED, ACTIVATION, Anyone, Unchanged);
    assert CommonFreshness(DECISION, APPLIED, Unchanged);
    assert ClosureAdmissible(DECISION, REVIEW, APPLIED, Unchanged);
    assert Precondition(DISCHARGE, APPLIED);
    assert map["r" := REVIEW] - {"r"} == map[];
  }

  /** Neither activation alone nor the review's mere age reopens the use; discharging the answered review does. */
  lemma UseResumesOnlyAfterDischarge()
    ensures RecordDecision(REVIEWED, DECISION, Anyone) == Some(DECIDED)
    ensures ApplyStateTransition(DECIDED, ACTIVATION, Anyone, Unchanged) == Some(APPLIED)
    ensures !Usable(REVIEWED, "k", USE) && !Usable(DECIDED, "k", USE) && !Usable(APPLIED, "k", USE)
    ensures ApplyReviewDischarge(DECIDED, DISCHARGE, Anyone, Unchanged, Some(ACTIVATION)).None?
    ensures var after := ApplyReviewDischarge(APPLIED, DISCHARGE, Anyone, Unchanged, Some(ACTIVATION));
      after.Some? && Usable(after.value, "k", USE)
  {
    hide StateAnchor, StateAdmissibleFor, ApplyStateTransition, RecordDecision;
    Deciding();
    Applying();
    Discharging();
    assert APPLIED.obligations["r"] == REVIEW && ObligationBlocks(REVIEW, USE, {"s"});
  }
}
