/**
 The policy decision algebra: deny over defer over the union of requirements
 over allow, with conflicting requirements denied.
 */
module Policies {
  import opened Wrappers

  datatype Disposition = Allow | Deny | Defer | Require

  datatype LegacyStatus = AllowStatus | DenyStatus | RequireApproval | RequireVerification

  /** `params` stands for the canonical listing of the obligation's parameters. */
  datatype Obligation = Obligation(kind: string, params: string, waivable: bool)

  /** A decision as a policy writes it; either field may be left out. */
  datatype RawDecision = RawDecision(disposition: Option<Disposition>, status: Option<LegacyStatus>, obligations: seq<Obligation>)

  datatype Decision = Decision(disposition: Disposition, status: LegacyStatus, obligations: seq<Obligation>)

  // ---------------------------------------------------------------- normalization

  function DispositionFor(s: LegacyStatus): Disposition {
    match s
    case AllowStatus => Allow
    case DenyStatus => Deny
    case RequireApproval => Require
    case RequireVerification => Require
  }

  const APPROVAL := Obligation("approval", "[('required_role', 'owner')]", true)
  const REVALIDATION := Obligation("revalidation_before_execution", "[]", true)

  function Synthesized(s: LegacyStatus, obligations: seq<Obligation>): seq<Obligation> {
    if obligations != [] then obligations
    else if s == RequireApproval then [APPROVAL]
    else if s == RequireVerification then [REVALIDATION]
    else []
  }

  predicate AnyOfKind(obligations: seq<Obligation>, kind: string) {
    exists o | o in obligations :: o.kind == kind
  }

  function StatusFor(d: Disposition, obligations: seq<Obligation>): LegacyStatus {
    match d
    case Allow => AllowStatus
    case Deny => DenyStatus
    case Defer => RequireApproval
    case Require =>
      if AnyOfKind(obligations, "revalidation_before_execution") && !AnyOfKind(obligations, "approval") then RequireVerification
      else RequireApproval
  }

  function Sync(d: RawDecision): Decision {
    match (d.disposition, d.status)
    case (None, None) => Decision(Allow, AllowStatus, d.obligations)
    case (None, Some(s)) => Decision(DispositionFor(s), s, Synthesized(s, d.obligations))
    case (Some(p), None) => Decision(p, StatusFor(p, d.obligations), d.obligations)
    case (Some(p), Some(s)) => Decision(p, s, d.obligations)
  }

  function Raw(d: Decision): RawDecision {
    RawDecision(Some(d.disposition), Some(d.status), d.obligations)
  }

  /** Both fields say the same. */
  predicate Normalized(d: Decision) {
    match d.disposition
    case Allow => d.status == AllowStatus
    case Deny => d.status == DenyStatus
    case Defer => d.status != DenyStatus
    case Require => d.status in {RequireApproval, RequireVerification}
  }

  /** A decision that leaves one field out comes out normalized; validating it again changes nothing. */
  lemma SyncNormalizes(d: RawDecision)
    ensures d.disposition.None? || d.status.None? ==> Normalized(Sync(d))
    ensures Sync(Raw(Sync(d))) == Sync(d)
  {
  }

  // ------------------------------------------------------------------- evaluation

  predicate Denies(d: Decision) {
    d.disposition == Deny || d.status == DenyStatus
  }

  function First(ds: seq<Decision>, p: Decision -> bool): Option<Decision> {
    if ds == [] then None else if p(ds[0]) then Some(ds[0]) else First(ds[1..], p)
  }

  function Required(ds: seq<Decision>): seq<Obligation> {
    if ds == [] then []
    else
      var last := ds[|ds| - 1];
      Required(ds[..|ds| - 1]) + if last.disposition == Require then last.obligations else []
  }

  datatype Key = Key(kind: string, params: string)

  function KeyOf(o: Obligation): Key {
    Key(o.kind, o.params)
  }

  function Keys(os: seq<Obligation>): set<Key> {
    set o | o in os :: KeyOf(o)
  }

  /** The first obligation under each kind and parameters. */
  function Dedup(os: seq<Obligation>): seq<Obligation> {
    if os == [] then []
    else
      var before, last := Dedup(os[..|os| - 1]), os[|os| - 1];
      if KeyOf(last) in Keys(before) then before else before + [last]
  }

  predicate Conflicting(keys: set<Key>) {
    exists x, y | x in keys && y in keys :: x.kind == y.kind && x.params != y.params
  }

  function RequirementStatus(os: seq<Obligation>): LegacyStatus {
    if AnyOfKind(os, "approval") then RequireApproval else RequireVerification
  }

  predicate LegacyRequires(d: Decision) {
    d.status in {RequireApproval, RequireVerification}
  }

  function Evaluate(ds: seq<Decision>): Decision {
    if First(ds, Denies).Some? then First(ds, Denies).value
    else if First(ds, (d: Decision) => d.disposition == Defer).Some? then First(ds, (d: Decision) => d.disposition == Defer).value
    else
      var unique := Dedup(Required(ds));
      if unique != [] then
        if Conflicting(Keys(unique)) then Decision(Deny, DenyStatus, unique)
        else Decision(Require, RequirementStatus(unique), unique)
      else if First(ds, LegacyRequires).Some? then First(ds, LegacyRequires).value
      else Decision(Allow, AllowStatus, [])
  }

  // ---------------------------------------------------------------------- meaning

  lemma {:induction false} FirstMeans(ds: seq<Decision>, p: Decision -> bool)
    ensures First(ds, p).Some? <==> exists d | d in ds :: p(d)
    ensures First(ds, p).Some? ==> First(ds, p).value in ds && p(First(ds, p).value)
  {
    if ds != [] {
      FirstMeans(ds[1..], p);
      assert ds == [ds[0]] + ds[1..];
    }
  }

  lemma {:induction false} RequiredMeans(ds: seq<Decision>, o: Obligation)
    ensures o in Required(ds) <==> exists d | d in ds :: d.disposition == Require && o in d.obligations
  {
    if ds != [] {
      RequiredMeans(ds[..|ds| - 1], o);
      assert ds == ds[..|ds| - 1] + [ds[|ds| - 1]];
    }
  }

  predicate DuplicateFree(os: seq<Obligation>) {
    forall i, j | 0 <= i < j < |os| :: KeyOf(os[i]) != KeyOf(os[j])
  }

  /** Deduplication keeps every kind and parameters exactly once, and adds nothing. */
  lemma {:induction false} DedupMeans(os: seq<Obligation>)
    ensures DuplicateFree(Dedup(os))
    ensures Keys(Dedup(os)) == Keys(os)
    ensures forall o | o in Dedup(os) :: o in os
    ensures Dedup(os) == [] <==> os == []
  {
    if os != [] {
      var prefix, last := os[..|os| - 1], os[|os| - 1];
      DedupMeans(prefix);
      assert os == prefix + [last];
      assert KeyOf(last) in Keys(os);
      assert Keys(os) == Keys(prefix) + {KeyOf(last)};
      assert Keys(Dedup(prefix) + [last]) == Keys(Dedup(prefix)) + {KeyOf(last)};
      if KeyOf(last) !in Keys(Dedup(prefix)) {
        forall o | o in Dedup(prefix) ensures KeyOf(o) != KeyOf(last) {
          assert KeyOf(o) in Keys(Dedup(prefix));
        }
      }
    }
  }

  /** The demands of all decisions that require something. */
  ghost function Demanded(ds: seq<Decision>): set<Key> {
    set d, o | d in ds && d.disposition == Require && o in d.obligations :: KeyOf(o)
  }

  ghost predicate SomeDisposed(ds: seq<Decision>, p: Disposition) {
    exists d | d in ds :: d.disposition == p
  }

  ghost predicate AllNormalized(ds: seq<Decision>) {
    forall d | d in ds :: Normalized(d)
  }

  /** The disposition as the algebra states it: it depends on which decisions there are, not on where. */
  ghost function Verdict(ds: seq<Decision>): Disposition {
    if SomeDisposed(ds, Deny) then Deny
    else if SomeDisposed(ds, Defer) then Defer
    else if Conflicting(Demanded(ds)) then Deny
    else if SomeDisposed(ds, Require) then Require
    else Allow
  }

  lemma DemandedIsRequired(ds: seq<Decision>)
    ensures Demanded(ds) == Keys(Required(ds)) == Keys(Dedup(Required(ds)))
  {
    DedupMeans(Required(ds));
    forall k ensures k in Demanded(ds) <==> k in Keys(Required(ds)) {
      if k in Demanded(ds) {
        var d, o :| d in ds && d.disposition == Require && o in d.obligations && KeyOf(o) == k;
        RequiredMeans(ds, o);
      }
      if k in Keys(Required(ds)) {
        var o :| o in Required(ds) && KeyOf(o) == k;
        RequiredMeans(ds, o);
      }
    }
  }

  /** The engine's scans compute the algebra's verdict. */
  lemma EvaluateMeans(ds: seq<Decision>)
    requires AllNormalized(ds)
    ensures Evaluate(ds).disposition == Verdict(ds)
  {
    hide Dedup, Required, First;
    FirstMeans(ds, Denies);
    FirstMeans(ds, (d: Decision) => d.disposition == Defer);
    FirstMeans(ds, LegacyRequires);
    DemandedIsRequired(ds);
    DedupMeans(Required(ds));
    if Required(ds) != [] {
      RequiredMeans(ds, Required(ds)[0]);
    }
  }

  // ------------------------------------------------------- decisions in any order

  ghost predicate SomeSuch(ds: seq<Decision>, p: Decision -> bool, disposition: Disposition) {
    exists d | d in ds :: p(d) && d.disposition == disposition
  }

  /** What the decisions can come out as in one order or another; where they stand plays no part. */
  ghost predicate CanYield(ds: seq<Decision>, p: Disposition) {
    if exists d | d in ds :: Denies(d) then SomeSuch(ds, Denies, p)
    else if SomeDisposed(ds, Defer) then p == Defer
    else if Demanded(ds) != {} then p == if Conflicting(Demanded(ds)) then Deny else Require
    else if exists d | d in ds :: LegacyRequires(d) then SomeSuch(ds, LegacyRequires, p)
    else p == Allow
  }

  ghost predicate Agree(ds: seq<Decision>, p: Decision -> bool) {
    forall d, e | d in ds && e in ds && p(d) && p(e) :: d.disposition == e.disposition
  }

  /** All deniers, or where nothing else decides all legacy requirements, carry one disposition. */
  ghost predicate OrderSafe(ds: seq<Decision>) {
    if exists d | d in ds :: Denies(d) then Agree(ds, Denies)
    else SomeDisposed(ds, Defer) || Demanded(ds) != {} || Agree(ds, LegacyRequires)
  }

  lemma EvaluateIsPossible(ds: seq<Decision>)
    ensures CanYield(ds, Evaluate(ds).disposition)
  {
    hide Dedup, Required, First, Conflicting;
    FirstMeans(ds, Denies);
    FirstMeans(ds, (d: Decision) => d.disposition == Defer);
    FirstMeans(ds, LegacyRequires);
    DemandedIsRequired(ds);
    DedupMeans(Required(ds));
    DemandsAreKeys(Required(ds));
  }

  lemma DemandsAreKeys(os: seq<Obligation>)
    ensures Keys(os) == {} <==> os == []
  {
    if os != [] {
      assert KeyOf(os[0]) in Keys(os);
    }
  }

  lemma ToFront(ds: seq<Decision>, d: Decision) returns (es: seq<Decision>)
    requires d in ds
    ensures multiset(es) == multiset(ds) && es != [] && es[0] == d
  {
    var i :| 0 <= i < |ds| && ds[i] == d;
    es := [d] + ds[..i] + ds[i + 1..];
    assert ds == ds[..i] + [d] + ds[i + 1..];
  }

  lemma SameMembers(ds: seq<Decision>, es: seq<Decision>)
    requires multiset(ds) == multiset(es)
    ensures forall d :: d in ds <==> d in es
  {
    forall d ensures d in ds <==> d in es {
      assert d in ds <==> d in multiset(ds);
      assert d in es <==> d in multiset(es);
    }
  }

  lemma CanYieldByMembers(ds: seq<Decision>, es: seq<Decision>, p: Disposition)
    requires forall d :: d in ds <==> d in es
    ensures CanYield(ds, p) <==> CanYield(es, p)
    ensures OrderSafe(ds) <==> OrderSafe(es)
    ensures Demanded(ds) == Demanded(es)
  {
    assert Demanded(ds) == Demanded(es);
  }

  /** Whatever the decisions can come out as, some listing of them does. */
  lemma SomeListingYields(ds: seq<Decision>, p: Disposition) returns (es: seq<Decision>)
    requires CanYield(ds, p)
    ensures multiset(es) == multiset(ds) && Evaluate(es).disposition == p
  {
    hide Dedup, Required, Demanded, Conflicting;
    if exists d | d in ds :: Denies(d) {
      var d :| d in ds && Denies(d) && d.disposition == p;
      es := ToFront(ds, d);
    } else if !SomeDisposed(ds, Defer) && Demanded(ds) == {} && exists d | d in ds :: LegacyRequires(d) {
      var d :| d in ds && LegacyRequires(d) && d.disposition == p;
      es := ToFront(ds, d);
      SameMembers(es, ds);
      CanYieldByMembers(es, ds, p);
      FirstOfAll(es, p);
    } else {
      es := ds;
      EvaluateIsPossible(ds);
    }
  }

  lemma FirstOfAll(es: seq<Decision>, p: Disposition)
    requires es != [] && LegacyRequires(es[0]) && es[0].disposition == p && Demanded(es) == {}
    requires !SomeDisposed(es, Defer) && forall d | d in es :: !Denies(d)
    ensures Evaluate(es).disposition == p
  {
    hide Dedup, Required;
    FirstMeans(es, Denies);
    FirstMeans(es, (d: Decision) => d.disposition == Defer);
    DemandedIsRequired(es);
    DemandsAreKeys(Required(es));
    DedupMeans(Required(es));
  }

  lemma SafeYieldsOne(ds: seq<Decision>, p: Disposition, q: Disposition)
    requires OrderSafe(ds) && CanYield(ds, p) && CanYield(ds, q)
    ensures p == q
  {
    hide Demanded, Conflicting;
  }

  lemma UnsafeYieldsTwo(ds: seq<Decision>) returns (p: Disposition, q: Disposition)
    requires !OrderSafe(ds)
    ensures p != q && CanYield(ds, p) && CanYield(ds, q)
  {
    hide Demanded, Conflicting;
    if exists d | d in ds :: Denies(d) {
      var d, e :| d in ds && e in ds && Denies(d) && Denies(e) && d.disposition != e.disposition;
      p, q := d.disposition, e.disposition;
    } else {
      var d, e :| d in ds && e in ds && LegacyRequires(d) && LegacyRequires(e) && d.disposition != e.disposition;
      p, q := d.disposition, e.disposition;
    }
  }

  /** The order of the decisions plays no part in the disposition exactly when they are order-safe. */
  lemma OrderIrrelevantExactly(ds: seq<Decision>)
    ensures OrderSafe(ds)
       <==> forall es: seq<Decision> | multiset(es) == multiset(ds) :: Evaluate(es).disposition == Evaluate(ds).disposition
  {
    hide OrderSafe, CanYield, Evaluate;
    if OrderSafe(ds) {
      forall es: seq<Decision> | multiset(es) == multiset(ds) ensures Evaluate(es).disposition == Evaluate(ds).disposition {
        SameMembers(ds, es);
        SafeListingsAgree(ds, es);
      }
    } else {
      var p, q := UnsafeYieldsTwo(ds);
      var ps := SomeListingYields(ds, p);
      var qs := SomeListingYields(ds, q);
      assert Evaluate(ps).disposition != Evaluate(qs).disposition;
    }
  }

  /** Order-safe decisions come out alike however they are ordered or repeated. */
  lemma SafeListingsAgree(ds: seq<Decision>, es: seq<Decision>)
    requires OrderSafe(ds) && forall d :: d in ds <==> d in es
    ensures Evaluate(ds).disposition == Evaluate(es).disposition
  {
    hide OrderSafe, CanYield, Evaluate;
    EvaluateIsPossible(ds);
    EvaluateIsPossible(es);
    CanYieldByMembers(ds, es, Evaluate(es).disposition);
    SafeYieldsOne(ds, Evaluate(ds).disposition, Evaluate(es).disposition);
  }

  lemma NormalizedIsSafe(ds: seq<Decision>)
    requires AllNormalized(ds)
    ensures OrderSafe(ds)
  {
    hide Demanded;
  }

  lemma OrderDoesNotMatter(ds: seq<Decision>, es: seq<Decision>)
    requires AllNormalized(ds) && forall d :: d in ds <==> d in es
    ensures Evaluate(ds).disposition == Evaluate(es).disposition == Verdict(es)
  {
    hide OrderSafe, Evaluate, Verdict;
    NormalizedIsSafe(ds);
    SafeListingsAgree(ds, es);
    EvaluateMeans(es);
  }

  function SyncAll(raw: seq<RawDecision>): (ds: seq<Decision>)
    ensures |ds| == |raw| && forall i | 0 <= i < |raw| :: ds[i] == Sync(raw[i])
  {
    seq(|raw|, i requires 0 <= i < |raw| => Sync(raw[i]))
  }

  /** Policies that each leave one of the two fields out can be asked in any order, and come to the algebra's verdict. */
  lemma WrittenPoliciesAreSafe(raw: seq<RawDecision>)
    requires forall i | 0 <= i < |raw| :: raw[i].disposition.None? || raw[i].status.None?
    ensures OrderSafe(SyncAll(raw)) && Evaluate(SyncAll(raw)).disposition == Verdict(SyncAll(raw))
  {
    hide Sync, Normalized, Evaluate, Verdict, OrderSafe;
    forall d | d in SyncAll(raw) ensures Normalized(d) {
      var i :| 0 <= i < |raw| && SyncAll(raw)[i] == d;
      SyncNormalizes(raw[i]);
    }
    NormalizedIsSafe(SyncAll(raw));
    EvaluateMeans(SyncAll(raw));
  }

  // -------------------------------------------------------------- one more decision

  /** How far a disposition holds back: not at all, by requirement, or entirely. */
  function Strictness(d: Disposition): nat {
    match d
    case Allow => 0
    case Require => 1
    case Deny => 2
    case Defer => 2
  }

  lemma {:induction false} FirstOfTwo(a: seq<Decision>, b: seq<Decision>, p: Decision -> bool)
    ensures First(a + b, p) == if First(a, p).Some? then First(a, p) else First(b, p)
  {
    if a == [] {
      assert a + b == b;
    } else {
      assert (a + b)[1..] == a[1..] + b;
      FirstOfTwo(a[1..], b, p);
    }
  }

  lemma FirstWithOneMore(before: seq<Decision>, added: Decision, after: seq<Decision>, p: Decision -> bool)
    ensures First(before + after, p) == if First(before, p).Some? then First(before, p) else First(after, p)
    ensures First(before + [added] + after, p)
         == if First(before, p).Some? then First(before, p) else if p(added) then Some(added) else First(after, p)
  {
    FirstOfTwo(before, after, p);
    FirstOfTwo(before + [added], after, p);
    FirstOfTwo(before, [added], p);
  }

  lemma NothingDemanded(ds: seq<Decision>)
    ensures Dedup(Required(ds)) == [] <==> Demanded(ds) == {}
  {
    hide Demanded, Required, Dedup;
    DemandedIsRequired(ds);
    DemandsAreKeys(Dedup(Required(ds)));
  }

  /** How far decisions hold back: as their first denier says; else by what is among them; else as the first legacy requirement says. */
  ghost function Held(ds: seq<Decision>): nat {
    if First(ds, Denies).Some? then Strictness(First(ds, Denies).value.disposition)
    else if SomeDisposed(ds, Defer) || Conflicting(Demanded(ds)) then 2
    else if Demanded(ds) != {} || RequiredByLegacy(ds) then 1
    else 0
  }

  predicate RequiredByLegacy(ds: seq<Decision>) {
    First(ds, LegacyRequires).Some? && First(ds, LegacyRequires).value.disposition == Require
  }

  lemma EvaluateHolds(ds: seq<Decision>)
    ensures Strictness(Evaluate(ds).disposition) == Held(ds)
  {
    hide Dedup, Required, First, Demanded, Conflicting;
    FirstMeans(ds, Denies);
    FirstMeans(ds, LegacyRequires);
    EvaluateIsPossible(ds);
    NoConflictInNothing();
    if Demanded(ds) == {} && !SomeDisposed(ds, Defer) && First(ds, Denies).None? {
      LegacyDecides(ds);
    }
  }

  lemma NoConflictInNothing()
    ensures !Conflicting({})
  {
  }

  /**
   The added decision is the first denier but says less than the others come to
   without it; or it is the first legacy requirement and allows, where nothing but
   those decides and the next of them requires.
   */
  ghost predicate CanLoosen(before: seq<Decision>, added: Decision, after: seq<Decision>) {
    && (forall d | d in before :: !Denies(d))
    && if Denies(added) then Strictness(added.disposition) < Held(before + after)
       else
         && LegacyRequires(added) && added.disposition == Allow && RequiredByLegacy(after)
         && (forall d | d in before :: !LegacyRequires(d)) && (forall d | d in after :: !Denies(d))
         && Demanded(before + [added] + after) == {} && !SomeDisposed(before + after, Defer)
  }

  /** One more policy, put anywhere, loosens what the others come to exactly in those two cases. */
  lemma AddingLoosensExactly(before: seq<Decision>, added: Decision, after: seq<Decision>)
    ensures Strictness(Evaluate(before + [added] + after).disposition) < Strictness(Evaluate(before + after).disposition)
       <==> CanLoosen(before, added, after)
  {
    hide Dedup, Required, First, Demanded, Conflicting;
    FirstWithOneMore(before, added, after, Denies);
    FirstMeans(before, Denies);
    FirstMeans(after, Denies);
    EvaluateHolds(before + after);
    if First(before, Denies).None? && !Denies(added) && First(after, Denies).None? {
      UndeniedLoosensExactly(before, added, after);
    }
  }

  lemma UndeniedLoosensExactly(before: seq<Decision>, added: Decision, after: seq<Decision>)
    requires forall d | d in before + [added] + after :: !Denies(d)
    ensures Strictness(Evaluate(before + [added] + after).disposition) < Strictness(Evaluate(before + after).disposition)
       <==> CanLoosen(before, added, after)
  {
    hide Dedup, Required, First, Demanded, Evaluate;
    var less, more := before + after, before + [added] + after;
    MoreIsDemanded(before, added, after);
    EvaluateIsPossible(less);
    EvaluateIsPossible(more);
    if Demanded(more) == {} && !SomeDisposed(more, Defer) {
      LegacyDecides(less);
      LegacyDecides(more);
      FirstWithOneMore(before, added, after, LegacyRequires);
      FirstMeans(before, LegacyRequires);
      FirstMeans(after, LegacyRequires);
    }
  }

  lemma MoreIsDemanded(before: seq<Decision>, added: Decision, after: seq<Decision>)
    ensures Demanded(before + after) <= Demanded(before + [added] + after)
    ensures forall d | d in before + after :: d in before + [added] + after
  {
  }

  lemma LegacyDecides(ds: seq<Decision>)
    requires Demanded(ds) == {} && !SomeDisposed(ds, Defer) && forall d | d in ds :: !Denies(d)
    ensures Evaluate(ds).disposition
         == if First(ds, LegacyRequires).Some? then First(ds, LegacyRequires).value.disposition else Allow
  {
    hide Dedup, Required, First, Demanded;
    FirstMeans(ds, Denies);
    FirstMeans(ds, (d: Decision) => d.disposition == Defer);
    NothingDemanded(ds);
  }

  /** Where the fields of every decision agree, one more policy never loosens anything. */
  lemma AddingNeverLoosens(before: seq<Decision>, added: Decision, after: seq<Decision>)
    requires AllNormalized(before + [added] + after)
    ensures Strictness(Evaluate(before + [added] + after).disposition) >= Strictness(Evaluate(before + after).disposition)
  {
    hide Evaluate, Demanded;
    AddingLoosensExactly(before, added, after);
    assert added in before + [added] + after;
  }

  const LENIENT := Decision(Allow, RequireApproval, [])
  const STRICT := Decision(Require, RequireVerification, [])

  lemma NothingElseDecides(ds: seq<Decision>)
    requires forall d | d in ds :: d == LENIENT || d == STRICT
    ensures Demanded(ds) == {} && !SomeDisposed(ds, Defer) && forall d | d in ds :: !Denies(d)
  {
  }

  /** Two decisions whose fields disagree: the order decides, and adding the one lifts the requirement of the other. */
  lemma UnnormalizedOrderMatters()
    ensures !OrderSafe([LENIENT, STRICT])
    ensures Evaluate([LENIENT, STRICT]).disposition == Allow && Evaluate([STRICT, LENIENT]).disposition == Require
    ensures CanLoosen([], LENIENT, [STRICT])
  {
    hide Evaluate, Demanded;
    var both := [LENIENT, STRICT];
    NothingElseDecides(both);
    NothingElseDecides([STRICT, LENIENT]);
    NothingElseDecides([STRICT]);
    FirstOfAll(both, Allow);
    FirstOfAll([STRICT, LENIENT], Require);
    FirstOfAll([STRICT], Require);
    assert LENIENT in both && STRICT in both;
    assert [] + [STRICT] == [STRICT] && [] + [LENIENT] + [STRICT] == both;
  }

  /** What survives is the duplicate-free union of what was demanded, conflicting or not. */
  lemma SurvivingObligations(ds: seq<Decision>)
    requires (forall d | d in ds :: !Denies(d)) && !SomeDisposed(ds, Defer) && Demanded(ds) != {}
    ensures DuplicateFree(Evaluate(ds).obligations)
    ensures Keys(Evaluate(ds).obligations) == Demanded(ds)
    ensures Evaluate(ds).disposition == if Conflicting(Demanded(ds)) then Deny else Require
  {
    hide Dedup, Required, First;
    FirstMeans(ds, Denies);
    FirstMeans(ds, (d: Decision) => d.disposition == Defer);
    DemandedIsRequired(ds);
    DedupMeans(Required(ds));
  }

  // ------------------------------------------------------------- in plain facts

  ghost predicate Earliest(ds: seq<Decision>, p: Decision -> bool, r: Decision) {
    exists n | 0 <= n < |ds| :: r == ds[n] && p(ds[n]) && forall m | 0 <= m < n :: !p(ds[m])
  }

  lemma {:induction false} FirstIsEarliest(ds: seq<Decision>, p: Decision -> bool)
    requires exists d | d in ds :: p(d)
    ensures First(ds, p).Some? && Earliest(ds, p, First(ds, p).value)
  {
    if p(ds[0]) {
      assert First(ds, p) == Some(ds[0]);
    } else {
      assert ds == [ds[0]] + ds[1..];
      FirstIsEarliest(ds[1..], p);
      var n :| 0 <= n < |ds[1..]| && First(ds[1..], p).value == ds[1..][n] && p(ds[1..][n])
        && forall m | 0 <= m < n :: !p(ds[1..][m]);
      forall m | 0 <= m < n + 1 ensures !p(ds[m]) {
        if m > 0 {
          assert ds[m] == ds[1..][m - 1];
        }
      }
      assert ds[n + 1] == ds[1..][n];
    }
  }

  /** Some decision that requires demands this kind under these parameters. */
  ghost predicate Asked(ds: seq<Decision>, kind: string, params: string) {
    exists d, o :: d in ds && d.disposition == Require && o in d.obligations && o.kind == kind && o.params == params
  }

  ghost predicate NothingAsked(ds: seq<Decision>) {
    forall d | d in ds && d.disposition == Require :: d.obligations == []
  }

  ghost predicate AskedTwoWays(ds: seq<Decision>) {
    exists kind, one, other :: Asked(ds, kind, one) && Asked(ds, kind, other) && one != other
  }

  lemma AskedForKey(ds: seq<Decision>, kind: string, params: string)
    ensures Asked(ds, kind, params) <==> Key(kind, params) in Demanded(ds)
  {
    if Asked(ds, kind, params) {
      var d, o :| d in ds && d.disposition == Require && o in d.obligations && o.kind == kind && o.params == params;
      assert KeyOf(o) == Key(kind, params);
    }
    if Key(kind, params) in Demanded(ds) {
      var d, o :| d in ds && d.disposition == Require && o in d.obligations && KeyOf(o) == Key(kind, params);
      assert o.kind == kind && o.params == params;
    }
  }

  lemma AskedIsDemanded(ds: seq<Decision>)
    ensures forall kind, params :: Asked(ds, kind, params) <==> Key(kind, params) in Demanded(ds)
    ensures NothingAsked(ds) <==> Demanded(ds) == {}
    ensures AskedTwoWays(ds) <==> Conflicting(Demanded(ds))
  {
    hide Asked;
    forall kind, params ensures Asked(ds, kind, params) <==> Key(kind, params) in Demanded(ds) {
      AskedForKey(ds, kind, params);
    }
    if !NothingAsked(ds) {
      var d :| d in ds && d.disposition == Require && d.obligations != [];
      assert d.obligations[0] in d.obligations;
      assert KeyOf(d.obligations[0]) in Demanded(ds);
    }
    if Conflicting(Demanded(ds)) {
      var x, y :| x in Demanded(ds) && y in Demanded(ds) && x.kind == y.kind && x.params != y.params;
      assert Key(x.kind, x.params) in Demanded(ds) && Key(y.kind, y.params) in Demanded(ds);
    }
    if AskedTwoWays(ds) {
      var kind, one, other :| Asked(ds, kind, one) && Asked(ds, kind, other) && one != other;
      assert Key(kind, one) in Demanded(ds) && Key(kind, other) in Demanded(ds);
    }
  }

  /** The obligations kept are demanded ones, and of each kind and parameters demanded there is exactly one. */
  ghost predicate KeptOnce(ds: seq<Decision>, kept: seq<Obligation>) {
    && (forall kind, params :: Asked(ds, kind, params) <==> exists o | o in kept :: o.kind == kind && o.params == params)
    && (forall i, j | 0 <= i < j < |kept| :: kept[i].kind != kept[j].kind || kept[i].params != kept[j].params)
  }

  /** What any decisions come to, status and obligations included, whether or not their fields agree. */
  lemma EvaluateExactly(ds: seq<Decision>)
    ensures var r := Evaluate(ds);
      if exists d | d in ds :: d.disposition == Deny || d.status == DenyStatus then
        Earliest(ds, (d: Decision) => d.disposition == Deny || d.status == DenyStatus, r)
      else if exists d | d in ds :: d.disposition == Defer then Earliest(ds, (d: Decision) => d.disposition == Defer, r)
      else if !NothingAsked(ds) then
        && KeptOnce(ds, r.obligations)
        && r.disposition == (if AskedTwoWays(ds) then Deny else Require)
        && (r.status == DenyStatus <==> AskedTwoWays(ds))
        && (r.status == RequireApproval <==> !AskedTwoWays(ds) && exists params :: Asked(ds, "approval", params))
        && (r.status == RequireVerification <==> !AskedTwoWays(ds) && !exists params :: Asked(ds, "approval", params))
      else if exists d | d in ds :: d.status == RequireApproval || d.status == RequireVerification then
        Earliest(ds, (d: Decision) => d.status == RequireApproval || d.status == RequireVerification, r)
      else r == Decision(Allow, AllowStatus, [])
  {
    hide Dedup, Required, First, Asked, NothingAsked, AskedTwoWays, Demanded, Conflicting, Earliest;
    var denies := (d: Decision) => d.disposition == Deny || d.status == DenyStatus;
    var defers := (d: Decision) => d.disposition == Defer;
    var requires' := (d: Decision) => d.status == RequireApproval || d.status == RequireVerification;
    SameFirst(ds, Denies, denies);
    SameFirst(ds, LegacyRequires, requires');
    FirstMeans(ds, denies);
    FirstMeans(ds, defers);
    FirstMeans(ds, requires');
    AskedIsDemanded(ds);
    DemandedIsRequired(ds);
    DedupMeans(Required(ds));
    if First(ds, denies).Some? {
      FirstIsEarliest(ds, denies);
    } else if First(ds, defers).Some? {
      FirstIsEarliest(ds, defers);
    } else if Demanded(ds) != {} {
      KeptFromKeys(ds, Dedup(Required(ds)));
    } else if First(ds, requires').Some? {
      NothingDemanded(ds);
      FirstIsEarliest(ds, requires');
    } else {
      NothingDemanded(ds);
    }
  }

  lemma {:induction false} SameFirst(ds: seq<Decision>, p: Decision -> bool, q: Decision -> bool)
    requires forall d :: p(d) == q(d)
    ensures First(ds, p) == First(ds, q)
  {
    if ds != [] {
      SameFirst(ds[1..], p, q);
    }
  }

  lemma KeptFromKeys(ds: seq<Decision>, kept: seq<Obligation>)
    requires Keys(kept) == Demanded(ds) && DuplicateFree(kept)
    ensures KeptOnce(ds, kept)
    ensures AnyOfKind(kept, "approval") <==> exists params :: Asked(ds, "approval", params)
  {
    hide Asked, NothingAsked, AskedTwoWays, Demanded;
    AskedIsDemanded(ds);
    forall kind, params
      ensures Asked(ds, kind, params) <==> exists o | o in kept :: o.kind == kind && o.params == params
    {
      if Asked(ds, kind, params) {
        assert Key(kind, params) in Keys(kept);
        var o :| o in kept && KeyOf(o) == Key(kind, params);
      }
      if o :| o in kept && o.kind == kind && o.params == params {
        assert KeyOf(o) in Keys(kept);
      }
    }
    if o :| o in kept && o.kind == "approval" {
      assert Asked(ds, "approval", o.params);
    }
    forall i, j | 0 <= i < j < |kept| ensures kept[i].kind != kept[j].kind || kept[i].params != kept[j].params {
      assert KeyOf(kept[i]) != KeyOf(kept[j]);
    }
  }

  /** What validation makes of a decision as written: a field given stays, and a field left out follows from the rest. */
  lemma SyncedExactly(d: RawDecision)
    ensures var r, only := Sync(d), d.disposition.None?;
      && (r.disposition == Deny <==> d.disposition == Some(Deny) || (only && d.status == Some(DenyStatus)))
      && (r.disposition == Defer <==> d.disposition == Some(Defer))
      && (r.disposition == Require
          <==> d.disposition == Some(Require) || (only && d.status in {Some(RequireApproval), Some(RequireVerification)}))
      && (r.status == DenyStatus <==> d.status == Some(DenyStatus) || (d.status.None? && d.disposition == Some(Deny)))
      && (r.status == AllowStatus
          <==> d.status == Some(AllowStatus) || (d.status.None? && d.disposition in {None, Some(Allow)}))
      && (r.status == RequireVerification <==>
          || d.status == Some(RequireVerification)
          || (&& d.status.None? && d.disposition == Some(Require)
              && (exists o | o in d.obligations :: o.kind == "revalidation_before_execution")
              && (forall o | o in d.obligations :: o.kind != "approval")))
      && r.obligations ==
         (if only && d.obligations == [] && d.status == Some(RequireApproval) then
            [Obligation("approval", "[('required_role', 'owner')]", true)]
          else if only && d.obligations == [] && d.status == Some(RequireVerification) then
            [Obligation("revalidation_before_execution", "[]", true)]
          else d.obligations)
  {
  }

  // ---------------------------------------------------------------- the scans

  method DetectObligationConflict(os: seq<Obligation>) returns (conflict: bool)
    ensures conflict <==> Conflicting(Keys(os))
  {
    var seen: map<string, set<string>> := map[];
    for i := 0 to |os|
      invariant forall kind :: kind in seen <==> exists j :: 0 <= j < i && os[j].kind == kind
      invariant forall kind, params | kind in seen ::
        params in seen[kind] <==> exists j :: 0 <= j < i && os[j].kind == kind && os[j].params == params
    {
      var o := os[i];
      seen := seen[o.kind := (if o.kind in seen then seen[o.kind] else {}) + {o.params}];
    }
    SeenKeys(os, seen);
    conflict := exists kind | kind in seen :: exists x, y | x in seen[kind] && y in seen[kind] :: x != y;
  }

  lemma SeenKeys(os: seq<Obligation>, seen: map<string, set<string>>)
    requires forall kind :: kind in seen <==> exists j :: 0 <= j < |os| && os[j].kind == kind
    requires forall kind, params | kind in seen ::
      params in seen[kind] <==> exists j :: 0 <= j < |os| && os[j].kind == kind && os[j].params == params
    ensures forall kind, params :: Key(kind, params) in Keys(os) <==> kind in seen && params in seen[kind]
  {
    forall kind, params ensures Key(kind, params) in Keys(os) <==> kind in seen && params in seen[kind] {
      if Key(kind, params) in Keys(os) {
        var o :| o in os && KeyOf(o) == Key(kind, params);
        var j :| 0 <= j < |os| && os[j] == o;
      }
      if kind in seen && params in seen[kind] {
        var j :| 0 <= j < |os| && os[j].kind == kind && os[j].params == params;
        assert os[j] in os && KeyOf(os[j]) == Key(kind, params);
      }
    }
  }

  method EvaluatePolicies(ds: seq<Decision>) returns (r: Decision)
    ensures r == Evaluate(ds)
  {
    hide Conflicting;
    for i := 0 to |ds|
      invariant First(ds, Denies) == First(ds[i..], Denies)
    {
      if Denies(ds[i]) {
        return ds[i];
      }
    }
    var defers := (d: Decision) => d.disposition == Defer;
    for i := 0 to |ds|
      invariant First(ds, defers) == First(ds[i..], defers)
    {
      if defers(ds[i]) {
        return ds[i];
      }
    }
    var required: seq<Obligation> := [];
    for i := 0 to |ds|
      invariant required == Required(ds[..i])
    {
      assert ds[..i + 1][..i] == ds[..i];
      if ds[i].disposition == Require {
        required := required + ds[i].obligations;
      }
    }
    assert ds[..|ds|] == ds;
    if required != [] {
      var unique := Deduplicate(required);
      DedupMeans(required);
      var conflict := DetectObligationConflict(unique);
      if conflict {
        return Decision(Deny, DenyStatus, unique);
      }
      return Decision(Require, RequirementStatus(unique), unique);
    }
    for i := 0 to |ds|
      invariant First(ds, LegacyRequires) == First(ds[i..], LegacyRequires)
    {
      if LegacyRequires(ds[i]) {
        return ds[i];
      }
    }
    return Decision(Allow, AllowStatus, []);
  }

  method Deduplicate(required: seq<Obligation>) returns (unique: seq<Obligation>)
    ensures unique == Dedup(required)
  {
    unique := [];
    var seenKeys: set<Key> := {};
    for i := 0 to |required|
      invariant unique == Dedup(required[..i])
      invariant seenKeys == Keys(unique)
    {
      assert required[..i + 1][..i] == required[..i];
      var key := KeyOf(required[i]);
      if key !in seenKeys {
        seenKeys := seenKeys + {key};
        unique := unique + [required[i]];
      }
    }
    assert required[..|required|] == required;
  }
}
