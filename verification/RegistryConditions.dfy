/**
 What a registration establishes and when, and what is captured of it later, in
 plain facts about the request and the registry.
 */
module RegistryConditions {
  import opened Wrappers
  import opened Text
  import opened ExecutionIdentity
  import opened Registry

  // ------------------------------------------------------------------ registering

  /** The identity the provider is to be executed under, and the configuration it was set up with. */
  function IdentityFor(q: RegistrationRequest): string {
    match q.identity
    case Some(given) => given
    case None => "provider-registration:" + q.descriptor.id + ":" + q.incarnation
  }

  function ReferenceFor(q: RegistrationRequest): string {
    match q.configurationRef
    case Some(given) => given
    case None => "runtime-registration:" + q.incarnation
  }

  function BindingFor(d: Descriptor, identity: string, reference: string): Binding {
    var digest := BindingDigest(d.id, identity, reference, DescriptorDigest(d.id, d.semantics));
    Binding(digest, d.id, identity, reference, DescriptorDigest(d.id, d.semantics), digest)
  }

  function ContractFor(b: Binding, c: RepeatabilityConfiguration): Contract {
    var digest := ContractDigest(b.id, c.protocolIdentity, c.protocolVersion, c.mode, c.contractVersion);
    Contract(digest, b.id, c.protocolIdentity, c.protocolVersion, c.mode, c.contractVersion, digest)
  }

  /** Registering fills all four maps at once, for a free id, under an identity that says more than the id. */
  lemma RegistersExactly(r: RegistryState, q: RegistrationRequest, identity: string, reference: string)
    requires Trimmed(IdentityFor(q), identity) && Trimmed(ReferenceFor(q), reference)
    ensures Register(r, q).Ok? <==>
      && q.descriptor.id !in r.providers && (q.identity.Some? <==> q.configurationRef.Some?)
      && identity != "" && reference != "" && identity != q.descriptor.id
    ensures Register(r, q).Ok? ==>
      var id, binding := q.descriptor.id, BindingFor(q.descriptor, identity, reference);
      Register(r, q).value == RegistryState(
        r.providers[id := q.provider], r.enabled[id := q.descriptor.enabled], r.bindings[id := binding],
        if q.repeatability.Some? then r.contracts[id := ContractFor(binding, q.repeatability.value)] else r.contracts)
  {
    hide Strip, Trimmed;
    StripExactly(IdentityFor(q), identity);
    StripExactly(ReferenceFor(q), reference);
  }

  /** Nothing else a registry is asked to do makes an entry. */
  lemma ChangesExactly(r: RegistryState, id: string)
    ensures Changed(r, Remove(id)) == RegistryState(
      map k | k in r.providers && k != id :: r.providers[k], map k | k in r.enabled && k != id :: r.enabled[k],
      map k | k in r.bindings && k != id :: r.bindings[k], map k | k in r.contracts && k != id :: r.contracts[k])
    ensures Changed(r, Enable(id)) == if id in r.providers then r.(enabled := r.enabled[id := true]) else r
    ensures Changed(r, Disable(id)) == if id in r.providers then r.(enabled := r.enabled[id := false]) else r
    ensures Change(r, Enable(id)).Ok? <==> id in r.providers
    ensures Change(r, Disable(id)).Ok? <==> id in r.providers
  {
  }

  // -------------------------------------------------------------------- capturing

  /**
   On every registry that was only ever changed by its operations: a provider is
   captured exactly while it is registered, is the one expected, if one is, and
   describes itself as when it was registered; and the authority to repeat is
   captured beside it exactly for a repeat-safe contract and a subject with a name.
   */
  lemma CapturedOnRunsExactly(
    ops: seq<RegistryOp>, now: Descriptions, id: string, subject: string, name: string, expected: Option<ProviderRef>
  )
    requires Trimmed(subject, name)
    ensures var r, captured := RegistryRun(ops), CaptureForReconciliation(RegistryRun(ops), now, id, subject, expected);
      var repeatable := id in r.contracts && r.contracts[id].mode == RepeatSafe;
      && (captured.Ok? <==>
            && id in r.providers && id in r.bindings && (expected.None? || expected == Some(r.providers[id]))
            && now(r.providers[id]).id == r.bindings[id].descriptorDigest.id
            && now(r.providers[id]).semantics == r.bindings[id].descriptorDigest.semantics
            && (repeatable ==> name != ""))
      && (captured.Ok? ==>
            && captured.value.0 == r.providers[id] && captured.value.1 == r.bindings[id]
            && captured.value.2 == if repeatable then Some(AuthorityFor(r.contracts[id], name)) else None)
  {
    hide RegistryRun, Strip, Trimmed, ValidBinding, ValidContract;
    EveryRegistryRunIsConsistent(ops);
    StripExactly(subject, name);
  }

  function AuthorityFor(c: Contract, subject: string): Authority {
    var digest := AuthorityDigest(c.id, c.bindingRef, subject, c.protocolIdentity, c.protocolVersion, c.contractVersion, c.contractDigest);
    Authority(digest, c.id, c.bindingRef, subject, c.protocolIdentity, c.protocolVersion, c.contractVersion, c.contractDigest, digest)
  }

  /** What was bound is found again exactly while the id still carries that binding on a provider that describes itself alike. */
  lemma FoundAgainExactly(r: RegistryState, now: Descriptions, historical: Binding)
    ensures Resolve(r, now, historical).Some? <==>
      var id := historical.providerId;
      && id in r.providers && id in r.bindings && r.bindings[id] == historical
      && now(r.providers[id]).id == historical.descriptorDigest.id
      && now(r.providers[id]).semantics == historical.descriptorDigest.semantics
    ensures Resolve(r, now, historical).Some? ==> Resolve(r, now, historical).value == r.providers[historical.providerId]
  {
  }

  /** The contract is reported exactly where the provider is captured. */
  lemma ContractOnRunsExactly(ops: seq<RegistryOp>, now: Descriptions, id: string, expected: Option<ProviderRef>)
    ensures var r := RegistryRun(ops);
      && (ConfiguredContract(r, now, id, expected).Ok? <==> Registry.Capture(r, now, id, expected).Ok?)
      && (ConfiguredContract(r, now, id, expected).Ok? ==>
            ConfiguredContract(r, now, id, expected).value == if id in r.contracts then Some(r.contracts[id]) else None)
  {
    hide RegistryRun, ValidBinding, ValidContract;
    EveryRegistryRunIsConsistent(ops);
  }

  // ------------------------------------------------------- whether to repeat a query

  /** Each thing that can stand in the way of repeating a reconciliation query, on its own terms. */
  ghost predicate StandsInTheWay(
    r: RegistryState, now: Descriptions, historical: Option<Authority>, binding: Option<Binding>, required: string, why: Ineligibility
  ) {
    var contract :=
      if binding.Some? && binding.value.providerId in r.contracts then Some(r.contracts[binding.value.providerId]) else None;
    match why
    case TargetUnavailable => binding.Some? && Resolve(r, now, binding.value).None?
    case AuthorityAbsent => historical.None?
    case BindingAbsent => binding.None?
    case ForeignBinding => historical.Some? && binding.Some? && historical.value.bindingRef != binding.value.id
    case ForeignSubject => historical.Some? && historical.value.subject != required
    case ContractAbsent => contract.None?
    case ContractElsewhere => binding.Some? && contract.Some? && contract.value.bindingRef != binding.value.id
    case ContractNotRepeatSafe => contract.Some? && contract.value.mode != RepeatSafe
    case SubjectRefused(error) => error == MissingSubject && Trimmed(required, "")
    case ContractDrifted =>
      && historical.Some? && contract.Some?
      && exists name :: Trimmed(required, name) && historical.value != AuthorityFor(contract.value, name)
  }

  function Order(why: Ineligibility): nat {
    match why
    case TargetUnavailable => 1
    case AuthorityAbsent => 2
    case BindingAbsent => 3
    case ForeignBinding => 4
    case ForeignSubject => 5
    case ContractAbsent => 6
    case ContractElsewhere => 7
    case ContractNotRepeatSafe => 8
    case SubjectRefused(_) => 9
    case ContractDrifted => 10
  }

  /** A query may be repeated where nothing stands in the way; otherwise the first thing that does is given as the reason. */
  lemma EligibilityExactly(
    r: RegistryState, now: Descriptions, historical: Option<Authority>, binding: Option<Binding>, required: string
  )
    ensures ReconciliationEligibility(r, now, historical, binding, required) == Eligible
       <==> forall why :: !StandsInTheWay(r, now, historical, binding, required, why)
    ensures forall why ::
      ReconciliationEligibility(r, now, historical, binding, required) == Ineligible(why)
      <==> && StandsInTheWay(r, now, historical, binding, required, why)
           && forall other | Order(other) < Order(why) :: !StandsInTheWay(r, now, historical, binding, required, other)
  {
    hide StandsInTheWay, ReconciliationEligibility;
    GivenReason(r, now, historical, binding, required);
    forall why, other
      | && StandsInTheWay(r, now, historical, binding, required, why)
        && StandsInTheWay(r, now, historical, binding, required, other)
      ensures Order(why) < Order(other) || Order(other) < Order(why) || why == other
    {
      OneRefusal(r, now, historical, binding, required, why, other);
    }
  }

  lemma OneRefusal(
    r: RegistryState, now: Descriptions, historical: Option<Authority>, binding: Option<Binding>, required: string,
    why: Ineligibility, other: Ineligibility
  )
    requires StandsInTheWay(r, now, historical, binding, required, why) && StandsInTheWay(r, now, historical, binding, required, other)
    ensures Order(why) < Order(other) || Order(other) < Order(why) || why == other
  {
    hide Resolve, Trimmed;
  }

  lemma GivenReason(
    r: RegistryState, now: Descriptions, historical: Option<Authority>, binding: Option<Binding>, required: string
  )
    ensures var given := ReconciliationEligibility(r, now, historical, binding, required);
      && (given.Ineligible? ==> StandsInTheWay(r, now, historical, binding, required, given.reason))
      && forall why | given.Eligible? || Order(why) < Order(given.reason) :: !StandsInTheWay(r, now, historical, binding, required, why)
  {
    hide Resolve, Strip, Trimmed;
    StripExactly(required, "");
    StripTrims(required);
    forall name | Trimmed(required, name) ensures name == Strip(required) {
      TrimmedIsOne(required, name, Strip(required));
    }
  }

  // -------------------------------------------------------- reading what was committed

  /** The binding carries its own identity and digest, and is executed under more than its id. */
  predicate Genuine(b: Binding) {
    && b.executionIdentity != b.providerId
    && b == Binding(
         BindingDigest(b.providerId, b.executionIdentity, b.configurationRef, b.descriptorDigest), b.providerId, b.executionIdentity,
         b.configurationRef, b.descriptorDigest,
         BindingDigest(b.providerId, b.executionIdentity, b.configurationRef, b.descriptorDigest))
  }

  predicate GenuineAuthority(a: Authority) {
    && a.id == a.authorityDigest
    && a.id == AuthorityDigest(
         a.contractRef, a.bindingRef, a.subject, a.protocolIdentity, a.protocolVersion, a.contractVersion, a.contractDigest)
  }

  /** On every run each binding is genuine and its provider's own, and each contract is the one built for the binding beside it. */
  lemma EntriesAreBuilt(ops: seq<RegistryOp>, id: string)
    ensures var r := RegistryRun(ops);
      && (id in r.bindings ==> Genuine(r.bindings[id]) && r.bindings[id].providerId == id)
      && (id in r.contracts ==>
            id in r.bindings && exists c: RepeatabilityConfiguration :: r.contracts[id] == ContractFor(r.bindings[id], c))
  {
    hide RegistryRun;
    EveryRegistryRunIsConsistent(ops);
    var r := RegistryRun(ops);
    if id in r.contracts {
      var c := r.contracts[id];
      assert c == ContractFor(
        r.bindings[id], RepeatabilityConfiguration(c.protocolIdentity, c.protocolVersion, c.mode, c.contractVersion));
    }
  }

  /** A committed dispatch gives up its binding exactly when it names and holds a genuine one of its own provider. */
  lemma BindingReadExactly(p: DispatchPayload)
    ensures BindingFromDispatch(p).Ok? <==>
      && p.binding.Some? && p.bindingRef == Some(p.binding.value.id)
      && Genuine(p.binding.value) && p.binding.value.providerId == p.providerId
    ensures BindingFromDispatch(p).Ok? ==> Some(BindingFromDispatch(p).value) == p.binding
    ensures BindingFromDispatch(p) == Err(NoOriginalFact) <==> p.binding.None? || p.bindingRef.None?
  {
  }

  /** And its authority exactly when beside that it names and holds a genuine one, of that binding and for its own request. */
  lemma AuthorityReadExactly(p: DispatchPayload, subject: string)
    ensures AuthorityFromDispatch(p, subject).Ok? <==>
      && BindingFromDispatch(p).Ok?
      && p.authority.Some? && p.authorityRef == Some(p.authority.value.id) && GenuineAuthority(p.authority.value)
      && p.authority.value.bindingRef == p.binding.value.id
      && p.requestId != "" && p.authority.value.subject == p.requestId && subject == p.requestId
    ensures AuthorityFromDispatch(p, subject).Ok? ==> Some(AuthorityFromDispatch(p, subject).value) == p.authority
    ensures AuthorityFromDispatch(p, subject) == Err(NoOriginalFact)
       <==> p.authority.None? || p.authorityRef.None?
            || (&& GenuineAuthority(p.authority.value) && p.authority.value.id == p.authorityRef.value
                && (p.binding.None? || p.bindingRef.None?))
  {
  }
}
