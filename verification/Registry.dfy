/**
 The configured-provider registry. Each registration pins one provider object to
 one execution binding and, if configured, one reconciliation contract; what is
 captured later always comes from a single registration.
 */
module Registry {
  import opened Wrappers
  import opened Text
  import opened ExecutionIdentity

  /** The identity of a provider object, as opposed to the id it describes itself by. */
  datatype ProviderRef = ProviderRef(handle: nat)

  /** What each provider object currently says about itself; it may change after registration. */
  type Descriptions = ProviderRef -> Descriptor

  datatype RegistryError =
    | AlreadyRegistered
    | IncompleteConfiguration
    | BindingRefused(error: IdentityError)
    | UnknownProvider
    | ProviderReplaced
    | DescriptorDrift
    | BindingIdMismatch
    | ContractMismatch
    | AuthorityRefused(reason: IdentityError)

  datatype RegistryState = RegistryState(
    providers: map<string, ProviderRef>,
    enabled: map<string, bool>,
    bindings: map<string, Binding>,
    contracts: map<string, Contract>)

  const EMPTY_REGISTRY := RegistryState(map[], map[], map[], map[])

  /** Everything one registration establishes at once. */
  datatype Registration = Registration(provider: ProviderRef, binding: Binding, contract: Option<Contract>)

  datatype RegistrationRequest = RegistrationRequest(
    provider: ProviderRef,
    descriptor: Descriptor,
    identity: Option<string>,
    configurationRef: Option<string>,
    repeatability: Option<RepeatabilityConfiguration>,
    incarnation: string)

  function ConfiguredIdentity(q: RegistrationRequest): string {
    if q.identity.Some? then q.identity.value
    else "provider-registration:" + q.descriptor.id + ":" + q.incarnation
  }

  function ConfigurationRef(q: RegistrationRequest): string {
    if q.configurationRef.Some? then q.configurationRef.value else "runtime-registration:" + q.incarnation
  }

  function Prepare(r: RegistryState, q: RegistrationRequest): Result<Registration, RegistryError> {
    if q.descriptor.id in r.providers then Err(AlreadyRegistered)
    else if q.identity.None? != q.configurationRef.None? then Err(IncompleteConfiguration)
    else
      match BuildBinding(q.descriptor, ConfiguredIdentity(q), ConfigurationRef(q))
      case Err(e) => Err(BindingRefused(e))
      case Ok(binding) =>
        Ok(Registration(
             q.provider, binding,
             if q.repeatability.Some? then Some(BuildContract(binding, q.repeatability.value)) else None))
  }

  function Install(r: RegistryState, id: string, enabled: bool, g: Registration): RegistryState {
    RegistryState(
      r.providers[id := g.provider],
      r.enabled[id := enabled],
      r.bindings[id := g.binding],
      if g.contract.Some? then r.contracts[id := g.contract.value] else r.contracts)
  }

  function Register(r: RegistryState, q: RegistrationRequest): Result<RegistryState, RegistryError> {
    match Prepare(r, q)
    case Err(e) => Err(e)
    case Ok(g) => Ok(Install(r, q.descriptor.id, q.descriptor.enabled, g))
  }

  function Unregister(r: RegistryState, id: string): RegistryState {
    RegistryState(r.providers - {id}, r.enabled - {id}, r.bindings - {id}, r.contracts - {id})
  }

  function SetEnabled(r: RegistryState, id: string, enabled: bool): Result<RegistryState, RegistryError> {
    if id !in r.providers then Err(UnknownProvider) else Ok(r.(enabled := r.enabled[id := enabled]))
  }

  // ------------------------------------------------------------------- invariant

  predicate Consistent(r: RegistryState) {
    && r.providers.Keys == r.enabled.Keys == r.bindings.Keys
    && r.contracts.Keys <= r.bindings.Keys
    && (forall id | id in r.bindings :: ValidBinding(r.bindings[id]) && r.bindings[id].providerId == id)
    && (forall id | id in r.contracts :: ValidContract(r.contracts[id]) && r.contracts[id].bindingRef == r.bindings[id].id)
  }

  function RegistrationOf(r: RegistryState, id: string): Registration
    requires Consistent(r) && id in r.providers
  {
    Registration(r.providers[id], r.bindings[id], if id in r.contracts then Some(r.contracts[id]) else None)
  }

  lemma BindingIsValid(d: Descriptor, identity: string, reference: string)
    requires BuildBinding(d, identity, reference).Ok?
    ensures ValidBinding(BuildBinding(d, identity, reference).value)
    ensures BuildBinding(d, identity, reference).value.providerId == d.id
    ensures BuildBinding(d, identity, reference).value.descriptorDigest == DigestOf(d)
  {
  }

  /** A prepared registration is sound in itself and takes a free id. */
  lemma PreparedIsSound(r: RegistryState, q: RegistrationRequest)
    requires Prepare(r, q).Ok?
    ensures q.descriptor.id !in r.providers
    ensures SoundRegistration(q.descriptor.id, Prepare(r, q).value)
  {
    BindingIsValid(q.descriptor, ConfiguredIdentity(q), ConfigurationRef(q));
    hide BuildBinding, ConfiguredIdentity, ConfigurationRef;
  }

  predicate SoundRegistration(id: string, g: Registration) {
    && ValidBinding(g.binding) && g.binding.providerId == id
    && (g.contract.Some? ==> ValidContract(g.contract.value) && g.contract.value.bindingRef == g.binding.id)
  }

  lemma InstallConsistent(r: RegistryState, id: string, enabled: bool, g: Registration)
    requires Consistent(r) && id !in r.providers && SoundRegistration(id, g)
    ensures Consistent(Install(r, id, enabled, g))
    ensures RegistrationOf(Install(r, id, enabled, g), id) == g
    ensures forall k | k in r.providers ::
      k in Install(r, id, enabled, g).providers && RegistrationOf(Install(r, id, enabled, g), k) == RegistrationOf(r, k)
  {
    hide ValidBinding, ValidContract;
  }

  lemma RegisterConsistent(r: RegistryState, q: RegistrationRequest)
    requires Consistent(r) && Register(r, q).Ok?
    ensures Consistent(Register(r, q).value)
    ensures RegistrationOf(Register(r, q).value, q.descriptor.id) == Prepare(r, q).value
    ensures forall id | id in Register(r, q).value.providers && id != q.descriptor.id ::
      id in r.providers && RegistrationOf(Register(r, q).value, id) == RegistrationOf(r, id)
  {
    hide Consistent, Prepare, RegistrationOf, SoundRegistration;
    PreparedIsSound(r, q);
    InstallConsistent(r, q.descriptor.id, q.descriptor.enabled, Prepare(r, q).value);
  }

  // ---------------------------------------------------------------------- runs

  datatype RegistryOp =
    | Add(request: RegistrationRequest)
    | Remove(id: string)
    | Enable(id: string)
    | Disable(id: string)

  function Change(r: RegistryState, op: RegistryOp): Result<RegistryState, RegistryError> {
    match op
    case Add(q) => Register(r, q)
    case Remove(id) => Ok(Unregister(r, id))
    case Enable(id) => SetEnabled(r, id, true)
    case Disable(id) => SetEnabled(r, id, false)
  }

  function Changed(r: RegistryState, op: RegistryOp): RegistryState {
    match Change(r, op)
    case Ok(next) => next
    case Err(_) => r
  }

  function RegistryRun(ops: seq<RegistryOp>): RegistryState {
    if ops == [] then EMPTY_REGISTRY else Changed(RegistryRun(ops[..|ops| - 1]), ops[|ops| - 1])
  }

  /** Every registration that ever succeeded, in order. */
  function Registrations(ops: seq<RegistryOp>): seq<Registration> {
    if ops == [] then []
    else
      var before, last := RegistryRun(ops[..|ops| - 1]), ops[|ops| - 1];
      Registrations(ops[..|ops| - 1])
      + if last.Add? && Prepare(before, last.request).Ok? then [Prepare(before, last.request).value] else []
  }

  lemma ChangeConsistent(r: RegistryState, op: RegistryOp)
    requires Consistent(r)
    ensures Consistent(Changed(r, op))
    ensures forall id | id in Changed(r, op).providers ::
      || (id in r.providers && RegistrationOf(Changed(r, op), id) == RegistrationOf(r, id))
      || (op.Add? && Prepare(r, op.request) == Ok(RegistrationOf(Changed(r, op), id)))
  {
    hide BuildBinding, BuildContract, Prepare, ValidBinding, ValidContract;
    if op.Add? && Register(r, op.request).Ok? {
      RegisterConsistent(r, op.request);
    }
  }

  /** On every run the maps share their keys, each contract names the binding beside it, and each entry is one registration. */
  lemma {:induction false} EveryRegistryRunIsConsistent(ops: seq<RegistryOp>)
    ensures Consistent(RegistryRun(ops))
    ensures forall id | id in RegistryRun(ops).providers :: RegistrationOf(RegistryRun(ops), id) in Registrations(ops)
  {
    hide Consistent, Prepare;
    if ops == [] {
      EmptyConsistent();
    } else {
      var prefix, last := ops[..|ops| - 1], ops[|ops| - 1];
      EveryRegistryRunIsConsistent(prefix);
      ChangeConsistent(RegistryRun(prefix), last);
    }
  }

  lemma EmptyConsistent()
    ensures Consistent(EMPTY_REGISTRY)
  {
  }

  // -------------------------------------------------------------------- capture

  function Capture(r: RegistryState, now: Descriptions, id: string, expected: Option<ProviderRef>)
    : Result<(ProviderRef, Binding), RegistryError>
  {
    if id !in r.providers || id !in r.bindings then Err(UnknownProvider)
    else
      var provider, binding := r.providers[id], r.bindings[id];
      if expected.Some? && provider != expected.value then Err(ProviderReplaced)
      else if binding.descriptorDigest != DigestOf(now(provider)) then Err(DescriptorDrift)
      else if binding.providerId != id then Err(BindingIdMismatch)
      else Ok((provider, binding))
  }

  /** The authority part is absent unless a repeat-safe contract is configured. */
  function CaptureForReconciliation(
    r: RegistryState, now: Descriptions, id: string, subject: string, expected: Option<ProviderRef>
  ): Result<(ProviderRef, Binding, Option<Authority>), RegistryError> {
    match Capture(r, now, id, expected)
    case Err(e) => Err(e)
    case Ok((provider, binding)) =>
      if id !in r.contracts || r.contracts[id].mode != RepeatSafe then Ok((provider, binding, None))
      else if r.contracts[id].bindingRef != binding.id then Err(ContractMismatch)
      else
        match BuildAuthority(r.contracts[id], subject)
        case Err(e) => Err(AuthorityRefused(e))
        case Ok(authority) => Ok((provider, binding, Some(authority)))
  }

  function ConfiguredContract(r: RegistryState, now: Descriptions, id: string, expected: Option<ProviderRef>)
    : Result<Option<Contract>, RegistryError>
  {
    match Capture(r, now, id, expected)
    case Err(e) => Err(e)
    case Ok((_, binding)) =>
      if id !in r.contracts then Ok(None)
      else if r.contracts[id].bindingRef != binding.id then Err(ContractMismatch)
      else Ok(Some(r.contracts[id]))
  }

  function Resolve(r: RegistryState, now: Descriptions, historical: Binding): Option<ProviderRef> {
    if historical.providerId !in r.providers then None
    else
      match Capture(r, now, historical.providerId, None)
      case Err(_) => None
      case Ok((provider, current)) => if current != historical then None else Some(provider)
  }

  function ReconciliationEligibility(
    r: RegistryState, now: Descriptions, historical: Option<Authority>, binding: Option<Binding>, required: string
  ): Eligibility {
    if binding.None? then EvaluateRepeatability(historical, None, None, required)
    else if Resolve(r, now, binding.value).None? then Ineligible(TargetUnavailable)
    else
      var id := binding.value.providerId;
      EvaluateRepeatability(historical, binding, if id in r.contracts then Some(r.contracts[id]) else None, required)
  }

  /** The consistency checks made while capturing never fail on a registry that was only ever changed by its operations. */
  lemma DriftBranchesUnreachable(
    ops: seq<RegistryOp>, now: Descriptions, id: string, subject: string, expected: Option<ProviderRef>
  )
    ensures Capture(RegistryRun(ops), now, id, expected) != Err(BindingIdMismatch)
    ensures CaptureForReconciliation(RegistryRun(ops), now, id, subject, expected) != Err(ContractMismatch)
    ensures ConfiguredContract(RegistryRun(ops), now, id, expected) != Err(ContractMismatch)
    ensures id in RegistryRun(ops).providers <==> id in RegistryRun(ops).bindings
  {
    hide RegistryRun, BuildAuthority, ValidBinding, ValidContract;
    EveryRegistryRunIsConsistent(ops);
  }

  /** Provider, binding and authority captured together all stem from one registration. */
  lemma CapturedFromOneRegistration(
    ops: seq<RegistryOp>, now: Descriptions, id: string, subject: string, expected: Option<ProviderRef>
  )
    requires CaptureForReconciliation(RegistryRun(ops), now, id, subject, expected).Ok?
    ensures var (provider, binding, authority) := CaptureForReconciliation(RegistryRun(ops), now, id, subject, expected).value;
      && (expected.Some? ==> provider == expected.value)
      && binding.descriptorDigest == DigestOf(now(provider))
      && exists g | g in Registrations(ops) ::
           && g.provider == provider && g.binding == binding
           && (authority.Some? ==> g.contract.Some? && BuildAuthority(g.contract.value, subject) == Ok(authority.value))
  {
    hide RegistryRun, Registrations, BuildAuthority, ValidBinding, ValidContract;
    EveryRegistryRunIsConsistent(ops);
    assert RegistrationOf(RegistryRun(ops), id) in Registrations(ops);
  }

  /**
   Authority captured at dispatch is honoured later exactly when the id still
   carries the equal binding on an undrifted provider, and the equal contract.
   */
  lemma EligibleExactlyWhenUnchanged(
    earlier: seq<RegistryOp>, later: seq<RegistryOp>, nowThen: Descriptions, nowLater: Descriptions,
    id: string, subject: string, expected: Option<ProviderRef>, required: string
  )
    requires CaptureForReconciliation(RegistryRun(earlier), nowThen, id, subject, expected).Ok?
    requires CaptureForReconciliation(RegistryRun(earlier), nowThen, id, subject, expected).value.2.Some?
    ensures var (_, binding, authority) := CaptureForReconciliation(RegistryRun(earlier), nowThen, id, subject, expected).value;
      var r := RegistryRun(later);
      ReconciliationEligibility(r, nowLater, authority, Some(binding), required) == Eligible
      <==> && required == authority.value.subject
           && id in r.bindings && id in r.providers && r.bindings[id] == binding
           && DigestOf(nowLater(r.providers[id])) == binding.descriptorDigest
           && id in r.contracts && id in RegistryRun(earlier).contracts
           && r.contracts[id] == RegistryRun(earlier).contracts[id]
  {
    hide RegistryRun, BuildAuthority, EvaluateRepeatability, ValidContract, ValidBinding;
    EveryRegistryRunIsConsistent(earlier);
    EveryRegistryRunIsConsistent(later);
    var (_, binding, authority) := CaptureForReconciliation(RegistryRun(earlier), nowThen, id, subject, expected).value;
    var captured, r := RegistryRun(earlier).contracts[id], RegistryRun(later);
    if id in r.contracts {
      EligibleExactlyUnderSameContract(captured, subject, authority.value, binding, r.contracts[id], required);
    } else {
      NotEligibleWithoutContract(authority, binding, required);
    }
  }

  lemma NotEligibleWithoutContract(authority: Option<Authority>, binding: Binding, required: string)
    ensures EvaluateRepeatability(authority, Some(binding), None, required) != Eligible
  {
  }

  // ------------------------------------------------------------ the live registry

  class ProviderRegistry {
    var providers: map<string, ProviderRef>
    var enabled: map<string, bool>
    var bindings: map<string, Binding>
    var contracts: map<string, Contract>

    constructor ()
      ensures Abs() == EMPTY_REGISTRY
    {
      providers, enabled, bindings, contracts := map[], map[], map[], map[];
    }

    function Abs(): RegistryState
      reads this
    {
      RegistryState(providers, enabled, bindings, contracts)
    }

    method Register(
      provider: ProviderRef, descriptor: Descriptor, configuredIdentity: Option<string>,
      configurationRef: Option<string>, repeatability: Option<RepeatabilityConfiguration>, incarnation: string
    ) returns (outcome: Outcome<RegistryError>)
      modifies this
      ensures var q := RegistrationRequest(provider, descriptor, configuredIdentity, configurationRef, repeatability, incarnation);
        match Change(old(Abs()), Add(q))
        case Ok(next) => outcome.Pass? && Abs() == next
        case Err(e) => outcome == Fail(e) && Abs() == old(Abs())
    {
      if descriptor.id in providers {
        return Fail(AlreadyRegistered);
      }
      if configuredIdentity.None? != configurationRef.None? {
        return Fail(IncompleteConfiguration);
      }
      var identity, reference;
      if configuredIdentity.None? {
        identity := "provider-registration:" + descriptor.id + ":" + incarnation;
        reference := "runtime-registration:" + incarnation;
      } else {
        identity, reference := configuredIdentity.value, configurationRef.value;
      }
      var binding := BuildBinding(descriptor, identity, reference);
      if binding.Err? {
        return Fail(BindingRefused(binding.error));
      }
      providers := providers[descriptor.id := provider];
      enabled := enabled[descriptor.id := descriptor.enabled];
      bindings := bindings[descriptor.id := binding.value];
      if repeatability.Some? {
        contracts := contracts[descriptor.id := BuildContract(binding.value, repeatability.value)];
      }
      return Pass;
    }

    method Unregister(id: string)
      modifies this
      ensures Abs() == Changed(old(Abs()), Remove(id))
    {
      providers, enabled := providers - {id}, enabled - {id};
      bindings, contracts := bindings - {id}, contracts - {id};
    }

    method SetEnabled(id: string, on: bool) returns (outcome: Outcome<RegistryError>)
      modifies this
      ensures match Change(old(Abs()), if on then Enable(id) else Disable(id))
              case Ok(next) => outcome.Pass? && Abs() == next
              case Err(e) => outcome == Fail(e) && Abs() == old(Abs())
    {
      if id !in providers {
        return Fail(UnknownProvider);
      }
      enabled := enabled[id := on];
      return Pass;
    }
  }
}
