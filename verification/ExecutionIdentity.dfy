/**
 Identities of configured providers and of repeat-safe reconciliation.

 A digest is taken as the payload it is computed from, so two digests are equal
 exactly when the digested facts are. Every object carries its own digest and
 identity, as the stored form does, and is valid only when they agree.
 */
module ExecutionIdentity {
  import opened Wrappers
  import opened Text

  /** Provider self-description; `semantics` stands for every field but id and enabled. */
  datatype Descriptor = Descriptor(id: string, enabled: bool, semantics: string)

  datatype DescriptorDigest = DescriptorDigest(id: string, semantics: string)

  function DigestOf(d: Descriptor): DescriptorDigest {
    DescriptorDigest(d.id, d.semantics)
  }

  datatype BindingDigest = BindingDigest(
    providerId: string,
    executionIdentity: string,
    configurationRef: string,
    descriptorDigest: DescriptorDigest)

  datatype Binding = Binding(
    id: BindingDigest,
    providerId: string,
    executionIdentity: string,
    configurationRef: string,
    descriptorDigest: DescriptorDigest,
    bindingDigest: BindingDigest)

  predicate ValidBinding(b: Binding) {
    && b.bindingDigest == BindingDigest(b.providerId, b.executionIdentity, b.configurationRef, b.descriptorDigest)
    && b.id == b.bindingDigest
    && b.executionIdentity != b.providerId
  }

  datatype IdentityError =
    | MissingIdentity
    | IdentityTooWeak
    | MissingSubject
    | NotRepeatSafe

  function BuildBinding(d: Descriptor, executionIdentity: string, configurationRef: string): Result<Binding, IdentityError> {
    var identity, reference := Strip(executionIdentity), Strip(configurationRef);
    :- Need(identity != "" && reference != "", MissingIdentity);
    :- Need(identity != d.id, IdentityTooWeak);
    var digest := BindingDigest(d.id, identity, reference, DigestOf(d));
    Ok(Binding(digest, d.id, identity, reference, DigestOf(d), digest))
  }

  datatype Mode = RepeatSafe | NonRepeatSafe | UnknownMode

  /** Reconciliation semantics as configured at registration. */
  datatype RepeatabilityConfiguration = RepeatabilityConfiguration(
    protocolIdentity: string,
    protocolVersion: string,
    mode: Mode,
    contractVersion: string)

  datatype ContractDigest = ContractDigest(
    bindingRef: BindingDigest,
    protocolIdentity: string,
    protocolVersion: string,
    mode: Mode,
    contractVersion: string)

  datatype Contract = Contract(
    id: ContractDigest,
    bindingRef: BindingDigest,
    protocolIdentity: string,
    protocolVersion: string,
    mode: Mode,
    contractVersion: string,
    contractDigest: ContractDigest)

  predicate ValidContract(c: Contract) {
    && c.contractDigest
         == ContractDigest(c.bindingRef, c.protocolIdentity, c.protocolVersion, c.mode, c.contractVersion)
    && c.id == c.contractDigest
  }

  function BuildContract(b: Binding, config: RepeatabilityConfiguration): (c: Contract)
    ensures ValidContract(c) && c.bindingRef == b.id
  {
    var digest := ContractDigest(b.id, config.protocolIdentity, config.protocolVersion, config.mode, config.contractVersion);
    Contract(digest, b.id, config.protocolIdentity, config.protocolVersion, config.mode, config.contractVersion, digest)
  }

  datatype AuthorityDigest = AuthorityDigest(
    contractRef: ContractDigest,
    bindingRef: BindingDigest,
    subject: string,
    protocolIdentity: string,
    protocolVersion: string,
    contractVersion: string,
    contractDigest: ContractDigest)

  /** Positive authority to repeat one exact request's reconciliation query. */
  datatype Authority = Authority(
    id: AuthorityDigest,
    contractRef: ContractDigest,
    bindingRef: BindingDigest,
    subject: string,
    protocolIdentity: string,
    protocolVersion: string,
    contractVersion: string,
    contractDigest: ContractDigest,
    authorityDigest: AuthorityDigest)

  predicate ValidAuthority(a: Authority) {
    && a.authorityDigest
         == AuthorityDigest(a.contractRef, a.bindingRef, a.subject, a.protocolIdentity, a.protocolVersion,
                            a.contractVersion, a.contractDigest)
    && a.id == a.authorityDigest
  }

  function BuildAuthority(c: Contract, subjectIdentity: string): Result<Authority, IdentityError> {
    var subject := Strip(subjectIdentity);
    :- Need(subject != "", MissingSubject);
    :- Need(c.mode == RepeatSafe, NotRepeatSafe);
    var digest := AuthorityDigest(c.id, c.bindingRef, subject, c.protocolIdentity, c.protocolVersion,
                                  c.contractVersion, c.contractDigest);
    Ok(Authority(digest, c.id, c.bindingRef, subject, c.protocolIdentity, c.protocolVersion,
                 c.contractVersion, c.contractDigest, digest))
  }

  datatype Ineligibility =
    | AuthorityAbsent
    | BindingAbsent
    | ForeignBinding
    | ForeignSubject
    | TargetUnavailable
    | ContractAbsent
    | ContractElsewhere
    | ContractNotRepeatSafe
    | SubjectRefused(error: IdentityError)
    | ContractDrifted

  datatype Eligibility = Eligible | Ineligible(reason: Ineligibility)

  function EvaluateRepeatability(
    historical: Option<Authority>, binding: Option<Binding>, current: Option<Contract>, required: string
  ): Eligibility {
    if historical.None? then Ineligible(AuthorityAbsent)
    else if binding.None? then Ineligible(BindingAbsent)
    else if historical.value.bindingRef != binding.value.id then Ineligible(ForeignBinding)
    else if historical.value.subject != required then Ineligible(ForeignSubject)
    else if current.None? then Ineligible(ContractAbsent)
    else if current.value.bindingRef != binding.value.id then Ineligible(ContractElsewhere)
    else if current.value.mode != RepeatSafe then Ineligible(ContractNotRepeatSafe)
    else
      match BuildAuthority(current.value, required)
      case Err(e) => Ineligible(SubjectRefused(e))
      case Ok(rebuilt) => if rebuilt != historical.value then Ineligible(ContractDrifted) else Eligible
  }

  /**
   Authority captured from one contract is honoured later exactly when the
   contract then configured is that very contract and the subject is the one
   it was captured for.
   */
  lemma EligibleExactlyUnderSameContract(
    captured: Contract, subject: string, authority: Authority,
    binding: Binding, current: Contract, required: string
  )
    requires ValidContract(captured) && ValidContract(current)
    requires captured.bindingRef == binding.id
    requires BuildAuthority(captured, subject) == Ok(authority)
    ensures EvaluateRepeatability(Some(authority), Some(binding), Some(current), required) == Eligible
       <==> current == captured && required == authority.subject
  {
    StripIdempotent(subject);
  }

  // ----------------------------------------------------- governance digests

  /** One review's blocking predicate, without the review's identity. */
  datatype BlockingPredicate =
    | OnContext(context: string)
    | OnCondition(contextNames: set<string>, scopeAny: set<string>, scopeAll: set<string>)

  datatype RequirementDigest =
    | NotBoundRequirement
    | BoundRequirement(schemeId: string, name: string, requestedScope: set<string>)

  datatype SnapshotDigest =
    | NotBoundSnapshot
    | BoundSnapshot(
        schemeId: string, name: string, requestedScope: set<string>,
        qualification: string, activation: string, scope: set<string>,
        blockers: multiset<BlockingPredicate>)

  // ------------------------------------------------------- dispatch payloads

  const DISPATCH_SCHEMA := "governance-dispatch-commit-v1"

  datatype DispatchIdentity = DispatchIdentity(
    schema: string,
    requestId: string,
    providerId: string,
    attemptId: Option<string>,
    permitDigest: string,
    requirement: RequirementDigest,
    snapshot: SnapshotDigest,
    bindingRef: Option<BindingDigest>,
    authorityRef: Option<AuthorityDigest>)

  datatype DispatchPayload = DispatchPayload(
    schema: string,
    requestId: string,
    providerId: string,
    attemptRef: Option<string>,
    permitDigest: string,
    qualificationDigest: string,
    requirement: RequirementDigest,
    snapshot: SnapshotDigest,
    leaseGeneration: int,
    bindingRef: Option<BindingDigest>,
    binding: Option<Binding>,
    authorityRef: Option<AuthorityDigest>,
    authority: Option<Authority>)

  /** The identity a committed payload reconstructs to, in each of its three shapes. */
  function IdentityFromPayload(p: DispatchPayload): DispatchIdentity {
    DispatchIdentity(p.schema, p.requestId, p.providerId, p.attemptRef, p.permitDigest,
                     p.requirement, p.snapshot, p.bindingRef, p.authorityRef)
  }

  datatype DecodeError = NoOriginalFact | RefMismatch | ProviderMismatch | BindingMismatch | SubjectMismatch | CorruptFact

  function BindingFromDispatch(p: DispatchPayload): Result<Binding, DecodeError> {
    if p.binding.None? || p.bindingRef.None? then Err(NoOriginalFact)
    else if !ValidBinding(p.binding.value) then Err(CorruptFact)
    else if p.binding.value.id != p.bindingRef.value then Err(RefMismatch)
    else if p.binding.value.providerId != p.providerId then Err(ProviderMismatch)
    else Ok(p.binding.value)
  }

  function AuthorityFromDispatch(p: DispatchPayload, subjectRef: string): Result<Authority, DecodeError> {
    if p.authority.None? || p.authorityRef.None? then Err(NoOriginalFact)
    else if !ValidAuthority(p.authority.value) then Err(CorruptFact)
    else if p.authority.value.id != p.authorityRef.value then Err(RefMismatch)
    else
      var binding :- BindingFromDispatch(p);
      if p.authority.value.bindingRef != binding.id then Err(BindingMismatch)
      else if p.requestId == "" || p.authority.value.subject != p.requestId || subjectRef != p.requestId then
        Err(SubjectMismatch)
      else Ok(p.authority.value)
  }
}
