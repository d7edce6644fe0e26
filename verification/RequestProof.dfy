/**
 The proof that accompanies a request, what it signs, the slot it spends, and
 the evaluation that makes a lifted context worthless.
 */
module RequestProof {
  import opened JsText
  import opened JsonValue
  import opened Options
  import opened DeviceTime
  import opened DeviceRegistry
  import opened FieldNames
  import opened SignedRecord
  import opened OneShot

  const MAX_AGE_MS := 60_000
  const MAX_FUTURE_SKEW_MS := 5_000
  const MAX_CONTEXT_LIFETIME_MS := 300_000

  datatype Context = Context(
    contextId: Text,
    organisationId: Text,
    actorUserId: Text,
    deviceId: Text,
    authorisedSiteIds: seq<Text>,
    deviceTrust: Trust,
    keyId: Text,
    keyVersion: SafeInt,
    issuedAt: Text,
    expiresAt: Text)

  datatype Proof = Proof(
    contextId: Text,
    organisationId: Text,
    siteId: Text,
    actorUserId: Text,
    deviceId: Text,
    keyId: Text,
    keyVersion: SafeInt,
    purpose: Purpose,
    payloadDigest: Text,
    nonce: Text,
    issuedAt: Text,
    claimedSignatureProfile: Text)

  datatype ActorFacts = ActorFacts(userId: Text, authorisedSiteIds: seq<Text>, holdsRequiredCapability: bool)

  datatype Registered = Registered(
    organisationId: Text,
    deviceId: Text,
    keyId: Text,
    keyVersion: SafeInt,
    signatureProfile: Text,
    trust: Trust,
    revoked: bool,
    actor: ActorFacts)

  datatype Input = Input(
    context: Context,
    proof: Proof,
    now: Text,
    expectedPayloadDigest: Text,
    registered: Registered,
    verified: bool,
    consumption: Consumption)

  datatype Mode = EnforceActorAuthority | AuthenticationOnly

  datatype Refusal =
    | TimeNotAuthoritative
    | ContextNotYetValid
    | ContextExpired
    | ContextOrganisationMismatch
    | ContextActorMismatch
    | ContextDeviceMismatch
    | ContextIdentityMismatch
    | ContextSiteNotAuthorised
    | ContextKeyMismatch
    | RegistryIdentityMismatch
    | CredentialRevoked
    | KeyVersionRotated
    | PurposeNotAllowed
    | DeviceTrustNotPermitted
    | ActorAuthorityRemoved
    | SiteEntitlementLost
    | SignatureProfileClaimMismatch
    | ProofFutureSkew
    | ProofStale
    | PayloadDigestMismatch
    | NonceConsumptionInconsistent
    | NonceConsumptionMisbound
    | NonceReusedWithChangedSemantics
    | PossessionNotProven

  datatype Decision =
    | Proceed(fingerprint: Text)
    | Converge(fingerprint: Text, storedOutcomeRef: Text)
    | Refused(refusal: Refusal)

  // ----- what the device signs -----

  /** The signed record: the proof without its claim, plus the server's profile. */
  function StatementFields(p: Proof, profile: Text): (fields: seq<Field>)
    ensures |fields| == 14
  {
    [ Field(Name.Domain, Tag(RequestProofStatement)),
      Field(Name.SchemaVersion, Num(1)),
      Field(Name.ContextId, Str(p.contextId)),
      Field(Name.OrganisationId, Str(p.organisationId)),
      Field(Name.SiteId, Str(p.siteId)),
      Field(Name.ActorUserId, Str(p.actorUserId)),
      Field(Name.DeviceId, Str(p.deviceId)),
      Field(Name.KeyId, Str(p.keyId)),
      Field(Name.KeyVersion, Num(p.keyVersion)),
      Field(Name.Purpose, Str(Literal(PurposeName(p.purpose)))),
      Field(Name.PayloadDigest, Str(p.payloadDigest)),
      Field(Name.Nonce, Str(p.nonce)),
      Field(Name.IssuedAt, Str(p.issuedAt)),
      Field(Name.SignatureProfile, Str(profile))
    ]
  }

  function Fingerprint(p: Proof, profile: Text): Text {
    RecordText(StatementFields(p, profile))
  }

  function ReplayFields(p: Proof): (fields: seq<Field>)
    ensures |fields| == 7
  {
    [ Field(Name.Domain, Tag(RequestProofSlot)),
      Field(Name.OrganisationId, Str(p.organisationId)),
      Field(Name.SiteId, Str(p.siteId)),
      Field(Name.ActorUserId, Str(p.actorUserId)),
      Field(Name.DeviceId, Str(p.deviceId)),
      Field(Name.KeyVersion, Num(p.keyVersion)),
      Field(Name.Nonce, Str(p.nonce))
    ]
  }

  function ReplayKey(p: Proof): Text {
    RecordText(ReplayFields(p))
  }

  lemma FieldsProper(p: Proof, profile: Text)
    ensures DistinctNames(StatementFields(p, profile)) && AllLeaves(StatementFields(p, profile))
    ensures DistinctNames(ReplayFields(p)) && AllLeaves(ReplayFields(p))
  {
    hide Literal, PurposeName, TagSpelling;
  }

  /** One signature covers one request: every field of the proof, and the profile, are in the bytes. */
  lemma StatementInjective(p: Proof, profile: Text, q: Proof, other: Text)
    ensures Fingerprint(p, profile) == Fingerprint(q, other) <==>
            p.(claimedSignatureProfile := []) == q.(claimedSignatureProfile := []) && profile == other
  {
    hide RecordText, Literal, PurposeName, TagSpelling;
    var a, b := StatementFields(p, profile), StatementFields(q, other);
    FieldsProper(p, profile);
    FieldsProper(q, other);
    TextDecidesLeaves(a, b);
    PurposeNamesDiffer(p.purpose, q.purpose);
    if a == b {
      assert a[2] == b[2] && a[3] == b[3] && a[4] == b[4] && a[5] == b[5] && a[6] == b[6] && a[7] == b[7];
      assert a[8] == b[8] && a[9] == b[9] && a[10] == b[10] && a[11] == b[11] && a[12] == b[12] && a[13] == b[13];
    }
  }

  /** What the device signs, read back: which value stands under which name. */
  lemma StatementSays(p: Proof, profile: Text)
    ensures var text := Fingerprint(p, profile);
            && ReadsAsObject(text, 14)
            && Says(text, Name.Domain, Tag(RequestProofStatement)) && Says(text, Name.SchemaVersion, Num(1))
            && Says(text, Name.ContextId, Str(p.contextId)) && Says(text, Name.OrganisationId, Str(p.organisationId))
            && Says(text, Name.SiteId, Str(p.siteId)) && Says(text, Name.ActorUserId, Str(p.actorUserId))
            && Says(text, Name.DeviceId, Str(p.deviceId)) && Says(text, Name.KeyId, Str(p.keyId))
            && Says(text, Name.KeyVersion, Num(p.keyVersion)) && Says(text, Name.Purpose, Str(Literal(PurposeName(p.purpose))))
            && Says(text, Name.PayloadDigest, Str(p.payloadDigest)) && Says(text, Name.Nonce, Str(p.nonce))
            && Says(text, Name.IssuedAt, Str(p.issuedAt)) && Says(text, Name.SignatureProfile, Str(profile))
  {
    hide RecordText, Says, ReadsAsObject, Literal, PurposeName, TagSpelling, Tag, DistinctNames, AllLeaves;
    var fields := StatementFields(p, profile);
    FieldsProper(p, profile);
    RecordSays(fields);
    assert fields[0].name.Domain? && fields[1].name.SchemaVersion?;
    assert fields[2].name.ContextId? && fields[3].name.OrganisationId?;
    assert fields[4].name.SiteId? && fields[5].name.ActorUserId? && fields[6].name.DeviceId? && fields[7].name.KeyId?;
    assert fields[8].name.KeyVersion? && fields[9].name.Purpose? && fields[10].name.PayloadDigest? && fields[11].name.Nonce?;
    assert fields[12].name.IssuedAt? && fields[13].name.SignatureProfile?;
  }

  /** Two proofs compete for one slot exactly when the six identity columns agree. */
  lemma ReplayKeyInjective(p: Proof, q: Proof)
    ensures ReplayKey(p) == ReplayKey(q) <==>
            && p.organisationId == q.organisationId && p.siteId == q.siteId && p.actorUserId == q.actorUserId
            && p.deviceId == q.deviceId && p.keyVersion == q.keyVersion && p.nonce == q.nonce
  {
    hide RecordText, TagSpelling, Literal;
    var a, b := ReplayFields(p), ReplayFields(q);
    FieldsProper(p, []);
    FieldsProper(q, []);
    TextDecidesLeaves(a, b);
    if a == b {
      assert a[1] == b[1] && a[2] == b[2] && a[3] == b[3] && a[4] == b[4] && a[5] == b[5] && a[6] == b[6];
    }
  }

  // ----- the evaluation -----

  /** The checks that need no clock, in order, up to the point where freshness is judged. */
  function IdentityRefusal(input: Input, expected: Purpose, mode: Mode): Option<Refusal> {
    var context, proof, registered := input.context, input.proof, input.registered;
    if proof.organisationId != context.organisationId then Some(ContextOrganisationMismatch)
    else if proof.actorUserId != context.actorUserId then Some(ContextActorMismatch)
    else if proof.deviceId != context.deviceId then Some(ContextDeviceMismatch)
    else if proof.contextId != context.contextId then Some(ContextIdentityMismatch)
    else if proof.siteId !in context.authorisedSiteIds then Some(ContextSiteNotAuthorised)
    else if proof.keyId != context.keyId || proof.keyVersion != context.keyVersion then Some(ContextKeyMismatch)
    else if registered.organisationId != context.organisationId || registered.deviceId != context.deviceId
    then Some(RegistryIdentityMismatch)
    else if registered.revoked then Some(CredentialRevoked)
    else if registered.keyId != context.keyId then Some(ContextKeyMismatch)
    else if registered.keyVersion != context.keyVersion then Some(KeyVersionRotated)
    else if proof.purpose != expected then Some(PurposeNotAllowed)
    else if registered.trust !in PermittedTrust(proof.purpose) then Some(DeviceTrustNotPermitted)
    else if mode.EnforceActorAuthority? && registered.actor.userId != context.actorUserId then Some(ActorAuthorityRemoved)
    else if mode.EnforceActorAuthority? && !registered.actor.holdsRequiredCapability then Some(ActorAuthorityRemoved)
    else if mode.EnforceActorAuthority? && proof.siteId !in registered.actor.authorisedSiteIds
    then Some(SiteEntitlementLost)
    else if !ProfileBound(proof.claimedSignatureProfile, registered.signatureProfile)
    then Some(SignatureProfileClaimMismatch)
    else None
  }

  /** The one-shot fact, possession, and the effect they leave. */
  function OneShotDecision(input: Input): Decision {
    var fingerprint := Fingerprint(input.proof, input.registered.signatureProfile);
    var fact := input.consumption;
    if !IsConsistent(fact) then Refused(NonceConsumptionInconsistent)
    else if fact.replayKey != ReplayKey(input.proof) || fact.statementFingerprint != fingerprint
    then Refused(NonceConsumptionMisbound)
    else if fact.outcome.ReusedWithChangedSemantics? then Refused(NonceReusedWithChangedSemantics)
    else if !input.verified then Refused(PossessionNotProven)
    else if fact.outcome.ExactDuplicate? then Converge(fingerprint, fact.storedOutcomeRef.value)
    else Proceed(fingerprint)
  }

  function EvaluateUnderMode(dates: DateParse, input: Input, expected: Purpose, mode: Mode): Decision {
    match Instants(dates, [input.now, input.context.issuedAt, input.context.expiresAt, input.proof.issuedAt])
    case None => Refused(TimeNotAuthoritative)
    case Some(instants) =>
      var now, contextIssued, contextExpires, proofIssued := instants[0], instants[1], instants[2], instants[3];
      if now < contextIssued then Refused(ContextNotYetValid)
      else if IsExpiredAt(now, contextExpires) then Refused(ContextExpired)
      else
        var refusal := IdentityRefusal(input, expected, mode);
        if refusal.Some? then Refused(refusal.value)
        else if now - proofIssued < -MAX_FUTURE_SKEW_MS then Refused(ProofFutureSkew)
        else if now - proofIssued > MAX_AGE_MS then Refused(ProofStale)
        else if input.proof.payloadDigest != input.expectedPayloadDigest then Refused(PayloadDigestMismatch)
        else OneShotDecision(input)
  }

  function Evaluate(dates: DateParse, input: Input, expected: Purpose): Decision {
    EvaluateUnderMode(dates, input, expected, EnforceActorAuthority)
  }

  // ----- what an admission means -----

  /** The context is live and the proof fresh, all on readable clocks. */
  ghost predicate InTime(dates: DateParse, input: Input) {
    var now, issued, expires, signed :=
      dates(input.now), dates(input.context.issuedAt), dates(input.context.expiresAt), dates(input.proof.issuedAt);
    && now.Some? && issued.Some? && expires.Some? && signed.Some?
    && issued.value <= now.value < expires.value
    && signed.value - 5_000 <= now.value <= signed.value + 60_000
  }

  /** Proof, context and registry name one device, one key version, one tenant and one site. */
  ghost predicate OneIdentity(input: Input) {
    var context, proof, registered := input.context, input.proof, input.registered;
    && proof.organisationId == context.organisationId == registered.organisationId
    && proof.actorUserId == context.actorUserId
    && proof.deviceId == context.deviceId == registered.deviceId
    && proof.contextId == context.contextId
    && proof.siteId in context.authorisedSiteIds
    && proof.keyId == context.keyId == registered.keyId
    && proof.keyVersion == context.keyVersion == registered.keyVersion
    && !registered.revoked
    && proof.claimedSignatureProfile == registered.signatureProfile == Literal(APPROVED_PROFILE)
  }

  /** The person authenticated now may still do this here. */
  ghost predicate ActorHolds(input: Input) {
    && input.registered.actor.userId == input.context.actorUserId
    && input.registered.actor.holdsRequiredCapability
    && input.proof.siteId in input.registered.actor.authorisedSiteIds
  }

  /** The store's report is well-formed and about this very request. */
  ghost predicate FactIsAbout(input: Input) {
    && IsConsistent(input.consumption)
    && input.consumption.replayKey == ReplayKey(input.proof)
    && input.consumption.statementFingerprint == Fingerprint(input.proof, input.registered.signatureProfile)
  }

  /**
   Which trust states may attempt what: a trusted device everything, a degraded one
   everything but the covert channel, a suspected or dark one only the handshake, a
   quarantined or compromised one nothing.
   */
  predicate TrustFits(trust: Trust, purpose: Purpose) {
    match trust
    case Trusted => true
    case Degraded => !purpose.WhisperDeviceAction?
    case Suspicious => purpose.ReconnectHandshake?
    case Offline => purpose.ReconnectHandshake?
    case Quarantined => false
    case Compromised => false
  }

  lemma TableFits(trust: Trust, purpose: Purpose)
    ensures trust in PermittedTrust(purpose) <==> TrustFits(trust, purpose)
  {
  }

  ghost predicate AllButPossession(dates: DateParse, input: Input, expected: Purpose, mode: Mode) {
    && InTime(dates, input)
    && OneIdentity(input)
    && (mode.EnforceActorAuthority? ==> ActorHolds(input))
    && input.proof.purpose == expected
    && TrustFits(input.registered.trust, expected)
    && input.proof.payloadDigest == input.expectedPayloadDigest
    && FactIsAbout(input)
    && !input.consumption.outcome.ReusedWithChangedSemantics?
  }

  /** What each refusal says is wrong. */
  ghost predicate Defect(dates: DateParse, input: Input, expected: Purpose, mode: Mode, refusal: Refusal) {
    var context, proof, registered := input.context, input.proof, input.registered;
    var now, issued, expires, signed := dates(input.now), dates(context.issuedAt), dates(context.expiresAt), dates(proof.issuedAt);
    var enforced := mode.EnforceActorAuthority?;
    match refusal
    case TimeNotAuthoritative => now.None? || issued.None? || expires.None? || signed.None?
    case ContextNotYetValid => now.Some? && issued.Some? && now.value < issued.value
    case ContextExpired => now.Some? && expires.Some? && now.value >= expires.value
    case ContextOrganisationMismatch => proof.organisationId != context.organisationId
    case ContextActorMismatch => proof.actorUserId != context.actorUserId
    case ContextDeviceMismatch => proof.deviceId != context.deviceId
    case ContextIdentityMismatch => proof.contextId != context.contextId
    case ContextSiteNotAuthorised => proof.siteId !in context.authorisedSiteIds
    case ContextKeyMismatch =>
      proof.keyId != context.keyId || proof.keyVersion != context.keyVersion || registered.keyId != context.keyId
    case RegistryIdentityMismatch =>
      registered.organisationId != context.organisationId || registered.deviceId != context.deviceId
    case CredentialRevoked => registered.revoked
    case KeyVersionRotated => registered.keyVersion != context.keyVersion
    case PurposeNotAllowed => proof.purpose != expected
    case DeviceTrustNotPermitted => !TrustFits(registered.trust, expected)
    case ActorAuthorityRemoved =>
      enforced && (registered.actor.userId != context.actorUserId || !registered.actor.holdsRequiredCapability)
    case SiteEntitlementLost => enforced && proof.siteId !in registered.actor.authorisedSiteIds
    case SignatureProfileClaimMismatch =>
      registered.signatureProfile != Literal(APPROVED_PROFILE) || proof.claimedSignatureProfile != registered.signatureProfile
    case ProofFutureSkew => now.Some? && signed.Some? && signed.value > now.value + 5_000
    case ProofStale => now.Some? && signed.Some? && now.value > signed.value + 60_000
    case PayloadDigestMismatch => proof.payloadDigest != input.expectedPayloadDigest
    case NonceConsumptionInconsistent => !IsConsistent(input.consumption)
    case NonceConsumptionMisbound =>
      || input.consumption.replayKey != ReplayKey(proof)
      || input.consumption.statementFingerprint != Fingerprint(proof, registered.signatureProfile)
    case NonceReusedWithChangedSemantics => input.consumption.outcome.ReusedWithChangedSemantics?
    case PossessionNotProven => !input.verified
  }

  lemma IdentityDefects(dates: DateParse, input: Input, expected: Purpose, mode: Mode)
    ensures var r := IdentityRefusal(input, expected, mode);
            r.Some? ==> Defect(dates, input, expected, mode, r.value)
  {
    hide Fingerprint, ReplayKey, IsConsistent, Literal, PermittedTrust, TrustFits;
    TableFits(input.registered.trust, input.proof.purpose);
  }

  lemma OneShotDefects(dates: DateParse, input: Input, expected: Purpose, mode: Mode)
    ensures OneShotDecision(input).Refused? ==> Defect(dates, input, expected, mode, OneShotDecision(input).refusal)
  {
    hide Fingerprint, ReplayKey, IsConsistent, Literal, TrustFits;
  }

  /** A refusal is never given for a defect that is not there. */
  lemma RefusalsAreTrue(dates: DateParse, input: Input, expected: Purpose, mode: Mode)
    ensures EvaluateUnderMode(dates, input, expected, mode).Refused? ==>
              Defect(dates, input, expected, mode, EvaluateUnderMode(dates, input, expected, mode).refusal)
  {
    hide Fingerprint, ReplayKey, IsConsistent, Literal, TrustFits, IdentityRefusal, OneShotDecision;
    IdentityDefects(dates, input, expected, mode);
    OneShotDefects(dates, input, expected, mode);
    ReadInstants(dates, input);
  }

  lemma ReadInstants(dates: DateParse, input: Input)
    ensures var r := Instants(dates, [input.now, input.context.issuedAt, input.context.expiresAt, input.proof.issuedAt]);
            && (r.Some? <==> dates(input.now).Some? && dates(input.context.issuedAt).Some?
                             && dates(input.context.expiresAt).Some? && dates(input.proof.issuedAt).Some?)
            && (r.Some? ==> && |r.value| == 4
                            && dates(input.now) == Some(r.value[0]) && dates(input.context.issuedAt) == Some(r.value[1])
                            && dates(input.context.expiresAt) == Some(r.value[2]) && dates(input.proof.issuedAt) == Some(r.value[3]))
  {
    var texts := [input.now, input.context.issuedAt, input.context.expiresAt, input.proof.issuedAt];
    assert texts[0] == input.now && texts[1] == input.context.issuedAt;
    assert texts[2] == input.context.expiresAt && texts[3] == input.proof.issuedAt;
  }

  lemma IdentityExact(input: Input, expected: Purpose, mode: Mode)
    ensures IdentityRefusal(input, expected, mode).None? <==>
            && OneIdentity(input) && input.proof.purpose == expected
            && TrustFits(input.registered.trust, expected)
            && (mode.EnforceActorAuthority? ==> ActorHolds(input))
  {
    TableFits(input.registered.trust, expected);
  }

  lemma IdentityNeverBlamesPossession(input: Input, expected: Purpose, mode: Mode)
    ensures IdentityRefusal(input, expected, mode) != Some(PossessionNotProven)
  {
  }

  /**
   An evaluation answers exactly this: it proceeds when everything holds and the
   slot is new, converges on the reported reference when everything holds and the
   slot holds these bytes, blames possession when only possession is missing, and
   refuses otherwise.
   */
  lemma DecisionExact(dates: DateParse, input: Input, expected: Purpose, mode: Mode)
    ensures var d := EvaluateUnderMode(dates, input, expected, mode);
            var good := AllButPossession(dates, input, expected, mode);
            var fingerprint := Fingerprint(input.proof, input.registered.signatureProfile);
            && (d == Proceed(fingerprint) <==> good && input.verified && input.consumption.outcome.FirstSeen?)
            && (d.Proceed? ==> d.fingerprint == fingerprint)
            && (d.Converge? <==> good && input.verified && input.consumption.outcome.ExactDuplicate?)
            && (d.Converge? ==> d.fingerprint == fingerprint && Some(d.storedOutcomeRef) == input.consumption.storedOutcomeRef)
            && (d == Refused(PossessionNotProven) <==> good && !input.verified)
  {
    hide Fingerprint, ReplayKey;
    ReadInstants(dates, input);
    IdentityExact(input, expected, mode);
    IdentityNeverBlamesPossession(input, expected, mode);
  }

  /** A lifted context with every other fact perfect is refused for the one thing it lacks. */
  lemma StolenContextIsRefusedForPossession(dates: DateParse, input: Input, expected: Purpose)
    requires !Evaluate(dates, input, expected).Refused?
    ensures Evaluate(dates, input.(verified := false), expected) == Refused(PossessionNotProven)
  {
    var stolen := input.(verified := false);
    DecisionExact(dates, input, expected, EnforceActorAuthority);
    DecisionExact(dates, stolen, expected, EnforceActorAuthority);
    assert FactIsAbout(stolen) && OneIdentity(stolen) && ActorHolds(stolen) && InTime(dates, stolen);
  }

  /** A request that once proceeded converges on its stored outcome when it comes again with every other fact unchanged. */
  lemma RetryConverges(dates: DateParse, input: Input, again: Consumption, expected: Purpose, mode: Mode)
    requires EvaluateUnderMode(dates, input, expected, mode).Proceed?
    requires IsConsistent(again) && again.outcome.ExactDuplicate?
    requires again.replayKey == input.consumption.replayKey && again.statementFingerprint == input.consumption.statementFingerprint
    ensures var d := EvaluateUnderMode(dates, input.(consumption := again), expected, mode);
            d.Converge? && Some(d.storedOutcomeRef) == again.storedOutcomeRef
  {
    hide Fingerprint, ReplayKey, EvaluateUnderMode, IsConsistent, Literal;
    DecisionExact(dates, input, expected, mode);
    DecisionExact(dates, input.(consumption := again), expected, mode);
    assert OneIdentity(input.(consumption := again)) && InTime(dates, input.(consumption := again));
  }

  /** Reconnect authentication drops the questions about the person, and only those. */
  lemma ModesDifferByActorAuthority(dates: DateParse, input: Input, expected: Purpose)
    ensures !EvaluateUnderMode(dates, input, expected, EnforceActorAuthority).Refused? <==>
            !EvaluateUnderMode(dates, input, expected, AuthenticationOnly).Refused? && ActorHolds(input)
  {
    DecisionExact(dates, input, expected, EnforceActorAuthority);
    DecisionExact(dates, input, expected, AuthenticationOnly);
  }

  /** A proof minted for one purpose is refused under every other. */
  lemma PurposesDoNotCross(dates: DateParse, input: Input, expected: Purpose, mode: Mode)
    requires input.proof.purpose != expected
    ensures EvaluateUnderMode(dates, input, expected, mode).Refused?
  {
    DecisionExact(dates, input, expected, mode);
  }

  /**
   Read off the decision: whatever is admitted, or refused only for possession, comes
   from a device whose trust fits the purpose, so a quarantined or compromised device
   is refused for every purpose under every mode.
   */
  lemma OnlyFittingTrustIsAdmitted(dates: DateParse, input: Input, expected: Purpose, mode: Mode)
    ensures var d := EvaluateUnderMode(dates, input, expected, mode);
            var trust := input.registered.trust;
            !d.Refused? || d == Refused(PossessionNotProven) ==>
              && trust !in {Quarantined, Compromised}
              && (trust in {Suspicious, Offline} ==> expected == ReconnectHandshake)
              && (trust == Degraded ==> expected != WhisperDeviceAction)
  {
    hide EvaluateUnderMode, Fingerprint, ReplayKey, InTime, OneIdentity, ActorHolds, FactIsAbout;
    DecisionExact(dates, input, expected, mode);
    RefusedOrGood(dates, input, expected, mode);
  }

  lemma RefusedOrGood(dates: DateParse, input: Input, expected: Purpose, mode: Mode)
    ensures var d := EvaluateUnderMode(dates, input, expected, mode);
            d.Refused? || AllButPossession(dates, input, expected, mode)
  {
    hide EvaluateUnderMode, AllButPossession, Fingerprint, ReplayKey;
    DecisionExact(dates, input, expected, mode);
  }

  // ----- coming back from the dark -----

  /** What an authentication verdict is about. */
  datatype Binding = Binding(
    organisationId: Text,
    contextId: Text,
    actorUserId: Text,
    deviceId: Text,
    keyId: Text,
    keyVersion: SafeInt)

  datatype Authentication =
    | Authenticated(decision: Decision, authenticatedTrust: Trust, binding: Binding)
    | NotAuthenticated(refusal: Refusal)

  function EvaluateReconnect(dates: DateParse, input: Input): Authentication {
    var decision := EvaluateUnderMode(dates, input, ReconnectHandshake, AuthenticationOnly);
    if decision.Refused? then NotAuthenticated(decision.refusal)
    else
      Authenticated(decision, input.registered.trust,
                    Binding(input.context.organisationId, input.context.contextId, input.context.actorUserId,
                            input.context.deviceId, input.registered.keyId, input.registered.keyVersion))
  }

  datatype QueueRefusal =
    | HandshakeMissing
    | RegistryIsAboutAnother
    | BindingMismatch
    | KeyRotatedSince
    | RevokedSince
    | TrustNotPermitted
    | ActorRemoved
    | SiteLost

  datatype QueueDecision = Permitted | NotPermitted(refusal: QueueRefusal)

  /** The second decision, on registry facts read again after the handshake. */
  function EvaluateQueueAdmission(auth: Authentication, registered: Registered, context: Context, siteId: Text): QueueDecision {
    if auth.NotAuthenticated? then NotPermitted(HandshakeMissing)
    else
      var b := auth.binding;
      if registered.organisationId != context.organisationId || registered.deviceId != context.deviceId
      then NotPermitted(RegistryIsAboutAnother)
      else if b.organisationId != context.organisationId || b.contextId != context.contextId
              || b.actorUserId != context.actorUserId || b.deviceId != context.deviceId
              || b.organisationId != registered.organisationId || b.deviceId != registered.deviceId
              || b.keyId != registered.keyId
      then NotPermitted(BindingMismatch)
      else if b.keyVersion != registered.keyVersion then NotPermitted(KeyRotatedSince)
      else if registered.revoked then NotPermitted(RevokedSince)
      else if registered.trust !in PermittedTrust(OfflineSync) then NotPermitted(TrustNotPermitted)
      else if registered.actor.userId != context.actorUserId then NotPermitted(ActorRemoved)
      else if !registered.actor.holdsRequiredCapability then NotPermitted(ActorRemoved)
      else if siteId !in registered.actor.authorisedSiteIds then NotPermitted(SiteLost)
      else Permitted
  }

  /** What each refusal of the second decision says is wrong. */
  ghost predicate QueueDefect(auth: Authentication, registered: Registered, context: Context, siteId: Text, refusal: QueueRefusal) {
    match refusal
    case HandshakeMissing => auth.NotAuthenticated?
    case RegistryIsAboutAnother =>
      registered.organisationId != context.organisationId || registered.deviceId != context.deviceId
    case BindingMismatch =>
      !auth.NotAuthenticated? && var b := auth.binding;
      || b.organisationId != context.organisationId || b.contextId != context.contextId
      || b.actorUserId != context.actorUserId || b.deviceId != context.deviceId
      || b.organisationId != registered.organisationId || b.deviceId != registered.deviceId || b.keyId != registered.keyId
    case KeyRotatedSince => !auth.NotAuthenticated? && auth.binding.keyVersion != registered.keyVersion
    case RevokedSince => registered.revoked
    case TrustNotPermitted => registered.trust !in {Trusted, Degraded}
    case ActorRemoved => registered.actor.userId != context.actorUserId || !registered.actor.holdsRequiredCapability
    case SiteLost => siteId !in registered.actor.authorisedSiteIds
  }

  lemma QueueRefusalsAreTrue(auth: Authentication, registered: Registered, context: Context, siteId: Text)
    ensures var d := EvaluateQueueAdmission(auth, registered, context, siteId);
            d.NotPermitted? ==> QueueDefect(auth, registered, context, siteId, d.refusal)
  {
  }

  lemma GoodMeansOneIdentity(dates: DateParse, input: Input, expected: Purpose, mode: Mode)
    ensures AllButPossession(dates, input, expected, mode) ==>
            OneIdentity(input) && !input.consumption.outcome.ReusedWithChangedSemantics?
  {
  }

  /** Between two trust states that may attempt a purpose, nothing else in the evaluation looks at trust. */
  lemma TrustOnlyGates(dates: DateParse, input: Input, trust: Trust, expected: Purpose)
    requires TrustFits(trust, expected) && TrustFits(input.registered.trust, expected)
    ensures AllButPossession(dates, input.(registered := input.registered.(trust := trust)), expected, AuthenticationOnly) <==>
            AllButPossession(dates, input, expected, AuthenticationOnly)
  {
    hide Fingerprint, ReplayKey;
    var other := input.(registered := input.registered.(trust := trust));
    assert InTime(dates, other) <==> InTime(dates, input);
    assert OneIdentity(other) <==> OneIdentity(input);
    assert FactIsAbout(other) <==> FactIsAbout(input);
  }

  /**
   A queue opens only for the device that proved possession of the key still in
   force, under the same context, with the person and the trust as they are now:
   whatever moved between the two decisions closes it.
   */
  lemma QueueOpensExactlyWhen(dates: DateParse, input: Input, later: Registered, context: Context, siteId: Text)
    ensures EvaluateQueueAdmission(EvaluateReconnect(dates, input), later, context, siteId) == Permitted <==>
            && AllButPossession(dates, input, ReconnectHandshake, AuthenticationOnly) && input.verified
            && context.organisationId == input.context.organisationId && context.contextId == input.context.contextId
            && context.actorUserId == input.context.actorUserId && context.deviceId == input.context.deviceId
            && later.organisationId == input.registered.organisationId && later.deviceId == input.registered.deviceId
            && later.keyId == input.registered.keyId && later.keyVersion == input.registered.keyVersion
            && !later.revoked && later.trust in {Trusted, Degraded}
            && later.actor.userId == context.actorUserId && later.actor.holdsRequiredCapability
            && siteId in later.actor.authorisedSiteIds
  {
    hide Fingerprint, ReplayKey, EvaluateUnderMode, AllButPossession;
    DecisionExact(dates, input, ReconnectHandshake, AuthenticationOnly);
    GoodMeansOneIdentity(dates, input, ReconnectHandshake, AuthenticationOnly);
  }

  /** A dark or suspected device may prove who it is, exactly as a trusted one, and still opens no queue. */
  lemma ProvingIdentityIsNotPermission(dates: DateParse, input: Input, trust: Trust, context: Context, siteId: Text)
    requires trust in {Suspicious, Offline} && input.registered.trust in {Trusted, Degraded}
    ensures var dark := input.(registered := input.registered.(trust := trust));
            && (EvaluateReconnect(dates, dark).Authenticated? <==> EvaluateReconnect(dates, input).Authenticated?)
            && EvaluateQueueAdmission(EvaluateReconnect(dates, input), dark.registered, context, siteId) != Permitted
  {
    hide Fingerprint, ReplayKey, EvaluateUnderMode, AllButPossession;
    var dark := input.(registered := input.registered.(trust := trust));
    TrustOnlyGates(dates, input, trust, ReconnectHandshake);
    DecisionExact(dates, input, ReconnectHandshake, AuthenticationOnly);
    DecisionExact(dates, dark, ReconnectHandshake, AuthenticationOnly);
  }
}
