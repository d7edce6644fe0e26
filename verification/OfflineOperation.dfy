/**
 A device-signed offline operation and the decision whether it may take effect
 at reconciliation: whose key, under whose lease, placed in time by a witness
 that is not the device.
 */
module OfflineOperation {
  import opened JsText
  import opened JsonValue
  import opened Options
  import opened DeviceTime
  import opened DeviceRegistry
  import opened FieldNames
  import opened SignedRecord
  import opened OneShot


  datatype OperationKind =
    | AssignmentAccept
    | AssignmentDecline
    | AssignmentStart
    | AssignmentComplete
    | MessageSend
    | MessageAcknowledge

  function KindName(kind: OperationKind): string {
    match kind
    case AssignmentAccept => "FIELD_ASSIGNMENT_ACCEPT"
    case AssignmentDecline => "FIELD_ASSIGNMENT_DECLINE"
    case AssignmentStart => "FIELD_ASSIGNMENT_START"
    case AssignmentComplete => "FIELD_ASSIGNMENT_COMPLETE"
    case MessageSend => "INCIDENT_FIELD_MESSAGE_SEND"
    case MessageAcknowledge => "INCIDENT_FIELD_MESSAGE_ACKNOWLEDGE"
  }

  lemma KindNamesDiffer(k: OperationKind, l: OperationKind)
    ensures Literal(KindName(k)) == Literal(KindName(l)) <==> k == l
  {
    LiteralInjective(KindName(k), KindName(l));
  }

  /** Only an acknowledgement tolerates being placed in time by the server's own receipt clock. */
  predicate RequiresTimeWitness(kind: OperationKind) {
    !kind.MessageAcknowledge?
  }

  datatype Envelope = Envelope(
    offlineOperationId: Text,
    organisationId: Text,
    siteId: Text,
    actorUserId: Text,
    deviceId: Text,
    keyId: Text,
    keyVersion: SafeInt,
    operationKind: OperationKind,
    deviceSequence: SafeInt,
    idempotencyKey: Text,
    payloadDigest: Text,
    policyLeaseId: Text,
    nonce: Text,
    createdAt: Text,
    claimedSignatureProfile: Text)

  datatype Lease = Lease(
    leaseId: Text,
    organisationId: Text,
    siteId: Text,
    deviceId: Text,
    actorUserId: Text,
    scope: seq<OperationKind>,
    issuedAt: Text,
    expiresAt: Text)

  datatype LeaseStanding = Valid | NotYetValid | Expired | Unreadable

  datatype KeyRecord = KeyRecord(
    organisationId: Text,
    deviceId: Text,
    keyId: Text,
    keyVersion: SafeInt,
    signatureProfile: Text,
    status: KeyState,
    revokedAt: Option<Text>)

  datatype EdgeTrust = EdgeTrusted | EdgeSuspended | EdgeRevoked

  datatype EdgeReceipt = EdgeReceipt(
    edgeId: Text,
    edgeKeyId: Text,
    edgeKeyVersion: SafeInt,
    witnessedOperationFingerprint: Text,
    edgeTrustedTime: Option<Text>,
    claimedEdgeSignatureProfile: Text)

  datatype EdgeKeyRecord = EdgeKeyRecord(
    organisationId: Text,
    edgeId: Text,
    edgeKeyId: Text,
    edgeKeyVersion: SafeInt,
    signatureProfile: Text,
    status: KeyState,
    edgeTrust: EdgeTrust,
    authorisedSiteIds: seq<Text>,
    revokedAt: Option<Text>)

  datatype Witness =
    | NoWitness
    | EdgeWitness(receipt: EdgeReceipt, registeredEdgeKey: EdgeKeyRecord, edgeSignatureVerified: bool)

  datatype Input = Input(
    envelope: Envelope,
    lease: Option<Lease>,
    timeWitness: Witness,
    now: Text,
    expectedPayloadDigest: Text,
    deviceRevokedAt: Option<Text>,
    signatureVerified: bool,
    registeredKey: KeyRecord,
    consumption: Consumption)

  datatype Refusal =
    | RegistryIdentityMismatch
    | RegistryKeyMismatch
    | DeviceKeyNotUsable
    | CredentialRevoked
    | SignatureProfileClaimMismatch
    | SignatureNotVerified
    | PayloadDigestMismatch
    | LeaseMissing
    | LeaseIdentityMismatch
    | LeaseActorMismatch
    | LeaseScopeMismatch
    | NonceConsumptionInconsistent
    | NonceConsumptionMisbound
    | NonceReusedWithChangedSemantics
    | NoTrustworthyTimeWitness
    | EdgeOrganisationMismatch
    | EdgeSiteNotAuthorised
    | EdgeKeyNotUsable
    | EdgeCredentialRevoked
    | EdgeNotTrusted
    | EdgeSignatureProfileClaimMismatch
    | EdgeSignatureNotVerified
    | WitnessFingerprintMismatch
    | TimeNotAuthoritative
    | LeaseNotInForce

  datatype TimeBasis = ByEdgeWitness | ByServerReceipt

  datatype Decision =
    | Proceed(basis: TimeBasis, establishedAt: Text, fingerprint: Text)
    | Converge(basis: TimeBasis, establishedAt: Text, fingerprint: Text, storedOutcomeRef: Text)
    | Refused(refusal: Refusal)

  // ----- what the device signs -----

  function StatementFields(e: Envelope, profile: Text): (fields: seq<Field>)
    ensures |fields| == 17
  {
    [ Field(Name.Domain, Tag(OfflineOperationStatement)),
      Field(Name.SchemaVersion, Num(1)),
      Field(Name.OfflineOperationId, Str(e.offlineOperationId)),
      Field(Name.OrganisationId, Str(e.organisationId)),
      Field(Name.SiteId, Str(e.siteId)),
      Field(Name.ActorUserId, Str(e.actorUserId)),
      Field(Name.DeviceId, Str(e.deviceId)),
      Field(Name.KeyId, Str(e.keyId)),
      Field(Name.KeyVersion, Num(e.keyVersion)),
      Field(Name.OperationKind, Str(Literal(KindName(e.operationKind)))),
      Field(Name.DeviceSequence, Num(e.deviceSequence)),
      Field(Name.IdempotencyKey, Str(e.idempotencyKey)),
      Field(Name.PayloadDigest, Str(e.payloadDigest)),
      Field(Name.PolicyLeaseId, Str(e.policyLeaseId)),
      Field(Name.Nonce, Str(e.nonce)),
      Field(Name.CreatedAt, Str(e.createdAt)),
      Field(Name.SignatureProfile, Str(profile))
    ]
  }

  function Fingerprint(e: Envelope, profile: Text): Text {
    RecordText(StatementFields(e, profile))
  }

  function ReplayFields(e: Envelope): (fields: seq<Field>)
    ensures |fields| == 7
  {
    [ Field(Name.Domain, Tag(OfflineOperationSlot)),
      Field(Name.OrganisationId, Str(e.organisationId)),
      Field(Name.SiteId, Str(e.siteId)),
      Field(Name.ActorUserId, Str(e.actorUserId)),
      Field(Name.DeviceId, Str(e.deviceId)),
      Field(Name.KeyVersion, Num(e.keyVersion)),
      Field(Name.Nonce, Str(e.nonce))
    ]
  }

  function ReplayKey(e: Envelope): Text {
    RecordText(ReplayFields(e))
  }

  lemma FieldsProper(e: Envelope, profile: Text)
    ensures DistinctNames(StatementFields(e, profile)) && AllLeaves(StatementFields(e, profile))
    ensures DistinctNames(ReplayFields(e)) && AllLeaves(ReplayFields(e))
  {
    hide Literal, KindName, TagSpelling;
  }

  /** One signature covers one operation under one lease: every envelope field and the profile are in the bytes. */
  lemma StatementInjective(e: Envelope, profile: Text, f: Envelope, other: Text)
    ensures Fingerprint(e, profile) == Fingerprint(f, other) <==>
            e.(claimedSignatureProfile := []) == f.(claimedSignatureProfile := []) && profile == other
  {
    hide RecordText, Literal, KindName, TagSpelling;
    FieldsProper(e, profile);
    FieldsProper(f, other);
    var a, b := StatementFields(e, profile), StatementFields(f, other);
    TextDecidesLeaves(a, b);
    KindNamesDiffer(e.operationKind, f.operationKind);
    if a == b {
      assert a[2] == b[2] && a[3] == b[3] && a[4] == b[4] && a[5] == b[5] && a[6] == b[6] && a[7] == b[7] && a[8] == b[8];
      assert a[9] == b[9] && a[10] == b[10] && a[11] == b[11] && a[12] == b[12] && a[13] == b[13];
      assert a[14] == b[14] && a[15] == b[15] && a[16] == b[16];
    }
  }

  /** What the device signs, read back: which value stands under which name. */
  lemma StatementSays(e: Envelope, profile: Text)
    ensures var text := Fingerprint(e, profile);
            && ReadsAsObject(text, 17)
            && Says(text, Name.Domain, Tag(OfflineOperationStatement)) && Says(text, Name.SchemaVersion, Num(1))
            && Says(text, Name.OfflineOperationId, Str(e.offlineOperationId))
            && Says(text, Name.OrganisationId, Str(e.organisationId))
            && Says(text, Name.SiteId, Str(e.siteId)) && Says(text, Name.ActorUserId, Str(e.actorUserId))
            && Says(text, Name.DeviceId, Str(e.deviceId)) && Says(text, Name.KeyId, Str(e.keyId))
            && Says(text, Name.KeyVersion, Num(e.keyVersion))
            && Says(text, Name.OperationKind, Str(Literal(KindName(e.operationKind))))
            && Says(text, Name.DeviceSequence, Num(e.deviceSequence)) && Says(text, Name.IdempotencyKey, Str(e.idempotencyKey))
            && Says(text, Name.PayloadDigest, Str(e.payloadDigest)) && Says(text, Name.PolicyLeaseId, Str(e.policyLeaseId))
            && Says(text, Name.Nonce, Str(e.nonce)) && Says(text, Name.CreatedAt, Str(e.createdAt))
            && Says(text, Name.SignatureProfile, Str(profile))
  {
    hide RecordText, Says, ReadsAsObject, Literal, KindName, TagSpelling, Tag, DistinctNames, AllLeaves;
    var fields := StatementFields(e, profile);
    FieldsProper(e, profile);
    RecordSays(fields);
    assert fields[0].name.Domain? && fields[1].name.SchemaVersion?;
    assert fields[2].name.OfflineOperationId? && fields[3].name.OrganisationId?;
    assert fields[4].name.SiteId? && fields[5].name.ActorUserId? && fields[6].name.DeviceId? && fields[7].name.KeyId?;
    assert fields[8].name.KeyVersion? && fields[9].name.OperationKind?;
    assert fields[10].name.DeviceSequence? && fields[11].name.IdempotencyKey?;
    assert fields[12].name.PayloadDigest? && fields[13].name.PolicyLeaseId?;
    assert fields[14].name.Nonce? && fields[15].name.CreatedAt?;
    assert fields[16].name.SignatureProfile?;
  }

  /** Two operations compete for one slot exactly when the six identity columns agree. */
  lemma ReplayKeyInjective(e: Envelope, f: Envelope)
    ensures ReplayKey(e) == ReplayKey(f) <==>
            && e.organisationId == f.organisationId && e.siteId == f.siteId && e.actorUserId == f.actorUserId
            && e.deviceId == f.deviceId && e.keyVersion == f.keyVersion && e.nonce == f.nonce
  {
    hide RecordText, TagSpelling, Literal;
    FieldsProper(e, []);
    FieldsProper(f, []);
    var a, b := ReplayFields(e), ReplayFields(f);
    TextDecidesLeaves(a, b);
    if a == b {
      assert a[1] == b[1] && a[2] == b[2] && a[3] == b[3] && a[4] == b[4] && a[5] == b[5] && a[6] == b[6];
    }
  }

  // ----- the evaluation -----

  function ClassifyLease(dates: DateParse, lease: Lease, at: Text): LeaseStanding {
    match Instants(dates, [at, lease.issuedAt, lease.expiresAt])
    case None => Unreadable
    case Some(instants) =>
      if instants[0] < instants[1] then NotYetValid
      else if IsExpiredAt(instants[0], instants[2]) then Expired
      else Valid
  }

  function AuthorityRefusal(input: Input): Option<Refusal> {
    var envelope, key := input.envelope, input.registeredKey;
    if key.organisationId != envelope.organisationId || key.deviceId != envelope.deviceId then Some(RegistryIdentityMismatch)
    else if key.keyId != envelope.keyId || key.keyVersion != envelope.keyVersion then Some(RegistryKeyMismatch)
    else if !PermitsNewOperations(key.status) then Some(DeviceKeyNotUsable)
    else if key.revokedAt.Some? then Some(CredentialRevoked)
    else if !ProfileBound(envelope.claimedSignatureProfile, key.signatureProfile) then Some(SignatureProfileClaimMismatch)
    else if !input.signatureVerified then Some(SignatureNotVerified)
    else if input.deviceRevokedAt.Some? then Some(CredentialRevoked)
    else if envelope.payloadDigest != input.expectedPayloadDigest then Some(PayloadDigestMismatch)
    else None
  }

  function LeaseRefusal(envelope: Envelope, lease: Option<Lease>): Option<Refusal> {
    match lease
    case None => Some(LeaseMissing)
    case Some(l) =>
      if l.leaseId != envelope.policyLeaseId then Some(LeaseIdentityMismatch)
      else if l.organisationId != envelope.organisationId || l.siteId != envelope.siteId || l.deviceId != envelope.deviceId
      then Some(LeaseIdentityMismatch)
      else if l.actorUserId != envelope.actorUserId then Some(LeaseActorMismatch)
      else if envelope.operationKind !in l.scope then Some(LeaseScopeMismatch)
      else None
  }

  function OneShotRefusal(fact: Consumption, replayKey: Text, fingerprint: Text): Option<Refusal> {
    if !IsConsistent(fact) then Some(NonceConsumptionInconsistent)
    else if fact.replayKey != replayKey || fact.statementFingerprint != fingerprint then Some(NonceConsumptionMisbound)
    else if fact.outcome.ReusedWithChangedSemantics? then Some(NonceReusedWithChangedSemantics)
    else None
  }

  /** Everything asked of the witness before its clock is read. */
  function WitnessRefusal(envelope: Envelope, timeWitness: Witness, fingerprint: Text): Option<Refusal> {
    match timeWitness
    case NoWitness => Some(NoTrustworthyTimeWitness)
    case EdgeWitness(receipt, edge, signatureVerified) =>
      if edge.organisationId != envelope.organisationId then Some(EdgeOrganisationMismatch)
      else if envelope.siteId !in edge.authorisedSiteIds then Some(EdgeSiteNotAuthorised)
      else if edge.edgeId != receipt.edgeId || edge.edgeKeyId != receipt.edgeKeyId
              || edge.edgeKeyVersion != receipt.edgeKeyVersion || !PermitsHistoricalVerification(edge.status)
      then Some(EdgeKeyNotUsable)
      else if edge.revokedAt.Some? then Some(EdgeCredentialRevoked)
      else if !edge.edgeTrust.EdgeTrusted? then Some(EdgeNotTrusted)
      else if !ProfileBound(receipt.claimedEdgeSignatureProfile, edge.signatureProfile)
      then Some(EdgeSignatureProfileClaimMismatch)
      else if !signatureVerified then Some(EdgeSignatureNotVerified)
      else if receipt.witnessedOperationFingerprint != fingerprint then Some(WitnessFingerprintMismatch)
      else if receipt.edgeTrustedTime.None? then Some(NoTrustworthyTimeWitness)
      else None
  }

  /** The lease is judged at the established instant, and only then does the slot decide the effect. */
  function EffectAt(dates: DateParse, input: Input, lease: Lease, basis: TimeBasis, at: Text, fingerprint: Text): Decision {
    var standing := ClassifyLease(dates, lease, at);
    if standing.Unreadable? then Refused(TimeNotAuthoritative)
    else if !standing.Valid? then Refused(LeaseNotInForce)
    else if input.consumption.outcome.ExactDuplicate? && input.consumption.storedOutcomeRef.Some?
    then Converge(basis, at, fingerprint, input.consumption.storedOutcomeRef.value)
    else Proceed(basis, at, fingerprint)
  }

  function EffectUnderLease(dates: DateParse, input: Input, lease: Lease, replayKey: Text, fingerprint: Text): Decision {
    var oneShot := OneShotRefusal(input.consumption, replayKey, fingerprint);
    if oneShot.Some? then Refused(oneShot.value)
    else if RequiresTimeWitness(input.envelope.operationKind) then
      var unseen := WitnessRefusal(input.envelope, input.timeWitness, fingerprint);
      if unseen.Some? then Refused(unseen.value)
      else EffectAt(dates, input, lease, ByEdgeWitness, input.timeWitness.receipt.edgeTrustedTime.value, fingerprint)
    else EffectAt(dates, input, lease, ByServerReceipt, input.now, fingerprint)
  }

  function Evaluate(dates: DateParse, input: Input): Decision {
    var authority := AuthorityRefusal(input);
    if authority.Some? then Refused(authority.value)
    else
      var uncovered := LeaseRefusal(input.envelope, input.lease);
      if uncovered.Some? then Refused(uncovered.value)
      else
        EffectUnderLease(dates, input, input.lease.value, ReplayKey(input.envelope),
                         Fingerprint(input.envelope, input.registeredKey.signatureProfile))
  }

  // ----- what an admission means -----

  /** The signing key is this device's, in force and unrevoked on both records. */
  ghost predicate KeyInForce(input: Input) {
    var envelope, key := input.envelope, input.registeredKey;
    && key.organisationId == envelope.organisationId && key.deviceId == envelope.deviceId
    && key.keyId == envelope.keyId && key.keyVersion == envelope.keyVersion
    && key.status.Current? && key.revokedAt.None? && input.deviceRevokedAt.None?
    && envelope.claimedSignatureProfile == key.signatureProfile == Literal(APPROVED_PROFILE)
    && input.signatureVerified && envelope.payloadDigest == input.expectedPayloadDigest
  }

  /** The lease is the one the operation names, for the same tenant, site, device and person, and covers the kind. */
  ghost predicate LeaseCovers(envelope: Envelope, lease: Option<Lease>) {
    && lease.Some? && lease.value.leaseId == envelope.policyLeaseId
    && lease.value.organisationId == envelope.organisationId && lease.value.siteId == envelope.siteId
    && lease.value.deviceId == envelope.deviceId && lease.value.actorUserId == envelope.actorUserId
    && envelope.operationKind in lease.value.scope
  }

  /** A trusted, unrevoked Edge of this tenant and site saw exactly these bytes and read a clock. */
  ghost predicate Witnessed(input: Input, fingerprint: Text) {
    && input.timeWitness.EdgeWitness?
    && var receipt, edge := input.timeWitness.receipt, input.timeWitness.registeredEdgeKey;
    && edge.organisationId == input.envelope.organisationId && input.envelope.siteId in edge.authorisedSiteIds
    && edge.edgeId == receipt.edgeId && edge.edgeKeyId == receipt.edgeKeyId && edge.edgeKeyVersion == receipt.edgeKeyVersion
    && edge.status in {Current, Rotated} && edge.revokedAt.None? && edge.edgeTrust.EdgeTrusted?
    && receipt.claimedEdgeSignatureProfile == edge.signatureProfile == Literal(APPROVED_PROFILE)
    && input.timeWitness.edgeSignatureVerified
    && receipt.witnessedOperationFingerprint == fingerprint
    && receipt.edgeTrustedTime.Some?
  }

  ghost predicate InForceAt(dates: DateParse, lease: Lease, at: Text) {
    var instant, issued, expires := dates(at), dates(lease.issuedAt), dates(lease.expiresAt);
    instant.Some? && issued.Some? && expires.Some? && issued.value <= instant.value < expires.value
  }

  /** The clock that places the operation: never one the device controls. */
  function EstablishingInstant(input: Input): Option<Text> {
    if input.envelope.operationKind.MessageAcknowledge? then Some(input.now)
    else if input.timeWitness.EdgeWitness? then input.timeWitness.receipt.edgeTrustedTime
    else None
  }

  ghost predicate Admissible(dates: DateParse, input: Input, replayKey: Text, fingerprint: Text) {
    && KeyInForce(input)
    && LeaseCovers(input.envelope, input.lease)
    && IsConsistent(input.consumption)
    && input.consumption.replayKey == replayKey && input.consumption.statementFingerprint == fingerprint
    && !input.consumption.outcome.ReusedWithChangedSemantics?
    && (!input.envelope.operationKind.MessageAcknowledge? ==> Witnessed(input, fingerprint))
    && EstablishingInstant(input).Some?
    && InForceAt(dates, input.lease.value, EstablishingInstant(input).value)
  }

  lemma LeaseExact(dates: DateParse, lease: Lease, at: Text)
    ensures ClassifyLease(dates, lease, at).Valid? <==> InForceAt(dates, lease, at)
  {
    var texts := [at, lease.issuedAt, lease.expiresAt];
    assert texts[0] == at && texts[1] == lease.issuedAt && texts[2] == lease.expiresAt;
  }

  lemma AuthorityExact(input: Input)
    ensures AuthorityRefusal(input).None? <==> KeyInForce(input)
    ensures LeaseRefusal(input.envelope, input.lease).None? <==> LeaseCovers(input.envelope, input.lease)
  {
  }

  lemma WitnessExact(input: Input, fingerprint: Text)
    ensures WitnessRefusal(input.envelope, input.timeWitness, fingerprint).None? <==> Witnessed(input, fingerprint)
  {
  }

  /**
   An operation takes effect exactly when it is admissible and its slot is new,
   converges on the reported outcome exactly when it is admissible and the slot
   already holds these bytes, and is refused otherwise.
   */
  lemma DecisionExact(dates: DateParse, input: Input)
    ensures var d := Evaluate(dates, input);
            var fingerprint := Fingerprint(input.envelope, input.registeredKey.signatureProfile);
            var good := Admissible(dates, input, ReplayKey(input.envelope), fingerprint);
            && (d.Proceed? <==> good && input.consumption.outcome.FirstSeen?)
            && (d.Converge? <==> good && input.consumption.outcome.ExactDuplicate?)
            && (!d.Refused? ==> d.fingerprint == fingerprint && Some(d.establishedAt) == EstablishingInstant(input))
            && (!d.Refused? ==> (d.basis.ByEdgeWitness? <==> !input.envelope.operationKind.MessageAcknowledge?))
            && (d.Converge? ==> Some(d.storedOutcomeRef) == input.consumption.storedOutcomeRef)
  {
    hide Fingerprint, ReplayKey, AuthorityRefusal, LeaseRefusal, WitnessRefusal, KeyInForce, LeaseCovers, ClassifyLease, InForceAt;
    var fingerprint := Fingerprint(input.envelope, input.registeredKey.signatureProfile);
    AuthorityExact(input);
    WitnessExact(input, fingerprint);
    if LeaseCovers(input.envelope, input.lease) {
      CoveringLeaseExists(input.envelope, input.lease);
      if EstablishingInstant(input).Some? {
        LeaseExact(dates, input.lease.value, EstablishingInstant(input).value);
      }
    }
  }

  /** What each refusal says is wrong. */
  ghost predicate Defect(dates: DateParse, input: Input, refusal: Refusal) {
    var e, key := input.envelope, input.registeredKey;
    var fingerprint := Fingerprint(e, key.signatureProfile);
    var witnessed := input.timeWitness.EdgeWitness?;
    match refusal
    case RegistryIdentityMismatch => key.organisationId != e.organisationId || key.deviceId != e.deviceId
    case RegistryKeyMismatch => key.keyId != e.keyId || key.keyVersion != e.keyVersion
    case DeviceKeyNotUsable => key.status != Current
    case CredentialRevoked => key.revokedAt.Some? || input.deviceRevokedAt.Some?
    case SignatureProfileClaimMismatch =>
      key.signatureProfile != Literal(APPROVED_PROFILE) || e.claimedSignatureProfile != key.signatureProfile
    case SignatureNotVerified => !input.signatureVerified
    case PayloadDigestMismatch => e.payloadDigest != input.expectedPayloadDigest
    case LeaseMissing => input.lease.None?
    case LeaseIdentityMismatch =>
      input.lease.Some? && var l := input.lease.value;
      l.leaseId != e.policyLeaseId || l.organisationId != e.organisationId || l.siteId != e.siteId || l.deviceId != e.deviceId
    case LeaseActorMismatch => input.lease.Some? && input.lease.value.actorUserId != e.actorUserId
    case LeaseScopeMismatch => input.lease.Some? && e.operationKind !in input.lease.value.scope
    case NonceConsumptionInconsistent => !IsConsistent(input.consumption)
    case NonceConsumptionMisbound =>
      input.consumption.replayKey != ReplayKey(e) || input.consumption.statementFingerprint != fingerprint
    case NonceReusedWithChangedSemantics => input.consumption.outcome.ReusedWithChangedSemantics?
    case NoTrustworthyTimeWitness => !witnessed || input.timeWitness.receipt.edgeTrustedTime.None?
    case EdgeOrganisationMismatch => witnessed && input.timeWitness.registeredEdgeKey.organisationId != e.organisationId
    case EdgeSiteNotAuthorised => witnessed && e.siteId !in input.timeWitness.registeredEdgeKey.authorisedSiteIds
    case EdgeKeyNotUsable =>
      witnessed && var receipt, edge := input.timeWitness.receipt, input.timeWitness.registeredEdgeKey;
      || edge.edgeId != receipt.edgeId || edge.edgeKeyId != receipt.edgeKeyId || edge.edgeKeyVersion != receipt.edgeKeyVersion
      || edge.status in {Revoked, KeyCompromised}
    case EdgeCredentialRevoked => witnessed && input.timeWitness.registeredEdgeKey.revokedAt.Some?
    case EdgeNotTrusted => witnessed && !input.timeWitness.registeredEdgeKey.edgeTrust.EdgeTrusted?
    case EdgeSignatureProfileClaimMismatch =>
      witnessed && var receipt, edge := input.timeWitness.receipt, input.timeWitness.registeredEdgeKey;
      edge.signatureProfile != Literal(APPROVED_PROFILE) || receipt.claimedEdgeSignatureProfile != edge.signatureProfile
    case EdgeSignatureNotVerified => witnessed && !input.timeWitness.edgeSignatureVerified
    case WitnessFingerprintMismatch => witnessed && input.timeWitness.receipt.witnessedOperationFingerprint != fingerprint
    case TimeNotAuthoritative =>
      input.lease.Some? && EstablishingInstant(input).Some?
      && (dates(EstablishingInstant(input).value).None? || dates(input.lease.value.issuedAt).None?
          || dates(input.lease.value.expiresAt).None?)
    case LeaseNotInForce =>
      input.lease.Some? && EstablishingInstant(input).Some? && !InForceAt(dates, input.lease.value, EstablishingInstant(input).value)
  }

  lemma AuthorityDefects(dates: DateParse, input: Input)
    ensures AuthorityRefusal(input).Some? ==> Defect(dates, input, AuthorityRefusal(input).value)
    ensures LeaseRefusal(input.envelope, input.lease).Some? ==>
              Defect(dates, input, LeaseRefusal(input.envelope, input.lease).value)
  {
    hide Fingerprint, ReplayKey, IsConsistent, Literal, InForceAt, EstablishingInstant;
  }

  lemma OneShotDefects(dates: DateParse, input: Input)
    ensures var fingerprint := Fingerprint(input.envelope, input.registeredKey.signatureProfile);
            var refusal := OneShotRefusal(input.consumption, ReplayKey(input.envelope), fingerprint);
            refusal.Some? ==> Defect(dates, input, refusal.value)
  {
    hide Fingerprint, ReplayKey, IsConsistent, Literal, InForceAt, EstablishingInstant;
  }

  lemma WitnessDefects(dates: DateParse, input: Input)
    ensures var fingerprint := Fingerprint(input.envelope, input.registeredKey.signatureProfile);
            var refusal := WitnessRefusal(input.envelope, input.timeWitness, fingerprint);
            refusal.Some? ==> Defect(dates, input, refusal.value)
  {
    hide Fingerprint, ReplayKey, IsConsistent, Literal, InForceAt, EstablishingInstant;
  }

  lemma LeaseDefects(dates: DateParse, input: Input, basis: TimeBasis, at: Text, fingerprint: Text)
    requires input.lease.Some? && EstablishingInstant(input) == Some(at)
    ensures var d := EffectAt(dates, input, input.lease.value, basis, at, fingerprint);
            d.Refused? ==> Defect(dates, input, d.refusal)
  {
    hide Fingerprint, ReplayKey, IsConsistent, Literal;
    LeaseExact(dates, input.lease.value, at);
    var texts := [at, input.lease.value.issuedAt, input.lease.value.expiresAt];
    assert texts[0] == at && texts[1] == input.lease.value.issuedAt && texts[2] == input.lease.value.expiresAt;
  }

  /** A refusal is never given for a defect that is not there. */
  lemma RefusalsAreTrue(dates: DateParse, input: Input)
    ensures Evaluate(dates, input).Refused? ==> Defect(dates, input, Evaluate(dates, input).refusal)
  {
    hide Fingerprint, ReplayKey, Defect, AuthorityRefusal, OneShotRefusal, EffectAt, Literal;
    var fingerprint := Fingerprint(input.envelope, input.registeredKey.signatureProfile);
    AuthorityDefects(dates, input);
    OneShotDefects(dates, input);
    WitnessDefects(dates, input);
    if input.lease.Some? && EstablishingInstant(input).Some? {
      LeaseDefects(dates, input, if input.envelope.operationKind.MessageAcknowledge? then ByServerReceipt else ByEdgeWitness,
                   EstablishingInstant(input).value, fingerprint);
    }
  }

  lemma CoveringLeaseExists(envelope: Envelope, lease: Option<Lease>)
    requires LeaseCovers(envelope, lease)
    ensures lease.Some?
  {
  }

  /** An operation that once took effect converges on its stored outcome when it comes again with every other fact unchanged. */
  lemma RetryConverges(dates: DateParse, input: Input, again: Consumption)
    requires Evaluate(dates, input).Proceed?
    requires IsConsistent(again) && again.outcome.ExactDuplicate?
    requires again.replayKey == input.consumption.replayKey && again.statementFingerprint == input.consumption.statementFingerprint
    ensures var d := Evaluate(dates, input.(consumption := again));
            d.Converge? && Some(d.storedOutcomeRef) == again.storedOutcomeRef
  {
    hide Fingerprint, ReplayKey, Evaluate, IsConsistent, Literal, Witnessed, LeaseCovers;
    DecisionExact(dates, input);
    DecisionExact(dates, input.(consumption := again));
    SameButForTheFact(input, again, Fingerprint(input.envelope, input.registeredKey.signatureProfile));
  }

  lemma SameButForTheFact(input: Input, again: Consumption, fingerprint: Text)
    ensures Witnessed(input.(consumption := again), fingerprint) == Witnessed(input, fingerprint)
    ensures KeyInForce(input.(consumption := again)) == KeyInForce(input)
  {
    hide Literal;
  }

  /** The same operation claiming another creation time, seen and reported for what it then is. */
  function Retold(input: Input, createdAt: Text): Input {
    var envelope := input.envelope.(createdAt := createdAt);
    var fingerprint := Fingerprint(envelope, input.registeredKey.signatureProfile);
    input.(envelope := envelope,
           consumption := input.consumption.(statementFingerprint := fingerprint),
           timeWitness := if input.timeWitness.EdgeWitness?
                      then input.timeWitness.(receipt := input.timeWitness.receipt.(witnessedOperationFingerprint := fingerprint))
                      else input.timeWitness)
  }

  lemma FingerprintNotEmpty(e: Envelope, profile: Text)
    ensures Fingerprint(e, profile) != []
    ensures ReplayKey(e) != []
  {
    hide RecordText, StatementFields, ReplayFields;
    FieldsProper(e, profile);
    LeavesWellFormed(StatementFields(e, profile));
    LeavesWellFormed(ReplayFields(e));
    RecordTextIsCanonical(StatementFields(e, profile));
    RecordTextIsCanonical(ReplayFields(e));
  }

  /** A device cannot date its way into a lease: the decision is the same whatever creation time it claims. */
  lemma CreatedAtIsNotAuthority(dates: DateParse, input: Input, createdAt: Text)
    requires !Evaluate(dates, input).Refused?
    ensures var other := Evaluate(dates, Retold(input, createdAt));
            var d := Evaluate(dates, input);
            && !other.Refused? && (other.Proceed? <==> d.Proceed?)
            && other.establishedAt == d.establishedAt && other.basis == d.basis
  {
    hide Fingerprint, ReplayKey, Evaluate;
    DecisionExact(dates, input);
    DecisionExact(dates, Retold(input, createdAt));
    FingerprintNotEmpty(Retold(input, createdAt).envelope, input.registeredKey.signatureProfile);
    ReplayKeyInjective(input.envelope, Retold(input, createdAt).envelope);
  }
}
