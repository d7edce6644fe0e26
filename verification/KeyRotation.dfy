/**
 Replacing a device's key: the current key vouches for one exact successor, the
 successor proves possession, and the registry is read again at the commit.
 */
module KeyRotation {
  import opened JsText
  import opened JsonValue
  import opened Options
  import opened DeviceTime
  import opened DeviceRegistry
  import opened FieldNames
  import opened SignedRecord
  import opened OneShot

  const CHALLENGE_MAX_AGE_MS := 120_000

  datatype Request = Request(
    rotationRequestId: Text,
    organisationId: Text,
    deviceId: Text,
    currentKeyId: Text,
    currentKeyVersion: SafeInt,
    proposedKeyId: Text,
    proposedKeyVersion: SafeInt,
    newPublicKey: Text,
    newPublicKeyThumbprint: Text,
    newKeyStorage: Text,
    serverResolvedSignatureProfile: Text,
    requestedAt: Text)

  /** The refinements of the request schema: one version on, another key. */
  predicate ValidRequest(r: Request) {
    && r.proposedKeyVersion == r.currentKeyVersion + 1
    && r.proposedKeyId != r.currentKeyId
  }

  datatype Challenge = Challenge(
    challengeId: Text,
    organisationId: Text,
    deviceId: Text,
    rotationRequestId: Text,
    rotationRequestFingerprint: Text,
    currentKeyId: Text,
    currentKeyVersion: SafeInt,
    proposedKeyId: Text,
    proposedKeyVersion: SafeInt,
    newPublicKeyThumbprint: Text,
    nonce: Text,
    issuedAt: Text,
    expiresAt: Text)

  datatype Verification = Verification(
    verified: bool,
    organisationId: Text,
    deviceId: Text,
    rotationRequestId: Text,
    rotationRequestFingerprint: Text,
    rotationChallengeId: Text,
    currentKeyId: Text,
    currentKeyVersion: SafeInt,
    proposedKeyId: Text,
    proposedKeyVersion: SafeInt,
    newPublicKeyThumbprint: Text,
    signatureProfile: Text,
    canonicalStatementFingerprint: Text,
    verifiedAt: Text)

  datatype Registered = Registered(
    organisationId: Text,
    deviceId: Text,
    currentKeyId: Text,
    currentKeyVersion: SafeInt,
    currentKeyStatus: KeyState,
    currentKeyRevoked: bool,
    deviceRevoked: bool,
    serverResolvedSignatureProfile: Text)

  datatype Continuity = Continuity(verified: bool, purposePayloadDigest: Text)

  datatype Input = Input(
    request: Request,
    challenge: Challenge,
    possessionVerification: Option<Verification>,
    continuity: Option<Continuity>,
    newKeyRuntimeValid: bool,
    registered: Registered,
    consumption: Consumption,
    now: Text)

  datatype Refusal =
    | SignatureProfileClaimMismatch
    | RotationRequestMisbound
    | ChallengeMisbound
    | StaleRotation
    | NewKeyNotRuntimeValid
    | RotationConsumptionInconsistent
    | RotationConsumptionMisbound
    | RotationReusedWithChangedSemantics
    | ContinuityProofMisbound
    | ContinuityNotProven
    | PossessionVerificationMissing
    | PossessionVerificationMisbound
    | PossessionStatementMismatch
    | PossessionProfileMismatch
    | TimeNotAuthoritative
    | ChallengeNotYetIssued
    | PossessionVerifiedInFuture
    | ChallengeExpired
    | PossessionNotProven

  datatype Decision =
    | Rotate(fingerprint: Text, fromVersion: SafeInt, toVersion: SafeInt, invalidatesAtOrBelow: SafeInt)
    | Converge(fingerprint: Text, storedOutcomeRef: Text)
    | Refused(refusal: Refusal)

  // ----- what the two keys sign, and the slot -----

  function RequestFields(r: Request): (fields: seq<Field>)
    ensures |fields| == 14
  {
    [ Field(Name.Domain, Tag(RotationRequestRecord)),
      Field(Name.SchemaVersion, Num(1)),
      Field(Name.RotationRequestId, Str(r.rotationRequestId)),
      Field(Name.OrganisationId, Str(r.organisationId)),
      Field(Name.DeviceId, Str(r.deviceId)),
      Field(Name.CurrentKeyId, Str(r.currentKeyId)),
      Field(Name.CurrentKeyVersion, Num(r.currentKeyVersion)),
      Field(Name.ProposedKeyId, Str(r.proposedKeyId)),
      Field(Name.ProposedKeyVersion, Num(r.proposedKeyVersion)),
      Field(Name.NewPublicKey, Str(r.newPublicKey)),
      Field(Name.NewPublicKeyThumbprint, Str(r.newPublicKeyThumbprint)),
      Field(Name.NewKeyStorage, Str(r.newKeyStorage)),
      Field(Name.ServerResolvedSignatureProfile, Str(r.serverResolvedSignatureProfile)),
      Field(Name.RequestedAt, Str(r.requestedAt))
    ]
  }

  /** The digest is taken after reading the statement back. */
  function RequestFingerprint(r: Request): Text {
    Recanonicalised(RecordText(RequestFields(r)))
  }

  function PossessionFields(r: Request, c: Challenge, fingerprint: Text, profile: Text): (fields: seq<Field>)
    ensures |fields| == 14
  {
    [ Field(Name.Domain, Tag(RotationPossessionStatement)),
      Field(Name.SchemaVersion, Num(1)),
      Field(Name.OrganisationId, Str(r.organisationId)),
      Field(Name.DeviceId, Str(r.deviceId)),
      Field(Name.RotationRequestId, Str(r.rotationRequestId)),
      Field(Name.RotationRequestFingerprint, Str(fingerprint)),
      Field(Name.CurrentKeyId, Str(r.currentKeyId)),
      Field(Name.CurrentKeyVersion, Num(r.currentKeyVersion)),
      Field(Name.ProposedKeyId, Str(r.proposedKeyId)),
      Field(Name.ProposedKeyVersion, Num(r.proposedKeyVersion)),
      Field(Name.NewPublicKeyThumbprint, Str(r.newPublicKeyThumbprint)),
      Field(Name.RotationChallengeId, Str(c.challengeId)),
      Field(Name.Nonce, Str(c.nonce)),
      Field(Name.SignatureProfile, Str(profile))
    ]
  }

  function PossessionFingerprint(r: Request, c: Challenge, fingerprint: Text, profile: Text): Text {
    Recanonicalised(RecordText(PossessionFields(r, c, fingerprint, profile)))
  }

  function ReplayFields(r: Request, c: Challenge): (fields: seq<Field>)
    ensures |fields| == 10
  {
    [ Field(Name.Domain, Tag(KeyRotationSlot)),
      Field(Name.OrganisationId, Str(r.organisationId)),
      Field(Name.DeviceId, Str(r.deviceId)),
      Field(Name.RotationRequestId, Str(r.rotationRequestId)),
      Field(Name.RotationChallengeId, Str(c.challengeId)),
      Field(Name.CurrentKeyId, Str(r.currentKeyId)),
      Field(Name.CurrentKeyVersion, Num(r.currentKeyVersion)),
      Field(Name.ProposedKeyId, Str(r.proposedKeyId)),
      Field(Name.ProposedKeyVersion, Num(r.proposedKeyVersion)),
      Field(Name.Nonce, Str(c.nonce))
    ]
  }

  function ReplayKey(r: Request, c: Challenge): Text {
    RecordText(ReplayFields(r, c))
  }

  lemma FieldsProper(r: Request, c: Challenge, fingerprint: Text, profile: Text)
    ensures DistinctNames(PossessionFields(r, c, fingerprint, profile)) && AllLeaves(PossessionFields(r, c, fingerprint, profile))
    ensures DistinctNames(ReplayFields(r, c)) && AllLeaves(ReplayFields(r, c))
  {
    hide Literal, TagSpelling;
  }

  /** Reading a statement back before digesting it changes nothing. */
  lemma RequestFingerprintIsStatement(r: Request)
    ensures DistinctNames(RequestFields(r)) && AllLeaves(RequestFields(r))
    ensures RequestFingerprint(r) == RecordText(RequestFields(r)) != []
  {
    hide RecordText, Recanonicalised, Literal, TagSpelling;
    LeavesWellFormed(RequestFields(r));
    RecordTextIsCanonical(RequestFields(r));
  }

  lemma PossessionFingerprintIsStatement(r: Request, c: Challenge, fingerprint: Text, profile: Text)
    ensures PossessionFingerprint(r, c, fingerprint, profile) == RecordText(PossessionFields(r, c, fingerprint, profile))
  {
    hide RecordText, Recanonicalised, PossessionFields;
    FieldsProper(r, c, fingerprint, profile);
    LeavesWellFormed(PossessionFields(r, c, fingerprint, profile));
    RecordTextIsCanonical(PossessionFields(r, c, fingerprint, profile));
  }

  /** The current key vouches for one exact proposal. */
  lemma RequestFingerprintInjective(r: Request, q: Request)
    ensures RequestFingerprint(r) == RequestFingerprint(q) <==> r == q
  {
    hide RecordText, Recanonicalised, Literal, TagSpelling;
    RequestFingerprintIsStatement(r);
    RequestFingerprintIsStatement(q);
    var a, b := RequestFields(r), RequestFields(q);
    TextDecidesLeaves(a, b);
    if a == b {
      assert a[2] == b[2] && a[3] == b[3] && a[4] == b[4] && a[5] == b[5] && a[6] == b[6] && a[7] == b[7];
      assert a[8] == b[8] && a[9] == b[9] && a[10] == b[10] && a[11] == b[11] && a[12] == b[12] && a[13] == b[13];
    }
  }

  /** The proposal, read back: which value stands under which name. */
  lemma RequestSays(r: Request)
    ensures var text := RequestFingerprint(r);
            && ReadsAsObject(text, 14)
            && Says(text, Name.Domain, Tag(RotationRequestRecord)) && Says(text, Name.SchemaVersion, Num(1))
            && Says(text, Name.RotationRequestId, Str(r.rotationRequestId))
            && Says(text, Name.OrganisationId, Str(r.organisationId))
            && Says(text, Name.DeviceId, Str(r.deviceId)) && Says(text, Name.CurrentKeyId, Str(r.currentKeyId))
            && Says(text, Name.CurrentKeyVersion, Num(r.currentKeyVersion))
            && Says(text, Name.ProposedKeyId, Str(r.proposedKeyId))
            && Says(text, Name.ProposedKeyVersion, Num(r.proposedKeyVersion))
            && Says(text, Name.NewPublicKey, Str(r.newPublicKey))
            && Says(text, Name.NewPublicKeyThumbprint, Str(r.newPublicKeyThumbprint))
            && Says(text, Name.NewKeyStorage, Str(r.newKeyStorage))
            && Says(text, Name.ServerResolvedSignatureProfile, Str(r.serverResolvedSignatureProfile))
            && Says(text, Name.RequestedAt, Str(r.requestedAt))
  {
    hide RecordText, Says, ReadsAsObject, Literal, TagSpelling, Tag, DistinctNames, AllLeaves, Recanonicalised;
    var fields := RequestFields(r);
    RequestFingerprintIsStatement(r);
    RecordSays(fields);
    assert fields[0].name.Domain? && fields[1].name.SchemaVersion?;
    assert fields[2].name.RotationRequestId? && fields[3].name.OrganisationId?;
    assert fields[4].name.DeviceId? && fields[5].name.CurrentKeyId?;
    assert fields[6].name.CurrentKeyVersion? && fields[7].name.ProposedKeyId?;
    assert fields[8].name.ProposedKeyVersion? && fields[9].name.NewPublicKey?;
    assert fields[10].name.NewPublicKeyThumbprint? && fields[11].name.NewKeyStorage?;
    assert fields[12].name.ServerResolvedSignatureProfile? && fields[13].name.RequestedAt?;
  }

  /** What the new key signs to show possession, read back. */
  lemma PossessionSays(r: Request, c: Challenge, fingerprint: Text, profile: Text)
    ensures var text := PossessionFingerprint(r, c, fingerprint, profile);
            && ReadsAsObject(text, 14)
            && Says(text, Name.Domain, Tag(RotationPossessionStatement)) && Says(text, Name.SchemaVersion, Num(1))
            && Says(text, Name.OrganisationId, Str(r.organisationId)) && Says(text, Name.DeviceId, Str(r.deviceId))
            && Says(text, Name.RotationRequestId, Str(r.rotationRequestId))
            && Says(text, Name.RotationRequestFingerprint, Str(fingerprint))
            && Says(text, Name.CurrentKeyId, Str(r.currentKeyId))
            && Says(text, Name.CurrentKeyVersion, Num(r.currentKeyVersion))
            && Says(text, Name.ProposedKeyId, Str(r.proposedKeyId))
            && Says(text, Name.ProposedKeyVersion, Num(r.proposedKeyVersion))
            && Says(text, Name.NewPublicKeyThumbprint, Str(r.newPublicKeyThumbprint))
            && Says(text, Name.RotationChallengeId, Str(c.challengeId))
            && Says(text, Name.Nonce, Str(c.nonce)) && Says(text, Name.SignatureProfile, Str(profile))
  {
    hide RecordText, Says, ReadsAsObject, Literal, TagSpelling, Tag, DistinctNames, AllLeaves, PossessionFingerprint;
    var fields := PossessionFields(r, c, fingerprint, profile);
    FieldsProper(r, c, fingerprint, profile);
    PossessionFingerprintIsStatement(r, c, fingerprint, profile);
    RecordSays(fields);
    assert fields[0].name.Domain? && fields[1].name.SchemaVersion?;
    assert fields[2].name.OrganisationId? && fields[3].name.DeviceId?;
    assert fields[4].name.RotationRequestId? && fields[5].name.RotationRequestFingerprint?;
    assert fields[6].name.CurrentKeyId? && fields[7].name.CurrentKeyVersion?;
    assert fields[8].name.ProposedKeyId? && fields[9].name.ProposedKeyVersion?;
    assert fields[10].name.NewPublicKeyThumbprint? && fields[11].name.RotationChallengeId?;
    assert fields[12].name.Nonce? && fields[13].name.SignatureProfile?;
  }

  /** A rotation's slot is its nine identity columns. */
  lemma ReplayKeyInjective(r: Request, c: Challenge, q: Request, d: Challenge)
    ensures ReplayKey(r, c) == ReplayKey(q, d) <==>
            && r.organisationId == q.organisationId && r.deviceId == q.deviceId && r.rotationRequestId == q.rotationRequestId
            && c.challengeId == d.challengeId && r.currentKeyId == q.currentKeyId && r.currentKeyVersion == q.currentKeyVersion
            && r.proposedKeyId == q.proposedKeyId && r.proposedKeyVersion == q.proposedKeyVersion && c.nonce == d.nonce
  {
    hide RecordText, Literal, TagSpelling;
    FieldsProper(r, c, [], []);
    FieldsProper(q, d, [], []);
    var a, b := ReplayFields(r, c), ReplayFields(q, d);
    TextDecidesLeaves(a, b);
    if a == b {
      assert a[1] == b[1] && a[2] == b[2] && a[3] == b[3] && a[4] == b[4] && a[5] == b[5] && a[6] == b[6];
      assert a[7] == b[7] && a[8] == b[8] && a[9] == b[9];
    }
  }

  // ----- the evaluation -----

  predicate ChallengeIsAbout(c: Challenge, r: Request, fingerprint: Text) {
    && c.organisationId == r.organisationId && c.deviceId == r.deviceId && c.rotationRequestId == r.rotationRequestId
    && c.rotationRequestFingerprint == fingerprint
    && c.currentKeyId == r.currentKeyId && c.currentKeyVersion == r.currentKeyVersion
    && c.proposedKeyId == r.proposedKeyId && c.proposedKeyVersion == r.proposedKeyVersion
    && c.newPublicKeyThumbprint == r.newPublicKeyThumbprint
  }

  predicate VerificationIsAbout(v: Verification, c: Challenge, r: Request, fingerprint: Text) {
    && v.organisationId == r.organisationId && v.deviceId == r.deviceId && v.rotationRequestId == r.rotationRequestId
    && v.rotationRequestFingerprint == fingerprint && v.rotationChallengeId == c.challengeId
    && v.currentKeyId == r.currentKeyId && v.currentKeyVersion == r.currentKeyVersion
    && v.proposedKeyId == r.proposedKeyId && v.proposedKeyVersion == r.proposedKeyVersion
    && v.newPublicKeyThumbprint == r.newPublicKeyThumbprint
  }

  /** The registry as it is now still holds the key the proposal supersedes, in force and not withdrawn. */
  predicate StillCurrent(registered: Registered, r: Request) {
    && registered.currentKeyId == r.currentKeyId && registered.currentKeyVersion == r.currentKeyVersion
    && registered.currentKeyStatus.Current? && !registered.currentKeyRevoked && !registered.deviceRevoked
  }

  function CeremonyRefusal(input: Input, replayKey: Text, fingerprint: Text): Option<Refusal> {
    var request, registered, fact := input.request, input.registered, input.consumption;
    if request.organisationId != registered.organisationId || request.deviceId != registered.deviceId
    then Some(RotationRequestMisbound)
    else if !ChallengeIsAbout(input.challenge, request, fingerprint) then Some(ChallengeMisbound)
    else if !StillCurrent(registered, request) then Some(StaleRotation)
    else if !input.newKeyRuntimeValid then Some(NewKeyNotRuntimeValid)
    else if !IsConsistent(fact) then Some(RotationConsumptionInconsistent)
    else if fact.replayKey != replayKey || fact.statementFingerprint != fingerprint then Some(RotationConsumptionMisbound)
    else if fact.outcome.ReusedWithChangedSemantics? then Some(RotationReusedWithChangedSemantics)
    else if input.continuity.None? || input.continuity.value.purposePayloadDigest != fingerprint
    then Some(ContinuityProofMisbound)
    else if !input.continuity.value.verified then Some(ContinuityNotProven)
    else None
  }

  function PossessionRefusal(dates: DateParse, input: Input, fingerprint: Text, statement: Text): Option<Refusal> {
    match input.possessionVerification
    case None => Some(PossessionVerificationMissing)
    case Some(v) =>
      if !VerificationIsAbout(v, input.challenge, input.request, fingerprint) then Some(PossessionVerificationMisbound)
      else if v.canonicalStatementFingerprint != statement then Some(PossessionStatementMismatch)
      else if v.signatureProfile != input.registered.serverResolvedSignatureProfile then Some(PossessionProfileMismatch)
      else
        match Instants(dates, [input.now, v.verifiedAt, input.challenge.issuedAt, input.challenge.expiresAt])
        case None => Some(TimeNotAuthoritative)
        case Some(window) =>
          if window[1] < window[2] then Some(ChallengeNotYetIssued)
          else if window[1] > window[0] then Some(PossessionVerifiedInFuture)
          else if IsExpiredAt(window[1], window[3]) then Some(ChallengeExpired)
          else if !v.verified then Some(PossessionNotProven)
          else None
  }

  /** The evaluation of one ceremony, given the slot, the request digest and the statement digest it computes. */
  function EvaluateWith(dates: DateParse, input: Input, replayKey: Text, fingerprint: Text, statement: Text): Decision {
    if !ProfileBound(input.request.serverResolvedSignatureProfile, input.registered.serverResolvedSignatureProfile)
    then Refused(SignatureProfileClaimMismatch)
    else
      var misused := CeremonyRefusal(input, replayKey, fingerprint);
      if misused.Some? then Refused(misused.value)
      else
        var unproven := PossessionRefusal(dates, input, fingerprint, statement);
        if unproven.Some? then Refused(unproven.value)
        else if input.consumption.outcome.ExactDuplicate? && input.consumption.storedOutcomeRef.Some?
        then Converge(fingerprint, input.consumption.storedOutcomeRef.value)
        else Rotate(fingerprint, input.request.currentKeyVersion, input.request.proposedKeyVersion, input.request.currentKeyVersion)
  }

  function Evaluate(dates: DateParse, input: Input): Decision {
    var fingerprint := RequestFingerprint(input.request);
    EvaluateWith(dates, input, ReplayKey(input.request, input.challenge), fingerprint,
                 PossessionFingerprint(input.request, input.challenge, fingerprint, input.registered.serverResolvedSignatureProfile))
  }

  // ----- what a rotation means -----

  ghost predicate PossessionProven(dates: DateParse, input: Input, fingerprint: Text, statement: Text) {
    && input.possessionVerification.Some?
    && var v := input.possessionVerification.value;
    && v.verified
    && v.organisationId == input.request.organisationId && v.deviceId == input.request.deviceId
    && v.rotationRequestId == input.request.rotationRequestId && v.rotationRequestFingerprint == fingerprint
    && v.rotationChallengeId == input.challenge.challengeId
    && v.currentKeyId == input.request.currentKeyId && v.currentKeyVersion == input.request.currentKeyVersion
    && v.proposedKeyId == input.request.proposedKeyId && v.proposedKeyVersion == input.request.proposedKeyVersion
    && v.newPublicKeyThumbprint == input.request.newPublicKeyThumbprint
    && v.canonicalStatementFingerprint == statement
    && v.signatureProfile == input.registered.serverResolvedSignatureProfile
    && var now, verified, issued, expires :=
         dates(input.now), dates(v.verifiedAt), dates(input.challenge.issuedAt), dates(input.challenge.expiresAt);
    && now.Some? && verified.Some? && issued.Some? && expires.Some?
    && issued.value <= verified.value <= now.value && verified.value < expires.value
  }

  /** Both keys vouch for this exact proposal, about the key the registry holds in force now. */
  ghost predicate CeremonyHolds(dates: DateParse, input: Input, replayKey: Text, fingerprint: Text, statement: Text) {
    && input.request.serverResolvedSignatureProfile == input.registered.serverResolvedSignatureProfile == Literal(APPROVED_PROFILE)
    && input.request.organisationId == input.registered.organisationId && input.request.deviceId == input.registered.deviceId
    && input.challenge.organisationId == input.request.organisationId && input.challenge.deviceId == input.request.deviceId
    && input.challenge.rotationRequestId == input.request.rotationRequestId
    && input.challenge.rotationRequestFingerprint == fingerprint
    && input.challenge.currentKeyId == input.request.currentKeyId
    && input.challenge.currentKeyVersion == input.request.currentKeyVersion
    && input.challenge.proposedKeyId == input.request.proposedKeyId
    && input.challenge.proposedKeyVersion == input.request.proposedKeyVersion
    && input.challenge.newPublicKeyThumbprint == input.request.newPublicKeyThumbprint
    && input.registered.currentKeyId == input.request.currentKeyId
    && input.registered.currentKeyVersion == input.request.currentKeyVersion
    && input.registered.currentKeyStatus == Current && !input.registered.currentKeyRevoked && !input.registered.deviceRevoked
    && input.newKeyRuntimeValid
    && input.continuity == Some(Continuity(true, fingerprint))
    && PossessionProven(dates, input, fingerprint, statement)
    && IsConsistent(input.consumption) && !input.consumption.outcome.ReusedWithChangedSemantics?
    && input.consumption.replayKey == replayKey && input.consumption.statementFingerprint == fingerprint
  }

  lemma PossessionExact(dates: DateParse, input: Input, fingerprint: Text, statement: Text)
    ensures PossessionRefusal(dates, input, fingerprint, statement).None? <==> PossessionProven(dates, input, fingerprint, statement)
  {
    if input.possessionVerification.Some? {
      var v := input.possessionVerification.value;
      var texts := [input.now, v.verifiedAt, input.challenge.issuedAt, input.challenge.expiresAt];
      assert texts[0] == input.now && texts[1] == v.verifiedAt;
      assert texts[2] == input.challenge.issuedAt && texts[3] == input.challenge.expiresAt;
    }
  }

  /** What each refusal says is wrong. */
  ghost predicate Defect(dates: DateParse, input: Input, replayKey: Text, fingerprint: Text, statement: Text, refusal: Refusal) {
    var r, c, registered := input.request, input.challenge, input.registered;
    var asked := input.possessionVerification.Some?;
    match refusal
    case SignatureProfileClaimMismatch =>
      || registered.serverResolvedSignatureProfile != Literal(APPROVED_PROFILE)
      || r.serverResolvedSignatureProfile != registered.serverResolvedSignatureProfile
    case RotationRequestMisbound => r.organisationId != registered.organisationId || r.deviceId != registered.deviceId
    case ChallengeMisbound =>
      || c.organisationId != r.organisationId || c.deviceId != r.deviceId || c.rotationRequestId != r.rotationRequestId
      || c.rotationRequestFingerprint != fingerprint
      || c.currentKeyId != r.currentKeyId || c.currentKeyVersion != r.currentKeyVersion
      || c.proposedKeyId != r.proposedKeyId || c.proposedKeyVersion != r.proposedKeyVersion
      || c.newPublicKeyThumbprint != r.newPublicKeyThumbprint
    case StaleRotation =>
      || registered.currentKeyId != r.currentKeyId || registered.currentKeyVersion != r.currentKeyVersion
      || registered.currentKeyStatus != Current || registered.currentKeyRevoked || registered.deviceRevoked
    case NewKeyNotRuntimeValid => !input.newKeyRuntimeValid
    case RotationConsumptionInconsistent => !IsConsistent(input.consumption)
    case RotationConsumptionMisbound =>
      input.consumption.replayKey != replayKey || input.consumption.statementFingerprint != fingerprint
    case RotationReusedWithChangedSemantics => input.consumption.outcome.ReusedWithChangedSemantics?
    case ContinuityProofMisbound => input.continuity.None? || input.continuity.value.purposePayloadDigest != fingerprint
    case ContinuityNotProven => input.continuity.Some? && !input.continuity.value.verified
    case PossessionVerificationMissing => !asked
    case PossessionVerificationMisbound =>
      asked && var v := input.possessionVerification.value;
      || v.organisationId != r.organisationId || v.deviceId != r.deviceId || v.rotationRequestId != r.rotationRequestId
      || v.rotationRequestFingerprint != fingerprint || v.rotationChallengeId != c.challengeId
      || v.currentKeyId != r.currentKeyId || v.currentKeyVersion != r.currentKeyVersion
      || v.proposedKeyId != r.proposedKeyId || v.proposedKeyVersion != r.proposedKeyVersion
      || v.newPublicKeyThumbprint != r.newPublicKeyThumbprint
    case PossessionStatementMismatch => asked && input.possessionVerification.value.canonicalStatementFingerprint != statement
    case PossessionProfileMismatch =>
      asked && input.possessionVerification.value.signatureProfile != registered.serverResolvedSignatureProfile
    case TimeNotAuthoritative =>
      asked && (dates(input.now).None? || dates(input.possessionVerification.value.verifiedAt).None?
                || dates(c.issuedAt).None? || dates(c.expiresAt).None?)
    case ChallengeNotYetIssued => asked && Before(dates, input.possessionVerification.value.verifiedAt, c.issuedAt)
    case PossessionVerifiedInFuture => asked && Before(dates, input.now, input.possessionVerification.value.verifiedAt)
    case ChallengeExpired =>
      asked && dates(c.expiresAt).Some? && !Before(dates, input.possessionVerification.value.verifiedAt, c.expiresAt)
    case PossessionNotProven => asked && !input.possessionVerification.value.verified
  }

  /** Both instants can be read and the first is earlier. */
  ghost predicate Before(dates: DateParse, first: Text, second: Text) {
    dates(first).Some? && dates(second).Some? && dates(first).value < dates(second).value
  }

  lemma CeremonyDefects(dates: DateParse, input: Input, replayKey: Text, fingerprint: Text, statement: Text)
    ensures var refusal := CeremonyRefusal(input, replayKey, fingerprint);
            refusal.Some? ==> Defect(dates, input, replayKey, fingerprint, statement, refusal.value)
  {
    hide Literal, IsConsistent;
  }

  lemma PossessionDefects(dates: DateParse, input: Input, replayKey: Text, fingerprint: Text, statement: Text)
    ensures var refusal := PossessionRefusal(dates, input, fingerprint, statement);
            refusal.Some? ==> Defect(dates, input, replayKey, fingerprint, statement, refusal.value)
  {
    hide Literal, IsConsistent;
    if input.possessionVerification.Some? {
      var v := input.possessionVerification.value;
      var texts := [input.now, v.verifiedAt, input.challenge.issuedAt, input.challenge.expiresAt];
      assert texts[0] == input.now && texts[1] == v.verifiedAt;
      assert texts[2] == input.challenge.issuedAt && texts[3] == input.challenge.expiresAt;
    }
  }

  /** A refusal is never given for a defect that is not there. */
  lemma RefusalsAreTrue(dates: DateParse, input: Input, replayKey: Text, fingerprint: Text, statement: Text)
    ensures var d := EvaluateWith(dates, input, replayKey, fingerprint, statement);
            d.Refused? ==> Defect(dates, input, replayKey, fingerprint, statement, d.refusal)
  {
    hide IsConsistent, CeremonyRefusal, PossessionRefusal, Literal;
    CeremonyDefects(dates, input, replayKey, fingerprint, statement);
    PossessionDefects(dates, input, replayKey, fingerprint, statement);
  }

  /**
   A key is replaced exactly when the ceremony holds and its slot is new, from the
   version in force; an exact retry converges, and nothing else is admitted.
   */
  lemma DecisionExact(dates: DateParse, input: Input, replayKey: Text, fingerprint: Text, statement: Text)
    ensures var d := EvaluateWith(dates, input, replayKey, fingerprint, statement);
            var good := CeremonyHolds(dates, input, replayKey, fingerprint, statement);
            && (d.Rotate? <==> good && input.consumption.outcome.FirstSeen?)
            && (d.Converge? <==> good && input.consumption.outcome.ExactDuplicate?)
            && (d.Rotate? ==> && d.fromVersion == d.invalidatesAtOrBelow == input.registered.currentKeyVersion
                              && d.toVersion == input.challenge.proposedKeyVersion)
            && (d.Converge? ==> Some(d.storedOutcomeRef) == input.consumption.storedOutcomeRef)
            && (!d.Refused? ==> d.fingerprint == fingerprint)
  {
    hide Literal, PossessionRefusal, PossessionProven;
    PossessionExact(dates, input, fingerprint, statement);
  }

  /** While the registry has not moved, an exact retry converges and rotates nothing. */
  lemma RetryConverges(dates: DateParse, input: Input, again: Consumption)
    requires Evaluate(dates, input).Rotate?
    requires IsConsistent(again) && again.outcome.ExactDuplicate?
    requires again.replayKey == input.consumption.replayKey && again.statementFingerprint == input.consumption.statementFingerprint
    ensures var d := Evaluate(dates, input.(consumption := again));
            d.Converge? && Some(d.storedOutcomeRef) == again.storedOutcomeRef
  {
    hide RequestFingerprint, ReplayKey, PossessionFingerprint, EvaluateWith, Literal, PossessionProven, IsConsistent;
    var fingerprint := RequestFingerprint(input.request);
    var statement := PossessionFingerprint(input.request, input.challenge, fingerprint, input.registered.serverResolvedSignatureProfile);
    DecisionExact(dates, input, ReplayKey(input.request, input.challenge), fingerprint, statement);
    DecisionExact(dates, input.(consumption := again), ReplayKey(input.request, input.challenge), fingerprint, statement);
    PossessionExact(dates, input, fingerprint, statement);
    PossessionExact(dates, input.(consumption := again), fingerprint, statement);
  }

  /** A proposal that no longer matches the registry is stale, even as an exact retry of itself. */
  lemma SupersededRotationIsRefused(dates: DateParse, input: Input)
    requires input.registered.currentKeyVersion != input.request.currentKeyVersion || input.registered.currentKeyId != input.request.currentKeyId
             || input.registered.currentKeyStatus != Current || input.registered.currentKeyRevoked || input.registered.deviceRevoked
    ensures Evaluate(dates, input).Refused?
  {
    hide RequestFingerprint, ReplayKey, PossessionFingerprint, EvaluateWith, Literal, PossessionProven;
    var fingerprint := RequestFingerprint(input.request);
    DecisionExact(dates, input, ReplayKey(input.request, input.challenge), fingerprint,
                  PossessionFingerprint(input.request, input.challenge, fingerprint, input.registered.serverResolvedSignatureProfile));
  }
}
