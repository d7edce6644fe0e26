/**
 The enrolment commit gate: one grant, one approval of one exact request, one
 challenge answered by the approved key, in one order and in one short window.
 */
module Enrolment {
  import opened JsText
  import opened JsonValue
  import opened Options
  import opened DeviceTime
  import opened DeviceRegistry
  import opened FieldNames
  import CanonicalJson
  import opened SignedRecord
  import opened OneShot

  const GRANT_MAX_AGE_MS := 600_000
  const REQUEST_MAX_AGE_MS := 900_000

  datatype Attestation = Attestation(outcome: Text, evaluatedAt: Text, attestationReference: Option<Text>)

  datatype Request = Request(
    enrollmentRequestId: Text,
    organisationId: Text,
    siteId: Text,
    intendedUserId: Text,
    bootstrapGrantId: Text,
    custody: Text,
    claimedSignatureProfile: Text,
    keyStorage: Text,
    publicKey: Text,
    publicKeyThumbprint: Text,
    attestation: Attestation,
    requestedAt: Text)

  datatype Grant = Grant(
    grantId: Text,
    organisationId: Text,
    siteId: Text,
    intendedUserId: Text,
    issuedAt: Text,
    expiresAt: Text,
    consumedAt: Option<Text>,
    revokedAt: Option<Text>)

  datatype Approval = Approval(
    enrollmentRequestId: Text,
    enrollmentRequestFingerprint: Text,
    organisationId: Text,
    siteId: Text,
    custody: Text,
    approvedAt: Text)

  datatype Challenge = Challenge(
    challengeId: Text,
    enrollmentRequestId: Text,
    nonce: Text,
    issuedAt: Text,
    expiresAt: Text)

  datatype Verification = Verification(
    verified: bool,
    challengeId: Text,
    enrollmentRequestId: Text,
    enrollmentRequestFingerprint: Text,
    publicKeyThumbprint: Text,
    possessionStatementFingerprint: Text,
    signatureProfile: Text,
    verifiedAt: Text)

  datatype Input = Input(
    request: Request,
    grant: Option<Grant>,
    approval: Option<Approval>,
    challenge: Option<Challenge>,
    possessionVerification: Option<Verification>,
    serverSelectedSignatureProfile: Text,
    grantConsumption: Consumption,
    challengeConsumption: Consumption,
    authenticatedUserId: Option<Text>,
    now: Text)

  datatype Refusal =
    | SignatureProfileClaimMismatch
    | BootstrapGrantMissing
    | BootstrapScopeMismatch
    | TimeNotAuthoritative
    | BootstrapGrantUnusable
    | BootstrapConsumptionInconsistent
    | BootstrapConsumptionMisbound
    | BootstrapGrantReused
    | RequestNotYetMade
    | RequestExpired
    | RequestPrecedesGrant
    | ApprovalMissing
    | ApprovalFingerprintMismatch
    | ApprovalNotYetMade
    | ApprovalPrecedesRequest
    | UserNotAuthenticated
    | UserNotIntended
    | ChallengeMissing
    | ChallengeMisbound
    | ChallengeConsumptionInconsistent
    | ChallengeConsumptionMisbound
    | ChallengeReused
    | PossessionVerificationMissing
    | PossessionVerificationMisbound
    | PossessionStatementMismatch
    | PossessionProfileMismatch
    | ChallengeNotYetIssued
    | ChallengePrecedesApproval
    | PossessionVerifiedInFuture
    | ChallengeExpired
    | PossessionNotProven

  datatype Decision =
    | Commit(fingerprint: Text)
    | Converge(fingerprint: Text, storedOutcomeRef: Text)
    | Refused(refusal: Refusal)

  // ----- what is approved, answered and spent -----

  function AttestationFields(a: Attestation): (fields: seq<Field>)
    ensures |fields| == 3
  {
    [ Field(Name.Outcome, Str(a.outcome)),
      Field(Name.EvaluatedAt, Str(a.evaluatedAt)),
      Field(Name.AttestationReference, if a.attestationReference.Some? then Str(a.attestationReference.value) else Null)
    ]
  }

  function RequestFields(r: Request): (fields: seq<Field>)
    ensures |fields| == 14
  {
    [ Field(Name.Domain, Tag(EnrolmentRequestRecord)),
      Field(Name.SchemaVersion, Num(1)),
      Field(Name.EnrollmentRequestId, Str(r.enrollmentRequestId)),
      Field(Name.OrganisationId, Str(r.organisationId)),
      Field(Name.SiteId, Str(r.siteId)),
      Field(Name.IntendedUserId, Str(r.intendedUserId)),
      Field(Name.BootstrapGrantId, Str(r.bootstrapGrantId)),
      Field(Name.Custody, Str(r.custody)),
      Field(Name.ClaimedSignatureProfile, Str(r.claimedSignatureProfile)),
      Field(Name.KeyStorage, Str(r.keyStorage)),
      Field(Name.PublicKey, Str(r.publicKey)),
      Field(Name.PublicKeyThumbprint, Str(r.publicKeyThumbprint)),
      Field(Name.Attestation, Obj(Members(AttestationFields(r.attestation)))),
      Field(Name.RequestedAt, Str(r.requestedAt))
    ]
  }

  function RequestFingerprint(r: Request): Text {
    RecordText(RequestFields(r))
  }

  function PossessionFields(r: Request, c: Challenge, fingerprint: Text, profile: Text): (fields: seq<Field>)
    ensures |fields| == 7
  {
    [ Field(Name.Domain, Tag(EnrolmentPossessionStatement)),
      Field(Name.ChallengeId, Str(c.challengeId)),
      Field(Name.EnrollmentRequestId, Str(r.enrollmentRequestId)),
      Field(Name.EnrollmentRequestFingerprint, Str(fingerprint)),
      Field(Name.Nonce, Str(c.nonce)),
      Field(Name.PublicKeyThumbprint, Str(r.publicKeyThumbprint)),
      Field(Name.SignatureProfile, Str(profile))
    ]
  }

  function PossessionStatement(r: Request, c: Challenge, fingerprint: Text, profile: Text): Text {
    RecordText(PossessionFields(r, c, fingerprint, profile))
  }

  function GrantReplayFields(g: Grant): (fields: seq<Field>)
    ensures |fields| == 5
  {
    [ Field(Name.Domain, Tag(BootstrapGrantSlot)),
      Field(Name.OrganisationId, Str(g.organisationId)),
      Field(Name.SiteId, Str(g.siteId)),
      Field(Name.IntendedUserId, Str(g.intendedUserId)),
      Field(Name.GrantId, Str(g.grantId))
    ]
  }

  function GrantReplayKey(g: Grant): Text {
    RecordText(GrantReplayFields(g))
  }

  function ChallengeReplayFields(r: Request, c: Challenge): (fields: seq<Field>)
    ensures |fields| == 7
  {
    [ Field(Name.Domain, Tag(PossessionChallengeSlot)),
      Field(Name.OrganisationId, Str(r.organisationId)),
      Field(Name.SiteId, Str(r.siteId)),
      Field(Name.IntendedUserId, Str(r.intendedUserId)),
      Field(Name.EnrollmentRequestId, Str(r.enrollmentRequestId)),
      Field(Name.ChallengeId, Str(c.challengeId)),
      Field(Name.Nonce, Str(c.nonce))
    ]
  }

  function ChallengeReplayKey(r: Request, c: Challenge): Text {
    RecordText(ChallengeReplayFields(r, c))
  }

  lemma AttestationProper(a: Attestation)
    ensures DistinctNames(AttestationFields(a)) && AllLeaves(AttestationFields(a))
    ensures WellFormed(Obj(Members(AttestationFields(a))))
  {
    LeavesWellFormed(AttestationFields(a));
    RecordWellFormed(AttestationFields(a));
  }

  lemma RequestFieldsProper(r: Request)
    ensures DistinctNames(RequestFields(r)) && AllWellFormed(RequestFields(r))
  {
    hide Literal, TagSpelling, Members, AttestationFields;
    AttestationProper(r.attestation);
  }

  lemma GrantFieldsProper(g: Grant)
    ensures DistinctNames(GrantReplayFields(g)) && AllLeaves(GrantReplayFields(g))
  {
    hide Literal, TagSpelling;
  }

  lemma OtherFieldsProper(r: Request, c: Challenge, fingerprint: Text, profile: Text)
    ensures DistinctNames(PossessionFields(r, c, fingerprint, profile)) && AllLeaves(PossessionFields(r, c, fingerprint, profile))
    ensures DistinctNames(ChallengeReplayFields(r, c)) && AllLeaves(ChallengeReplayFields(r, c))
  {
    hide Literal, TagSpelling;
  }

  lemma SameAttestation(a: Attestation, b: Attestation)
    requires SameUpToKeyOrder(Obj(Members(AttestationFields(a))),
                              Obj(Members(AttestationFields(b))))
    ensures a == b
  {
    hide Members, Literal, SameUpToKeyOrder;
    var x, y := AttestationFields(a), AttestationFields(b);
    SameLeafObjects(x, y);
    assert x[0] == y[0] && x[1] == y[1] && x[2] == y[2];
  }

  lemma SameString(a: Text, b: Text)
    ensures SameUpToKeyOrder(Str(a), Str(b)) <==> a == b
  {
  }

  lemma RequestFieldsAligned(r: Request, q: Request)
    ensures SameNames(RequestFields(r), RequestFields(q))
  {
    hide Literal, TagSpelling, Members, AttestationFields;
  }

  /** What the new key signs to show possession, read back: which value stands under which name. */
  lemma PossessionSays(r: Request, c: Challenge, fingerprint: Text, profile: Text)
    ensures var text := PossessionStatement(r, c, fingerprint, profile);
            && ReadsAsObject(text, 7)
            && Says(text, Name.Domain, Tag(EnrolmentPossessionStatement)) && Says(text, Name.ChallengeId, Str(c.challengeId))
            && Says(text, Name.EnrollmentRequestId, Str(r.enrollmentRequestId))
            && Says(text, Name.EnrollmentRequestFingerprint, Str(fingerprint))
            && Says(text, Name.Nonce, Str(c.nonce)) && Says(text, Name.PublicKeyThumbprint, Str(r.publicKeyThumbprint))
            && Says(text, Name.SignatureProfile, Str(profile))
  {
    hide RecordText, Says, ReadsAsObject, Literal, TagSpelling, Tag, DistinctNames, AllLeaves;
    var fields := PossessionFields(r, c, fingerprint, profile);
    OtherFieldsProper(r, c, fingerprint, profile);
    RecordSays(fields);
    assert fields[0].name.Domain? && fields[1].name.ChallengeId?;
    assert fields[2].name.EnrollmentRequestId? && fields[3].name.EnrollmentRequestFingerprint?;
    assert fields[4].name.Nonce? && fields[5].name.PublicKeyThumbprint? && fields[6].name.SignatureProfile?;
  }

  /** A challenge is spent under its six identity columns. */
  lemma ChallengeReplayKeyInjective(r: Request, c: Challenge, q: Request, d: Challenge)
    ensures ChallengeReplayKey(r, c) == ChallengeReplayKey(q, d) <==>
            && r.organisationId == q.organisationId && r.siteId == q.siteId && r.intendedUserId == q.intendedUserId
            && r.enrollmentRequestId == q.enrollmentRequestId && c.challengeId == d.challengeId && c.nonce == d.nonce
  {
    hide RecordText, Literal, TagSpelling, DistinctNames, AllLeaves;
    OtherFieldsProper(r, c, [], []);
    OtherFieldsProper(q, d, [], []);
    var a, b := ChallengeReplayFields(r, c), ChallengeReplayFields(q, d);
    TextDecidesLeaves(a, b);
    if a == b {
      assert a[1] == b[1] && a[2] == b[2] && a[3] == b[3] && a[4] == b[4] && a[5] == b[5] && a[6] == b[6];
    }
  }

  /** The request that is fingerprinted, read back: which value stands under which name, down to the attestation. */
  lemma RequestSays(r: Request)
    ensures var text := RequestFingerprint(r);
            && ReadsAsObject(text, 14)
            && Says(text, Name.Domain, Tag(EnrolmentRequestRecord)) && Says(text, Name.SchemaVersion, Num(1))
            && Says(text, Name.EnrollmentRequestId, Str(r.enrollmentRequestId))
            && Says(text, Name.OrganisationId, Str(r.organisationId))
            && Says(text, Name.SiteId, Str(r.siteId)) && Says(text, Name.IntendedUserId, Str(r.intendedUserId))
            && Says(text, Name.BootstrapGrantId, Str(r.bootstrapGrantId)) && Says(text, Name.Custody, Str(r.custody))
            && Says(text, Name.ClaimedSignatureProfile, Str(r.claimedSignatureProfile))
            && Says(text, Name.KeyStorage, Str(r.keyStorage))
            && Says(text, Name.PublicKey, Str(r.publicKey)) && Says(text, Name.PublicKeyThumbprint, Str(r.publicKeyThumbprint))
            && Says(text, Name.RequestedAt, Str(r.requestedAt))
            && exists a :: && Says(text, Name.Attestation, a) && a.Obj? && |a.members| == 3
                           && Holds(a, Name.Outcome, Str(r.attestation.outcome))
                           && Holds(a, Name.EvaluatedAt, Str(r.attestation.evaluatedAt))
                           && Holds(a, Name.AttestationReference,
                                    if r.attestation.attestationReference.Some? then Str(r.attestation.attestationReference.value) else Null)
  {
    hide RecordText, Says, ReadsAsObject, Holds, Literal, TagSpelling, DistinctNames, AllWellFormed, AllLeaves, Members;
    var fields := RequestFields(r);
    RequestFieldsProper(r);
    RecordHolds(fields);
    assert fields[0].name.Domain? && fields[1].name.SchemaVersion? && fields[2].name.EnrollmentRequestId?;
    assert fields[3].name.OrganisationId? && fields[4].name.SiteId?;
    assert fields[5].name.IntendedUserId? && fields[6].name.BootstrapGrantId?;
    assert fields[7].name.Custody? && fields[8].name.ClaimedSignatureProfile? && fields[9].name.KeyStorage?;
    assert fields[10].name.PublicKey? && fields[11].name.PublicKeyThumbprint? && fields[13].name.RequestedAt?;
    AttestationSays(r.attestation);
    assert Says(RecordText(fields), Name.Attestation, CanonicalJson.SortKeysDeep(fields[12].value));
  }

  lemma AttestationSays(a: Attestation)
    ensures var v := CanonicalJson.SortKeysDeep(Obj(Members(AttestationFields(a))));
            && v.Obj? && |v.members| == 3
            && Holds(v, Name.Outcome, Str(a.outcome)) && Holds(v, Name.EvaluatedAt, Str(a.evaluatedAt))
            && Holds(v, Name.AttestationReference, if a.attestationReference.Some? then Str(a.attestationReference.value) else Null)
  {
    hide Holds, Literal, DistinctNames, AllWellFormed, AllLeaves, Members;
    var fields := AttestationFields(a);
    AttestationProper(a);
    LeavesWellFormed(fields);
    SortedHolds(fields);
    assert fields[0].name.Outcome? && fields[1].name.EvaluatedAt? && fields[2].name.AttestationReference?;
  }

  /** An approval that names a fingerprint names one request, down to its attestation. */
  lemma RequestFingerprintInjective(r: Request, q: Request)
    ensures RequestFingerprint(r) == RequestFingerprint(q) <==> r == q
  {
    hide RecordText, RequestFields;
    if RequestFingerprint(r) == RequestFingerprint(q) {
      RequestFieldsProper(r);
      RequestFieldsProper(q);
      RequestFieldsAligned(r, q);
      TextDecidesFields(RequestFields(r), RequestFields(q));
      SameValuesSameRequest(r, q);
    }
  }

  lemma SameValuesSameRequest(r: Request, q: Request)
    requires forall i :: 0 <= i < 14 ==> SameUpToKeyOrder(RequestFields(r)[i].value, RequestFields(q)[i].value)
    ensures r == q
  {
    hide SameUpToKeyOrder, Members, AttestationFields, Literal, TagSpelling;
    var a, b := RequestFields(r), RequestFields(q);
    assert SameUpToKeyOrder(a[12].value, b[12].value);
    SameAttestation(r.attestation, q.attestation);
    forall s, t | SameUpToKeyOrder(Str(s), Str(t))
      ensures s == t
    {
      SameString(s, t);
    }
    assert SameUpToKeyOrder(a[2].value, b[2].value) && SameUpToKeyOrder(a[3].value, b[3].value) && SameUpToKeyOrder(a[4].value, b[4].value);
    assert SameUpToKeyOrder(a[5].value, b[5].value) && SameUpToKeyOrder(a[6].value, b[6].value) && SameUpToKeyOrder(a[7].value, b[7].value);
    assert SameUpToKeyOrder(a[8].value, b[8].value) && SameUpToKeyOrder(a[9].value, b[9].value) && SameUpToKeyOrder(a[10].value, b[10].value);
    assert SameUpToKeyOrder(a[11].value, b[11].value) && SameUpToKeyOrder(a[13].value, b[13].value);
  }

  /** A grant's slot is the grant in its scope. */
  lemma GrantReplayKeyInjective(g: Grant, h: Grant)
    ensures GrantReplayKey(g) == GrantReplayKey(h) <==>
            && g.organisationId == h.organisationId && g.siteId == h.siteId
            && g.intendedUserId == h.intendedUserId && g.grantId == h.grantId
  {
    hide RecordText, TagSpelling, Literal;
    var a, b := GrantReplayFields(g), GrantReplayFields(h);
    GrantFieldsProper(g);
    GrantFieldsProper(h);
    TextDecidesLeaves(a, b);
    if a == b {
      assert a[1] == b[1] && a[2] == b[2] && a[3] == b[3] && a[4] == b[4];
    }
  }

  // ----- the gate -----

  datatype GrantStanding = Usable | NotYetValid | Expired | Consumed | Withdrawn | Unreadable

  function ClassifyGrant(dates: DateParse, grant: Grant, now: Text): GrantStanding {
    if grant.revokedAt.Some? then Withdrawn
    else if grant.consumedAt.Some? then Consumed
    else
      match Instants(dates, [now, grant.issuedAt, grant.expiresAt])
      case None => Unreadable
      case Some(instants) =>
        if instants[0] < instants[1] then NotYetValid
        else if IsExpiredAt(instants[0], instants[2]) then Expired
        else Usable
  }

  function GrantRefusal(dates: DateParse, input: Input, grant: Grant, replayKey: Text, fingerprint: Text): Option<Refusal> {
    var request, fact := input.request, input.grantConsumption;
    if grant.grantId != request.bootstrapGrantId then Some(BootstrapScopeMismatch)
    else if ClassifyGrant(dates, grant, input.now).Unreadable? then Some(TimeNotAuthoritative)
    else if !ClassifyGrant(dates, grant, input.now).Usable? then Some(BootstrapGrantUnusable)
    else if grant.organisationId != request.organisationId || grant.siteId != request.siteId
            || grant.intendedUserId != request.intendedUserId
    then Some(BootstrapScopeMismatch)
    else if !IsConsistent(fact) then Some(BootstrapConsumptionInconsistent)
    else if fact.replayKey != replayKey || fact.statementFingerprint != fingerprint then Some(BootstrapConsumptionMisbound)
    else if fact.outcome.ReusedWithChangedSemantics? then Some(BootstrapGrantReused)
    else None
  }

  function RequestTimeRefusal(now: int, requested: int, grantIssued: int): Option<Refusal> {
    if now - requested < 0 then Some(RequestNotYetMade)
    else if now - requested > REQUEST_MAX_AGE_MS then Some(RequestExpired)
    else if requested < grantIssued then Some(RequestPrecedesGrant)
    else None
  }

  predicate ApprovalMatches(approval: Approval, request: Request, fingerprint: Text) {
    && approval.enrollmentRequestId == request.enrollmentRequestId
    && approval.enrollmentRequestFingerprint == fingerprint
    && approval.organisationId == request.organisationId
    && approval.siteId == request.siteId
    && approval.custody == request.custody
  }

  function UserRefusal(input: Input): Option<Refusal> {
    if input.authenticatedUserId.None? then Some(UserNotAuthenticated)
    else if input.authenticatedUserId.value != input.request.intendedUserId then Some(UserNotIntended)
    else None
  }

  function ChallengeRefusal(input: Input, challenge: Challenge, replayKey: Text, fingerprint: Text): Option<Refusal> {
    var fact := input.challengeConsumption;
    if challenge.enrollmentRequestId != input.request.enrollmentRequestId then Some(ChallengeMisbound)
    else if !IsConsistent(fact) then Some(ChallengeConsumptionInconsistent)
    else if fact.replayKey != replayKey || fact.statementFingerprint != fingerprint then Some(ChallengeConsumptionMisbound)
    else if fact.outcome.ReusedWithChangedSemantics? then Some(ChallengeReused)
    else None
  }

  function VerificationRefusal(input: Input, challenge: Challenge, v: Verification, fingerprint: Text, statement: Text)
    : Option<Refusal>
  {
    if v.challengeId != challenge.challengeId || v.enrollmentRequestId != input.request.enrollmentRequestId
       || v.enrollmentRequestFingerprint != fingerprint || v.publicKeyThumbprint != input.request.publicKeyThumbprint
    then Some(PossessionVerificationMisbound)
    else if v.possessionStatementFingerprint != statement then Some(PossessionStatementMismatch)
    else if v.signatureProfile != input.serverSelectedSignatureProfile then Some(PossessionProfileMismatch)
    else None
  }

  function WindowRefusal(now: int, approved: int, issued: int, expires: int, verified: int): Option<Refusal> {
    if issued > now then Some(ChallengeNotYetIssued)
    else if issued < approved then Some(ChallengePrecedesApproval)
    else if verified < issued then Some(ChallengeNotYetIssued)
    else if verified > now then Some(PossessionVerifiedInFuture)
    else if IsExpiredAt(verified, expires) then Some(ChallengeExpired)
    else None
  }

  /** What the two one-shot facts leave to do, once everything else holds. */
  function EffectDecision(grantFact: Consumption, challengeFact: Consumption, fingerprint: Text): Decision {
    if grantFact.outcome.ExactDuplicate? && challengeFact.outcome.ExactDuplicate?
       && grantFact.storedOutcomeRef != challengeFact.storedOutcomeRef
    then Refused(BootstrapConsumptionInconsistent)
    else if challengeFact.outcome.ExactDuplicate? && challengeFact.storedOutcomeRef.Some?
    then Converge(fingerprint, challengeFact.storedOutcomeRef.value)
    else if grantFact.outcome.ExactDuplicate? && grantFact.storedOutcomeRef.Some?
    then Converge(fingerprint, grantFact.storedOutcomeRef.value)
    else Commit(fingerprint)
  }

  /** Steps 4 and 5: the challenge and the server's verdict on its answer. */
  function PossessionDecision(dates: DateParse, input: Input, now: int, approved: int, challenge: Challenge,
                              replayKey: Text, fingerprint: Text, statement: Text): Decision
  {
    var misused := ChallengeRefusal(input, challenge, replayKey, fingerprint);
    if misused.Some? then Refused(misused.value)
    else
      match input.possessionVerification
      case None => Refused(PossessionVerificationMissing)
      case Some(v) =>
        var misbound := VerificationRefusal(input, challenge, v, fingerprint, statement);
        if misbound.Some? then Refused(misbound.value)
        else
          match Instants(dates, [v.verifiedAt, challenge.issuedAt, challenge.expiresAt])
          case None => Refused(TimeNotAuthoritative)
          case Some(window) =>
            var untimely := WindowRefusal(now, approved, window[1], window[2], window[0]);
            if untimely.Some? then Refused(untimely.value)
            else if !v.verified then Refused(PossessionNotProven)
            else EffectDecision(input.grantConsumption, input.challengeConsumption, fingerprint)
  }

  /** Steps 2 and 3: the approval of this exact request, and the person it was meant for. */
  function ApprovedDecision(dates: DateParse, input: Input, now: int, requested: int, fingerprint: Text): Decision {
    match input.approval
    case None => Refused(ApprovalMissing)
    case Some(approval) =>
      if !ApprovalMatches(approval, input.request, fingerprint) then Refused(ApprovalFingerprintMismatch)
      else
        match dates(approval.approvedAt)
        case None => Refused(TimeNotAuthoritative)
        case Some(approved) =>
          if approved > now then Refused(ApprovalNotYetMade)
          else if approved < requested then Refused(ApprovalPrecedesRequest)
          else if UserRefusal(input).Some? then Refused(UserRefusal(input).value)
          else
            match input.challenge
            case None => Refused(ChallengeMissing)
            case Some(challenge) =>
              PossessionDecision(dates, input, now, approved, challenge, ChallengeReplayKey(input.request, challenge), fingerprint,
                                 PossessionStatement(input.request, challenge, fingerprint, input.serverSelectedSignatureProfile))
  }

  function GrantedDecision(dates: DateParse, input: Input, grant: Grant, replayKey: Text, fingerprint: Text): Decision {
    var ungranted := GrantRefusal(dates, input, grant, replayKey, fingerprint);
    if ungranted.Some? then Refused(ungranted.value)
    else
      match Instants(dates, [input.now, input.request.requestedAt, grant.issuedAt])
      case None => Refused(TimeNotAuthoritative)
      case Some(instants) =>
        var untimely := RequestTimeRefusal(instants[0], instants[1], instants[2]);
        if untimely.Some? then Refused(untimely.value)
        else ApprovedDecision(dates, input, instants[0], instants[1], fingerprint)
  }

  function Evaluate(dates: DateParse, input: Input): Decision {
    if !ProfileBound(input.request.claimedSignatureProfile, input.serverSelectedSignatureProfile)
    then Refused(SignatureProfileClaimMismatch)
    else
      match input.grant
      case None => Refused(BootstrapGrantMissing)
      case Some(grant) => GrantedDecision(dates, input, grant, GrantReplayKey(grant), RequestFingerprint(input.request))
  }

  // ----- what a commit means -----

  /** The five instants of a ceremony and the grant's expiry, when all of them can be read. */
  datatype Chronology = Chronology(granted: int, requested: int, approved: int, challenged: int, verified: int, now: int,
                                   grantExpires: int, challengeExpires: int)

  ghost predicate Reads(dates: DateParse, input: Input, c: Chronology) {
    && input.grant.Some? && input.approval.Some? && input.challenge.Some? && input.possessionVerification.Some?
    && dates(input.grant.value.issuedAt) == Some(c.granted)
    && dates(input.request.requestedAt) == Some(c.requested)
    && dates(input.approval.value.approvedAt) == Some(c.approved)
    && dates(input.challenge.value.issuedAt) == Some(c.challenged)
    && dates(input.possessionVerification.value.verifiedAt) == Some(c.verified)
    && dates(input.now) == Some(c.now)
    && dates(input.grant.value.expiresAt) == Some(c.grantExpires)
    && dates(input.challenge.value.expiresAt) == Some(c.challengeExpires)
  }

  /** Both instants can be read and the first is earlier. */
  ghost predicate Before(dates: DateParse, first: Text, second: Text) {
    dates(first).Some? && dates(second).Some? && dates(first).value < dates(second).value
  }

  ghost predicate FactDefect(fact: Consumption, replayKey: Text, fingerprint: Text) {
    fact.replayKey != replayKey || fact.statementFingerprint != fingerprint
  }

  /** What each refusal about the grant and the request says is wrong. */
  ghost predicate GrantDefect(dates: DateParse, input: Input, refusal: Refusal) {
    var r := input.request;
    match refusal
    case SignatureProfileClaimMismatch =>
      || input.serverSelectedSignatureProfile != Literal(APPROVED_PROFILE)
      || r.claimedSignatureProfile != input.serverSelectedSignatureProfile
    case BootstrapGrantMissing => input.grant.None?
    case BootstrapScopeMismatch =>
      input.grant.Some? && var g := input.grant.value;
      || g.grantId != r.bootstrapGrantId || g.organisationId != r.organisationId || g.siteId != r.siteId
      || g.intendedUserId != r.intendedUserId
    case BootstrapGrantUnusable =>
      input.grant.Some? && var g := input.grant.value;
      || g.revokedAt.Some? || g.consumedAt.Some? || Before(dates, input.now, g.issuedAt)
      || (dates(input.now).Some? && dates(g.expiresAt).Some? && dates(input.now).value >= dates(g.expiresAt).value)
    case BootstrapConsumptionInconsistent =>
      || !IsConsistent(input.grantConsumption)
      || (input.grantConsumption.outcome.ExactDuplicate? && input.challengeConsumption.outcome.ExactDuplicate?
          && input.grantConsumption.storedOutcomeRef != input.challengeConsumption.storedOutcomeRef)
    case BootstrapConsumptionMisbound =>
      input.grant.Some? && FactDefect(input.grantConsumption, GrantReplayKey(input.grant.value), RequestFingerprint(r))
    case BootstrapGrantReused => input.grantConsumption.outcome.ReusedWithChangedSemantics?
    case RequestNotYetMade => Before(dates, input.now, r.requestedAt)
    case RequestExpired =>
      dates(input.now).Some? && dates(r.requestedAt).Some? && dates(input.now).value > dates(r.requestedAt).value + 900_000
    case RequestPrecedesGrant => input.grant.Some? && Before(dates, r.requestedAt, input.grant.value.issuedAt)
    case _ => false
  }

  /** What each refusal about the approval and the person says is wrong. */
  ghost predicate ApprovalDefect(dates: DateParse, input: Input, refusal: Refusal) {
    var r := input.request;
    match refusal
    case ApprovalMissing => input.approval.None?
    case ApprovalFingerprintMismatch =>
      input.approval.Some? && var a := input.approval.value;
      || a.enrollmentRequestId != r.enrollmentRequestId || a.enrollmentRequestFingerprint != RequestFingerprint(r)
      || a.organisationId != r.organisationId || a.siteId != r.siteId || a.custody != r.custody
    case ApprovalNotYetMade => input.approval.Some? && Before(dates, input.now, input.approval.value.approvedAt)
    case ApprovalPrecedesRequest => input.approval.Some? && Before(dates, input.approval.value.approvedAt, r.requestedAt)
    case UserNotAuthenticated => input.authenticatedUserId.None?
    case UserNotIntended => input.authenticatedUserId.Some? && input.authenticatedUserId.value != r.intendedUserId
    case _ => false
  }

  /** What each refusal about the challenge and the answer to it says is wrong. */
  ghost predicate PossessionDefect(dates: DateParse, input: Input, refusal: Refusal) {
    var r, fact := input.request, input.challengeConsumption;
    var answered := input.challenge.Some? && input.possessionVerification.Some?;
    match refusal
    case ChallengeMissing => input.challenge.None?
    case ChallengeMisbound => input.challenge.Some? && input.challenge.value.enrollmentRequestId != r.enrollmentRequestId
    case ChallengeConsumptionInconsistent => !IsConsistent(fact)
    case ChallengeConsumptionMisbound =>
      input.challenge.Some? && FactDefect(fact, ChallengeReplayKey(r, input.challenge.value), RequestFingerprint(r))
    case ChallengeReused => fact.outcome.ReusedWithChangedSemantics?
    case PossessionVerificationMissing => input.possessionVerification.None?
    case PossessionVerificationMisbound =>
      answered && var v := input.possessionVerification.value;
      || v.challengeId != input.challenge.value.challengeId || v.enrollmentRequestId != r.enrollmentRequestId
      || v.enrollmentRequestFingerprint != RequestFingerprint(r) || v.publicKeyThumbprint != r.publicKeyThumbprint
    case PossessionStatementMismatch =>
      answered && input.possessionVerification.value.possessionStatementFingerprint !=
                  PossessionStatement(r, input.challenge.value, RequestFingerprint(r), input.serverSelectedSignatureProfile)
    case PossessionProfileMismatch =>
      answered && input.possessionVerification.value.signatureProfile != input.serverSelectedSignatureProfile
    case ChallengeNotYetIssued =>
      input.challenge.Some?
      && (|| Before(dates, input.now, input.challenge.value.issuedAt)
          || (answered && Before(dates, input.possessionVerification.value.verifiedAt, input.challenge.value.issuedAt)))
    case ChallengePrecedesApproval =>
      input.challenge.Some? && input.approval.Some?
      && Before(dates, input.challenge.value.issuedAt, input.approval.value.approvedAt)
    case PossessionVerifiedInFuture => answered && Before(dates, input.now, input.possessionVerification.value.verifiedAt)
    case ChallengeExpired =>
      answered && dates(input.challenge.value.expiresAt).Some?
      && !Before(dates, input.possessionVerification.value.verifiedAt, input.challenge.value.expiresAt)
    case PossessionNotProven => answered && !input.possessionVerification.value.verified
    case _ => false
  }

  /** Some instant the ceremony needs cannot be read. */
  ghost predicate CannotBeRead(dates: DateParse, input: Input) {
    || dates(input.now).None? || dates(input.request.requestedAt).None?
    || (input.grant.Some? && (dates(input.grant.value.issuedAt).None? || dates(input.grant.value.expiresAt).None?))
    || (input.approval.Some? && dates(input.approval.value.approvedAt).None?)
    || (input.challenge.Some? && (dates(input.challenge.value.issuedAt).None? || dates(input.challenge.value.expiresAt).None?))
    || (input.possessionVerification.Some? && dates(input.possessionVerification.value.verifiedAt).None?)
  }

  ghost predicate Defect(dates: DateParse, input: Input, refusal: Refusal) {
    || GrantDefect(dates, input, refusal) || ApprovalDefect(dates, input, refusal) || PossessionDefect(dates, input, refusal)
    || (refusal.TimeNotAuthoritative? && CannotBeRead(dates, input))
  }

  lemma GrantDefects(dates: DateParse, input: Input)
    requires input.grant.Some?
    ensures var refusal := GrantRefusal(dates, input, input.grant.value, GrantReplayKey(input.grant.value), RequestFingerprint(input.request));
            refusal.Some? ==> Defect(dates, input, refusal.value)
  {
    hide RequestFingerprint, GrantReplayKey, IsConsistent, ApprovalDefect, PossessionDefect, Literal;
    var g := input.grant.value;
    var texts := [input.now, g.issuedAt, g.expiresAt];
    assert texts[0] == input.now && texts[1] == g.issuedAt && texts[2] == g.expiresAt;
  }

  lemma ChallengeDefects(dates: DateParse, input: Input, now: int, approved: int)
    requires input.challenge.Some? && input.approval.Some?
    requires dates(input.now) == Some(now) && dates(input.approval.value.approvedAt) == Some(approved)
    ensures var c := input.challenge.value;
            var fingerprint := RequestFingerprint(input.request);
            var d := PossessionDecision(dates, input, now, approved, c, ChallengeReplayKey(input.request, c), fingerprint,
                                        PossessionStatement(input.request, c, fingerprint, input.serverSelectedSignatureProfile));
            d.Refused? ==> Defect(dates, input, d.refusal)
  {
    hide RequestFingerprint, ChallengeReplayKey, PossessionStatement, IsConsistent, ApprovalDefect, Literal;
    if input.possessionVerification.Some? {
      var c, v := input.challenge.value, input.possessionVerification.value;
      var texts := [v.verifiedAt, c.issuedAt, c.expiresAt];
      assert texts[0] == v.verifiedAt && texts[1] == c.issuedAt && texts[2] == c.expiresAt;
    }
  }

  lemma ApprovalDefects(dates: DateParse, input: Input, now: int, requested: int)
    requires dates(input.now) == Some(now) && dates(input.request.requestedAt) == Some(requested)
    ensures var d := ApprovedDecision(dates, input, now, requested, RequestFingerprint(input.request));
            d.Refused? ==> Defect(dates, input, d.refusal)
  {
    hide RequestFingerprint, ChallengeReplayKey, PossessionStatement, IsConsistent, GrantDefect, PossessionDecision, Literal;
    if input.approval.Some? && input.challenge.Some? && dates(input.approval.value.approvedAt).Some? {
      ChallengeDefects(dates, input, now, dates(input.approval.value.approvedAt).value);
    }
  }

  /** A refusal is never given for a defect that is not there. */
  lemma RefusalsAreTrue(dates: DateParse, input: Input)
    ensures Evaluate(dates, input).Refused? ==> Defect(dates, input, Evaluate(dates, input).refusal)
  {
    hide RequestFingerprint, GrantReplayKey, IsConsistent, GrantRefusal, ApprovedDecision, ApprovalDefect, PossessionDefect, Literal;
    if input.grant.Some? {
      GrantDefects(dates, input);
      var texts := [input.now, input.request.requestedAt, input.grant.value.issuedAt];
      assert texts[0] == input.now && texts[1] == input.request.requestedAt && texts[2] == input.grant.value.issuedAt;
      if dates(input.now).Some? && dates(input.request.requestedAt).Some? {
        ApprovalDefects(dates, input, dates(input.now).value, dates(input.request.requestedAt).value);
      }
    }
  }

  ghost predicate InOrder(c: Chronology) {
    && c.granted <= c.requested <= c.approved <= c.challenged <= c.verified <= c.now < c.grantExpires
    && c.verified < c.challengeExpires
  }

  ghost predicate FactBound(fact: Consumption, replayKey: Text, fingerprint: Text) {
    && IsConsistent(fact) && fact.replayKey == replayKey && fact.statementFingerprint == fingerprint
    && !fact.outcome.ReusedWithChangedSemantics?
  }

  /** Every document of the ceremony is about this request, and every document is there. */
  ghost predicate Bound(input: Input, fingerprint: Text, statement: Text) {
    var request := input.request;
    && input.grant.Some? && input.approval.Some? && input.challenge.Some? && input.possessionVerification.Some?
    && request.claimedSignatureProfile == input.serverSelectedSignatureProfile == Literal(APPROVED_PROFILE)
    && var grant, approval, challenge, v :=
         input.grant.value, input.approval.value, input.challenge.value, input.possessionVerification.value;
    && grant.revokedAt.None? && grant.consumedAt.None? && grant.grantId == request.bootstrapGrantId
    && grant.organisationId == request.organisationId == approval.organisationId
    && grant.siteId == request.siteId == approval.siteId
    && input.authenticatedUserId == Some(request.intendedUserId) && grant.intendedUserId == request.intendedUserId
    && approval.custody == request.custody
    && approval.enrollmentRequestId == challenge.enrollmentRequestId == v.enrollmentRequestId == request.enrollmentRequestId
    && approval.enrollmentRequestFingerprint == v.enrollmentRequestFingerprint == fingerprint
    && v.challengeId == challenge.challengeId && v.publicKeyThumbprint == request.publicKeyThumbprint
    && v.possessionStatementFingerprint == statement && v.signatureProfile == input.serverSelectedSignatureProfile
    && v.verified
  }

  /** The whole ceremony: bound documents, both slots spent by nothing else, and the one order in time. */
  ghost predicate CeremonyHolds(dates: DateParse, input: Input) {
    var fingerprint := RequestFingerprint(input.request);
    && input.grant.Some? && input.challenge.Some?
    && Bound(input, fingerprint,
             PossessionStatement(input.request, input.challenge.value, fingerprint, input.serverSelectedSignatureProfile))
    && FactBound(input.grantConsumption, GrantReplayKey(input.grant.value), fingerprint)
    && FactBound(input.challengeConsumption, ChallengeReplayKey(input.request, input.challenge.value), fingerprint)
    && exists c :: Reads(dates, input, c) && InOrder(c) && c.now - c.requested <= REQUEST_MAX_AGE_MS
  }

  lemma ReadsThree(dates: DateParse, a: Text, b: Text, c: Text)
    ensures var r := Instants(dates, [a, b, c]);
            && (r.Some? <==> dates(a).Some? && dates(b).Some? && dates(c).Some?)
            && (r.Some? ==> |r.value| == 3 && dates(a) == Some(r.value[0]) && dates(b) == Some(r.value[1]) && dates(c) == Some(r.value[2]))
  {
    var texts := [a, b, c];
    assert texts[0] == a && texts[1] == b && texts[2] == c;
  }

  /** What must hold from the challenge on, with the earlier instants already read. */
  lemma PossessionExact(dates: DateParse, input: Input, now: int, approved: int, challenge: Challenge,
                        replayKey: Text, fingerprint: Text, statement: Text)
    ensures var d := PossessionDecision(dates, input, now, approved, challenge, replayKey, fingerprint, statement);
            var v := input.possessionVerification;
            var good := && ChallengeRefusal(input, challenge, replayKey, fingerprint).None?
                        && v.Some? && VerificationRefusal(input, challenge, v.value, fingerprint, statement).None?
                        && dates(v.value.verifiedAt).Some? && dates(challenge.issuedAt).Some? && dates(challenge.expiresAt).Some?
                        && approved <= dates(challenge.issuedAt).value <= dates(v.value.verifiedAt).value <= now
                        && dates(v.value.verifiedAt).value < dates(challenge.expiresAt).value && v.value.verified;
            && (!d.Refused? ==> good)
            && (good ==> d == EffectDecision(input.grantConsumption, input.challengeConsumption, fingerprint))
  {
    if input.possessionVerification.Some? {
      ReadsThree(dates, input.possessionVerification.value.verifiedAt, challenge.issuedAt, challenge.expiresAt);
    }
  }

  /** The last decision is reached exactly by a ceremony that holds. */
  lemma ReachesEffect(dates: DateParse, input: Input)
    ensures CeremonyHolds(dates, input) ==>
            Evaluate(dates, input) ==
            EffectDecision(input.grantConsumption, input.challengeConsumption, RequestFingerprint(input.request))
    ensures !Evaluate(dates, input).Refused? ==> CeremonyHolds(dates, input)
  {
    hide RequestFingerprint, GrantReplayKey, ChallengeReplayKey, PossessionStatement, EffectDecision, PossessionDecision,
         IsConsistent, Literal;
    if input.grant.Some? && input.approval.Some? && input.challenge.Some? {
      var grant, approval, challenge := input.grant.value, input.approval.value, input.challenge.value;
      var fingerprint := RequestFingerprint(input.request);
      ReadsThree(dates, input.now, grant.issuedAt, grant.expiresAt);
      ReadsThree(dates, input.now, input.request.requestedAt, grant.issuedAt);
      if dates(input.now).Some? && dates(approval.approvedAt).Some? {
        var now, approved := dates(input.now).value, dates(approval.approvedAt).value;
        PossessionExact(dates, input, now, approved, challenge, ChallengeReplayKey(input.request, challenge), fingerprint,
                        PossessionStatement(input.request, challenge, fingerprint, input.serverSelectedSignatureProfile));
        if !Evaluate(dates, input).Refused? {
          var v := input.possessionVerification.value;
          var c := Chronology(dates(grant.issuedAt).value, dates(input.request.requestedAt).value, approved,
                              dates(challenge.issuedAt).value, dates(v.verifiedAt).value, now,
                              dates(grant.expiresAt).value, dates(challenge.expiresAt).value);
          assert Reads(dates, input, c) && InOrder(c) && c.now - c.requested <= REQUEST_MAX_AGE_MS;
        }
      }
    }
  }

  /**
   A device is enrolled exactly when the ceremony holds and neither slot was spent;
   an exact retry converges when the slots that were spent name one outcome.
   */
  lemma DecisionExact(dates: DateParse, input: Input)
    ensures var d := Evaluate(dates, input);
            var g, c := input.grantConsumption, input.challengeConsumption;
            && (d.Commit? <==> CeremonyHolds(dates, input) && g.outcome.FirstSeen? && c.outcome.FirstSeen?)
            && (d.Converge? <==> && CeremonyHolds(dates, input)
                                 && (g.outcome.ExactDuplicate? || c.outcome.ExactDuplicate?)
                                 && (g.outcome.ExactDuplicate? && c.outcome.ExactDuplicate? ==> g.storedOutcomeRef == c.storedOutcomeRef))
            && (d.Converge? ==> && (g.outcome.ExactDuplicate? ==> g.storedOutcomeRef == Some(d.storedOutcomeRef))
                                && (c.outcome.ExactDuplicate? ==> c.storedOutcomeRef == Some(d.storedOutcomeRef)))
            && (!d.Refused? ==> d.fingerprint == RequestFingerprint(input.request)
                                && !g.outcome.ReusedWithChangedSemantics? && !c.outcome.ReusedWithChangedSemantics?)
  {
    hide Evaluate, CeremonyHolds, RequestFingerprint;
    ReachesEffect(dates, input);
    FactsOfCeremony(dates, input);
  }

  lemma FactsOfCeremony(dates: DateParse, input: Input)
    ensures CeremonyHolds(dates, input) ==>
            && IsConsistent(input.grantConsumption) && !input.grantConsumption.outcome.ReusedWithChangedSemantics?
            && IsConsistent(input.challengeConsumption) && !input.challengeConsumption.outcome.ReusedWithChangedSemantics?
  {
    hide RequestFingerprint, GrantReplayKey, ChallengeReplayKey, PossessionStatement;
  }

  /** A ceremony that once enrolled a device converges when it comes again with every other fact unchanged. */
  lemma RetryConverges(dates: DateParse, input: Input, grantAgain: Consumption, challengeAgain: Consumption)
    requires Evaluate(dates, input).Commit?
    requires IsConsistent(grantAgain) && grantAgain.outcome.ExactDuplicate?
    requires IsConsistent(challengeAgain) && challengeAgain.outcome.ExactDuplicate?
    requires grantAgain.replayKey == input.grantConsumption.replayKey
    requires grantAgain.statementFingerprint == input.grantConsumption.statementFingerprint
    requires challengeAgain.replayKey == input.challengeConsumption.replayKey
    requires challengeAgain.statementFingerprint == input.challengeConsumption.statementFingerprint
    requires grantAgain.storedOutcomeRef == challengeAgain.storedOutcomeRef
    ensures var d := Evaluate(dates, input.(grantConsumption := grantAgain, challengeConsumption := challengeAgain));
            d.Converge? && Some(d.storedOutcomeRef) == grantAgain.storedOutcomeRef
  {
    hide Evaluate, RequestFingerprint, GrantReplayKey, ChallengeReplayKey, PossessionStatement, IsConsistent, Literal;
    var again := input.(grantConsumption := grantAgain, challengeConsumption := challengeAgain);
    DecisionExact(dates, input);
    DecisionExact(dates, again);
    var c :| Reads(dates, input, c) && InOrder(c) && c.now - c.requested <= REQUEST_MAX_AGE_MS;
    assert Reads(dates, again, c);
  }

  /** With a schema-valid grant the whole ceremony fits one window shorter than ten minutes, in one order. */
  lemma CommitChronology(dates: DateParse, input: Input)
    requires !Evaluate(dates, input).Refused?
    requires ValidWindow(dates, input.grant.value.issuedAt, input.grant.value.expiresAt, GRANT_MAX_AGE_MS)
    ensures exists c :: Reads(dates, input, c) && InOrder(c) && c.now - c.granted < 600_000
  {
    hide Evaluate, RequestFingerprint, GrantReplayKey, ChallengeReplayKey, PossessionStatement;
    ReachesEffect(dates, input);
    var c :| Reads(dates, input, c) && InOrder(c) && c.now - c.requested <= REQUEST_MAX_AGE_MS;
    var texts := [input.grant.value.issuedAt, input.grant.value.expiresAt];
    assert texts[0] == input.grant.value.issuedAt && texts[1] == input.grant.value.expiresAt;
    assert c.grantExpires - c.granted <= 600_000;
  }

  /**
   The fifteen-minute request limit bites only on a request made more than five
   minutes before the grant that is supposed to authorise it.
   */
  lemma ExpiredRequestPredatesGrant(dates: DateParse, input: Input)
    requires Evaluate(dates, input) == Refused(RequestExpired)
    requires input.grant.Some?
    requires ValidWindow(dates, input.grant.value.issuedAt, input.grant.value.expiresAt, GRANT_MAX_AGE_MS)
    ensures dates(input.request.requestedAt).Some? && dates(input.grant.value.issuedAt).Some?
    ensures dates(input.request.requestedAt).value < dates(input.grant.value.issuedAt).value - 300_000
  {
    hide RequestFingerprint, GrantReplayKey, ChallengeReplayKey, PossessionStatement, IsConsistent, Literal, EffectDecision;
    var grant := input.grant.value;
    ReadsThree(dates, input.now, grant.issuedAt, grant.expiresAt);
    ReadsThree(dates, input.now, input.request.requestedAt, grant.issuedAt);
    var texts := [grant.issuedAt, grant.expiresAt];
    assert texts[0] == grant.issuedAt && texts[1] == grant.expiresAt;
    NothingLaterExpires(dates, input, RequestFingerprint(input.request));
  }

  lemma NothingLaterExpires(dates: DateParse, input: Input, fingerprint: Text)
    ensures forall now, requested :: ApprovedDecision(dates, input, now, requested, fingerprint) != Refused(RequestExpired)
  {
    hide RequestFingerprint, ChallengeReplayKey, PossessionStatement, IsConsistent, Literal;
  }
}
