/** The second version of the covert device action: the one evaluator that never converges on a duplicate. */
module WhisperAction {
  import opened JsText
  import opened JsonValue
  import opened Options
  import opened DeviceTime
  import opened DeviceRegistry
  import opened FieldNames
  import opened SignedRecord
  import opened OneShot
  import RequestProof

  const MAX_RECOGNITION_AGE_MS := 120_000
  const MAX_RECOGNITION_FUTURE_SKEW_MS := 5_000

  /** `confidence` stands for the signed figure as a whole number in a fixed unit. */
  datatype Submission = Submission(
    contextId: Text,
    organisationId: Text,
    siteId: Text,
    actorUserId: Text,
    deviceId: Text,
    keyId: Text,
    keyVersion: SafeInt,
    whisperSignalId: Text,
    whisperSignalVersion: SafeInt,
    deviceActionId: Text,
    recognisedAt: Text,
    confidence: SafeInt,
    antiReplayNonce: Text)

  datatype Registered = Registered(
    organisationId: Text,
    deviceId: Text,
    keyId: Text,
    keyVersion: SafeInt,
    signatureProfile: Text,
    keyState: KeyState,
    deviceRevoked: bool,
    keyRevoked: bool,
    trust: Trust)

  datatype Input = Input(
    context: RequestProof.Context,
    submission: Submission,
    now: Text,
    registered: Registered,
    verified: bool,
    consumption: Consumption)

  datatype Refusal =
    | TimeNotAuthoritative
    | ContextNotYetValid
    | ContextExpired
    | ContextOrganisationMismatch
    | ContextActorMismatch
    | ContextDeviceMismatch
    | ContextIdentityMismatch
    | ContextSiteNotAuthorised
    | ContextKeyMismatch
    | RegistryIdentityMismatch
    | KeyVersionRotated
    | DeviceRevoked
    | KeyRevoked
    | KeyStateNotOperational
    | SignatureProfileNotSupported
    | DeviceTrustNotPermitted
    | RecognitionFutureSkew
    | RecognitionStale
    | NonceConsumptionInconsistent
    | NonceConsumptionMisbound
    | ReplayIdentityReused
    | SignatureInvalid
    | ReplayIdentityAlreadySpent

  datatype Decision = Proceed(fingerprint: Text, replayKey: Text) | Refused(refusal: Refusal)

  // ----- what the device signs -----

  function StatementFields(s: Submission, profile: Text): (fields: seq<Field>)
    ensures |fields| == 17
  {
    [ Field(Name.Domain, Tag(WhisperActionStatement)),
      Field(Name.SchemaVersion, Num(2)),
      Field(Name.ContextId, Str(s.contextId)),
      Field(Name.OrganisationId, Str(s.organisationId)),
      Field(Name.SiteId, Str(s.siteId)),
      Field(Name.ActorUserId, Str(s.actorUserId)),
      Field(Name.DeviceId, Str(s.deviceId)),
      Field(Name.KeyId, Str(s.keyId)),
      Field(Name.KeyVersion, Num(s.keyVersion)),
      Field(Name.WhisperSignalId, Str(s.whisperSignalId)),
      Field(Name.WhisperSignalVersion, Num(s.whisperSignalVersion)),
      Field(Name.Modality, Str(Literal("DEVICE_ACTION"))),
      Field(Name.DeviceActionId, Str(s.deviceActionId)),
      Field(Name.RecognisedAt, Str(s.recognisedAt)),
      Field(Name.Confidence, Num(s.confidence)),
      Field(Name.AntiReplayNonce, Str(s.antiReplayNonce)),
      Field(Name.SignatureProfile, Str(profile))
    ]
  }

  function Fingerprint(s: Submission, profile: Text): Text {
    RecordText(StatementFields(s, profile))
  }

  function ReplayFields(s: Submission): (fields: seq<Field>)
    ensures |fields| == 9
  {
    [ Field(Name.Domain, Tag(WhisperActionSlot)),
      Field(Name.OrganisationId, Str(s.organisationId)),
      Field(Name.SiteId, Str(s.siteId)),
      Field(Name.ActorUserId, Str(s.actorUserId)),
      Field(Name.DeviceId, Str(s.deviceId)),
      Field(Name.KeyVersion, Num(s.keyVersion)),
      Field(Name.WhisperSignalId, Str(s.whisperSignalId)),
      Field(Name.WhisperSignalVersion, Num(s.whisperSignalVersion)),
      Field(Name.AntiReplayNonce, Str(s.antiReplayNonce))
    ]
  }

  function ReplayKey(s: Submission): Text {
    RecordText(ReplayFields(s))
  }

  lemma FieldsProper(s: Submission, profile: Text)
    ensures DistinctNames(StatementFields(s, profile)) && AllLeaves(StatementFields(s, profile))
    ensures DistinctNames(ReplayFields(s)) && AllLeaves(ReplayFields(s))
  {
    hide Literal, TagSpelling;
  }

  /** One signature covers one recognition, its confidence included. */
  lemma StatementInjective(s: Submission, profile: Text, u: Submission, other: Text)
    ensures Fingerprint(s, profile) == Fingerprint(u, other) <==> s == u && profile == other
  {
    hide RecordText, Literal, TagSpelling;
    FieldsProper(s, profile);
    FieldsProper(u, other);
    var a, b := StatementFields(s, profile), StatementFields(u, other);
    TextDecidesLeaves(a, b);
    if a == b {
      assert a[2] == b[2] && a[3] == b[3] && a[4] == b[4] && a[5] == b[5] && a[6] == b[6] && a[7] == b[7] && a[8] == b[8];
      assert a[9] == b[9] && a[10] == b[10] && a[12] == b[12] && a[13] == b[13] && a[14] == b[14] && a[15] == b[15];
      assert a[16] == b[16];
    }
  }

  /** What the device signs, read back: which value stands under which name. */
  lemma StatementSays(s: Submission, profile: Text)
    ensures var text := Fingerprint(s, profile);
            && ReadsAsObject(text, 17)
            && Says(text, Name.Domain, Tag(WhisperActionStatement)) && Says(text, Name.SchemaVersion, Num(2))
            && Says(text, Name.ContextId, Str(s.contextId)) && Says(text, Name.OrganisationId, Str(s.organisationId))
            && Says(text, Name.SiteId, Str(s.siteId)) && Says(text, Name.ActorUserId, Str(s.actorUserId))
            && Says(text, Name.DeviceId, Str(s.deviceId)) && Says(text, Name.KeyId, Str(s.keyId))
            && Says(text, Name.KeyVersion, Num(s.keyVersion)) && Says(text, Name.WhisperSignalId, Str(s.whisperSignalId))
            && Says(text, Name.WhisperSignalVersion, Num(s.whisperSignalVersion))
            && Says(text, Name.Modality, Str(Literal("DEVICE_ACTION")))
            && Says(text, Name.DeviceActionId, Str(s.deviceActionId)) && Says(text, Name.RecognisedAt, Str(s.recognisedAt))
            && Says(text, Name.Confidence, Num(s.confidence)) && Says(text, Name.AntiReplayNonce, Str(s.antiReplayNonce))
            && Says(text, Name.SignatureProfile, Str(profile))
  {
    hide RecordText, Says, ReadsAsObject, Literal, TagSpelling, Tag, DistinctNames, AllLeaves;
    var fields := StatementFields(s, profile);
    FieldsProper(s, profile);
    RecordSays(fields);
    assert fields[0].name.Domain? && fields[1].name.SchemaVersion?;
    assert fields[2].name.ContextId? && fields[3].name.OrganisationId?;
    assert fields[4].name.SiteId? && fields[5].name.ActorUserId? && fields[6].name.DeviceId? && fields[7].name.KeyId?;
    assert fields[8].name.KeyVersion? && fields[9].name.WhisperSignalId?;
    assert fields[10].name.WhisperSignalVersion? && fields[11].name.Modality?;
    assert fields[12].name.DeviceActionId? && fields[13].name.RecognisedAt?;
    assert fields[14].name.Confidence? && fields[15].name.AntiReplayNonce?;
    assert fields[16].name.SignatureProfile?;
  }

  /** An action's slot is its eight identity columns. */
  lemma ReplayKeyInjective(s: Submission, u: Submission)
    ensures ReplayKey(s) == ReplayKey(u) <==>
            && s.organisationId == u.organisationId && s.siteId == u.siteId && s.actorUserId == u.actorUserId
            && s.deviceId == u.deviceId && s.keyVersion == u.keyVersion && s.whisperSignalId == u.whisperSignalId
            && s.whisperSignalVersion == u.whisperSignalVersion && s.antiReplayNonce == u.antiReplayNonce
  {
    hide RecordText, Literal, TagSpelling;
    FieldsProper(s, []);
    FieldsProper(u, []);
    var a, b := ReplayFields(s), ReplayFields(u);
    TextDecidesLeaves(a, b);
    if a == b {
      assert a[1] == b[1] && a[2] == b[2] && a[3] == b[3] && a[4] == b[4] && a[5] == b[5] && a[6] == b[6];
      assert a[7] == b[7] && a[8] == b[8];
    }
  }

  // ----- the evaluation -----

  function IdentityRefusal(input: Input): Option<Refusal> {
    var context, s, registered := input.context, input.submission, input.registered;
    if s.organisationId != context.organisationId then Some(ContextOrganisationMismatch)
    else if s.actorUserId != context.actorUserId then Some(ContextActorMismatch)
    else if s.deviceId != context.deviceId then Some(ContextDeviceMismatch)
    else if s.contextId != context.contextId then Some(ContextIdentityMismatch)
    else if s.siteId !in context.authorisedSiteIds then Some(ContextSiteNotAuthorised)
    else if s.keyId != context.keyId || s.keyVersion != context.keyVersion then Some(ContextKeyMismatch)
    else if registered.organisationId != context.organisationId || registered.deviceId != context.deviceId
    then Some(RegistryIdentityMismatch)
    else if registered.keyId != s.keyId then Some(ContextKeyMismatch)
    else if registered.keyVersion != s.keyVersion then Some(KeyVersionRotated)
    else if registered.deviceRevoked then Some(DeviceRevoked)
    else if registered.keyRevoked then Some(KeyRevoked)
    else if !PermitsNewOperations(registered.keyState) then Some(KeyStateNotOperational)
    else if registered.signatureProfile != Literal(APPROVED_PROFILE) then Some(SignatureProfileNotSupported)
    else if registered.trust !in PermittedTrust(WhisperDeviceAction) then Some(DeviceTrustNotPermitted)
    else None
  }

  function OneShotDecision(input: Input, replayKey: Text, fingerprint: Text): Decision {
    var fact := input.consumption;
    if !IsConsistent(fact) then Refused(NonceConsumptionInconsistent)
    else if fact.replayKey != replayKey || fact.statementFingerprint != fingerprint then Refused(NonceConsumptionMisbound)
    else if fact.outcome.ReusedWithChangedSemantics? then Refused(ReplayIdentityReused)
    else if !input.verified then Refused(SignatureInvalid)
    else if fact.outcome.ExactDuplicate? then Refused(ReplayIdentityAlreadySpent)
    else Proceed(fingerprint, replayKey)
  }

  function EvaluateWith(dates: DateParse, input: Input, replayKey: Text, fingerprint: Text): Decision {
    match Instants(dates, [input.now, input.context.issuedAt, input.context.expiresAt, input.submission.recognisedAt])
    case None => Refused(TimeNotAuthoritative)
    case Some(instants) =>
      var now, contextIssued, contextExpires, recognised := instants[0], instants[1], instants[2], instants[3];
      if now < contextIssued then Refused(ContextNotYetValid)
      else if IsExpiredAt(now, contextExpires) then Refused(ContextExpired)
      else
        var refusal := IdentityRefusal(input);
        if refusal.Some? then Refused(refusal.value)
        else if now - recognised < -MAX_RECOGNITION_FUTURE_SKEW_MS then Refused(RecognitionFutureSkew)
        else if now - recognised > MAX_RECOGNITION_AGE_MS then Refused(RecognitionStale)
        else OneShotDecision(input, replayKey, fingerprint)
  }

  function Evaluate(dates: DateParse, input: Input): Decision {
    EvaluateWith(dates, input, ReplayKey(input.submission), Fingerprint(input.submission, input.registered.signatureProfile))
  }

  // ----- what an admission means -----

  /** Fresh, bound to one identity, from a key in force on a trusted device, under the one supported profile. */
  ghost predicate Authentic(dates: DateParse, input: Input) {
    var context, s, registered := input.context, input.submission, input.registered;
    var now, issued, expires, recognised :=
      dates(input.now), dates(context.issuedAt), dates(context.expiresAt), dates(s.recognisedAt);
    && now.Some? && issued.Some? && expires.Some? && recognised.Some?
    && issued.value <= now.value < expires.value
    && recognised.value - 5_000 <= now.value <= recognised.value + 120_000
    && s.organisationId == context.organisationId == registered.organisationId
    && s.actorUserId == context.actorUserId && s.deviceId == context.deviceId == registered.deviceId
    && s.contextId == context.contextId && s.siteId in context.authorisedSiteIds
    && s.keyId == context.keyId == registered.keyId && s.keyVersion == context.keyVersion == registered.keyVersion
    && !registered.deviceRevoked && !registered.keyRevoked && registered.keyState.Current?
    && registered.signatureProfile == Literal(APPROVED_PROFILE) && registered.trust.Trusted?
  }

  /** What each refusal says is wrong. */
  ghost predicate Defect(dates: DateParse, input: Input, replayKey: Text, fingerprint: Text, refusal: Refusal) {
    var context, s, registered := input.context, input.submission, input.registered;
    var now, issued, expires, recognised :=
      dates(input.now), dates(context.issuedAt), dates(context.expiresAt), dates(s.recognisedAt);
    match refusal
    case TimeNotAuthoritative => now.None? || issued.None? || expires.None? || recognised.None?
    case ContextNotYetValid => now.Some? && issued.Some? && now.value < issued.value
    case ContextExpired => now.Some? && expires.Some? && now.value >= expires.value
    case ContextOrganisationMismatch => s.organisationId != context.organisationId
    case ContextActorMismatch => s.actorUserId != context.actorUserId
    case ContextDeviceMismatch => s.deviceId != context.deviceId
    case ContextIdentityMismatch => s.contextId != context.contextId
    case ContextSiteNotAuthorised => s.siteId !in context.authorisedSiteIds
    case ContextKeyMismatch => s.keyId != context.keyId || s.keyVersion != context.keyVersion || registered.keyId != s.keyId
    case RegistryIdentityMismatch =>
      registered.organisationId != context.organisationId || registered.deviceId != context.deviceId
    case KeyVersionRotated => registered.keyVersion != s.keyVersion
    case DeviceRevoked => registered.deviceRevoked
    case KeyRevoked => registered.keyRevoked
    case KeyStateNotOperational => registered.keyState != Current
    case SignatureProfileNotSupported => registered.signatureProfile != Literal(APPROVED_PROFILE)
    case DeviceTrustNotPermitted => registered.trust != Trusted
    case RecognitionFutureSkew => now.Some? && recognised.Some? && recognised.value > now.value + 5_000
    case RecognitionStale => now.Some? && recognised.Some? && now.value > recognised.value + 120_000
    case NonceConsumptionInconsistent => !IsConsistent(input.consumption)
    case NonceConsumptionMisbound =>
      input.consumption.replayKey != replayKey || input.consumption.statementFingerprint != fingerprint
    case ReplayIdentityReused => input.consumption.outcome.ReusedWithChangedSemantics?
    case SignatureInvalid => !input.verified
    case ReplayIdentityAlreadySpent => input.consumption.outcome.ExactDuplicate?
  }

  lemma IdentityDefects(dates: DateParse, input: Input, replayKey: Text, fingerprint: Text)
    ensures IdentityRefusal(input).Some? ==> Defect(dates, input, replayKey, fingerprint, IdentityRefusal(input).value)
    ensures OneShotDecision(input, replayKey, fingerprint).Refused? ==>
              Defect(dates, input, replayKey, fingerprint, OneShotDecision(input, replayKey, fingerprint).refusal)
  {
    hide IsConsistent, Literal;
  }

  /** A refusal is never given for a defect that is not there. */
  lemma RefusalsAreTrue(dates: DateParse, input: Input, replayKey: Text, fingerprint: Text)
    ensures var d := EvaluateWith(dates, input, replayKey, fingerprint);
            d.Refused? ==> Defect(dates, input, replayKey, fingerprint, d.refusal)
  {
    hide IsConsistent, Literal, IdentityRefusal, OneShotDecision;
    IdentityDefects(dates, input, replayKey, fingerprint);
    var texts := [input.now, input.context.issuedAt, input.context.expiresAt, input.submission.recognisedAt];
    assert texts[0] == input.now && texts[1] == input.context.issuedAt;
    assert texts[2] == input.context.expiresAt && texts[3] == input.submission.recognisedAt;
  }

  ghost predicate FactBound(fact: Consumption, replayKey: Text, fingerprint: Text) {
    IsConsistent(fact) && fact.replayKey == replayKey && fact.statementFingerprint == fingerprint
  }

  /**
   An action proceeds exactly when it is authentic, possession is proven and its
   slot is new. That a slot was spent on these very bytes is told to a holder of the
   key only.
   */
  lemma DecisionExact(dates: DateParse, input: Input, replayKey: Text, fingerprint: Text)
    ensures var d := EvaluateWith(dates, input, replayKey, fingerprint);
            var good := Authentic(dates, input) && FactBound(input.consumption, replayKey, fingerprint);
            && (d == Proceed(fingerprint, replayKey) <==> good && input.verified && input.consumption.outcome.FirstSeen?)
            && (d.Proceed? ==> d == Proceed(fingerprint, replayKey))
            && (d == Refused(ReplayIdentityAlreadySpent) <==> good && input.verified && input.consumption.outcome.ExactDuplicate?)
            && (d == Refused(SignatureInvalid) <==>
                good && !input.verified && !input.consumption.outcome.ReusedWithChangedSemantics?)
  {
    hide Literal, IsConsistent;
    var texts := [input.now, input.context.issuedAt, input.context.expiresAt, input.submission.recognisedAt];
    assert texts[0] == input.now && texts[1] == input.context.issuedAt;
    assert texts[2] == input.context.expiresAt && texts[3] == input.submission.recognisedAt;
    IdentityNeverSpent(input);
  }

  /** A spent action presented again by the holder of the key is refused, never confirmed as a success. */
  lemma RetryIsRefused(dates: DateParse, input: Input, again: Consumption, replayKey: Text, fingerprint: Text)
    requires EvaluateWith(dates, input, replayKey, fingerprint).Proceed?
    requires IsConsistent(again) && again.outcome.ExactDuplicate?
    requires again.replayKey == input.consumption.replayKey && again.statementFingerprint == input.consumption.statementFingerprint
    ensures EvaluateWith(dates, input.(consumption := again), replayKey, fingerprint) == Refused(ReplayIdentityAlreadySpent)
  {
    hide EvaluateWith, IsConsistent, Literal;
    DecisionExact(dates, input, replayKey, fingerprint);
    DecisionExact(dates, input.(consumption := again), replayKey, fingerprint);
  }

  lemma IdentityNeverSpent(input: Input)
    ensures IdentityRefusal(input) != Some(ReplayIdentityAlreadySpent) && IdentityRefusal(input) != Some(SignatureInvalid)
  {
    hide Literal;
  }

  /**
   What a caller without the key can learn about a slot. The answer on a spent slot
   differs from the answer on an empty one exactly when everything but possession
   holds and the slot was spent on other bytes than the caller's, or holds a blank
   reference: both are answered before possession is asked for.
   */
  lemma KeylessAnswerDependsOnSlotExactlyWhen(dates: DateParse, input: Input, row: Row)
    requires !input.verified
    ensures var key, bytes := ReplayKey(input.submission), Fingerprint(input.submission, input.registered.signatureProfile);
            Evaluate(dates, input.(consumption := Classify(key, bytes, None))) !=
            Evaluate(dates, input.(consumption := Classify(key, bytes, Some(row)))) <==>
            Authentic(dates, input) && (row.statementFingerprint != bytes || IsBlank(row.storedOutcomeRef))
  {
    hide Fingerprint, ReplayKey, Authentic, Literal;
    ReplayKeyNotEmpty(input.submission);
    FingerprintNotEmpty(input.submission, input.registered.signatureProfile);
    KeylessAnswers(dates, input, row, ReplayKey(input.submission), Fingerprint(input.submission, input.registered.signatureProfile));
  }

  lemma KeylessAnswers(dates: DateParse, input: Input, row: Row, key: Text, bytes: Text)
    requires !input.verified && key != [] && bytes != []
    ensures var empty := EvaluateWith(dates, input.(consumption := Classify(key, bytes, None)), key, bytes);
            var spent := EvaluateWith(dates, input.(consumption := Classify(key, bytes, Some(row))), key, bytes);
            && (Authentic(dates, input) ==> empty == Refused(SignatureInvalid))
            && (Authentic(dates, input) && row.statementFingerprint != bytes ==> spent == Refused(ReplayIdentityReused))
            && (Authentic(dates, input) && row.statementFingerprint == bytes ==>
                spent == Refused(if IsBlank(row.storedOutcomeRef) then NonceConsumptionInconsistent else SignatureInvalid))
            && (!Authentic(dates, input) ==> spent == empty)
  {
    hide Literal, IsConsistent, Classify;
    HonestReports(key, bytes, None);
    HonestReports(key, bytes, Some(row));
    ReportBinding(key, bytes, None);
    ReportBinding(key, bytes, Some(row));
    var texts := [input.now, input.context.issuedAt, input.context.expiresAt, input.submission.recognisedAt];
    assert texts[0] == input.now && texts[1] == input.context.issuedAt;
    assert texts[2] == input.context.expiresAt && texts[3] == input.submission.recognisedAt;
  }

  lemma ReportBinding(key: Text, bytes: Text, stored: Option<Row>)
    ensures var fact := Classify(key, bytes, stored);
            && fact.replayKey == key && fact.statementFingerprint == bytes
            && (fact.outcome.ReusedWithChangedSemantics? <==> stored.Some? && stored.value.statementFingerprint != bytes)
  {
  }

  /**
   A case of it: an action sent again under another action id, without the key, keeps
   its slot and changes its bytes, and the answer tells whether the original was
   received.
   */
  lemma ChangedActionIsToldApart(dates: DateParse, input: Input, deviceActionId: Text, storedOutcomeRef: Text)
    requires Authentic(dates, input) && !input.verified && deviceActionId != input.submission.deviceActionId
    ensures var profile := input.registered.signatureProfile;
            var changed := input.(submission := input.submission.(deviceActionId := deviceActionId));
            var key, bytes := ReplayKey(changed.submission), Fingerprint(changed.submission, profile);
            var original := Row(Fingerprint(input.submission, profile), storedOutcomeRef);
            && key == ReplayKey(input.submission)
            && Evaluate(dates, changed.(consumption := Classify(key, bytes, None))) == Refused(SignatureInvalid)
            && Evaluate(dates, changed.(consumption := Classify(key, bytes, Some(original)))) == Refused(ReplayIdentityReused)
  {
    hide Fingerprint, Literal, Classify, EvaluateWith;
    var profile := input.registered.signatureProfile;
    var changed := input.(submission := input.submission.(deviceActionId := deviceActionId));
    StatementInjective(input.submission, profile, changed.submission, profile);
    ReplayKeyInjective(input.submission, changed.submission);
    ReplayKeyNotEmpty(changed.submission);
    FingerprintNotEmpty(changed.submission, profile);
    KeylessAnswers(dates, changed, Row(Fingerprint(input.submission, profile), storedOutcomeRef),
                   ReplayKey(changed.submission), Fingerprint(changed.submission, profile));
  }

  /** One such input: every identifier the same letter, the clocks a second apart. */
  function ReadByLength(text: Text): Option<int> {
    Some(1000 * |text|)
  }

  function PlainInput(): Input {
    var id: Text := [0x61];
    Input(RequestProof.Context(id, id, id, id, [id], Trusted, id, 1, [], [0x30, 0x30]),
          Submission(id, id, id, id, id, id, 1, id, 1, id, [0x30], 1, id),
          [0x30],
          Registered(id, id, id, 1, Literal(APPROVED_PROFILE), Current, false, false, Trusted),
          false,
          Classify([], [], None))
  }

  lemma SomeAnswerDependsOnSlot()
    ensures Authentic(ReadByLength, PlainInput()) && !PlainInput().verified
    ensures exists input: Input, row: Row :: && !input.verified
              && Evaluate(ReadByLength, input.(consumption := ReportOn(input, None))) !=
                 Evaluate(ReadByLength, input.(consumption := ReportOn(input, Some(row))))
  {
    hide Literal, Fingerprint, ReplayKey, Evaluate, Classify;
    var input := PlainInput();
    var changed := input.(submission := input.submission.(deviceActionId := [0x62]));
    var row := Row(Fingerprint(input.submission, input.registered.signatureProfile), []);
    ChangedActionIsToldApart(ReadByLength, input, [0x62], []);
    assert Evaluate(ReadByLength, changed.(consumption := ReportOn(changed, None))) !=
           Evaluate(ReadByLength, changed.(consumption := ReportOn(changed, Some(row))));
  }

  /** What the classifier reports on a submission's own slot. */
  function ReportOn(input: Input, stored: Option<Row>): Consumption {
    Classify(ReplayKey(input.submission), Fingerprint(input.submission, input.registered.signatureProfile), stored)
  }

  lemma FingerprintNotEmpty(s: Submission, profile: Text)
    ensures Fingerprint(s, profile) != []
  {
    hide RecordText, Literal, StatementFields;
    FieldsProper(s, profile);
    LeavesWellFormed(StatementFields(s, profile));
    RecordTextIsCanonical(StatementFields(s, profile));
  }

  lemma ReplayKeyNotEmpty(s: Submission)
    ensures ReplayKey(s) != []
  {
    hide RecordText, Literal, ReplayFields;
    FieldsProper(s, []);
    LeavesWellFormed(ReplayFields(s));
    RecordTextIsCanonical(ReplayFields(s));
  }
}
