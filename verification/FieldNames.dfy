/** The field names and the domain tags of every signed record and every one-shot slot, spelled once. */
module FieldNames {
  datatype Name =
    | Nonce
    | Domain
    | KeyId
    | Custody
    | Outcome
    | Payload
    | Purpose
    | SiteId
    | UserId
    | GrantId
    | Modality
    | DeviceId
    | IssuedAt
    | Namespace
    | Confidence
    | ContextId
    | CreatedAt
    | PublicKey
    | Attestation
    | KeyStorage
    | KeyVersion
    | ChallengeId
    | EvaluatedAt
    | RequestedAt
    | ActorUserId
    | RecognisedAt
    | CurrentKeyId
    | NewPublicKey
    | OperationKind
    | PayloadDigest
    | SchemaVersion
    | DeviceSequence
    | IdempotencyKey
    | NewKeyStorage
    | OrganisationId
    | PolicyLeaseId
    | ProposedKeyId
    | DeviceActionId
    | IntendedUserId
    | AntiReplayNonce
    | SignatureProfile
    | WhisperSignalId
    | BootstrapGrantId
    | RecipientUserIds
    | CurrentKeyVersion
    | RotationRequestId
    | OfflineOperationId
    | ProposedKeyVersion
    | AttestationReference
    | EnrollmentRequestId
    | PublicKeyThumbprint
    | RotationChallengeId
    | WhisperSignalVersion
    | ClaimedSignatureProfile
    | NewPublicKeyThumbprint
    | RotationRequestFingerprint
    | EnrollmentRequestFingerprint
    | ServerResolvedSignatureProfile

  // The spellings, in four groups by length.

  predicate IsShort(name: Name) {
    || name.Nonce? || name.Domain? || name.KeyId? || name.Custody? || name.Outcome? || name.Payload?
    || name.Purpose? || name.SiteId? || name.UserId? || name.GrantId? || name.Modality? || name.DeviceId?
    || name.IssuedAt? || name.Namespace?
  }

  predicate IsMiddle(name: Name) {
    || name.Confidence? || name.ContextId? || name.CreatedAt? || name.PublicKey? || name.Attestation?
    || name.KeyStorage? || name.KeyVersion? || name.ChallengeId? || name.EvaluatedAt? || name.RequestedAt?
    || name.ActorUserId? || name.RecognisedAt?
  }

  predicate IsLong(name: Name) {
    || name.CurrentKeyId? || name.NewPublicKey? || name.OperationKind? || name.PayloadDigest?
    || name.SchemaVersion? || name.DeviceSequence? || name.IdempotencyKey? || name.NewKeyStorage?
    || name.OrganisationId? || name.PolicyLeaseId? || name.ProposedKeyId? || name.DeviceActionId?
    || name.IntendedUserId? || name.AntiReplayNonce? || name.SignatureProfile? || name.WhisperSignalId?
  }

  function ShortSpelling(name: Name): string {
    match name
    case Nonce => "nonce"
    case Domain => "domain"
    case KeyId => "key_id"
    case Custody => "custody"
    case Outcome => "outcome"
    case Payload => "payload"
    case Purpose => "purpose"
    case SiteId => "site_id"
    case UserId => "user_id"
    case GrantId => "grant_id"
    case Modality => "modality"
    case DeviceId => "device_id"
    case IssuedAt => "issued_at"
    case Namespace => "namespace"
    case _ => ""
  }

  function MiddleSpelling(name: Name): string {
    match name
    case Confidence => "confidence"
    case ContextId => "context_id"
    case CreatedAt => "created_at"
    case PublicKey => "public_key"
    case Attestation => "attestation"
    case KeyStorage => "key_storage"
    case KeyVersion => "key_version"
    case ChallengeId => "challenge_id"
    case EvaluatedAt => "evaluated_at"
    case RequestedAt => "requested_at"
    case ActorUserId => "actor_user_id"
    case RecognisedAt => "recognised_at"
    case _ => ""
  }

  function LongSpelling(name: Name): string {
    match name
    case CurrentKeyId => "current_key_id"
    case NewPublicKey => "new_public_key"
    case OperationKind => "operation_kind"
    case PayloadDigest => "payload_digest"
    case SchemaVersion => "schema_version"
    case DeviceSequence => "device_sequence"
    case IdempotencyKey => "idempotency_key"
    case NewKeyStorage => "new_key_storage"
    case OrganisationId => "organisation_id"
    case PolicyLeaseId => "policy_lease_id"
    case ProposedKeyId => "proposed_key_id"
    case DeviceActionId => "device_action_id"
    case IntendedUserId => "intended_user_id"
    case AntiReplayNonce => "anti_replay_nonce"
    case SignatureProfile => "signature_profile"
    case WhisperSignalId => "whisper_signal_id"
    case _ => ""
  }

  function LongestSpelling(name: Name): string {
    match name
    case BootstrapGrantId => "bootstrap_grant_id"
    case RecipientUserIds => "recipient_user_ids"
    case CurrentKeyVersion => "current_key_version"
    case RotationRequestId => "rotation_request_id"
    case OfflineOperationId => "offline_operation_id"
    case ProposedKeyVersion => "proposed_key_version"
    case AttestationReference => "attestation_reference"
    case EnrollmentRequestId => "enrollment_request_id"
    case PublicKeyThumbprint => "public_key_thumbprint"
    case RotationChallengeId => "rotation_challenge_id"
    case WhisperSignalVersion => "whisper_signal_version"
    case ClaimedSignatureProfile => "claimed_signature_profile"
    case NewPublicKeyThumbprint => "new_public_key_thumbprint"
    case RotationRequestFingerprint => "rotation_request_fingerprint"
    case EnrollmentRequestFingerprint => "enrollment_request_fingerprint"
    case ServerResolvedSignatureProfile => "server_resolved_signature_profile"
    case _ => ""
  }

  function Spelling(name: Name): string {
    if IsShort(name) then ShortSpelling(name)
    else if IsMiddle(name) then MiddleSpelling(name)
    else if IsLong(name) then LongSpelling(name)
    else LongestSpelling(name)
  }

  datatype DomainTag =
    | RequestProofStatement
    | RequestProofSlot
    | OfflineOperationStatement
    | OfflineOperationSlot
    | EnrolmentRequestRecord
    | EnrolmentPossessionStatement
    | BootstrapGrantSlot
    | PossessionChallengeSlot
    | RotationRequestRecord
    | RotationPossessionStatement
    | KeyRotationSlot
    | WhisperActionStatement
    | WhisperActionSlot
    | SequenceNamespaceRecord

  function TagSpelling(tag: DomainTag): string {
    match tag
    case RequestProofStatement => "sentinel.device.request-proof.v1"
    case RequestProofSlot => "sentinel.device.request-proof.replay-identity.v1"
    case OfflineOperationStatement => "sentinel.device.offline-operation.v1"
    case OfflineOperationSlot => "sentinel.device.offline-operation.replay-identity.v1"
    case EnrolmentRequestRecord => "sentinel.device.enrollment-request.v1"
    case EnrolmentPossessionStatement => "sentinel.device.possession-challenge.v1"
    case BootstrapGrantSlot => "sentinel.device.bootstrap-grant.replay-identity.v1"
    case PossessionChallengeSlot => "sentinel.device.possession-challenge.replay-identity.v1"
    case RotationRequestRecord => "sentinel.device.key-rotation-request.v1"
    case RotationPossessionStatement => "sentinel.device.key-rotation-possession.v1"
    case KeyRotationSlot => "sentinel.device.key-rotation.replay-identity.v1"
    case WhisperActionStatement => "sentinel.whisper.device-action.v2"
    case WhisperActionSlot => "sentinel.whisper.replay-identity.v2"
    case SequenceNamespaceRecord => "sentinel.device.sequence-namespace.v1"
  }

  /** Its length, its third letter and its fifth letter tell a name from all the others. */
  function NameWith(length: nat, third: char, fifth: char): Name {
    match length
    case 5 => Nonce
    case 6 =>
      if third == 'm' then Domain
      else KeyId
    case 7 =>
      if third == 's' then Custody
      else if third == 't' && fifth == 'o' then Outcome
      else if third == 'y' then Payload
      else if third == 'r' then Purpose
      else if third == 't' && fifth == '_' then SiteId
      else UserId
    case 8 =>
      if third == 'a' then GrantId
      else Modality
    case 9 =>
      if third == 'v' then DeviceId
      else if third == 's' then IssuedAt
      else Namespace
    case 10 =>
      if third == 'n' && fifth == 'i' then Confidence
      else if fifth == 'e' then ContextId
      else if third == 'e' then CreatedAt
      else PublicKey
    case 11 =>
      if third == 't' then Attestation
      else if third == 'y' && fifth == 's' then KeyStorage
      else KeyVersion
    case 12 =>
      if fifth == 'l' then ChallengeId
      else if fifth == 'u' then EvaluatedAt
      else RequestedAt
    case 13 =>
      if third == 't' then ActorUserId
      else RecognisedAt
    case 14 =>
      if third == 'r' then CurrentKeyId
      else if third == 'w' then NewPublicKey
      else if third == 'e' then OperationKind
      else if third == 'y' then PayloadDigest
      else SchemaVersion
    case 15 =>
      if third == 'v' then DeviceSequence
      else if third == 'e' then IdempotencyKey
      else if third == 'w' then NewKeyStorage
      else if third == 'g' then OrganisationId
      else if third == 'l' then PolicyLeaseId
      else ProposedKeyId
    case 16 =>
      if third == 'v' then DeviceActionId
      else IntendedUserId
    case 17 =>
      if third == 't' then AntiReplayNonce
      else if third == 'g' then SignatureProfile
      else WhisperSignalId
    case 18 =>
      if third == 'o' then BootstrapGrantId
      else RecipientUserIds
    case 19 =>
      if third == 'r' then CurrentKeyVersion
      else RotationRequestId
    case 20 =>
      if third == 'f' then OfflineOperationId
      else ProposedKeyVersion
    case 21 =>
      if fifth == 's' then AttestationReference
      else if third == 'r' then EnrollmentRequestId
      else if third == 'b' then PublicKeyThumbprint
      else RotationChallengeId
    case 22 => WhisperSignalVersion
    case 25 =>
      if third == 'a' then ClaimedSignatureProfile
      else NewPublicKeyThumbprint
    case 28 => RotationRequestFingerprint
    case 30 => EnrollmentRequestFingerprint
    case 33 => ServerResolvedSignatureProfile
    case _ => Nonce
  }

  lemma ShortNames(name: Name)
    requires IsShort(name)
    ensures var s := ShortSpelling(name); |s| >= 5 && NameWith(|s|, s[2], s[4]) == name
  {
  }

  lemma MiddleNames(name: Name)
    requires IsMiddle(name)
    ensures var s := MiddleSpelling(name); |s| >= 5 && NameWith(|s|, s[2], s[4]) == name
  {
  }

  lemma LongNames(name: Name)
    requires IsLong(name)
    ensures var s := LongSpelling(name); |s| >= 5 && NameWith(|s|, s[2], s[4]) == name
  {
  }

  lemma LongestNames(name: Name)
    requires !IsShort(name) && !IsMiddle(name) && !IsLong(name)
    ensures var s := LongestSpelling(name); |s| >= 5 && NameWith(|s|, s[2], s[4]) == name
  {
  }

  lemma SpellingNames(name: Name)
    ensures |Spelling(name)| >= 5 && NameWith(|Spelling(name)|, Spelling(name)[2], Spelling(name)[4]) == name
  {
    hide ShortSpelling, MiddleSpelling, LongSpelling, LongestSpelling, NameWith, IsShort, IsMiddle, IsLong;
    if IsShort(name) {
      ShortNames(name);
    } else if IsMiddle(name) {
      MiddleNames(name);
    } else if IsLong(name) {
      LongNames(name);
    } else {
      LongestNames(name);
    }
  }

  /** No two names share a spelling. */
  lemma SpellingInjective(a: Name, b: Name)
    requires Spelling(a) == Spelling(b)
    ensures a == b
  {
    hide Spelling, NameWith;
    SpellingNames(a);
    SpellingNames(b);
  }

  lemma TagLengths(tag: DomainTag)
    ensures |TagSpelling(tag)| ==
            match tag {
              case RequestProofStatement => 32
              case RequestProofSlot => 48
              case OfflineOperationStatement => 36
              case OfflineOperationSlot => 52
              case EnrolmentRequestRecord => 37
              case EnrolmentPossessionStatement => 39
              case BootstrapGrantSlot => 50
              case PossessionChallengeSlot => 55
              case RotationRequestRecord => 39
              case RotationPossessionStatement => 42
              case KeyRotationSlot => 47
              case WhisperActionStatement => 33
              case WhisperActionSlot => 35
              case SequenceNamespaceRecord => 37
            }
  {
  }

  lemma EqualLengthTagsDiffer()
    ensures TagSpelling(EnrolmentPossessionStatement) != TagSpelling(RotationRequestRecord)
    ensures TagSpelling(EnrolmentRequestRecord) != TagSpelling(SequenceNamespaceRecord)
  {
    assert TagSpelling(EnrolmentPossessionStatement)[16] == 'p';
    assert TagSpelling(EnrolmentRequestRecord)[16] == 'e';
  }

  lemma TagSpellingInjective(a: DomainTag, b: DomainTag)
    requires TagSpelling(a) == TagSpelling(b)
    ensures a == b
  {
    hide TagSpelling;
    TagLengths(a);
    TagLengths(b);
    EqualLengthTagsDiffer();
  }
}
