/** Every signed statement and every one-shot slot of the device protocols, told apart by its domain tag. */
module DomainSeparation {
  import opened JsText
  import opened JsonValue
  import opened FieldNames
  import opened SignedRecord
  import RequestProof
  import OfflineOperation
  import Enrolment
  import KeyRotation
  import WhisperAction

  datatype Record =
    | ProofStatement(proof: RequestProof.Proof, profile: Text)
    | ProofSlot(proof: RequestProof.Proof)
    | OperationStatement(envelope: OfflineOperation.Envelope, profile: Text)
    | OperationSlot(envelope: OfflineOperation.Envelope)
    | EnrolmentRequest(request: Enrolment.Request)
    | EnrolmentPossession(request: Enrolment.Request, challenge: Enrolment.Challenge, fingerprint: Text, profile: Text)
    | GrantSlot(grant: Enrolment.Grant)
    | ChallengeSlot(request: Enrolment.Request, challenge: Enrolment.Challenge)
    | RotationRequest(rotation: KeyRotation.Request)
    | RotationPossession(rotation: KeyRotation.Request, rotationChallenge: KeyRotation.Challenge, fingerprint: Text, profile: Text)
    | RotationSlot(rotation: KeyRotation.Request, rotationChallenge: KeyRotation.Challenge)
    | WhisperStatement(submission: WhisperAction.Submission, profile: Text)
    | WhisperSlot(submission: WhisperAction.Submission)

  /** The domain tag of a record: one tag per kind. */
  function Domain(r: Record): DomainTag {
    match r
    case ProofStatement(_, _) => RequestProofStatement
    case ProofSlot(_) => RequestProofSlot
    case OperationStatement(_, _) => OfflineOperationStatement
    case OperationSlot(_) => OfflineOperationSlot
    case EnrolmentRequest(_) => EnrolmentRequestRecord
    case EnrolmentPossession(_, _, _, _) => EnrolmentPossessionStatement
    case GrantSlot(_) => BootstrapGrantSlot
    case ChallengeSlot(_, _) => PossessionChallengeSlot
    case RotationRequest(_) => RotationRequestRecord
    case RotationPossession(_, _, _, _) => RotationPossessionStatement
    case RotationSlot(_, _) => KeyRotationSlot
    case WhisperStatement(_, _) => WhisperActionStatement
    case WhisperSlot(_) => WhisperActionSlot
  }

  /** The bytes a record stands for: what is signed, or what names the slot. */
  function Bytes(r: Record): Text {
    match r
    case ProofStatement(p, profile) => RequestProof.Fingerprint(p, profile)
    case ProofSlot(p) => RequestProof.ReplayKey(p)
    case OperationStatement(e, profile) => OfflineOperation.Fingerprint(e, profile)
    case OperationSlot(e) => OfflineOperation.ReplayKey(e)
    case EnrolmentRequest(q) => Enrolment.RequestFingerprint(q)
    case EnrolmentPossession(q, c, fingerprint, profile) => Enrolment.PossessionStatement(q, c, fingerprint, profile)
    case GrantSlot(g) => Enrolment.GrantReplayKey(g)
    case ChallengeSlot(q, c) => Enrolment.ChallengeReplayKey(q, c)
    case RotationRequest(q) => KeyRotation.RequestFingerprint(q)
    case RotationPossession(q, c, fingerprint, profile) => KeyRotation.PossessionFingerprint(q, c, fingerprint, profile)
    case RotationSlot(q, c) => KeyRotation.ReplayKey(q, c)
    case WhisperStatement(s, profile) => WhisperAction.Fingerprint(s, profile)
    case WhisperSlot(s) => WhisperAction.ReplayKey(s)
  }

  /** A well-formed record text with a domain tag at its head. */
  ghost predicate Tagged(text: Text, tag: DomainTag) {
    exists fields: seq<Field> :: TaggedAs(text, tag, fields)
  }

  ghost predicate TaggedAs(text: Text, tag: DomainTag, fields: seq<Field>) {
    && fields != [] && DistinctNames(fields) && AllWellFormed(fields)
    && fields[0] == Field(Name.Domain, Tag(tag)) && text == RecordText(fields)
  }

  lemma TagsApart(x: Text, y: Text, tag: DomainTag, other: DomainTag)
    requires Tagged(x, tag) && Tagged(y, other) && tag != other
    ensures x != y
  {
    hide RecordText, Tag;
    var a :| TaggedAs(x, tag, a);
    var b :| TaggedAs(y, other, b);
    DomainsApart(a, b, tag, other);
  }

  lemma IsTagged(text: Text, tag: DomainTag, fields: seq<Field>)
    requires fields != [] && DistinctNames(fields) && AllWellFormed(fields)
    requires fields[0] == Field(Name.Domain, Tag(tag)) && text == RecordText(fields)
    ensures Tagged(text, tag)
  {
    assert TaggedAs(text, tag, fields);
  }

  lemma ProofTagged(r: Record)
    requires r.ProofStatement? || r.ProofSlot?
    ensures Tagged(Bytes(r), Domain(r))
  {
    hide RecordText, Literal, TagSpelling, Tagged;
    var profile := if r.ProofStatement? then r.profile else [];
    RequestProof.FieldsProper(r.proof, profile);
    var fields := if r.ProofStatement? then RequestProof.StatementFields(r.proof, profile) else RequestProof.ReplayFields(r.proof);
    LeavesWellFormed(fields);
    IsTagged(Bytes(r), Domain(r), fields);
  }

  lemma OperationTagged(r: Record)
    requires r.OperationStatement? || r.OperationSlot?
    ensures Tagged(Bytes(r), Domain(r))
  {
    hide RecordText, Literal, TagSpelling, Tagged;
    var profile := if r.OperationStatement? then r.profile else [];
    OfflineOperation.FieldsProper(r.envelope, profile);
    var fields := if r.OperationStatement? then OfflineOperation.StatementFields(r.envelope, profile)
                  else OfflineOperation.ReplayFields(r.envelope);
    LeavesWellFormed(fields);
    IsTagged(Bytes(r), Domain(r), fields);
  }

  lemma RequestTagged(r: Record)
    requires r.EnrolmentRequest?
    ensures Tagged(Bytes(r), Domain(r))
  {
    hide RecordText, Literal, TagSpelling, Tagged, Members;
    Enrolment.RequestFieldsProper(r.request);
    IsTagged(Bytes(r), Domain(r), Enrolment.RequestFields(r.request));
  }

  lemma EnrolmentTagged(r: Record)
    requires r.EnrolmentPossession? || r.ChallengeSlot?
    ensures Tagged(Bytes(r), Domain(r))
  {
    hide RecordText, Literal, TagSpelling, Tagged;
    var fingerprint, profile := if r.EnrolmentPossession? then r.fingerprint else [], if r.EnrolmentPossession? then r.profile else [];
    Enrolment.OtherFieldsProper(r.request, r.challenge, fingerprint, profile);
    var fields := if r.EnrolmentPossession? then Enrolment.PossessionFields(r.request, r.challenge, fingerprint, profile)
                  else Enrolment.ChallengeReplayFields(r.request, r.challenge);
    LeavesWellFormed(fields);
    IsTagged(Bytes(r), Domain(r), fields);
  }

  lemma GrantTagged(r: Record)
    requires r.GrantSlot?
    ensures Tagged(Bytes(r), Domain(r))
  {
    hide RecordText, Literal, TagSpelling, Tagged;
    Enrolment.GrantFieldsProper(r.grant);
    LeavesWellFormed(Enrolment.GrantReplayFields(r.grant));
    IsTagged(Bytes(r), Domain(r), Enrolment.GrantReplayFields(r.grant));
  }

  lemma RotationRequestTagged(r: Record)
    requires r.RotationRequest?
    ensures Tagged(Bytes(r), Domain(r))
  {
    hide RecordText, Literal, TagSpelling, Tagged, KeyRotation.RequestFingerprint;
    KeyRotation.RequestFingerprintIsStatement(r.rotation);
    LeavesWellFormed(KeyRotation.RequestFields(r.rotation));
    IsTagged(Bytes(r), Domain(r), KeyRotation.RequestFields(r.rotation));
  }

  lemma RotationTagged(r: Record)
    requires r.RotationPossession? || r.RotationSlot?
    ensures Tagged(Bytes(r), Domain(r))
  {
    hide RecordText, Literal, TagSpelling, Tagged, KeyRotation.PossessionFingerprint;
    var fingerprint, profile := if r.RotationPossession? then r.fingerprint else [], if r.RotationPossession? then r.profile else [];
    KeyRotation.PossessionFingerprintIsStatement(r.rotation, r.rotationChallenge, fingerprint, profile);
    KeyRotation.FieldsProper(r.rotation, r.rotationChallenge, fingerprint, profile);
    var fields := if r.RotationPossession?
                  then KeyRotation.PossessionFields(r.rotation, r.rotationChallenge, fingerprint, profile)
                  else KeyRotation.ReplayFields(r.rotation, r.rotationChallenge);
    LeavesWellFormed(fields);
    IsTagged(Bytes(r), Domain(r), fields);
  }

  lemma WhisperTagged(r: Record)
    requires r.WhisperStatement? || r.WhisperSlot?
    ensures Tagged(Bytes(r), Domain(r))
  {
    hide RecordText, Literal, TagSpelling, Tagged;
    var profile := if r.WhisperStatement? then r.profile else [];
    WhisperAction.FieldsProper(r.submission, profile);
    var fields := if r.WhisperStatement? then WhisperAction.StatementFields(r.submission, profile)
                  else WhisperAction.ReplayFields(r.submission);
    LeavesWellFormed(fields);
    IsTagged(Bytes(r), Domain(r), fields);
  }

  lemma RecordTagged(r: Record)
    ensures Tagged(Bytes(r), Domain(r))
  {
    hide Bytes, Domain, Tagged;
    if r.ProofStatement? || r.ProofSlot? {
      ProofTagged(r);
    } else if r.OperationStatement? || r.OperationSlot? {
      OperationTagged(r);
    } else if r.EnrolmentRequest? {
      RequestTagged(r);
    } else if r.EnrolmentPossession? || r.ChallengeSlot? {
      EnrolmentTagged(r);
    } else if r.GrantSlot? {
      GrantTagged(r);
    } else if r.RotationRequest? {
      RotationRequestTagged(r);
    } else if r.RotationPossession? || r.RotationSlot? {
      RotationTagged(r);
    } else {
      WhisperTagged(r);
    }
  }

  /**
   Bytes minted as one kind of record are never the bytes of another kind: a
   signature over one statement never covers another, and no slot is shared
   between two protocols.
   */
  lemma KindsNeverMeet(a: Record, b: Record)
    requires Domain(a) != Domain(b)
    ensures Bytes(a) != Bytes(b)
  {
    hide Bytes, Domain, Tagged;
    RecordTagged(a);
    RecordTagged(b);
    TagsApart(Bytes(a), Bytes(b), Domain(a), Domain(b));
  }
}
