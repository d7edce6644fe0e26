/**
 The refinement a stored Edge queue entry must pass every time it is read back:
 the state and the evidence for it agree, and the payload bytes are still the
 canonical bytes the device signature covers.
 */
module StoredOperation {
  import opened JsText
  import opened JsonValue
  import opened JsonReader
  import opened JsonRoundTrip
  import opened CanonicalJson
  import opened Options

  datatype OperationState = Queued | Terminal

  /** The two answers that may end an entry. Both are central's. */
  datatype TerminalAnswer =
    | CentralAccepted(centralReference: Text)
    | CentralRefused(refusalCode: Text)

  /** The witness receipt, reduced to the field the refinement reads. */
  datatype Receipt = Receipt(witnessedOperationFingerprint: Text)

  datatype StoredOperation = StoredOperation(
    envelopePayloadDigest: Text,
    payloadCanonicalJson: Text,
    receipt: Option<Receipt>,
    state: OperationState,
    settlement: Option<TerminalAnswer>)

  datatype Issue =
    | TerminalWithoutAnswer
    | QueuedWithAnswer
    | ReceiptNamesNothing
    | PayloadUnreadable
    | PayloadNotCanonical
    | DigestMismatch

  function StateIssues(op: StoredOperation): seq<Issue> {
    (if op.state.Terminal? && op.settlement.None? then [TerminalWithoutAnswer] else [])
    + (if op.state.Queued? && op.settlement.Some? then [QueuedWithAnswer] else [])
  }

  function ReceiptIssues(op: StoredOperation): seq<Issue> {
    if op.receipt.Some? && |op.receipt.value.witnessedOperationFingerprint| == 0 then [ReceiptNamesNothing] else []
  }

  /** The text is parsed only to be printed again and digested; `digest` is any digest of text. */
  function PayloadIssues(op: StoredOperation, digest: Text -> Text): seq<Issue> {
    match JsonParse(op.payloadCanonicalJson)
    case Unreadable => [PayloadUnreadable]
    case Read(value, _) =>
      (if Canonical(value) != op.payloadCanonicalJson then [PayloadNotCanonical] else [])
      + (if digest(Canonical(value)) != op.envelopePayloadDigest then [DigestMismatch] else [])
  }

  function Issues(op: StoredOperation, digest: Text -> Text): seq<Issue> {
    StateIssues(op) + ReceiptIssues(op) + PayloadIssues(op, digest)
  }

  /** The text is what the canonical printer prints for some value. */
  ghost predicate IsCanonicalText(text: Text) {
    exists v :: WellFormed(v) && text == Canonical(v)
  }

  /** Reading a text and printing it again gives it back exactly when the printer made it. */
  lemma FixpointIffPrinted(text: Text)
    ensures JsonParse(text).Read? && Canonical(JsonParse(text).value) == text <==> IsCanonicalText(text)
  {
    if JsonParse(text).Read? && Canonical(JsonParse(text).value) == text {
      ReadsWellFormed(text);
    }
    if IsCanonicalText(text) {
      var v :| WellFormed(v) && text == Canonical(v);
      CanonicalIdempotent(v);
    }
  }

  /**
   An entry is read back without an issue exactly when a TERMINAL entry carries
   central's answer and a QUEUED one none, its receipt names an operation, and
   its payload is the canonical text of some value and digests to what was signed.
   */
  lemma AcceptedIffCanonical(op: StoredOperation, digest: Text -> Text)
    ensures Issues(op, digest) == [] <==>
            && (op.state == Terminal <==> op.settlement.Some?)
            && (op.receipt.Some? ==> op.receipt.value.witnessedOperationFingerprint != [])
            && IsCanonicalText(op.payloadCanonicalJson)
            && digest(op.payloadCanonicalJson) == op.envelopePayloadDigest
  {
    FixpointIffPrinted(op.payloadCanonicalJson);
  }

  /** The value an accepted entry stands for is fixed by its bytes, up to key order. */
  lemma AcceptedValueIsUnique(op: StoredOperation, digest: Text -> Text, v: Json, w: Json)
    requires Issues(op, digest) == []
    requires WellFormed(v) && WellFormed(w)
    requires op.payloadCanonicalJson == Canonical(v)
    ensures op.payloadCanonicalJson == Canonical(w) <==> SameUpToKeyOrder(v, w)
    ensures JsonParse(op.payloadCanonicalJson) == Read(SortKeysDeep(v), [])
  {
    CanonicalInjective(v, w);
    ParseCanonical(v);
  }

  /** What each other complaint is about; none is raised without its reason. */
  lemma OtherIssuesMeaning(op: StoredOperation, digest: Text -> Text)
    ensures TerminalWithoutAnswer in Issues(op, digest) <==> op.state == Terminal && op.settlement == None
    ensures QueuedWithAnswer in Issues(op, digest) <==> op.state == Queued && op.settlement != None
    ensures ReceiptNamesNothing in Issues(op, digest) <==>
            op.receipt.Some? && op.receipt.value.witnessedOperationFingerprint == []
    ensures DigestMismatch in Issues(op, digest) <==>
            && JsonParse(op.payloadCanonicalJson).Read?
            && digest(Canonical(JsonParse(op.payloadCanonicalJson).value)) != op.envelopePayloadDigest
  {
    hide JsonParse, Canonical;
    var state, receipt, payload := StateIssues(op), ReceiptIssues(op), PayloadIssues(op, digest);
    assert forall issue :: issue in Issues(op, digest) <==> issue in state || issue in receipt || issue in payload;
    assert forall issue :: issue in payload ==> issue in {PayloadUnreadable, PayloadNotCanonical, DigestMismatch};
  }

  /** A refused payload is named for what is wrong with it, and nothing else is. */
  lemma PayloadIssueMeaning(op: StoredOperation, digest: Text -> Text)
    ensures PayloadUnreadable in Issues(op, digest) <==> JsonParse(op.payloadCanonicalJson).Unreadable?
    ensures PayloadNotCanonical in Issues(op, digest) <==>
            JsonParse(op.payloadCanonicalJson).Read? && !IsCanonicalText(op.payloadCanonicalJson)
  {
    FixpointIffPrinted(op.payloadCanonicalJson);
  }
}
