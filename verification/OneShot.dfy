/** One-shot identities: what the replay store holds, what it reports, and when a report may be acted on. */
module OneShot {
  import opened JsText
  import opened Options

  datatype Outcome = FirstSeen | ExactDuplicate | ReusedWithChangedSemantics

  datatype Source = SentinelNonceStore | ForeignSource

  datatype Consumption = Consumption(
    source: Source,
    outcome: Outcome,
    replayKey: Text,
    statementFingerprint: Text,
    storedOutcomeRef: Option<Text>)

  /** A store row: the bytes that spent the slot and the outcome they led to. */
  datatype Row = Row(statementFingerprint: Text, storedOutcomeRef: Text)

  /** Names what the store found under a replay key; a malformed row is reported as it stands. */
  function Classify(replayKey: Text, fingerprint: Text, stored: Option<Row>): Consumption {
    match stored
    case None => Consumption(SentinelNonceStore, FirstSeen, replayKey, fingerprint, None)
    case Some(row) =>
      if row.statementFingerprint == fingerprint
      then Consumption(SentinelNonceStore, ExactDuplicate, replayKey, fingerprint, Some(row.storedOutcomeRef))
      else Consumption(SentinelNonceStore, ReusedWithChangedSemantics, replayKey, fingerprint, None)
  }

  /** The runtime shape check: a duplicate names a non-blank outcome, nothing else names any. */
  predicate IsConsistent(fact: Consumption) {
    && fact.source.SentinelNonceStore?
    && fact.replayKey != []
    && fact.statementFingerprint != []
    && (match fact.outcome
        case ExactDuplicate => fact.storedOutcomeRef.Some? && Trim(fact.storedOutcomeRef.value) != []
        case _ => fact.storedOutcomeRef.None?)
  }

  /** A consistent report comes from our own store, names its slot and its bytes, and names an outcome exactly when it is a duplicate's. */
  lemma ConsistentExactly(fact: Consumption)
    ensures IsConsistent(fact) <==>
            && fact.source == SentinelNonceStore && fact.replayKey != [] && fact.statementFingerprint != []
            && (fact.storedOutcomeRef.Some? <==> fact.outcome == ExactDuplicate)
            && (fact.storedOutcomeRef.Some? ==> !IsBlank(fact.storedOutcomeRef.value))
  {
    hide Trim, IsBlank;
    if fact.storedOutcomeRef.Some? {
      TrimMeans(fact.storedOutcomeRef.value);
    }
  }

  /** Only a blank stored reference makes an honest report inconsistent, and then it is refused. */
  lemma HonestReports(replayKey: Text, fingerprint: Text, stored: Option<Row>)
    requires replayKey != [] && fingerprint != []
    ensures IsConsistent(Classify(replayKey, fingerprint, stored)) <==>
            !(stored.Some? && stored.value.statementFingerprint == fingerprint && IsBlank(stored.value.storedOutcomeRef))
    ensures Classify(replayKey, fingerprint, stored).outcome.FirstSeen? <==> stored.None?
    ensures Classify(replayKey, fingerprint, stored).outcome.ExactDuplicate? <==>
            stored.Some? && stored.value.statementFingerprint == fingerprint
  {
    hide Trim, IsBlank;
    if stored.Some? {
      TrimMeans(stored.value.storedOutcomeRef);
    }
  }
}

/** Registry vocabulary shared by the evaluators. */
module DeviceRegistry {
  import opened JsText

  datatype Trust = Trusted | Degraded | Suspicious | Quarantined | Compromised | Offline

  datatype Purpose =
    | FieldOperation
    | OfflineSync
    | ReconnectHandshake
    | WhisperDeviceAction
    | DeviceKeyRotation
    | EdgeTransportDescriptor

  function PurposeName(p: Purpose): string {
    match p
    case FieldOperation => "FIELD_OPERATION"
    case OfflineSync => "OFFLINE_SYNC"
    case ReconnectHandshake => "RECONNECT_HANDSHAKE"
    case WhisperDeviceAction => "WHISPER_DEVICE_ACTION"
    case DeviceKeyRotation => "DEVICE_KEY_ROTATION"
    case EdgeTransportDescriptor => "EDGE_TRANSPORT_DESCRIPTOR"
  }

  lemma PurposeNamesDiffer(p: Purpose, q: Purpose)
    ensures Literal(PurposeName(p)) == Literal(PurposeName(q)) <==> p == q
  {
    LiteralInjective(PurposeName(p), PurposeName(q));
  }

  /** Which trust states may attempt which purpose. */
  function PermittedTrust(p: Purpose): set<Trust> {
    match p
    case FieldOperation => {Trusted, Degraded}
    case OfflineSync => {Trusted, Degraded}
    case ReconnectHandshake => {Trusted, Degraded, Suspicious, Offline}
    case WhisperDeviceAction => {Trusted}
    case DeviceKeyRotation => {Trusted, Degraded}
    case EdgeTransportDescriptor => {Trusted, Degraded}
  }

  datatype KeyState = Current | Rotated | Revoked | KeyCompromised

  /** The key lifecycle table. Nothing moves back to CURRENT. */
  function AllowedKeyTransitions(from: KeyState): set<KeyState> {
    match from
    case Current => {Rotated, Revoked, KeyCompromised}
    case Rotated => {Revoked, KeyCompromised}
    case Revoked => {KeyCompromised}
    case KeyCompromised => {}
  }

  predicate PermitsNewOperations(state: KeyState) {
    state.Current?
  }

  predicate PermitsHistoricalVerification(state: KeyState) {
    state.Current? || state.Rotated?
  }

  const APPROVED_PROFILE: string := "P256_ECDSA_SHA256"

  /** The claimed signature profile is only ever compared with the server's. */
  predicate ProfileBound(claimed: Text, serverResolved: Text) {
    serverResolved == Literal(APPROVED_PROFILE) && claimed == serverResolved
  }
}
