/**
 The key registry over every run of enrolments, rotations decided on snapshots
 and committed behind fences, and revocations that land at any moment.
 */
module RotationRuns {
  import opened JsText
  import opened JsonValue
  import opened Options
  import opened DeviceTime
  import opened DeviceRegistry
  import opened OneShot
  import KeyRotation
  import OfflineOperation
  import RequestProof
  import WhisperAction
  import ReplayStore

  datatype KeyRow = KeyRow(keyId: Text, status: KeyState)

  /** A device: its key rows by version, and the pointer to the credential contexts are checked against. */
  datatype Device = Device(keys: map<int, KeyRow>, currentKeyId: Text, currentKeyVersion: SafeInt, revoked: bool)

  datatype DeviceId = DeviceId(organisationId: Text, deviceId: Text)

  /** A rotation that was decided on some snapshot and has not committed. */
  datatype Pending = Pending(
    device: DeviceId,
    slot: Text,
    bytes: Text,
    currentKeyId: Text,
    currentKeyVersion: SafeInt,
    proposedKeyId: Text,
    proposedKeyVersion: SafeInt)

  datatype Rotation = Rotation(device: DeviceId, fromVersion: SafeInt, toVersion: SafeInt)

  datatype State = State(
    devices: map<DeviceId, Device>,
    store: ReplayStore.Store,
    pending: seq<Pending>,
    rotations: seq<Rotation>)

  const INITIAL: State := State(map[], map[], [], [])

  datatype Event =
    | Enrol(device: DeviceId, keyId: Text)
    | Decide(input: KeyRotation.Input)
    | Commit(index: nat, storedOutcomeRef: Text)
    | Withdraw(device: DeviceId, version: int, to: KeyState)
    | RevokeDevice(device: DeviceId)

  function DeviceOf(r: KeyRotation.Request): DeviceId {
    DeviceId(r.organisationId, r.deviceId)
  }

  /** The registry facts of a device as it is now. */
  function RegistryFacts(id: DeviceId, d: Device): KeyRotation.Registered {
    var row := if d.currentKeyVersion in d.keys then d.keys[d.currentKeyVersion] else KeyRow(d.currentKeyId, Revoked);
    KeyRotation.Registered(id.organisationId, id.deviceId, d.currentKeyId, d.currentKeyVersion, row.status,
                           row.status.Revoked? || row.status.KeyCompromised?, d.revoked, Literal(APPROVED_PROFILE))
  }

  /** The evaluator's input with the server facts read from the state. */
  function Facing(s: State, input: KeyRotation.Input, d: Device): KeyRotation.Input {
    input.(registered := RegistryFacts(DeviceOf(input.request), d),
           consumption := ReplayStore.Report(s.store, KeyRotation.ReplayKey(input.request, input.challenge),
                                             KeyRotation.RequestFingerprint(input.request)))
  }

  function Decided(dates: DateParse, s: State, input: KeyRotation.Input): Option<Pending> {
    var id := DeviceOf(input.request);
    if id in s.devices && KeyRotation.ValidRequest(input.request)
       && KeyRotation.Evaluate(dates, Facing(s, input, s.devices[id])).Rotate?
    then Some(Pending(id, KeyRotation.ReplayKey(input.request, input.challenge), KeyRotation.RequestFingerprint(input.request),
                      input.request.currentKeyId, input.request.currentKeyVersion,
                      input.request.proposedKeyId, input.request.proposedKeyVersion))
    else None
  }

  /** The slot is free, the old key is still CURRENT, and the pointer is still on it. */
  predicate FencesHold(s: State, p: Pending) {
    && p.slot !in s.store
    && p.device in s.devices
    && var d := s.devices[p.device];
    && d.currentKeyId == p.currentKeyId && d.currentKeyVersion == p.currentKeyVersion
    && p.currentKeyVersion in d.keys && d.keys[p.currentKeyVersion] == KeyRow(p.currentKeyId, Current)
  }

  function AfterRotation(d: Device, p: Pending): Device {
    d.(keys := d.keys[p.currentKeyVersion := KeyRow(p.currentKeyId, Rotated)][p.proposedKeyVersion := KeyRow(p.proposedKeyId, Current)],
       currentKeyId := p.proposedKeyId,
       currentKeyVersion := p.proposedKeyVersion)
  }

  function Apply(dates: DateParse, s: State, e: Event): State {
    match e
    case Enrol(id, keyId) =>
      if id in s.devices then s
      else s.(devices := s.devices[id := Device(map[1 := KeyRow(keyId, Current)], keyId, 1, false)])
    case Decide(input) =>
      var decided := Decided(dates, s, input);
      if decided.Some? then s.(pending := s.pending + [decided.value]) else s
    case Commit(index, ref) =>
      if index < |s.pending| && FencesHold(s, s.pending[index])
      then
        var p := s.pending[index];
        s.(devices := s.devices[p.device := AfterRotation(s.devices[p.device], p)],
           store := s.store[p.slot := Row(p.bytes, ref)],
           rotations := s.rotations + [Rotation(p.device, p.currentKeyVersion, p.proposedKeyVersion)])
      else s
    case Withdraw(id, version, to) =>
      if id in s.devices && version in s.devices[id].keys && to in {Revoked, KeyCompromised}
         && to in AllowedKeyTransitions(s.devices[id].keys[version].status)
      then s.(devices := s.devices[id := s.devices[id].(keys :=
                s.devices[id].keys[version := s.devices[id].keys[version].(status := to)])])
      else s
    case RevokeDevice(id) =>
      if id in s.devices then s.(devices := s.devices[id := s.devices[id].(revoked := true)]) else s
  }

  function Run(dates: DateParse, s: State, events: seq<Event>): State
    decreases |events|
  {
    if events == [] then s else Run(dates, Apply(dates, s, events[0]), events[1..])
  }

  // ----- what every run keeps -----

  function Rank(status: KeyState): nat {
    match status
    case Current => 0
    case Rotated => 1
    case Revoked => 2
    case KeyCompromised => 3
  }

  /** Versions are exactly 1..current, the pointer is on the last, and only the last may be CURRENT. */
  ghost predicate SoundDevice(d: Device) {
    && 1 <= d.currentKeyVersion
    && (forall v :: v in d.keys <==> 1 <= v <= d.currentKeyVersion)
    && d.keys[d.currentKeyVersion].keyId == d.currentKeyId
    && (forall v :: 1 <= v < d.currentKeyVersion ==> !d.keys[v].status.Current?)
  }

  /** The rotations of a device lead from version to version, up to the one it has. */
  ghost predicate SoundRotations(s: State) {
    && (forall i :: 0 <= i < |s.rotations| ==>
                      && s.rotations[i].device in s.devices
                      && s.rotations[i].toVersion == s.rotations[i].fromVersion + 1
                      && s.rotations[i].toVersion <= s.devices[s.rotations[i].device].currentKeyVersion)
    && (forall i, j :: 0 <= i < j < |s.rotations| && s.rotations[i].device == s.rotations[j].device ==>
                         s.rotations[i].toVersion <= s.rotations[j].fromVersion)
  }

  ghost predicate Sound(s: State) {
    && (forall id :: id in s.devices ==> SoundDevice(s.devices[id]))
    && (forall i :: 0 <= i < |s.pending| ==> s.pending[i].proposedKeyVersion == s.pending[i].currentKeyVersion + 1)
    && SoundRotations(s)
  }

  /** No key row disappears, changes its id or climbs back up; versions only grow; revocation stays. */
  ghost predicate Extends(before: State, after: State) {
    && (forall id :: id in before.devices ==> id in after.devices && DeviceExtends(before.devices[id], after.devices[id]))
    && before.rotations <= after.rotations
  }

  ghost predicate DeviceExtends(d: Device, after: Device) {
    && d.currentKeyVersion <= after.currentKeyVersion
    && (d.revoked ==> after.revoked)
    && (forall v :: v in d.keys ==> && v in after.keys && after.keys[v].keyId == d.keys[v].keyId
                                    && Rank(d.keys[v].status) <= Rank(after.keys[v].status))
  }

  lemma RotatedSound(d: Device, p: Pending)
    requires SoundDevice(d) && p.proposedKeyVersion == p.currentKeyVersion + 1
    requires d.currentKeyVersion == p.currentKeyVersion && d.keys[p.currentKeyVersion] == KeyRow(p.currentKeyId, Current)
    ensures SoundDevice(AfterRotation(d, p)) && DeviceExtends(d, AfterRotation(d, p))
  {
  }

  lemma DecidedIsNext(dates: DateParse, s: State, input: KeyRotation.Input)
    requires Decided(dates, s, input).Some?
    ensures Decided(dates, s, input).value.proposedKeyVersion == Decided(dates, s, input).value.currentKeyVersion + 1
  {
    hide KeyRotation.Evaluate, KeyRotation.ReplayKey, KeyRotation.RequestFingerprint;
  }

  lemma ApplySound(dates: DateParse, s: State, e: Event)
    requires Sound(s)
    ensures Sound(Apply(dates, s, e)) && Extends(s, Apply(dates, s, e))
  {
    match e
    case Enrol(_, _) => RegistryStep(dates, s, e);
    case Decide(_) => DecideStep(dates, s, e);
    case Commit(_, _) => CommitStep(dates, s, e);
    case Withdraw(_, _, _) => RegistryStep(dates, s, e);
    case RevokeDevice(_) => RegistryStep(dates, s, e);
  }

  /** One device is new, or moves on from what it was. */
  lemma DeviceStep(s: State, id: DeviceId, d: Device)
    requires Sound(s) && SoundDevice(d)
    requires id in s.devices ==> DeviceExtends(s.devices[id], d)
    ensures var after := s.(devices := s.devices[id := d]); Sound(after) && Extends(s, after)
  {
    hide SoundDevice;
    var after := s.(devices := s.devices[id := d]);
    forall other | other in s.devices
      ensures DeviceExtends(s.devices[other], after.devices[other])
    {
      ExtendsItself(s.devices[other]);
    }
  }

  lemma NothingChanges(s: State)
    requires Sound(s)
    ensures Extends(s, s)
  {
    forall id | id in s.devices
      ensures DeviceExtends(s.devices[id], s.devices[id])
    {
      ExtendsItself(s.devices[id]);
    }
  }

  lemma RegistryStep(dates: DateParse, s: State, e: Event)
    requires Sound(s) && (e.Enrol? || e.Withdraw? || e.RevokeDevice?)
    ensures Sound(Apply(dates, s, e)) && Extends(s, Apply(dates, s, e))
  {
    hide Decided, Extends;
    var after := Apply(dates, s, e);
    if after == s {
      NothingChanges(s);
    } else {
      if e.device in s.devices {
        assert SoundDevice(s.devices[e.device]);
      }
      DeviceStep(s, e.device, after.devices[e.device]);
    }
  }

  lemma DecideStep(dates: DateParse, s: State, e: Event)
    requires Sound(s) && e.Decide?
    ensures Sound(Apply(dates, s, e)) && Extends(s, Apply(dates, s, e))
  {
    hide Decided;
    if Decided(dates, s, e.input).Some? {
      DecidedIsNext(dates, s, e.input);
    }
  }

  lemma CommitStep(dates: DateParse, s: State, e: Event)
    requires Sound(s) && e.Commit?
    ensures Sound(Apply(dates, s, e)) && Extends(s, Apply(dates, s, e))
  {
    hide Decided, SoundDevice, DeviceExtends;
    var after := Apply(dates, s, e);
    if after != s {
      var p := s.pending[e.index];
      RotatedSound(s.devices[p.device], p);
      forall id | id in s.devices
        ensures DeviceExtends(s.devices[id], after.devices[id])
      {
        ExtendsItself(s.devices[id]);
      }
    } else {
      forall id | id in s.devices
        ensures DeviceExtends(s.devices[id], after.devices[id])
      {
        ExtendsItself(s.devices[id]);
      }
    }
  }

  lemma ExtendsItself(d: Device)
    ensures DeviceExtends(d, d)
  {
  }

  lemma ExtendsTransitive(a: State, b: State, c: State)
    requires Extends(a, b) && Extends(b, c)
    ensures Extends(a, c)
  {
    forall id | id in a.devices
      ensures id in c.devices && DeviceExtends(a.devices[id], c.devices[id])
    {
      assert DeviceExtends(a.devices[id], b.devices[id]) && DeviceExtends(b.devices[id], c.devices[id]);
    }
  }

  lemma {:induction false} RunSound(dates: DateParse, s: State, events: seq<Event>)
    requires Sound(s)
    ensures Sound(Run(dates, s, events)) && Extends(s, Run(dates, s, events))
    decreases |events|
  {
    hide Sound, Apply;
    if events != [] {
      ApplySound(dates, s, events[0]);
      RunSound(dates, Apply(dates, s, events[0]), events[1..]);
      ExtendsTransitive(s, Apply(dates, s, events[0]), Run(dates, Apply(dates, s, events[0]), events[1..]));
    }
  }

  // ----- the main results -----

  /** In every state of every run a device's versions are contiguous from 1 and at most one of its keys is CURRENT. */
  lemma OneCurrentKey(dates: DateParse, events: seq<Event>, id: DeviceId, v: int, w: int)
    requires id in Run(dates, INITIAL, events).devices
    ensures var d := Run(dates, INITIAL, events).devices[id];
            && (v in d.keys <==> 1 <= v <= d.currentKeyVersion)
            && (v in d.keys && w in d.keys && d.keys[v].status.Current? && d.keys[w].status.Current? ==> v == w == d.currentKeyVersion)
  {
    hide Apply, Run;
    RunSound(dates, INITIAL, events);
    assert SoundDevice(Run(dates, INITIAL, events).devices[id]);
  }

  /** A key state never moves back up, and what was superseded or withdrawn is never CURRENT again. */
  lemma StatesMoveDownhill(dates: DateParse, events: seq<Event>, later: seq<Event>, id: DeviceId, v: int)
    requires var s := Run(dates, INITIAL, events); id in s.devices && v in s.devices[id].keys
    ensures var s := Run(dates, INITIAL, events);
            var t := Run(dates, s, later);
            && id in t.devices && v in t.devices[id].keys
            && t.devices[id].keys[v].keyId == s.devices[id].keys[v].keyId
            && Rank(s.devices[id].keys[v].status) <= Rank(t.devices[id].keys[v].status)
            && (!s.devices[id].keys[v].status.Current? ==> !t.devices[id].keys[v].status.Current?)
  {
    hide Apply, Run;
    RunSound(dates, INITIAL, events);
    var s := Run(dates, INITIAL, events);
    RunSound(dates, s, later);
    assert DeviceExtends(s.devices[id], Run(dates, s, later).devices[id]);
  }

  /** Of any rotations racing from one version of one device, at most one ever commits. */
  lemma OneRotationPerVersion(dates: DateParse, events: seq<Event>, i: nat, j: nat)
    requires var r := Run(dates, INITIAL, events).rotations;
             i < |r| && j < |r| && r[i].device == r[j].device && r[i].fromVersion == r[j].fromVersion
    ensures i == j
  {
    hide Apply, Run;
    RunSound(dates, INITIAL, events);
    assert SoundRotations(Run(dates, INITIAL, events));
  }

  /** The request-proof registry record is this device's record in the state. */
  predicate ReflectsPointer(s: State, registered: RequestProof.Registered) {
    var id := DeviceId(registered.organisationId, registered.deviceId);
    && id in s.devices
    && registered.keyId == s.devices[id].currentKeyId && registered.keyVersion == s.devices[id].currentKeyVersion
    && registered.revoked == s.devices[id].revoked
  }

  predicate ReflectsKey(s: State, key: OfflineOperation.KeyRecord) {
    var id := DeviceId(key.organisationId, key.deviceId);
    && id in s.devices && key.keyVersion in s.devices[id].keys
    && key.keyId == s.devices[id].keys[key.keyVersion].keyId && key.status == s.devices[id].keys[key.keyVersion].status
  }

  predicate ReflectsWhisper(s: State, registered: WhisperAction.Registered) {
    var id := DeviceId(registered.organisationId, registered.deviceId);
    && id in s.devices
    && registered.keyId == s.devices[id].currentKeyId && registered.keyVersion == s.devices[id].currentKeyVersion
  }

  /**
   Once a rotation to a newer version has committed, then in every later state
   whatever is bound to the older one is refused: request proofs under any mode
   and purpose, queued operations, and covert actions alike.
   */
  lemma SupersededVersionIsRefusedForever(dates: DateParse, events: seq<Event>, later: seq<Event>, i: nat,
                                          proof: RequestProof.Input, expected: Purpose, mode: RequestProof.Mode,
                                          op: OfflineOperation.Input, whisper: WhisperAction.Input)
    requires i < |Run(dates, INITIAL, events).rotations|
    ensures var r := Run(dates, INITIAL, events).rotations[i];
            var t := Run(dates, Run(dates, INITIAL, events), later);
            && (ReflectsPointer(t, proof.registered) && r.device == DeviceId(proof.context.organisationId, proof.context.deviceId)
                && proof.context.keyVersion <= r.fromVersion
                ==> RequestProof.EvaluateUnderMode(dates, proof, expected, mode).Refused?)
            && (ReflectsKey(t, op.registeredKey) && r.device == DeviceId(op.envelope.organisationId, op.envelope.deviceId)
                && op.envelope.keyVersion <= r.fromVersion
                ==> OfflineOperation.Evaluate(dates, op).Refused?)
            && (ReflectsWhisper(t, whisper.registered) && r.device == DeviceId(whisper.context.organisationId, whisper.context.deviceId)
                && whisper.submission.keyVersion <= r.fromVersion
                ==> WhisperAction.Evaluate(dates, whisper).Refused?)
  {
    hide Apply, Run;
    RunSound(dates, INITIAL, events);
    var s := Run(dates, INITIAL, events);
    RunSound(dates, s, later);
    var t := Run(dates, s, later);
    var r := s.rotations[i];
    assert DeviceExtends(s.devices[r.device], t.devices[r.device]) && SoundDevice(t.devices[r.device]);
    ProofRefused(dates, t, r, proof, expected, mode);
    OperationRefused(dates, t, r, op);
    WhisperRefused(dates, t, r, whisper);
  }

  lemma ProofRefused(dates: DateParse, t: State, r: Rotation, proof: RequestProof.Input, expected: Purpose, mode: RequestProof.Mode)
    requires r.device in t.devices && t.devices[r.device].currentKeyVersion > r.fromVersion
    ensures ReflectsPointer(t, proof.registered) && r.device == DeviceId(proof.context.organisationId, proof.context.deviceId)
            && proof.context.keyVersion <= r.fromVersion
            ==> RequestProof.EvaluateUnderMode(dates, proof, expected, mode).Refused?
  {
    hide RequestProof.EvaluateUnderMode, RequestProof.Fingerprint, RequestProof.ReplayKey, Literal;
    RequestProof.DecisionExact(dates, proof, expected, mode);
    RequestProof.GoodMeansOneIdentity(dates, proof, expected, mode);
  }

  lemma OperationRefused(dates: DateParse, t: State, r: Rotation, op: OfflineOperation.Input)
    requires r.device in t.devices && SoundDevice(t.devices[r.device]) && t.devices[r.device].currentKeyVersion > r.fromVersion
    ensures ReflectsKey(t, op.registeredKey) && r.device == DeviceId(op.envelope.organisationId, op.envelope.deviceId)
            && op.envelope.keyVersion <= r.fromVersion
            ==> OfflineOperation.Evaluate(dates, op).Refused?
  {
    hide OfflineOperation.Evaluate, OfflineOperation.Fingerprint, OfflineOperation.ReplayKey, Literal,
         OfflineOperation.Witnessed, OfflineOperation.LeaseCovers, OfflineOperation.InForceAt;
    OfflineOperation.DecisionExact(dates, op);
  }

  lemma WhisperRefused(dates: DateParse, t: State, r: Rotation, whisper: WhisperAction.Input)
    requires r.device in t.devices && t.devices[r.device].currentKeyVersion > r.fromVersion
    ensures ReflectsWhisper(t, whisper.registered) && r.device == DeviceId(whisper.context.organisationId, whisper.context.deviceId)
            && whisper.submission.keyVersion <= r.fromVersion
            ==> WhisperAction.Evaluate(dates, whisper).Refused?
  {
    hide WhisperAction.EvaluateWith, WhisperAction.Fingerprint, WhisperAction.ReplayKey, Literal;
    WhisperAction.DecisionExact(dates, whisper, WhisperAction.ReplayKey(whisper.submission),
                                WhisperAction.Fingerprint(whisper.submission, whisper.registered.signatureProfile));
  }

  /** Two rotations decided on one snapshot: once one has committed, the other cannot. */
  lemma LoserOfTheRaceCannotCommit(dates: DateParse, s: State, i: nat, j: nat, ref: Text, other: Text)
    requires Sound(s) && i < |s.pending| && j < |s.pending|
    requires s.pending[i].device == s.pending[j].device && s.pending[i].currentKeyVersion == s.pending[j].currentKeyVersion
    requires FencesHold(s, s.pending[i])
    ensures var after := Apply(dates, s, Commit(i, ref));
            |after.rotations| == |s.rotations| + 1 && Apply(dates, after, Commit(j, other)) == after
  {
    hide Decided;
  }

  // ----- what the other registry events do -----

  /** A withdrawal reaches one key row, and only downwards: CURRENT and ROTATED to either end state, REVOKED to COMPROMISED alone. */
  lemma WithdrawalReachesOneKey(dates: DateParse, s: State, id: DeviceId, version: int, to: KeyState)
    ensures var after := Apply(dates, s, Withdraw(id, version, to));
            if && id in s.devices && version in s.devices[id].keys
               && var from := s.devices[id].keys[version].status;
               (to == Revoked && from in {Current, Rotated}) || (to == KeyCompromised && from in {Current, Rotated, Revoked})
            then
              var d := s.devices[id];
              after == s.(devices := s.devices[id := d.(keys := d.keys[version := KeyRow(d.keys[version].keyId, to)])])
            else after == s
  {
    hide Decided, FencesHold;
  }

  /** Enrolment starts a device at version 1, once; revoking it is final and touches nothing else. */
  lemma EnrolmentAndRevocation(dates: DateParse, s: State, id: DeviceId, keyId: Text)
    ensures Apply(dates, s, Enrol(id, keyId)) ==
            if id in s.devices then s
            else s.(devices := s.devices[id := Device(map[1 := KeyRow(keyId, Current)], keyId, 1, false)])
    ensures id in s.devices ==>
              var d, after := s.devices[id], Apply(dates, s, RevokeDevice(id)).devices[id];
              after == Device(d.keys, d.currentKeyId, d.currentKeyVersion, true)
  {
    hide Decided, FencesHold;
  }

  // ----- what a rotation does -----

  /** What is decided on the state as it is finds its fences holding there. */
  lemma DecidedFindsFences(dates: DateParse, s: State, input: KeyRotation.Input)
    requires Sound(s) && Decided(dates, s, input).Some?
    ensures FencesHold(s, Decided(dates, s, input).value)
  {
    hide KeyRotation.EvaluateWith, KeyRotation.ReplayKey, KeyRotation.RequestFingerprint, KeyRotation.PossessionFingerprint, Literal,
         KeyRotation.PossessionProven, IsConsistent, KeyRotation.ValidRequest;
    var d := s.devices[DeviceOf(input.request)];
    assert SoundDevice(d);
    var facing := Facing(s, input, d);
    var fingerprint := KeyRotation.RequestFingerprint(facing.request);
    var statement := KeyRotation.PossessionFingerprint(facing.request, facing.challenge, fingerprint,
                                                       facing.registered.serverResolvedSignatureProfile);
    KeyRotation.DecisionExact(dates, facing, KeyRotation.ReplayKey(facing.request, facing.challenge), fingerprint, statement);
  }

  /** The commit of a rotation whose fences hold, key by key. */
  ghost predicate Replaced(s: State, t: State, p: Pending, ref: Text) {
    && p.device in s.devices && t.devices.Keys == s.devices.Keys
    && p.proposedKeyVersion == p.currentKeyVersion + 1
    && var d, after := s.devices[p.device], t.devices[p.device];
    && d.currentKeyId == p.currentKeyId && d.currentKeyVersion == p.currentKeyVersion
    && after.currentKeyId == p.proposedKeyId && after.currentKeyVersion == p.proposedKeyVersion
    && after.keys.Keys == d.keys.Keys + {p.proposedKeyVersion}
    && after.keys[p.proposedKeyVersion] == KeyRow(p.proposedKeyId, Current)
    && p.currentKeyVersion in d.keys
    && d.keys[p.currentKeyVersion] == KeyRow(p.currentKeyId, Current) && after.keys[p.currentKeyVersion] == KeyRow(p.currentKeyId, Rotated)
    && (forall v :: v in d.keys && v != p.currentKeyVersion ==> after.keys[v] == d.keys[v])
    && after.revoked == d.revoked
    && (forall other :: other in s.devices && other != p.device ==> t.devices[other] == s.devices[other])
    && p.slot !in s.store && t.store == s.store[p.slot := Row(p.bytes, ref)]
    && t.rotations == s.rotations + [Rotation(p.device, p.currentKeyVersion, p.proposedKeyVersion)]
  }

  lemma CommitReplaces(dates: DateParse, s: State, p: Pending, ref: Text)
    requires Sound(s) && FencesHold(s, p) && p.proposedKeyVersion == p.currentKeyVersion + 1
    ensures Replaced(s, Apply(dates, s.(pending := s.pending + [p]), Commit(|s.pending|, ref)), p, ref)
  {
    hide Decided, SoundRotations;
    assert SoundDevice(s.devices[p.device]);
  }

  /**
   In every reachable state a rotation the evaluator decides on, and commits before
   anything else happens, replaces the key: the row that was CURRENT becomes
   ROTATED, the proposed key is the CURRENT one at the next version with the
   pointer on it, its slot is spent on these bytes, and nothing else moves.
   */
  lemma UncontestedRotationReplacesTheKey(dates: DateParse, events: seq<Event>, input: KeyRotation.Input, ref: Text)
    requires Decided(dates, Run(dates, INITIAL, events), input).Some?
    ensures var s := Run(dates, INITIAL, events);
            var r := input.request;
            Replaced(s, Apply(dates, Apply(dates, s, Decide(input)), Commit(|s.pending|, ref)),
                     Pending(DeviceOf(r), KeyRotation.ReplayKey(r, input.challenge), KeyRotation.RequestFingerprint(r),
                             r.currentKeyId, r.currentKeyVersion, r.proposedKeyId, r.proposedKeyVersion), ref)
  {
    hide Run, KeyRotation.Evaluate, KeyRotation.ReplayKey, KeyRotation.RequestFingerprint, Replaced, FencesHold, Sound, AfterRotation;
    InitiallySound();
    RunSound(dates, INITIAL, events);
    var s := Run(dates, INITIAL, events);
    DecidedFindsFences(dates, s, input);
    DecidedIsNext(dates, s, input);
    CommitReplaces(dates, s, Decided(dates, s, input).value, ref);
  }

  lemma InitiallySound()
    ensures Sound(INITIAL)
  {
  }
}
