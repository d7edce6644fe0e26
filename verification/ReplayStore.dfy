/**
 The replay store behind the five evaluators. Reading, deciding and committing
 are separate steps, so any number of requests may be decided on one snapshot;
 the commit inserts all the slots of a request or none.
 */
module ReplayStore {
  import opened JsText
  import opened Options
  import opened DeviceTime
  import opened DeviceRegistry
  import opened OneShot
  import RequestProof
  import OfflineOperation
  import Enrolment
  import KeyRotation
  import WhisperAction

  type Store = map<Text, Row>

  function Lookup(store: Store, slot: Text): Option<Row> {
    if slot in store then Some(store[slot]) else None
  }

  function Report(store: Store, slot: Text, bytes: Text): Consumption {
    Classify(slot, bytes, Lookup(store, slot))
  }

  /** A request with every server fact but the store's own report, which is read when it is judged. */
  datatype Request =
    | ProofRequest(proof: RequestProof.Input, expected: Purpose, mode: RequestProof.Mode)
    | OperationRequest(operation: OfflineOperation.Input)
    | EnrolmentRequest(enrolment: Enrolment.Input, grant: Enrolment.Grant, challenge: Enrolment.Challenge)
    | RotationRequest(rotation: KeyRotation.Input)
    | WhisperRequest(whisper: WhisperAction.Input)

  /** The slots a request spends: an enrolment spends its grant and its challenge together. */
  function Slots(r: Request): (slots: seq<Text>)
    ensures slots != []
  {
    match r
    case ProofRequest(input, _, _) => [RequestProof.ReplayKey(input.proof)]
    case OperationRequest(input) => [OfflineOperation.ReplayKey(input.envelope)]
    case EnrolmentRequest(input, grant, challenge) =>
      [Enrolment.GrantReplayKey(grant), Enrolment.ChallengeReplayKey(input.request, challenge)]
    case RotationRequest(input) => [KeyRotation.ReplayKey(input.request, input.challenge)]
    case WhisperRequest(input) => [WhisperAction.ReplayKey(input.submission)]
  }

  /** The bytes a request spends its slots on. */
  function Bytes(r: Request): Text {
    match r
    case ProofRequest(input, _, _) => RequestProof.Fingerprint(input.proof, input.registered.signatureProfile)
    case OperationRequest(input) => OfflineOperation.Fingerprint(input.envelope, input.registeredKey.signatureProfile)
    case EnrolmentRequest(input, _, _) => Enrolment.RequestFingerprint(input.request)
    case RotationRequest(input) => KeyRotation.RequestFingerprint(input.request)
    case WhisperRequest(input) => WhisperAction.Fingerprint(input.submission, input.registered.signatureProfile)
  }

  datatype Verdict = Effect | Converged(storedOutcomeRef: Text) | Declined

  function JudgeProof(dates: DateParse, input: RequestProof.Input, expected: Purpose, mode: RequestProof.Mode): Verdict {
    match RequestProof.EvaluateUnderMode(dates, input, expected, mode)
    case Proceed(_) => Effect
    case Converge(_, storedOutcomeRef) => Converged(storedOutcomeRef)
    case Refused(_) => Declined
  }

  function JudgeOperation(dates: DateParse, input: OfflineOperation.Input): Verdict {
    match OfflineOperation.Evaluate(dates, input)
    case Proceed(_, _, _) => Effect
    case Converge(_, _, _, storedOutcomeRef) => Converged(storedOutcomeRef)
    case Refused(_) => Declined
  }

  function JudgeEnrolment(dates: DateParse, input: Enrolment.Input): Verdict {
    match Enrolment.Evaluate(dates, input)
    case Commit(_) => Effect
    case Converge(_, storedOutcomeRef) => Converged(storedOutcomeRef)
    case Refused(_) => Declined
  }

  function JudgeRotation(dates: DateParse, input: KeyRotation.Input): Verdict {
    match KeyRotation.Evaluate(dates, input)
    case Rotate(_, _, _, _) => Effect
    case Converge(_, storedOutcomeRef) => Converged(storedOutcomeRef)
    case Refused(_) => Declined
  }

  function JudgeWhisper(dates: DateParse, input: WhisperAction.Input): Verdict {
    match WhisperAction.Evaluate(dates, input)
    case Proceed(_, _) => Effect
    case Refused(_) => Declined
  }

  /** What the evaluator answers when the reports are given. */
  function JudgeOn(dates: DateParse, r: Request, reports: seq<Consumption>): Verdict
    requires |reports| == |Slots(r)|
  {
    match r
    case ProofRequest(input, expected, mode) => JudgeProof(dates, input.(consumption := reports[0]), expected, mode)
    case OperationRequest(input) => JudgeOperation(dates, input.(consumption := reports[0]))
    case EnrolmentRequest(input, grant, challenge) =>
      JudgeEnrolment(dates, input.(grant := Some(grant), challenge := Some(challenge),
                                   grantConsumption := reports[0], challengeConsumption := reports[1]))
    case RotationRequest(input) => JudgeRotation(dates, input.(consumption := reports[0]))
    case WhisperRequest(input) => JudgeWhisper(dates, input.(consumption := reports[0]))
  }

  function Reports(store: Store, slots: seq<Text>, bytes: Text): (reports: seq<Consumption>)
    ensures |reports| == |slots|
    ensures forall i :: 0 <= i < |slots| ==> reports[i] == Report(store, slots[i], bytes)
  {
    seq(|slots|, i requires 0 <= i < |slots| => Report(store, slots[i], bytes))
  }

  /** The evaluator's answer on what the store holds now. */
  function Judge(dates: DateParse, store: Store, r: Request): Verdict {
    JudgeOn(dates, r, Reports(store, Slots(r), Bytes(r)))
  }

  // ----- evaluators and reports -----

  /**
   Every evaluator needs every report to say "never seen" before it allows an
   effect, and converges only on a reference one of the reports carries.
   */
  lemma VerdictFollowsReports(dates: DateParse, r: Request, reports: seq<Consumption>)
    requires |reports| == |Slots(r)|
    ensures JudgeOn(dates, r, reports).Effect? ==> forall i :: 0 <= i < |reports| ==> reports[i].outcome.FirstSeen?
    ensures JudgeOn(dates, r, reports).Converged? ==>
            && (exists i :: 0 <= i < |reports| && reports[i].outcome.ExactDuplicate?)
            && forall i :: 0 <= i < |reports| && reports[i].outcome.ExactDuplicate? ==>
                             reports[i].storedOutcomeRef == Some(JudgeOn(dates, r, reports).storedOutcomeRef)
    ensures JudgeOn(dates, r, reports).Converged? ==>
              forall i :: 0 <= i < |reports| ==> !reports[i].outcome.ReusedWithChangedSemantics?
  {
    hide RequestProof.EvaluateUnderMode, RequestProof.ReplayKey, RequestProof.Fingerprint, RequestProof.AllButPossession;
    hide OfflineOperation.Evaluate, OfflineOperation.ReplayKey, OfflineOperation.Fingerprint, OfflineOperation.Admissible;
    hide Enrolment.Evaluate, Enrolment.GrantReplayKey, Enrolment.ChallengeReplayKey, Enrolment.RequestFingerprint,
         Enrolment.CeremonyHolds;
    hide KeyRotation.EvaluateWith, KeyRotation.ReplayKey, KeyRotation.RequestFingerprint, KeyRotation.PossessionFingerprint,
         KeyRotation.CeremonyHolds;
    hide WhisperAction.EvaluateWith, WhisperAction.ReplayKey, WhisperAction.Fingerprint, WhisperAction.Authentic;
    match r
    case ProofRequest(input, expected, mode) =>
      RequestProof.DecisionExact(dates, input.(consumption := reports[0]), expected, mode);
    case OperationRequest(input) =>
      OfflineOperation.DecisionExact(dates, input.(consumption := reports[0]));
    case EnrolmentRequest(input, grant, challenge) =>
      Enrolment.DecisionExact(dates, input.(grant := Some(grant), challenge := Some(challenge),
                                            grantConsumption := reports[0], challengeConsumption := reports[1]));
    case RotationRequest(input) =>
      var fingerprint := KeyRotation.RequestFingerprint(input.request);
      KeyRotation.DecisionExact(dates, input.(consumption := reports[0]), KeyRotation.ReplayKey(input.request, input.challenge),
                                fingerprint,
                                KeyRotation.PossessionFingerprint(input.request, input.challenge, fingerprint,
                                                                  input.registered.serverResolvedSignatureProfile));
    case WhisperRequest(input) =>
      WhisperAction.DecisionExact(dates, input.(consumption := reports[0]), WhisperAction.ReplayKey(input.submission),
                                  WhisperAction.Fingerprint(input.submission, input.registered.signatureProfile));
  }

  /** No evaluator allows an effect on a slot the store holds, whatever reference, blank or not, it holds there. */
  lemma EffectNeedsFreshSlots(dates: DateParse, store: Store, r: Request)
    requires Judge(dates, store, r).Effect?
    ensures forall i :: 0 <= i < |Slots(r)| ==> Slots(r)[i] !in store
  {
    hide JudgeOn, Slots, Bytes;
    var reports := Reports(store, Slots(r), Bytes(r));
    VerdictFollowsReports(dates, r, reports);
    forall i | 0 <= i < |Slots(r)|
      ensures Slots(r)[i] !in store
    {
      assert reports[i].outcome.FirstSeen?;
    }
  }

  /** Whoever converges is told what the store holds for one of its own slots, under its own bytes. */
  lemma ConvergenceNamesTheStoredOutcome(dates: DateParse, store: Store, r: Request)
    requires Judge(dates, store, r).Converged?
    ensures exists i :: 0 <= i < |Slots(r)| && Slots(r)[i] in store
                        && store[Slots(r)[i]] == Row(Bytes(r), Judge(dates, store, r).storedOutcomeRef)
    ensures forall i :: 0 <= i < |Slots(r)| && Slots(r)[i] in store ==>
                          store[Slots(r)[i]] == Row(Bytes(r), Judge(dates, store, r).storedOutcomeRef)
  {
    hide JudgeOn, Slots, Bytes;
    var reports := Reports(store, Slots(r), Bytes(r));
    VerdictFollowsReports(dates, r, reports);
    var i :| 0 <= i < |reports| && reports[i].outcome.ExactDuplicate?;
    assert reports[i].storedOutcomeRef == Some(Judge(dates, store, r).storedOutcomeRef);
    forall j | 0 <= j < |Slots(r)| && Slots(r)[j] in store
      ensures store[Slots(r)[j]] == Row(Bytes(r), Judge(dates, store, r).storedOutcomeRef)
    {
      assert !reports[j].outcome.ReusedWithChangedSemantics?;
      assert reports[j].outcome.ExactDuplicate?;
    }
  }

  /**
   The same request, with the same server facts, after its effect is stored under
   a reference that says something: it converges on that reference, and only the
   covert device action, which never confirms anything twice, is declined.
   */
  lemma ExactRetryConverges(dates: DateParse, store: Store, later: Store, r: Request, ref: Text)
    requires Judge(dates, store, r).Effect?
    requires !IsBlank(ref)
    requires forall i :: 0 <= i < |Slots(r)| ==> Slots(r)[i] in later && later[Slots(r)[i]] == Row(Bytes(r), ref)
    ensures Judge(dates, later, r) == if r.WhisperRequest? then Declined else Converged(ref)
  {
    hide JudgeOn, Slots, Bytes;
    var first, again := Reports(store, Slots(r), Bytes(r)), Reports(later, Slots(r), Bytes(r));
    VerdictFollowsReports(dates, r, first);
    EffectNeedsConsistency(dates, r, first);
    TrimMeans(ref);
    RetryOnReports(dates, r, first, again, ref);
  }

  lemma EffectNeedsConsistency(dates: DateParse, r: Request, reports: seq<Consumption>)
    requires |reports| == |Slots(r)| && JudgeOn(dates, r, reports).Effect?
    ensures forall i :: 0 <= i < |reports| ==> IsConsistent(reports[i])
  {
    hide RequestProof.EvaluateUnderMode, RequestProof.ReplayKey, RequestProof.Fingerprint;
    hide OfflineOperation.Evaluate, OfflineOperation.ReplayKey, OfflineOperation.Fingerprint;
    hide Enrolment.Evaluate, Enrolment.GrantReplayKey, Enrolment.ChallengeReplayKey, Enrolment.RequestFingerprint,
         Enrolment.PossessionStatement;
    hide KeyRotation.EvaluateWith, KeyRotation.ReplayKey, KeyRotation.RequestFingerprint, KeyRotation.PossessionFingerprint;
    hide WhisperAction.EvaluateWith, WhisperAction.ReplayKey, WhisperAction.Fingerprint;
    hide Literal;
    match r
    case ProofRequest(input, expected, mode) =>
      RequestProof.DecisionExact(dates, input.(consumption := reports[0]), expected, mode);
    case OperationRequest(input) =>
      OfflineOperation.DecisionExact(dates, input.(consumption := reports[0]));
    case EnrolmentRequest(input, grant, challenge) =>
      Enrolment.DecisionExact(dates, input.(grant := Some(grant), challenge := Some(challenge),
                                            grantConsumption := reports[0], challengeConsumption := reports[1]));
    case RotationRequest(input) =>
      var fingerprint := KeyRotation.RequestFingerprint(input.request);
      KeyRotation.DecisionExact(dates, input.(consumption := reports[0]), KeyRotation.ReplayKey(input.request, input.challenge),
                                fingerprint,
                                KeyRotation.PossessionFingerprint(input.request, input.challenge, fingerprint,
                                                                  input.registered.serverResolvedSignatureProfile));
    case WhisperRequest(input) =>
      WhisperAction.DecisionExact(dates, input.(consumption := reports[0]), WhisperAction.ReplayKey(input.submission),
                                  WhisperAction.Fingerprint(input.submission, input.registered.signatureProfile));
  }

  lemma RetryOnReports(dates: DateParse, r: Request, first: seq<Consumption>, again: seq<Consumption>, ref: Text)
    requires |first| == |again| == |Slots(r)| && JudgeOn(dates, r, first).Effect?
    requires forall i :: 0 <= i < |again| ==>
                           && again[i].outcome.ExactDuplicate? && again[i].storedOutcomeRef == Some(ref) && IsConsistent(again[i])
                           && again[i].replayKey == first[i].replayKey
                           && again[i].statementFingerprint == first[i].statementFingerprint
    ensures JudgeOn(dates, r, again) == if r.WhisperRequest? then Declined else Converged(ref)
  {
    hide RequestProof.EvaluateUnderMode, OfflineOperation.Evaluate, Enrolment.Evaluate, KeyRotation.Evaluate,
         WhisperAction.EvaluateWith, WhisperAction.ReplayKey, WhisperAction.Fingerprint, IsConsistent;
    match r
    case ProofRequest(input, expected, mode) =>
      RequestProof.RetryConverges(dates, input.(consumption := first[0]), again[0], expected, mode);
    case OperationRequest(input) =>
      OfflineOperation.RetryConverges(dates, input.(consumption := first[0]), again[0]);
    case EnrolmentRequest(input, grant, challenge) =>
      Enrolment.RetryConverges(dates, input.(grant := Some(grant), challenge := Some(challenge),
                                             grantConsumption := first[0], challengeConsumption := first[1]), again[0], again[1]);
    case RotationRequest(input) =>
      KeyRotation.RetryConverges(dates, input.(consumption := first[0]), again[0]);
    case WhisperRequest(input) =>
      WhisperAction.RetryIsRefused(dates, input.(consumption := first[0]), again[0], WhisperAction.ReplayKey(input.submission),
                                   WhisperAction.Fingerprint(input.submission, input.registered.signatureProfile));
  }

  // ----- runs -----

  datatype Pending = Pending(slots: seq<Text>, bytes: Text)

  datatype Done = Done(slots: seq<Text>, bytes: Text, storedOutcomeRef: Text)

  datatype State = State(store: Store, pending: seq<Pending>, effects: seq<Done>)

  const INITIAL: State := State(map[], [], [])

  /** A request is decided on the store as it is; or a decided request tries to commit, with whatever outcome it produced. */
  datatype Event =
    | Decide(request: Request)
    | TryCommit(index: nat, storedOutcomeRef: Text)

  predicate AllFree(store: Store, slots: seq<Text>) {
    forall i :: 0 <= i < |slots| ==> slots[i] !in store
  }

  function InsertAll(store: Store, slots: seq<Text>, row: Row): (after: Store)
    ensures forall k :: k in after <==> k in store || k in slots
    ensures forall k :: k in slots ==> after[k] == row
    ensures forall k :: k in store && k !in slots ==> after[k] == store[k]
  {
    if slots == [] then store
    else
      assert slots == [slots[0]] + slots[1..];
      InsertAll(store, slots[1..], row)[slots[0] := row]
  }

  function Apply(dates: DateParse, s: State, e: Event): State {
    match e
    case Decide(request) =>
      if Judge(dates, s.store, request).Effect?
      then s.(pending := s.pending + [Pending(Slots(request), Bytes(request))])
      else s
    case TryCommit(index, storedOutcomeRef) =>
      if index >= |s.pending| then s
      else
        var p := s.pending[index];
        if AllFree(s.store, p.slots)
        then s.(store := InsertAll(s.store, p.slots, Row(p.bytes, storedOutcomeRef)),
                pending := s.pending[..index] + s.pending[index + 1..],
                effects := s.effects + [Done(p.slots, p.bytes, storedOutcomeRef)])
        else s.(pending := s.pending[..index] + s.pending[index + 1..])
  }

  function Run(dates: DateParse, s: State, events: seq<Event>): State
    decreases |events|
  {
    if events == [] then s else Run(dates, Apply(dates, s, events[0]), events[1..])
  }

  /** The store is exactly the record of the effects: each slot of each effect, and no two effects on one slot. */
  ghost predicate Sound(s: State) {
    && (forall i :: 0 <= i < |s.effects| ==> Recorded(s.store, s.effects[i]))
    && (forall k :: k in s.store ==> exists i :: 0 <= i < |s.effects| && k in s.effects[i].slots)
    && (forall i, j, k :: 0 <= i < j < |s.effects| && k in s.effects[i].slots ==> k !in s.effects[j].slots)
  }

  /** What was stored stays stored, unchanged, and what was done stays done. */
  ghost predicate Extends(before: State, after: State) {
    && (forall k :: k in before.store ==> k in after.store && after.store[k] == before.store[k])
    && before.effects <= after.effects
  }

  lemma ApplySound(dates: DateParse, s: State, e: Event)
    requires Sound(s)
    ensures Sound(Apply(dates, s, e)) && Extends(s, Apply(dates, s, e))
  {
    hide Judge, Slots, Bytes;
    if e.TryCommit? && e.index < |s.pending| && AllFree(s.store, s.pending[e.index].slots) {
      CommitSound(s, s.pending[e.index], e.storedOutcomeRef, Apply(dates, s, e));
    }
  }

  /** Sound, one effect at a time: the effect's slots hold its row. */
  ghost predicate Recorded(store: Store, done: Done) {
    forall k :: k in done.slots ==> k in store && store[k] == Row(done.bytes, done.storedOutcomeRef)
  }

  lemma StaysRecorded(before: Store, after: Store, done: Done)
    requires Recorded(before, done) && forall k :: k in before ==> k in after && after[k] == before[k]
    ensures Recorded(after, done)
  {
  }

  lemma CommitSound(s: State, p: Pending, ref: Text, after: State)
    requires Sound(s) && AllFree(s.store, p.slots)
    requires after.store == InsertAll(s.store, p.slots, Row(p.bytes, ref))
    requires after.effects == s.effects + [Done(p.slots, p.bytes, ref)]
    ensures Sound(after) && Extends(s, after)
  {
    NewSlotsAreNew(s, p);
    forall i | 0 <= i < |after.effects|
      ensures Recorded(after.store, after.effects[i])
    {
      if i < |s.effects| {
        assert after.effects[i] == s.effects[i];
        StaysRecorded(s.store, after.store, s.effects[i]);
      }
    }
    forall k | k in after.store
      ensures exists i :: 0 <= i < |after.effects| && k in after.effects[i].slots
    {
      SlotHasEffect(s, p, ref, after, k);
    }
    EffectsApart(s, Done(p.slots, p.bytes, ref));
  }

  lemma NewSlotsAreNew(s: State, p: Pending)
    requires Sound(s) && AllFree(s.store, p.slots)
    ensures forall i, k :: 0 <= i < |s.effects| && k in s.effects[i].slots ==> k !in p.slots
    ensures forall k :: k in p.slots ==> k !in s.store
  {
    forall i, k | 0 <= i < |s.effects| && k in s.effects[i].slots
      ensures k !in p.slots
    {
      assert Recorded(s.store, s.effects[i]);
    }
  }

  lemma EffectsApart(s: State, done: Done)
    requires forall i, j, k :: 0 <= i < j < |s.effects| && k in s.effects[i].slots ==> k !in s.effects[j].slots
    requires forall i, k :: 0 <= i < |s.effects| && k in s.effects[i].slots ==> k !in done.slots
    ensures var effects := s.effects + [done];
            forall i, j, k :: 0 <= i < j < |effects| && k in effects[i].slots ==> k !in effects[j].slots
  {
  }

  lemma SlotHasEffect(s: State, p: Pending, ref: Text, after: State, k: Text)
    requires Sound(s) && k in after.store
    requires after.store == InsertAll(s.store, p.slots, Row(p.bytes, ref))
    requires after.effects == s.effects + [Done(p.slots, p.bytes, ref)]
    ensures exists i :: 0 <= i < |after.effects| && k in after.effects[i].slots
  {
    if k in p.slots {
      assert k in after.effects[|s.effects|].slots;
    } else {
      var i :| 0 <= i < |s.effects| && k in s.effects[i].slots;
      assert after.effects[i] == s.effects[i];
    }
  }

  lemma {:induction false} RunSound(dates: DateParse, s: State, events: seq<Event>)
    requires Sound(s)
    ensures Sound(Run(dates, s, events)) && Extends(s, Run(dates, s, events))
    decreases |events|
  {
    hide Apply, Sound;
    if events != [] {
      ApplySound(dates, s, events[0]);
      RunSound(dates, Apply(dates, s, events[0]), events[1..]);
    }
  }

  /**
   Whatever is decided on whatever snapshots, in whatever order it commits, with
   whatever outcome references: every slot has at most one effect, and the store
   names that effect from then on.
   */
  lemma AtMostOneEffectPerSlot(dates: DateParse, events: seq<Event>, later: seq<Event>, i: nat, j: nat, slot: Text)
    requires var s := Run(dates, INITIAL, events);
             i < |s.effects| && j < |s.effects| && slot in s.effects[i].slots && slot in s.effects[j].slots
    ensures i == j
    ensures var s := Run(dates, INITIAL, events);
            var t := Run(dates, s, later);
            && i < |t.effects| && t.effects[i] == s.effects[i]
            && slot in t.store && t.store[slot] == Row(s.effects[i].bytes, s.effects[i].storedOutcomeRef)
  {
    hide Apply, Run;
    RunSound(dates, INITIAL, events);
    var s := Run(dates, INITIAL, events);
    RunSound(dates, s, later);
    assert Recorded(s.store, s.effects[i]);
  }

  /**
   Once a slot has had its effect, every later request for it is either told that
   effect's reference, and then it carries that effect's bytes, or has no effect.
   */
  lemma LaterAdmissionsConverge(dates: DateParse, events: seq<Event>, i: nat, r: Request, n: nat)
    requires i < |Run(dates, INITIAL, events).effects|
    requires n < |Slots(r)| && Slots(r)[n] in Run(dates, INITIAL, events).effects[i].slots
    ensures var s := Run(dates, INITIAL, events);
            var v := Judge(dates, s.store, r);
            && !v.Effect?
            && (v.Converged? ==> v.storedOutcomeRef == s.effects[i].storedOutcomeRef && Bytes(r) == s.effects[i].bytes)
  {
    hide Judge, Slots, Bytes, Apply, Run;
    RunSound(dates, INITIAL, events);
    var s := Run(dates, INITIAL, events);
    assert Recorded(s.store, s.effects[i]);
    if Judge(dates, s.store, r).Effect? {
      EffectNeedsFreshSlots(dates, s.store, r);
    }
    if Judge(dates, s.store, r).Converged? {
      ConvergenceNamesTheStoredOutcome(dates, s.store, r);
    }
  }

  /** Alone, without a rival between its decision and its commit, a decided request always commits. */
  lemma UncontestedCommitSucceeds(dates: DateParse, s: State, r: Request, ref: Text)
    requires Judge(dates, s.store, r).Effect?
    ensures var after := Apply(dates, Apply(dates, s, Decide(r)), TryCommit(|s.pending|, ref));
            after.effects == s.effects + [Done(Slots(r), Bytes(r), ref)] && after.pending == s.pending
  {
    hide Judge, Slots, Bytes;
    EffectNeedsFreshSlots(dates, s.store, r);
    assert (s.pending + [Pending(Slots(r), Bytes(r))])[..|s.pending|] == s.pending;
  }
}
