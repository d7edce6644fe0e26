/**
 The durable queue on an Edge box: nine local states inside the two frozen ones,
 and the operations that move an entry between them. Only central's answer ends
 an entry, and only an ended entry may be reclaimed.
 */
module EdgeQueue {
  import opened JsText
  import opened Options
  import opened StoredOperation
  import opened OfflineOperation

  const MAX_MONOTONIC_POSITION := 9_007_199_254_740_991
  const MAX_UNSETTLED := 4_096

  datatype QueueState =
    | StoredLocal
    | ReadyToForward
    | Forwarding
    | CentralReceived
    | CentralApplying
    | CentralApplied
    | FailedRetryable
    | FailedTerminal
    | Unknown

  predicate IsSettled(state: QueueState) {
    state.CentralApplied? || state.FailedTerminal?
  }

  function ToOperationState(state: QueueState): OperationState {
    if IsSettled(state) then Terminal else Queued
  }

  function AllowedTransitions(from: QueueState): set<QueueState> {
    match from
    case StoredLocal => {ReadyToForward}
    case ReadyToForward => {Forwarding}
    case Forwarding =>
      {CentralReceived, CentralApplying, CentralApplied, FailedTerminal, FailedRetryable, Unknown, ReadyToForward}
    case CentralReceived => {Forwarding, CentralApplying, CentralApplied, FailedTerminal, Unknown}
    case CentralApplying => {Forwarding, CentralApplied, FailedTerminal, Unknown}
    case FailedRetryable => {ReadyToForward, Forwarding}
    case Unknown => {ReadyToForward, Forwarding}
    case CentralApplied => {}
    case FailedTerminal => {}
  }

  /** Why Edge does not know. Every reason is about the wire. */
  datatype UnknownReason = NotAttempted | ConnectFailed | TimedOut | TransportError | ResponseUnintelligible

  function StateForReason(reason: UnknownReason): QueueState {
    match reason
    case NotAttempted => ReadyToForward
    case ConnectFailed => FailedRetryable
    case TimedOut => Unknown
    case TransportError => Unknown
    case ResponseUnintelligible => Unknown
  }

  datatype Entry = Entry(
    envelope: Envelope,
    position: nat,
    state: QueueState,
    settlement: Option<TerminalAnswer>,
    attempts: nat)

  /** The queue, the next position, and everything reclaimed so far. */
  datatype Queue = Queue(entries: map<Text, Entry>, nextPosition: nat, reclaimed: seq<Entry>)

  const EMPTY: Queue := Queue(map[], 0, [])

  function Unsettled(q: Queue): set<Text> {
    set id | id in q.entries && q.entries[id].settlement.None? :: id
  }

  predicate HoldsSequencePosition(q: Queue, e: Envelope) {
    exists id :: id in q.entries
                 && q.entries[id].envelope.organisationId == e.organisationId && q.entries[id].envelope.siteId == e.siteId
                 && q.entries[id].envelope.actorUserId == e.actorUserId && q.entries[id].envelope.deviceId == e.deviceId
                 && q.entries[id].envelope.deviceSequence == e.deviceSequence
  }

  predicate MayAdmit(q: Queue, e: Envelope, storable: bool) {
    && e.offlineOperationId !in q.entries
    && !HoldsSequencePosition(q, e)
    && |Unsettled(q)| < MAX_UNSETTLED
    && q.nextPosition < MAX_MONOTONIC_POSITION
    && storable
  }

  /** `storable` is the stored-operation refinement; failing it rolls the admission back. */
  function Admit(q: Queue, e: Envelope, storable: bool): Queue {
    if MayAdmit(q, e, storable)
    then q.(entries := q.entries[e.offlineOperationId := Entry(e, q.nextPosition, StoredLocal, None, 0)],
            nextPosition := q.nextPosition + 1)
    else q
  }

  /** A missing or settled entry is left alone, and so is one the table gives no step for. */
  predicate MayMove(q: Queue, id: Text, to: QueueState) {
    && id in q.entries && q.entries[id].settlement.None?
    && (q.entries[id].state == to || to in AllowedTransitions(q.entries[id].state))
  }

  function MarkReady(q: Queue, id: Text): Queue {
    if MayMove(q, id, ReadyToForward)
    then q.(entries := q.entries[id := q.entries[id].(state := ReadyToForward)])
    else q
  }

  function Claim(q: Queue, id: Text): Queue {
    if MayMove(q, id, Forwarding)
    then q.(entries := q.entries[id := q.entries[id].(state := Forwarding, attempts := q.entries[id].attempts + 1)])
    else q
  }

  datatype Progress = Received | Applying

  function RecordProgress(q: Queue, id: Text, progress: Progress): Queue {
    var to := if progress.Received? then CentralReceived else CentralApplying;
    if MayMove(q, id, to) then q.(entries := q.entries[id := q.entries[id].(state := to)]) else q
  }

  function RecordUnknown(q: Queue, id: Text, reason: UnknownReason): Queue {
    var to := StateForReason(reason);
    if MayMove(q, id, to) then q.(entries := q.entries[id := q.entries[id].(state := to)]) else q
  }

  function Settle(q: Queue, id: Text, answer: TerminalAnswer): Queue {
    var to := if answer.CentralAccepted? then CentralApplied else FailedTerminal;
    if MayMove(q, id, to)
    then q.(entries := q.entries[id := q.entries[id].(state := to, settlement := Some(answer))])
    else q
  }

  /** A restart files every attempt in flight as unknown. */
  function Recover(q: Queue): Queue {
    q.(entries := map id | id in q.entries ::
         if q.entries[id].state.Forwarding? && q.entries[id].settlement.None?
         then q.entries[id].(state := StateForReason(TransportError))
         else q.entries[id])
  }

  /** Space is reclaimed from settled entries only. */
  function Reclaim(q: Queue, id: Text): Queue {
    if id in q.entries && q.entries[id].settlement.Some?
    then q.(entries := q.entries - {id}, reclaimed := q.reclaimed + [q.entries[id]])
    else q
  }

  // ----- what every entry keeps -----

  /** State and evidence agree, and nothing that left the first two states was never sent. */
  predicate SoundEntry(e: Entry) {
    && (e.settlement.Some? <==> IsSettled(e.state))
    && (e.settlement.Some? ==> (e.settlement.value.CentralAccepted? <==> e.state.CentralApplied?))
    && (e.state !in {StoredLocal, ReadyToForward} ==> e.attempts > 0)
  }

  predicate SoundQueue(q: Queue) {
    && (forall id :: id in q.entries ==>
                       && SoundEntry(q.entries[id]) && q.entries[id].envelope.offlineOperationId == id
                       && q.entries[id].position < q.nextPosition)
    && (forall i :: 0 <= i < |q.reclaimed| ==>
                      && SoundEntry(q.reclaimed[i]) && q.reclaimed[i].settlement.Some?
                      && q.reclaimed[i].position < q.nextPosition)
  }

  /** One admission, now: still in the queue, or reclaimed with central's answer on it. */
  predicate Accounted(q: Queue, e: Envelope, position: nat) {
    || (e.offlineOperationId in q.entries && q.entries[e.offlineOperationId].envelope == e
        && q.entries[e.offlineOperationId].position == position)
    || exists i :: 0 <= i < |q.reclaimed| && q.reclaimed[i].envelope == e && q.reclaimed[i].position == position
                   && q.reclaimed[i].settlement.Some?
  }

  /** A settled entry as it was when it was settled, in the queue or among the reclaimed. */
  predicate Keeps(q: Queue, entry: Entry) {
    || (entry.envelope.offlineOperationId in q.entries && q.entries[entry.envelope.offlineOperationId] == entry)
    || entry in q.reclaimed
  }

  /** From one queue to the next, no admission is lost, no settled entry changes, and nothing is settled here. */
  ghost predicate OnlyLocalChange(before: Queue, after: Queue) {
    && SoundQueue(after)
    && (forall e, p :: Accounted(before, e, p) ==> Accounted(after, e, p))
    && (forall entry: Entry :: entry.settlement.Some? && Keeps(before, entry) ==> Keeps(after, entry))
    && (forall entry: Entry :: entry.settlement.Some? && Keeps(after, entry) ==> Keeps(before, entry))
  }

  /** One unsettled entry gets a new unsettled state. */
  lemma MoveIsLocal(q: Queue, id: Text, state: QueueState, attempts: nat)
    requires SoundQueue(q) && id in q.entries && q.entries[id].settlement.None?
    requires !IsSettled(state) && attempts >= q.entries[id].attempts
    requires state !in {StoredLocal, ReadyToForward} ==> attempts > 0
    ensures OnlyLocalChange(q, q.(entries := q.entries[id := q.entries[id].(state := state, attempts := attempts)]))
  {
    var after := q.(entries := q.entries[id := q.entries[id].(state := state, attempts := attempts)]);
    forall e, p | Accounted(q, e, p)
      ensures Accounted(after, e, p)
    {
      if !(e.offlineOperationId in q.entries && q.entries[e.offlineOperationId].envelope == e
           && q.entries[e.offlineOperationId].position == p) {
        var i :| 0 <= i < |q.reclaimed| && q.reclaimed[i].envelope == e && q.reclaimed[i].position == p
                 && q.reclaimed[i].settlement.Some?;
        assert after.reclaimed[i].envelope == e;
      }
    }
  }

  lemma AdmitKeeps(q: Queue, e: Envelope, storable: bool)
    requires SoundQueue(q)
    ensures OnlyLocalChange(q, Admit(q, e, storable))
    ensures MayAdmit(q, e, storable) ==> Accounted(Admit(q, e, storable), e, q.nextPosition)
  {
    var after := Admit(q, e, storable);
    forall f, p | Accounted(q, f, p)
      ensures Accounted(after, f, p)
    {
      if !(f.offlineOperationId in q.entries && q.entries[f.offlineOperationId].envelope == f
           && q.entries[f.offlineOperationId].position == p) {
        var i :| 0 <= i < |q.reclaimed| && q.reclaimed[i].envelope == f && q.reclaimed[i].position == p
                 && q.reclaimed[i].settlement.Some?;
        assert after.reclaimed[i].envelope == f;
      }
    }
  }

  /** Admission told without its guard: what must hold, and what is then stored. */
  lemma AdmittedExactlyWhen(q: Queue, e: Envelope, storable: bool)
    ensures Admit(q, e, storable) ==
            if && storable && e.offlineOperationId !in q.entries
               && (forall id :: id in q.entries ==>
                     var f := q.entries[id].envelope;
                     !(f.organisationId == e.organisationId && f.siteId == e.siteId && f.actorUserId == e.actorUserId
                       && f.deviceId == e.deviceId && f.deviceSequence == e.deviceSequence))
               && |set id | id in q.entries && q.entries[id].settlement == None| < 4096
               && q.nextPosition < 0x1f_ffff_ffff_ffff
            then Queue(q.entries[e.offlineOperationId := Entry(e, q.nextPosition, StoredLocal, None, 0)], q.nextPosition + 1, q.reclaimed)
            else q
  {
    assert Unsettled(q) == set id | id in q.entries && q.entries[id].settlement == None;
  }

  lemma MarkReadyKeeps(q: Queue, id: Text)
    requires SoundQueue(q)
    ensures OnlyLocalChange(q, MarkReady(q, id))
  {
    if MayMove(q, id, ReadyToForward) {
      MoveIsLocal(q, id, ReadyToForward, q.entries[id].attempts);
    }
  }

  lemma ClaimKeeps(q: Queue, id: Text)
    requires SoundQueue(q)
    ensures OnlyLocalChange(q, Claim(q, id))
  {
    if MayMove(q, id, Forwarding) {
      MoveIsLocal(q, id, Forwarding, q.entries[id].attempts + 1);
    }
  }

  lemma ProgressKeeps(q: Queue, id: Text, progress: Progress)
    requires SoundQueue(q)
    ensures OnlyLocalChange(q, RecordProgress(q, id, progress))
  {
    var to := if progress.Received? then CentralReceived else CentralApplying;
    if MayMove(q, id, to) {
      MoveIsLocal(q, id, to, q.entries[id].attempts);
    }
  }

  lemma UnknownKeeps(q: Queue, id: Text, reason: UnknownReason)
    requires SoundQueue(q)
    ensures OnlyLocalChange(q, RecordUnknown(q, id, reason))
  {
    if MayMove(q, id, StateForReason(reason)) {
      MoveIsLocal(q, id, StateForReason(reason), q.entries[id].attempts);
    }
  }

  /** A restart loses no admission, settles nothing, and makes exactly the attempts in flight unknown. */
  lemma RecoverKeeps(q: Queue)
    requires SoundQueue(q)
    ensures OnlyLocalChange(q, Recover(q))
    ensures var after := Recover(q);
            && after.entries.Keys == q.entries.Keys && after.nextPosition == q.nextPosition && after.reclaimed == q.reclaimed
            && forall id :: id in q.entries ==>
                              after.entries[id] == if q.entries[id].state == Forwarding then q.entries[id].(state := Unknown) else q.entries[id]
  {
    var after := Recover(q);
    forall e, p | Accounted(q, e, p)
      ensures Accounted(after, e, p)
    {
      if !(e.offlineOperationId in q.entries && q.entries[e.offlineOperationId].envelope == e
           && q.entries[e.offlineOperationId].position == p) {
        var i :| 0 <= i < |q.reclaimed| && q.reclaimed[i].envelope == e && q.reclaimed[i].position == p
                 && q.reclaimed[i].settlement.Some?;
        assert after.reclaimed[i].envelope == e;
      }
    }
  }

  /** Reclaiming takes a settled entry out of the queue and onto the record, and leaves every other entry where it is. */
  lemma ReclaimKeeps(q: Queue, id: Text)
    requires SoundQueue(q)
    ensures OnlyLocalChange(q, Reclaim(q, id))
    ensures var after := Reclaim(q, id);
            if id in q.entries && q.entries[id].state in {CentralApplied, FailedTerminal}
            then after.entries == q.entries - {id} && after.reclaimed == q.reclaimed + [q.entries[id]]
            else after == q
  {
    var after := Reclaim(q, id);
    if after != q {
      assert after.reclaimed[|q.reclaimed|] == q.entries[id];
      forall e, p | Accounted(q, e, p)
        ensures Accounted(after, e, p)
      {
        ReclaimAccounts(q, id, e, p);
      }
      assert forall entry :: entry in after.reclaimed <==> entry in q.reclaimed || entry == q.entries[id];
    }
  }

  lemma ReclaimAccounts(q: Queue, id: Text, e: Envelope, p: nat)
    requires SoundQueue(q) && Accounted(q, e, p) && id in q.entries && q.entries[id].settlement.Some?
    ensures Accounted(Reclaim(q, id), e, p)
  {
    var after := Reclaim(q, id);
    if e.offlineOperationId in q.entries && q.entries[e.offlineOperationId].envelope == e
       && q.entries[e.offlineOperationId].position == p {
      if e.offlineOperationId == id {
        assert after.reclaimed[|q.reclaimed|] == q.entries[id];
      }
    } else {
      var i :| 0 <= i < |q.reclaimed| && q.reclaimed[i].envelope == e && q.reclaimed[i].position == p
               && q.reclaimed[i].settlement.Some?;
      assert after.reclaimed[i] == q.reclaimed[i];
    }
  }

  /**
   What settling does. An unsettled entry whose attempt is under way ends with the
   answer given, accepted in CENTRAL_APPLIED and refused in FAILED_TERMINAL; any
   other entry, settled or not under way, is left alone, and so is the rest of the
   queue.
   */
  lemma SettleRecordsTheAnswer(q: Queue, id: Text, answer: TerminalAnswer)
    ensures var after := Settle(q, id, answer);
            && after.entries.Keys == q.entries.Keys && after.reclaimed == q.reclaimed && after.nextPosition == q.nextPosition
            && (forall other :: other in q.entries && other != id ==> after.entries[other] == q.entries[other])
            && (id in q.entries ==>
                var before, e := q.entries[id], after.entries[id];
                if before.settlement.None? && before.state in {Forwarding, CentralReceived, CentralApplying}
                then e == Entry(before.envelope, before.position, if answer.CentralAccepted? then CentralApplied else FailedTerminal,
                                Some(answer), before.attempts)
                else before.settlement.Some? || !IsSettled(before.state) ==> e == before)
  {
  }

  /** The queue with one entry in another state and everything else as it is. */
  function Moved(q: Queue, id: Text, state: QueueState): Queue
    requires id in q.entries
  {
    q.(entries := q.entries[id := q.entries[id].(state := state)])
  }

  /** Which moves exist, from every state an unsettled entry can be in. A move that does not exist changes nothing. */
  lemma MovesOfAnUnsettledEntry(q: Queue, id: Text)
    requires SoundQueue(q) && id in q.entries && q.entries[id].settlement.None?
    ensures var state := q.entries[id].state;
            && MarkReady(q, id) == (if state in {CentralReceived, CentralApplying} then q else Moved(q, id, ReadyToForward))
            && RecordProgress(q, id, Received) == (if state in {Forwarding, CentralReceived} then Moved(q, id, CentralReceived) else q)
            && RecordProgress(q, id, Applying) ==
               (if state in {Forwarding, CentralReceived, CentralApplying} then Moved(q, id, CentralApplying) else q)
            && RecordUnknown(q, id, NotAttempted) == MarkReady(q, id)
            && RecordUnknown(q, id, ConnectFailed) == (if state in {Forwarding, FailedRetryable} then Moved(q, id, FailedRetryable) else q)
            && (forall reason: UnknownReason :: reason in {TimedOut, TransportError, ResponseUnintelligible} ==>
                  RecordUnknown(q, id, reason) ==
                  if state in {Forwarding, CentralReceived, CentralApplying, Unknown} then Moved(q, id, Unknown) else q)
            && (state == StoredLocal ==> Claim(q, id) == q)
            && (state != StoredLocal ==> Claim(q, id) == q.(entries := q.entries[id :=
                                           q.entries[id].(state := Forwarding, attempts := q.entries[id].attempts + 1)]))
  {
    assert SoundEntry(q.entries[id]);
  }

  /** A settled entry has no moves left, and an id not in the queue has none. */
  lemma NothingElseMoves(q: Queue, id: Text, progress: Progress, reason: UnknownReason, answer: TerminalAnswer)
    requires id in q.entries ==> q.entries[id].settlement.Some?
    ensures q == MarkReady(q, id) == Claim(q, id) == RecordProgress(q, id, progress) == RecordUnknown(q, id, reason) == Settle(q, id, answer)
  {
  }

  /** Every unsettled entry can be put under way, whatever state the wire left it in, and nothing else moves. */
  lemma AttemptIsPossible(q: Queue, id: Text)
    requires SoundQueue(q) && id in q.entries && q.entries[id].settlement.None?
    ensures var after := Claim(MarkReady(q, id), id);
            && after.entries.Keys == q.entries.Keys && after.reclaimed == q.reclaimed && after.nextPosition == q.nextPosition
            && (forall other :: other in q.entries && other != id ==> after.entries[other] == q.entries[other])
            && after.entries[id] == Entry(q.entries[id].envelope, q.entries[id].position, Forwarding, None, q.entries[id].attempts + 1)
  {
    assert !IsSettled(q.entries[id].state);
  }

  /** Settling changes one entry, once, to the answer given, and loses nothing. */
  lemma SettleKeeps(q: Queue, id: Text, answer: TerminalAnswer)
    requires SoundQueue(q)
    ensures var after := Settle(q, id, answer);
            && SoundQueue(after)
            && (forall e, p :: Accounted(q, e, p) ==> Accounted(after, e, p))
            && (forall entry: Entry :: entry.settlement.Some? && Keeps(q, entry) ==> Keeps(after, entry))
            && (forall entry: Entry :: entry.settlement.Some? && Keeps(after, entry) ==>
                                         || Keeps(q, entry)
                                         || (id in q.entries && entry.envelope == q.entries[id].envelope && entry.settlement == Some(answer)))
  {
    var after := Settle(q, id, answer);
    forall e, p | Accounted(q, e, p)
      ensures Accounted(after, e, p)
    {
      if !(e.offlineOperationId in q.entries && q.entries[e.offlineOperationId].envelope == e
           && q.entries[e.offlineOperationId].position == p) {
        var i :| 0 <= i < |q.reclaimed| && q.reclaimed[i].envelope == e && q.reclaimed[i].position == p
                 && q.reclaimed[i].settlement.Some?;
        assert after.reclaimed[i].envelope == e;
      }
    }
  }
}
