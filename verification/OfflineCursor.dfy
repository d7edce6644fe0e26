/**
 One device queue at central: a cursor over contiguous positions, a receipt per
 position, workers that claim a receipt under an expiring lease, and a domain
 that keeps at most one effect per operation key.
 */
module OfflineCursor {
  import opened JsText
  import opened Options
  import opened OfflineRequest

  const MAX_SEQUENCE := 9_007_199_254_740_991

  datatype Classification = Fresh | SequenceGap | Replay | SequenceReused | SequenceStale

  /** The position to submit next, or none once the last one is finalized. */
  function NextExpected(last: Option<nat>): Option<nat> {
    match last
    case None => Some(0)
    case Some(n) => if n >= MAX_SEQUENCE then None else Some(n + 1)
  }

  /** `receipt` says whether a stored receipt is for the same request. */
  function Classify(last: Option<nat>, incoming: nat, receipt: Option<bool>): Classification {
    var next := NextExpected(last);
    if next.Some? && incoming == next.value then Fresh
    else if next.Some? && incoming > next.value then SequenceGap
    else if receipt.Some? then (if receipt.value then Replay else SequenceReused)
    else SequenceStale
  }

  datatype Status = Received | Applying | Applied | Rejected | UnknownOutcome

  predicate AdvancesCursor(status: Status) {
    status.Applied? || status.Rejected?
  }

  datatype Receipt = Receipt(
    operationId: Text,
    sequence: nat,
    fingerprint: Text,
    status: Status,
    generation: nat,
    resultRef: Option<Text>)

  /** A committed domain effect, under the key of its operation. */
  datatype Effect = Effect(sequence: nat, operationId: Text)

  /** `refusals` are the claims whose execution the domain refused, not yet recorded on the receipt. */
  datatype State = State(
    cursor: Option<nat>,
    receipts: map<nat, Receipt>,
    effects: seq<Effect>,
    refusals: set<(nat, nat)>)

  const INITIAL: State := State(None, map[], [], {})

  datatype Conflict = OperationIdReused | Gap | Reused | Stale | UnknownYet

  datatype Admission =
    | Refuse(conflict: Conflict, expected: Option<nat>)
    | ReplayStored(receipt: Receipt)
    | Resume(receipt: Receipt)
    | Create

  predicate IdElsewhere(s: State, operationId: Text, sequence: nat) {
    exists n :: n in s.receipts && s.receipts[n].operationId == operationId && n != sequence
  }

  /** The admission decision, taken under the cursor's lock. */
  function Admit(ns: Namespace, s: State, op: Operation): Admission
    requires op.deviceSequence >= 0
  {
    var expected := NextExpected(s.cursor);
    var n: nat := op.deviceSequence;
    var fingerprint := SemanticRequest(ns, op);
    if IdElsewhere(s, op.offlineOperationId, n) then Refuse(OperationIdReused, expected)
    else
      var known := if n in s.receipts then Some(s.receipts[n].fingerprint == fingerprint) else None;
      match Classify(s.cursor, n, known)
      case SequenceGap => Refuse(Gap, expected)
      case SequenceReused => Refuse(Reused, expected)
      case SequenceStale => Refuse(Stale, expected)
      case Replay =>
        if n in s.receipts && AdvancesCursor(s.receipts[n].status) then ReplayStored(s.receipts[n])
        else Refuse(UnknownYet, expected)
      case Fresh =>
        if n !in s.receipts then Create
        else if s.receipts[n].fingerprint != fingerprint then Refuse(Reused, expected)
        else if AdvancesCursor(s.receipts[n].status) then ReplayStored(s.receipts[n])
        else Resume(s.receipts[n])
  }

  datatype Event =
    | Submit(op: Operation)
    | Claim(sequence: nat, leaseExpired: bool)
    | DomainCommits(sequence: nat, generation: nat)
    | DomainRefuses(sequence: nat, generation: nat)
    | FinalizeApplied(sequence: nat, generation: nat, resultRef: Text)
    | FinalizeRejected(sequence: nat, generation: nat)
    | MarkUnknown(sequence: nat, generation: nat)

  predicate Committed(s: State, operationId: Text) {
    exists i :: 0 <= i < |s.effects| && s.effects[i].operationId == operationId
  }

  /** The claim was given at some time; it may have been superseded since. */
  predicate Claimed(s: State, sequence: nat, generation: nat) {
    sequence in s.receipts && 1 <= generation <= s.receipts[sequence].generation
  }

  /** The fence: the claim is still the one in force. */
  predicate Holds(s: State, sequence: nat, generation: nat) {
    sequence in s.receipts && s.receipts[sequence].status.Applying? && s.receipts[sequence].generation == generation
  }

  /** A late worker executes too: the domain knows keys, not claims. */
  predicate CommitTakesEffect(s: State, sequence: nat, generation: nat) {
    && Claimed(s, sequence, generation) && (sequence, generation) !in s.refusals
    && !Committed(s, s.receipts[sequence].operationId)
  }

  function Advance(cursor: Option<nat>, sequence: nat): Option<nat> {
    if cursor.None? || cursor.value < sequence then Some(sequence) else cursor
  }

  function Apply(ns: Namespace, s: State, e: Event): State {
    match e
    case Submit(op) =>
      if 0 <= op.deviceSequence <= MAX_SEQUENCE && Parsed(op) && Admit(ns, s, op).Create?
      then s.(receipts := s.receipts[op.deviceSequence :=
                Receipt(op.offlineOperationId, op.deviceSequence, SemanticRequest(ns, op), Received, 0, None)])
      else s
    case Claim(n, leaseExpired) =>
      if n in s.receipts && (s.receipts[n].status in {Received, UnknownOutcome} || (s.receipts[n].status.Applying? && leaseExpired))
      then s.(receipts := s.receipts[n := s.receipts[n].(status := Applying, generation := s.receipts[n].generation + 1)])
      else s
    case DomainCommits(n, g) =>
      if CommitTakesEffect(s, n, g) then s.(effects := s.effects + [Effect(n, s.receipts[n].operationId)]) else s
    case DomainRefuses(n, g) =>
      if Claimed(s, n, g) && !Committed(s, s.receipts[n].operationId) then s.(refusals := s.refusals + {(n, g)}) else s
    case FinalizeApplied(n, g, ref) =>
      if Holds(s, n, g) && Committed(s, s.receipts[n].operationId)
      then s.(receipts := s.receipts[n := s.receipts[n].(status := Applied, resultRef := Some(ref))],
              cursor := Advance(s.cursor, n))
      else s
    case FinalizeRejected(n, g) =>
      if Holds(s, n, g) && (n, g) in s.refusals
      then s.(receipts := s.receipts[n := s.receipts[n].(status := Rejected)], cursor := Advance(s.cursor, n))
      else s
    case MarkUnknown(n, g) =>
      if Holds(s, n, g) then s.(receipts := s.receipts[n := s.receipts[n].(status := UnknownOutcome)]) else s
  }

  function Run(ns: Namespace, s: State, events: seq<Event>): State
    decreases |events|
  {
    if events == [] then s else Run(ns, Apply(ns, s, events[0]), events[1..])
  }

  // ----- what every run keeps -----

  /** The receipt was made from a parsed operation at this position. */
  ghost predicate Minted(ns: Namespace, r: Receipt) {
    exists op: Operation :: && Parsed(op) && op.deviceSequence == r.sequence
                            && op.offlineOperationId == r.operationId && SemanticRequest(ns, op) == r.fingerprint
  }

  predicate Finalized(s: State, n: nat) {
    n in s.receipts && AdvancesCursor(s.receipts[n].status)
  }

  /** Finalized positions are exactly 0..cursor, and the only other receipt is at the next position. */
  ghost predicate Contiguous(s: State) {
    && (s.cursor.Some? ==> s.cursor.value <= MAX_SEQUENCE)
    && (forall n: nat :: Finalized(s, n) <==> s.cursor.Some? && n <= s.cursor.value)
    && (forall n: nat :: n in s.receipts && !Finalized(s, n) ==> NextExpected(s.cursor) == Some(n))
  }

  ghost predicate ReceiptsProper(ns: Namespace, s: State) {
    && (forall n :: n in s.receipts ==> s.receipts[n].sequence == n && Minted(ns, s.receipts[n]))
    && (forall n, m :: n in s.receipts && m in s.receipts && s.receipts[n].operationId == s.receipts[m].operationId ==> n == m)
  }

  /** Effects belong to receipts, one at most to each, and an applied receipt has its own. */
  ghost predicate EffectsProper(s: State) {
    && (forall i :: 0 <= i < |s.effects| ==>
                      s.effects[i].sequence in s.receipts
                      && s.receipts[s.effects[i].sequence].operationId == s.effects[i].operationId)
    && (forall i, j :: 0 <= i < j < |s.effects| ==> s.effects[i].operationId != s.effects[j].operationId)
    && (forall n :: n in s.receipts && s.receipts[n].status.Applied? ==> Committed(s, s.receipts[n].operationId))
  }

  ghost predicate Sound(ns: Namespace, s: State) {
    Contiguous(s) && ReceiptsProper(ns, s) && EffectsProper(s)
  }

  /** Finalized receipts never change, and effects are only added. */
  ghost predicate Extends(before: State, after: State) {
    && (forall n :: Finalized(before, n) ==> n in after.receipts && after.receipts[n] == before.receipts[n])
    && (forall n :: n in before.receipts ==> n in after.receipts && after.receipts[n].operationId == before.receipts[n].operationId)
    && before.effects <= after.effects
  }

  lemma SubmitSound(ns: Namespace, s: State, e: Event)
    requires Sound(ns, s) && e.Submit?
    ensures Sound(ns, Apply(ns, s, e)) && Extends(s, Apply(ns, s, e)) && Apply(ns, s, e).cursor == s.cursor
  {
    hide SemanticRequest, Parsed, Sound, Minted;
    if Apply(ns, s, e) != s {
      CreateSound(ns, s, e.op);
    }
  }

  lemma NewReceiptProper(ns: Namespace, s: State, n: nat, r: Receipt, after: State)
    requires ReceiptsProper(ns, s) && n !in s.receipts && r.sequence == n && Minted(ns, r)
    requires forall m :: m in s.receipts ==> s.receipts[m].operationId != r.operationId
    requires after.receipts == s.receipts[n := r]
    ensures ReceiptsProper(ns, after)
  {
    hide Minted;
  }

  lemma CreatedAt(ns: Namespace, s: State, op: Operation)
    requires 0 <= op.deviceSequence <= MAX_SEQUENCE && Admit(ns, s, op).Create?
    ensures NextExpected(s.cursor) == Some(op.deviceSequence) && op.deviceSequence !in s.receipts
    ensures forall m :: m in s.receipts ==> s.receipts[m].operationId != op.offlineOperationId
  {
    hide SemanticRequest;
  }

  lemma NewReceiptContiguous(s: State, n: nat, r: Receipt, after: State)
    requires Contiguous(s) && NextExpected(s.cursor) == Some(n) && n !in s.receipts && !AdvancesCursor(r.status)
    requires after.receipts == s.receipts[n := r] && after.cursor == s.cursor
    ensures Contiguous(after)
  {
    assert forall m: nat :: Finalized(after, m) <==> Finalized(s, m);
  }

  lemma CreateSound(ns: Namespace, s: State, op: Operation)
    requires Sound(ns, s) && 0 <= op.deviceSequence <= MAX_SEQUENCE && Parsed(op)
    requires Admit(ns, s, op).Create?
    ensures var r := Receipt(op.offlineOperationId, op.deviceSequence, SemanticRequest(ns, op), Received, 0, None);
            var after := s.(receipts := s.receipts[op.deviceSequence := r]);
            Sound(ns, after) && Extends(s, after)
  {
    hide SemanticRequest, Parsed, Admit, Contiguous, ReceiptsProper, EffectsProper;
    var n: nat := op.deviceSequence;
    var r := Receipt(op.offlineOperationId, n, SemanticRequest(ns, op), Received, 0, None);
    var after := s.(receipts := s.receipts[n := r]);
    assert Minted(ns, r);
    hide Minted;
    CreatedAt(ns, s, op);
    NewReceiptProper(ns, s, n, r, after);
    NewReceiptContiguous(s, n, r, after);
    AppliedCommitted(s);
    SameEffects(s, after);
  }

  lemma AppliedCommitted(s: State)
    requires EffectsProper(s)
    ensures forall n :: n in s.receipts && s.receipts[n].status.Applied? ==> Committed(s, s.receipts[n].operationId)
  {
  }

  /** A change that keeps every old receipt's operation and adds no effect keeps what is known about effects. */
  lemma SameEffects(s: State, after: State)
    requires EffectsProper(s) && after.effects == s.effects
    requires forall n :: n in s.receipts ==> n in after.receipts && after.receipts[n].operationId == s.receipts[n].operationId
    requires forall n :: n in after.receipts && after.receipts[n].status.Applied? ==>
                           Committed(s, after.receipts[n].operationId)
    ensures EffectsProper(after)
  {
    forall id | Committed(s, id)
      ensures Committed(after, id)
    {
      var i :| 0 <= i < |s.effects| && s.effects[i].operationId == id;
      assert after.effects[i].operationId == id;
    }
  }

  predicate SameReceiptBut(r: Receipt, after: Receipt) {
    after.operationId == r.operationId && after.sequence == r.sequence && after.fingerprint == r.fingerprint
  }

  lemma ReceiptsStayProper(ns: Namespace, s: State, n: nat, r: Receipt, after: State)
    requires ReceiptsProper(ns, s) && n in s.receipts && SameReceiptBut(s.receipts[n], r)
    requires after.receipts == s.receipts[n := r]
    ensures ReceiptsProper(ns, after)
  {
    hide Minted;
    MintedKeeps(ns, s.receipts[n], r);
    forall m, k | m in after.receipts && k in after.receipts && after.receipts[m].operationId == after.receipts[k].operationId
      ensures m == k
    {
      assert s.receipts[m].operationId == s.receipts[k].operationId;
    }
  }

  lemma MintedKeeps(ns: Namespace, r: Receipt, after: Receipt)
    requires Minted(ns, r) && SameReceiptBut(r, after)
    ensures Minted(ns, after)
  {
    hide SemanticRequest, Parsed;
  }

  /** One unfinalized receipt moves to another unfinalized status. */
  lemma TouchSound(ns: Namespace, s: State, n: nat, r: Receipt)
    requires Sound(ns, s) && n in s.receipts && !Finalized(s, n) && SameReceiptBut(s.receipts[n], r) && !AdvancesCursor(r.status)
    ensures var after := s.(receipts := s.receipts[n := r]); Sound(ns, after) && Extends(s, after)
  {
    hide Minted;
    var after := s.(receipts := s.receipts[n := r]);
    ReceiptsStayProper(ns, s, n, r, after);
    assert forall m: nat :: Finalized(after, m) <==> Finalized(s, m);
    SameEffects(s, after);
  }

  lemma WorkSound(ns: Namespace, s: State, e: Event)
    requires Sound(ns, s) && (e.Claim? || e.MarkUnknown?)
    ensures Sound(ns, Apply(ns, s, e)) && Extends(s, Apply(ns, s, e)) && Apply(ns, s, e).cursor == s.cursor
  {
    hide Sound, Minted, Admit;
    if Apply(ns, s, e) != s {
      TouchSound(ns, s, e.sequence, Apply(ns, s, e).receipts[e.sequence]);
    }
  }

  lemma MoreCommitted(s: State, effect: Effect, id: Text)
    ensures Committed(s.(effects := s.effects + [effect]), id) <==> Committed(s, id) || id == effect.operationId
  {
    var after := s.(effects := s.effects + [effect]);
    if Committed(s, id) {
      var i :| 0 <= i < |s.effects| && s.effects[i].operationId == id;
      assert after.effects[i].operationId == id;
    }
    if id == effect.operationId {
      assert after.effects[|s.effects|].operationId == id;
    }
  }

  lemma CommitSound(s: State, n: nat)
    requires EffectsProper(s) && n in s.receipts && !Committed(s, s.receipts[n].operationId)
    ensures EffectsProper(s.(effects := s.effects + [Effect(n, s.receipts[n].operationId)]))
  {
    var effect := Effect(n, s.receipts[n].operationId);
    var after := s.(effects := s.effects + [effect]);
    forall m | m in after.receipts && after.receipts[m].status.Applied?
      ensures Committed(after, after.receipts[m].operationId)
    {
      MoreCommitted(s, effect, s.receipts[m].operationId);
    }
  }

  lemma DomainSound(ns: Namespace, s: State, e: Event)
    requires Sound(ns, s) && (e.DomainCommits? || e.DomainRefuses?)
    ensures Sound(ns, Apply(ns, s, e)) && Extends(s, Apply(ns, s, e)) && Apply(ns, s, e).cursor == s.cursor
  {
    hide Admit, Minted, EffectsProper;
    var after := Apply(ns, s, e);
    assert forall m: nat :: Finalized(after, m) <==> Finalized(s, m);
    if e.DomainCommits? && after != s {
      CommitSound(s, e.sequence);
    } else {
      EffectsElsewhere(s, after);
    }
  }

  lemma EffectsElsewhere(s: State, after: State)
    requires EffectsProper(s) && after.effects == s.effects && after.receipts == s.receipts
    ensures EffectsProper(after)
  {
    assert forall id :: Committed(after, id) <==> Committed(s, id);
  }

  /** The receipt at the next position becomes final, and the cursor moves to it. */
  lemma FinishSound(ns: Namespace, s: State, n: nat, r: Receipt)
    requires Sound(ns, s) && n in s.receipts && !Finalized(s, n) && SameReceiptBut(s.receipts[n], r) && AdvancesCursor(r.status)
    requires r.status.Applied? ==> Committed(s, r.operationId)
    ensures var after := s.(receipts := s.receipts[n := r], cursor := Some(n));
            Sound(ns, after) && Extends(s, after) && Advance(s.cursor, n) == Some(n)
    ensures NextExpected(s.cursor) == Some(n)
  {
    hide Minted;
    var after := s.(receipts := s.receipts[n := r], cursor := Some(n));
    ReceiptsStayProper(ns, s, n, r, after);
    SameEffects(s, after);
    assert NextExpected(s.cursor) == Some(n);
    assert forall m: nat :: Finalized(after, m) <==> Finalized(s, m) || m == n;
  }

  lemma FinalizeSound(ns: Namespace, s: State, e: Event)
    requires Sound(ns, s) && (e.FinalizeApplied? || e.FinalizeRejected?)
    ensures Sound(ns, Apply(ns, s, e)) && Extends(s, Apply(ns, s, e))
    ensures Apply(ns, s, e) == s
            || (NextExpected(s.cursor) == Some(e.sequence) && Apply(ns, s, e).cursor == Some(e.sequence))
  {
    hide Sound, Minted, Admit;
    if Apply(ns, s, e) != s {
      FinishSound(ns, s, e.sequence, Apply(ns, s, e).receipts[e.sequence]);
    }
  }

  /** Every step keeps the queue sound; the cursor only moves to the next position, and only when it is finalized. */
  lemma ApplySound(ns: Namespace, s: State, e: Event)
    requires Sound(ns, s)
    ensures Sound(ns, Apply(ns, s, e)) && Extends(s, Apply(ns, s, e))
    ensures Apply(ns, s, e).cursor == s.cursor
            || ((e.FinalizeApplied? || e.FinalizeRejected?) && Apply(ns, s, e).cursor == NextExpected(s.cursor) == Some(e.sequence))
  {
    hide Sound, Extends, Apply;
    match e
    case Submit(_) => SubmitSound(ns, s, e);
    case Claim(_, _) => WorkSound(ns, s, e);
    case MarkUnknown(_, _) => WorkSound(ns, s, e);
    case DomainCommits(_, _) => DomainSound(ns, s, e);
    case DomainRefuses(_, _) => DomainSound(ns, s, e);
    case _ => FinalizeSound(ns, s, e);
  }

  lemma ExtendsTransitive(a: State, b: State, c: State)
    requires Extends(a, b) && Extends(b, c)
    ensures Extends(a, c)
  {
  }

  lemma {:induction false} RunSound(ns: Namespace, s: State, events: seq<Event>)
    requires Sound(ns, s)
    ensures Sound(ns, Run(ns, s, events)) && Extends(s, Run(ns, s, events))
    decreases |events|
  {
    hide Sound, Apply;
    if events != [] {
      ApplySound(ns, s, events[0]);
      RunSound(ns, Apply(ns, s, events[0]), events[1..]);
      ExtendsTransitive(s, Apply(ns, s, events[0]), Run(ns, Apply(ns, s, events[0]), events[1..]));
    }
  }

  // ----- the main results -----

  /** Finalized positions are exactly 0..cursor, each with one receipt that never changes again, and nothing passes MAX. */
  lemma FinalizedPrefixIsImmutable(ns: Namespace, events: seq<Event>, later: seq<Event>, n: nat)
    ensures var s := Run(ns, INITIAL, events);
            && (Finalized(s, n) <==> s.cursor.Some? && n <= s.cursor.value)
            && (s.cursor.Some? ==> s.cursor.value <= MAX_SEQUENCE)
            && (n in s.receipts ==> n <= MAX_SEQUENCE)
            && (Finalized(s, n) ==> Finalized(Run(ns, s, later), n) && Run(ns, s, later).receipts[n] == s.receipts[n])
  {
    hide Apply, Run, Minted;
    RunSound(ns, INITIAL, events);
    RunSound(ns, Run(ns, INITIAL, events), later);
  }

  /** However workers race and leases expire, a position has at most one effect, and an applied one has exactly one. */
  lemma AtMostOneEffectPerPosition(ns: Namespace, events: seq<Event>, i: nat, j: nat, n: nat)
    requires var s := Run(ns, INITIAL, events); i < |s.effects| && j < |s.effects|
    ensures var s := Run(ns, INITIAL, events);
            && (s.effects[i].sequence == s.effects[j].sequence ==> i == j)
            && (n in s.receipts && s.receipts[n].status.Applied? ==> exists k :: 0 <= k < |s.effects| && s.effects[k].sequence == n)
  {
    hide Apply, Run, Minted;
    RunSound(ns, INITIAL, events);
    var s := Run(ns, INITIAL, events);
    if n in s.receipts && s.receipts[n].status.Applied? {
      var k :| 0 <= k < |s.effects| && s.effects[k].operationId == s.receipts[n].operationId;
      assert s.effects[k].sequence == n;
    }
  }

  /**
   Submitting again at a finalized position: the same request is told the stored
   outcome, a changed one is refused, and neither changes anything.
   */
  lemma Resubmission(ns: Namespace, events: seq<Event>, op: Operation)
    requires op.deviceSequence >= 0 && Parsed(op) && Finalized(Run(ns, INITIAL, events), op.deviceSequence)
    ensures var s := Run(ns, INITIAL, events);
            var r := s.receipts[op.deviceSequence];
            && (SemanticRequest(ns, op) == r.fingerprint ==> Admit(ns, s, op) == ReplayStored(r))
            && (SemanticRequest(ns, op) != r.fingerprint ==>
                Admit(ns, s, op).Refuse? && Admit(ns, s, op).conflict in {Reused, OperationIdReused})
            && Apply(ns, s, Submit(op)) == s
  {
    hide Run, SemanticRequest, Parsed;
    RunSound(ns, INITIAL, events);
    var s := Run(ns, INITIAL, events);
    var r := s.receipts[op.deviceSequence];
    if SemanticRequest(ns, op) == r.fingerprint {
      SameFingerprintSameId(ns, op, r);
    }
  }

  lemma SameFingerprintSameId(ns: Namespace, op: Operation, r: Receipt)
    requires Parsed(op) && Minted(ns, r) && SemanticRequest(ns, op) == r.fingerprint
    ensures op.offlineOperationId == r.operationId && op.deviceSequence == r.sequence
  {
    hide SemanticRequest, Parsed;
    var first :| Parsed(first) && first.deviceSequence == r.sequence && first.offlineOperationId == r.operationId
                 && SemanticRequest(ns, first) == r.fingerprint;
    SemanticRequestDecides(ns, op, ns, first);
  }

  /**
   Which answer a submission gets in every reachable state: an id in use elsewhere
   is refused first; then a position ahead is a gap, one behind without a receipt
   is stale, other content at a position is a reuse, and the same content is
   answered from its receipt, resumed, or taken as new. The refusal for an outcome
   not yet known is never needed.
   */
  lemma AnsweredExactlyWhen(ns: Namespace, events: seq<Event>, op: Operation)
    requires op.deviceSequence >= 0
    ensures var s := Run(ns, INITIAL, events);
            var n: nat := op.deviceSequence;
            var expected := NextExpected(s.cursor);
            var answer := Admit(ns, s, op);
            var same := n in s.receipts && s.receipts[n].fingerprint == SemanticRequest(ns, op);
            if exists m :: m in s.receipts && s.receipts[m].operationId == op.offlineOperationId && m != n
            then answer == Refuse(OperationIdReused, expected)
            else if expected.Some? && n > expected.value then answer == Refuse(Gap, expected)
            else if n in s.receipts && !same then answer == Refuse(Reused, expected)
            else if same && s.receipts[n].status in {Applied, Rejected} then answer == ReplayStored(s.receipts[n])
            else if same then answer == Resume(s.receipts[n])
            else if expected == Some(n) then answer == Create
            else answer == Refuse(Stale, expected)
  {
    hide Run, SemanticRequest, Minted;
    RunSound(ns, INITIAL, events);
    var s := Run(ns, INITIAL, events);
    assert IdElsewhere(s, op.offlineOperationId, op.deviceSequence) <==>
           exists m :: m in s.receipts && s.receipts[m].operationId == op.offlineOperationId && m != op.deviceSequence;
    hide IdElsewhere, ReceiptsProper, EffectsProper;
  }

  /** What a worker's own steps write on the receipt it works for. */
  lemma ReceiptSteps(ns: Namespace, s: State, n: nat, g: nat, leaseExpired: bool)
    requires n in s.receipts
    ensures var r := s.receipts[n];
            && Apply(ns, s, Claim(n, leaseExpired)) ==
               (if r.status in {Received, UnknownOutcome} || (r.status == Applying && leaseExpired)
                then s.(receipts := s.receipts[n := r.(status := Applying, generation := r.generation + 1)]) else s)
            && Apply(ns, s, MarkUnknown(n, g)) ==
               (if r.status == Applying && r.generation == g then s.(receipts := s.receipts[n := r.(status := UnknownOutcome)]) else s)
  {
    hide Admit, SemanticRequest, Parsed;
  }

  /** A position past the next one, or any position once the last is finalized, never creates anything. */
  lemma NothingLeapfrogs(ns: Namespace, s: State, op: Operation)
    requires op.deviceSequence >= 0 && NextExpected(s.cursor) != Some(op.deviceSequence)
    ensures Apply(ns, s, Submit(op)) == s
    ensures NextExpected(s.cursor).Some? && op.deviceSequence > NextExpected(s.cursor).value ==> Admit(ns, s, op).Refuse?
  {
    hide SemanticRequest, Parsed;
  }

  // ----- the order of effects -----

  /** Effects in strictly increasing position. */
  predicate Ordered(s: State) {
    forall i, j :: 0 <= i < j < |s.effects| ==> s.effects[i].sequence < s.effects[j].sequence
  }

  /** Effects in order, and none at a position reported as rejected. */
  ghost predicate Honest(s: State) {
    && Ordered(s)
    && (forall i :: 0 <= i < |s.effects| ==>
                      s.effects[i].sequence in s.receipts && !s.receipts[s.effects[i].sequence].status.Rejected?)
  }

  /** A worker whose position was already finalized as rejected still commits. */
  predicate LateCommit(s: State, e: Event) {
    e.DomainCommits? && CommitTakesEffect(s, e.sequence, e.generation) && s.receipts[e.sequence].status.Rejected?
  }

  /** A late commit at a position some later effect has already passed. */
  predicate OvertakenCommit(s: State, e: Event) {
    LateCommit(s, e) && exists i :: 0 <= i < |s.effects| && s.effects[i].sequence > e.sequence
  }

  ghost predicate NoneOvertaken(ns: Namespace, s: State, events: seq<Event>)
    decreases |events|
  {
    events == [] || (!OvertakenCommit(s, events[0]) && NoneOvertaken(ns, Apply(ns, s, events[0]), events[1..]))
  }

  /** A rejection is recorded although the operation's effect is already there. */
  predicate StaleRejection(s: State, e: Event) {
    && e.FinalizeRejected? && Holds(s, e.sequence, e.generation) && (e.sequence, e.generation) in s.refusals
    && Committed(s, s.receipts[e.sequence].operationId)
  }

  ghost predicate Timely(ns: Namespace, s: State, events: seq<Event>)
    decreases |events|
  {
    events == [] ||
    (!LateCommit(s, events[0]) && !StaleRejection(s, events[0]) && Timely(ns, Apply(ns, s, events[0]), events[1..]))
  }

  /** An effect at a rejected position. */
  ghost predicate Contradicted(s: State) {
    exists i :: 0 <= i < |s.effects| && s.effects[i].sequence in s.receipts
                && s.receipts[s.effects[i].sequence].status.Rejected?
  }

  lemma ContradictionStays(s: State, after: State)
    requires Contradicted(s) && Extends(s, after)
    ensures Contradicted(after) && !Honest(after)
  {
    var i :| 0 <= i < |s.effects| && s.effects[i].sequence in s.receipts
             && s.receipts[s.effects[i].sequence].status.Rejected?;
    assert Finalized(s, s.effects[i].sequence);
    assert after.effects[i] == s.effects[i];
  }

  lemma UntimelyContradicts(ns: Namespace, s: State, e: Event)
    requires Sound(ns, s) && (LateCommit(s, e) || StaleRejection(s, e))
    ensures Contradicted(Apply(ns, s, e))
  {
    hide Minted;
    var after := Apply(ns, s, e);
    if LateCommit(s, e) {
      assert after.effects[|s.effects|].sequence == e.sequence;
    } else {
      var i :| 0 <= i < |s.effects| && s.effects[i].operationId == s.receipts[e.sequence].operationId;
      assert after.effects[i].sequence == e.sequence;
    }
  }

  lemma TimelyStep(ns: Namespace, s: State, e: Event)
    requires Sound(ns, s) && Honest(s) && !LateCommit(s, e) && !StaleRejection(s, e)
    ensures Honest(Apply(ns, s, e))
  {
    hide Minted, SemanticRequest, Parsed;
    var after := Apply(ns, s, e);
    if e.DomainCommits? && after != s {
      CommitIsLast(ns, s, e);
    } else if e.FinalizeRejected? && after != s {
      forall i | 0 <= i < |s.effects|
        ensures s.effects[i].sequence != e.sequence
      {
        EffectIsCommitted(s, i);
      }
    }
  }

  lemma EffectIsCommitted(s: State, i: nat)
    requires i < |s.effects|
    ensures Committed(s, s.effects[i].operationId)
  {
  }

  /** A commit that takes effect at an unfinalized position comes after every earlier effect. */
  lemma CommitIsLast(ns: Namespace, s: State, e: Event)
    requires Sound(ns, s) && e.DomainCommits? && CommitTakesEffect(s, e.sequence, e.generation)
    requires !s.receipts[e.sequence].status.Rejected?
    ensures forall i :: 0 <= i < |s.effects| ==> s.effects[i].sequence < e.sequence
  {
    hide Minted;
    assert !Finalized(s, e.sequence);
    forall i | 0 <= i < |s.effects|
      ensures s.effects[i].sequence < e.sequence
    {
      assert Committed(s, s.effects[i].operationId);
    }
  }

  // ----- exactly when effects stay in order -----

  lemma InOrderStep(ns: Namespace, s: State, e: Event)
    requires Sound(ns, s) && Ordered(s) && !OvertakenCommit(s, e)
    ensures Ordered(Apply(ns, s, e))
  {
    hide Minted, SemanticRequest, Parsed;
    if e.DomainCommits? {
      if CommitTakesEffect(s, e.sequence, e.generation) {
        if LateCommit(s, e) {
          forall i | 0 <= i < |s.effects|
            ensures s.effects[i].sequence < e.sequence
          {
            EffectIsCommitted(s, i);
          }
        } else {
          CommitIsLast(ns, s, e);
        }
      }
    } else {
      EffectsUnchanged(ns, s, e);
    }
  }

  lemma OvertakenBreaksOrder(ns: Namespace, s: State, e: Event)
    requires OvertakenCommit(s, e)
    ensures !Ordered(Apply(ns, s, e))
  {
    var after := Apply(ns, s, e);
    var i :| 0 <= i < |s.effects| && s.effects[i].sequence > e.sequence;
    assert after.effects[i] == s.effects[i] && after.effects[|s.effects|].sequence == e.sequence;
  }

  lemma DisorderStays(s: State, after: State)
    requires !Ordered(s) && s.effects <= after.effects
    ensures !Ordered(after)
  {
    var i, j :| 0 <= i < j < |s.effects| && s.effects[i].sequence >= s.effects[j].sequence;
    assert after.effects[i] == s.effects[i] && after.effects[j] == s.effects[j];
  }

  lemma {:induction false} OrderedFrom(ns: Namespace, s: State, events: seq<Event>)
    requires Sound(ns, s) && Ordered(s)
    ensures Ordered(Run(ns, s, events)) <==> NoneOvertaken(ns, s, events)
    decreases |events|
  {
    hide Sound, Apply, Ordered, OvertakenCommit;
    if events != [] {
      var next := Apply(ns, s, events[0]);
      ApplySound(ns, s, events[0]);
      if OvertakenCommit(s, events[0]) {
        OvertakenBreaksOrder(ns, s, events[0]);
        RunSound(ns, next, events[1..]);
        DisorderStays(next, Run(ns, next, events[1..]));
      } else {
        InOrderStep(ns, s, events[0]);
        OrderedFrom(ns, next, events[1..]);
      }
    }
  }

  /**
   Domain effects occur in strictly increasing position exactly in the runs where no
   worker commits a position that was rejected meanwhile and that a later effect has
   already passed.
   */
  lemma OrderedIffNoneOvertaken(ns: Namespace, events: seq<Event>)
    ensures Ordered(Run(ns, INITIAL, events)) <==> NoneOvertaken(ns, INITIAL, events)
  {
    hide Sound, Apply, Run, NoneOvertaken, Ordered;
    InitialOrdered();
    InitialSound(ns);
    OrderedFrom(ns, INITIAL, events);
  }

  // ----- exactly when effects and receipts agree -----

  lemma {:induction false} HonestIffTimelyFrom(ns: Namespace, s: State, events: seq<Event>)
    requires Sound(ns, s) && Honest(s)
    ensures Honest(Run(ns, s, events)) <==> Timely(ns, s, events)
    ensures Contradicted(Run(ns, s, events)) <==> !Timely(ns, s, events)
    decreases |events|
  {
    hide Sound, Apply, Honest, Contradicted, LateCommit, StaleRejection;
    if events == [] {
      HonestIsNotContradicted(s);
    } else {
      var next := Apply(ns, s, events[0]);
      ApplySound(ns, s, events[0]);
      if LateCommit(s, events[0]) || StaleRejection(s, events[0]) {
        UntimelyContradicts(ns, s, events[0]);
        RunSound(ns, next, events[1..]);
        ContradictionStays(next, Run(ns, next, events[1..]));
      } else {
        TimelyStep(ns, s, events[0]);
        HonestIffTimelyFrom(ns, next, events[1..]);
      }
    }
  }

  lemma HonestIsNotContradicted(s: State)
    requires Honest(s)
    ensures !Contradicted(s)
  {
  }

  /**
   No effect contradicts its receipt, that is none stands at a position reported as
   rejected, exactly in the runs where no worker commits after its position was
   rejected and no rejection is recorded over a committed effect; and then effects
   are in order too.
   */
  lemma HonestIffTimely(ns: Namespace, events: seq<Event>)
    ensures Contradicted(Run(ns, INITIAL, events)) <==> !Timely(ns, INITIAL, events)
    ensures Honest(Run(ns, INITIAL, events)) <==> Timely(ns, INITIAL, events)
  {
    hide Sound, Apply, Run, Timely, Contradicted, Honest;
    InitialSound(ns);
    HonestIffTimelyFrom(ns, INITIAL, events);
  }

  lemma InitialSound(ns: Namespace)
    ensures Sound(ns, INITIAL) && Honest(INITIAL)
  {
  }

  lemma InitialOrdered()
    ensures Ordered(INITIAL)
  {
  }

  /** Every commit of the run is made under the claim in force. */
  ghost predicate CommitsUnderClaim(ns: Namespace, s: State, events: seq<Event>)
    decreases |events|
  {
    events == [] ||
    ((events[0].DomainCommits? && CommitTakesEffect(s, events[0].sequence, events[0].generation) ==>
      Holds(s, events[0].sequence, events[0].generation))
     && CommitsUnderClaim(ns, Apply(ns, s, events[0]), events[1..]))
  }

  /** A claim the domain refused has no effect behind it, and nobody else holds it. */
  ghost predicate RefusalsHold(s: State) {
    forall n, g :: (n, g) in s.refusals && Holds(s, n, g) ==> !Committed(s, s.receipts[n].operationId)
  }

  ghost predicate RefusalsClaimed(s: State) {
    forall n, g :: (n, g) in s.refusals ==> n in s.receipts && g <= s.receipts[n].generation
  }

  lemma UnderClaimNotLate(ns: Namespace, s: State, e: Event)
    requires RefusalsHold(s)
    requires e.DomainCommits? && CommitTakesEffect(s, e.sequence, e.generation) ==> Holds(s, e.sequence, e.generation)
    ensures !LateCommit(s, e) && !StaleRejection(s, e)
  {
    hide Committed;
  }

  /** A claim that is refused and in force after the step was so before it, or is refused by this very step. */
  lemma RefusedBefore(ns: Namespace, s: State, e: Event, n: nat, g: nat)
    requires RefusalsClaimed(s) && !e.DomainCommits?
    requires var after := Apply(ns, s, e); (n, g) in after.refusals && Holds(after, n, g)
    ensures n in s.receipts && Apply(ns, s, e).receipts[n].operationId == s.receipts[n].operationId
    ensures ((n, g) in s.refusals && Holds(s, n, g)) || !Committed(s, s.receipts[n].operationId)
  {
    hide SemanticRequest, Parsed, Committed;
  }

  lemma RefusalStep(ns: Namespace, s: State, e: Event)
    requires Sound(ns, s) && RefusalsHold(s) && RefusalsClaimed(s)
    requires e.DomainCommits? && CommitTakesEffect(s, e.sequence, e.generation) ==> Holds(s, e.sequence, e.generation)
    ensures RefusalsHold(Apply(ns, s, e)) && RefusalsClaimed(Apply(ns, s, e))
    ensures !LateCommit(s, e) && !StaleRejection(s, e)
  {
    RefusalsStayClaimed(ns, s, e);
    UnderClaimNotLate(ns, s, e);
    if e.DomainCommits? {
      CommitRefusals(ns, s, e);
    } else {
      OtherRefusals(ns, s, e);
    }
  }

  lemma CommitRefusals(ns: Namespace, s: State, e: Event)
    requires Sound(ns, s) && RefusalsHold(s) && e.DomainCommits?
    requires CommitTakesEffect(s, e.sequence, e.generation) ==> Holds(s, e.sequence, e.generation)
    ensures RefusalsHold(Apply(ns, s, e))
  {
    hide Minted;
    if Apply(ns, s, e) != s {
      NothingRefusedUnderClaim(ns, s, e);
    }
  }

  lemma OtherRefusals(ns: Namespace, s: State, e: Event)
    requires RefusalsHold(s) && RefusalsClaimed(s) && !e.DomainCommits?
    ensures RefusalsHold(Apply(ns, s, e))
  {
    hide Apply, Holds, Committed;
    var after := Apply(ns, s, e);
    forall n, g | (n, g) in after.refusals && Holds(after, n, g)
      ensures n in after.receipts && !Committed(after, after.receipts[n].operationId)
    {
      HoldsReceipt(after, n, g);
      RefusedBefore(ns, s, e, n, g);
      EffectsUnchanged(ns, s, e);
      SameKeys(s, after, after.receipts[n].operationId);
    }
  }

  lemma HoldsReceipt(s: State, n: nat, g: nat)
    requires Holds(s, n, g)
    ensures n in s.receipts
  {
  }

  lemma RefusalsStayClaimed(ns: Namespace, s: State, e: Event)
    requires RefusalsClaimed(s)
    ensures RefusalsClaimed(Apply(ns, s, e))
  {
    hide SemanticRequest, Parsed;
  }

  lemma EffectsUnchanged(ns: Namespace, s: State, e: Event)
    requires !e.DomainCommits?
    ensures Apply(ns, s, e).effects == s.effects
  {
    hide Admit, SemanticRequest, Parsed;
  }

  lemma SameKeys(s: State, after: State, id: Text)
    requires after.effects == s.effects
    ensures Committed(after, id) <==> Committed(s, id)
  {
  }

  lemma OneOpenReceipt(s: State, n: nat, m: nat)
    requires Contiguous(s)
    ensures n in s.receipts && m in s.receipts && !Finalized(s, n) && !Finalized(s, m) ==> n == m
  {
  }

  /** The receipt held by a worker that commits is the only unfinalized one, and its claim was not refused. */
  lemma NothingRefusedUnderClaim(ns: Namespace, s: State, e: Event)
    requires Sound(ns, s) && e.DomainCommits? && CommitTakesEffect(s, e.sequence, e.generation)
    requires Holds(s, e.sequence, e.generation)
    ensures forall n, g :: (n, g) in s.refusals ==> !Holds(s, n, g)
  {
    hide Minted;
    forall n, g | (n, g) in s.refusals
      ensures !Holds(s, n, g)
    {
      OneOpenReceipt(s, n, e.sequence);
    }
  }

  lemma {:induction false} UnderClaimIsTimelyFrom(ns: Namespace, s: State, events: seq<Event>)
    requires Sound(ns, s) && RefusalsHold(s) && RefusalsClaimed(s) && CommitsUnderClaim(ns, s, events)
    ensures Timely(ns, s, events)
    decreases |events|
  {
    hide Sound, Apply, RefusalsHold, RefusalsClaimed, LateCommit, StaleRejection;
    if events != [] {
      ApplySound(ns, s, events[0]);
      RefusalStep(ns, s, events[0]);
      UnderClaimIsTimelyFrom(ns, Apply(ns, s, events[0]), events[1..]);
    }
  }

  /** When every execution finishes inside the claim it was made under, effects are in order and agree with their receipts. */
  lemma EffectsInOrderUnderClaims(ns: Namespace, events: seq<Event>)
    requires CommitsUnderClaim(ns, INITIAL, events)
    ensures Honest(Run(ns, INITIAL, events))
  {
    hide Sound, Apply, Run, Timely;
    InitialSound(ns);
    UnderClaimIsTimelyFrom(ns, INITIAL, events);
    HonestIffTimely(ns, events);
  }

  // ----- the lease alone is not enough -----

  lemma {:induction false} RunSnoc(ns: Namespace, s: State, events: seq<Event>, e: Event)
    ensures Run(ns, s, events + [e]) == Apply(ns, Run(ns, s, events), e)
    decreases |events|
  {
    hide Apply;
    if events == [] {
      assert [e][1..] == [];
      assert events + [e] == [e];
    } else {
      assert (events + [e])[1..] == events[1..] + [e];
      RunSnoc(ns, Apply(ns, s, events[0]), events[1..], e);
    }
  }

  /** The first worker's lease runs out; its successor is refused by the domain and rejects the position. */
  function Rejection(op: Operation): seq<Event> {
    [Submit(op), Claim(0, false), Claim(0, true), DomainRefuses(0, 2), FinalizeRejected(0, 2)]
  }

  predicate RejectedAtZero(s: State, op: Operation) {
    && s.receipts.Keys == {0} && s.receipts[0].status.Rejected? && s.receipts[0].generation == 2
    && s.receipts[0].operationId == op.offlineOperationId
    && s.cursor == Some(0) && s.effects == [] && s.refusals == {(0, 2)}
  }

  lemma AfterRejection(ns: Namespace, op: Operation)
    requires Parsed(op) && op.deviceSequence == 0
    ensures RejectedAtZero(Run(ns, INITIAL, Rejection(op)), op)
  {
    hide SemanticRequest, Parsed, Run;
    var s1 := Apply(ns, INITIAL, Submit(op));
    assert Admit(ns, INITIAL, op).Create?;
    var s2 := Apply(ns, s1, Claim(0, false));
    var s3 := Apply(ns, s2, Claim(0, true));
    var s4 := Apply(ns, s3, DomainRefuses(0, 2));
    assert RejectedAtZero(Apply(ns, s4, FinalizeRejected(0, 2)), op);
    RejectionSteps(ns, op);
  }

  lemma RejectionSteps(ns: Namespace, op: Operation)
    ensures Run(ns, INITIAL, Rejection(op)) ==
            Apply(ns, Apply(ns, Apply(ns, Apply(ns, Apply(ns, INITIAL, Submit(op)), Claim(0, false)), Claim(0, true)), DomainRefuses(0, 2)),
                  FinalizeRejected(0, 2))
  {
    hide Apply, Run;
    var r := Rejection(op);
    NoSteps(ns, INITIAL);
    RunSnoc(ns, INITIAL, [], r[0]);
    RunSnoc(ns, INITIAL, r[..1], r[1]);
    RunSnoc(ns, INITIAL, r[..2], r[2]);
    RunSnoc(ns, INITIAL, r[..3], r[3]);
    RunSnoc(ns, INITIAL, r[..4], r[4]);
    assert [] + [r[0]] == r[..1] && r[..1] + [r[1]] == r[..2] && r[..2] + [r[2]] == r[..3] && r[..3] + [r[3]] == r[..4] && r[..4] + [r[4]] == r;
  }

  lemma NoSteps(ns: Namespace, s: State)
    ensures Run(ns, s, []) == s
  {
  }

  /** A worker that outlives its lease can commit a position that its successor had rejected. */
  lemma LateWorkerContradictsItsReceipt(ns: Namespace, op: Operation)
    requires Parsed(op) && op.deviceSequence == 0
    ensures var s := Run(ns, INITIAL, Rejection(op) + [DomainCommits(0, 1)]);
            s.receipts.Keys == {0} && s.receipts[0].status.Rejected? && s.effects == [Effect(0, op.offlineOperationId)]
  {
    hide Run, SemanticRequest, Parsed;
    AfterRejection(ns, op);
    RunSnoc(ns, INITIAL, Rejection(op), DomainCommits(0, 1));
  }

  /**
   And it can do so after the next position has taken effect: the effects of these
   nine events stand at positions 1, 0.
   */
  lemma LateWorkerBreaksOrder(ns: Namespace, op: Operation, next: Operation)
    requires Parsed(op) && op.deviceSequence == 0
    requires Parsed(next) && next.deviceSequence == 1 && next.offlineOperationId != op.offlineOperationId
    ensures var s := Run(ns, INITIAL, Rejection(op) + [Submit(next)] + [Claim(1, false)] + [DomainCommits(1, 1)] + [DomainCommits(0, 1)]);
            s.effects == [Effect(1, next.offlineOperationId), Effect(0, op.offlineOperationId)] && !Ordered(s)
  {
    hide Run, SemanticRequest, Parsed, Rejection;
    var r := Rejection(op);
    AfterRejection(ns, op);
    RunSnoc(ns, INITIAL, r, Submit(next));
    RunSnoc(ns, INITIAL, r + [Submit(next)], Claim(1, false));
    RunSnoc(ns, INITIAL, r + [Submit(next)] + [Claim(1, false)], DomainCommits(1, 1));
    RunSnoc(ns, INITIAL, r + [Submit(next)] + [Claim(1, false)] + [DomainCommits(1, 1)], DomainCommits(0, 1));
    NextTakesEffect(ns, Run(ns, INITIAL, r), op, next);
  }

  lemma NextTakesEffect(ns: Namespace, s: State, op: Operation, next: Operation)
    requires RejectedAtZero(s, op) && Parsed(next) && next.deviceSequence == 1 && next.offlineOperationId != op.offlineOperationId
    ensures var after := Apply(ns, Apply(ns, Apply(ns, Apply(ns, s, Submit(next)), Claim(1, false)), DomainCommits(1, 1)), DomainCommits(0, 1));
            after.effects == [Effect(1, next.offlineOperationId), Effect(0, op.offlineOperationId)] && !Ordered(after)
  {
    hide SemanticRequest, Parsed;
    assert Admit(ns, s, next).Create?;
    var s1 := Apply(ns, s, Submit(next));
    var s2 := Apply(ns, s1, Claim(1, false));
    var s3 := Apply(ns, s2, DomainCommits(1, 1));
    assert s3.effects == [Effect(1, next.offlineOperationId)];
    var s4 := Apply(ns, s3, DomainCommits(0, 1));
    assert s4.effects[0].sequence == 1 && s4.effects[1].sequence == 0;
  }

  // ----- the queue can always move on -----

  /** Claim the position again, commit it in the domain, record the result. */
  function Finish(n: nat, generation: nat, resultRef: Text): seq<Event> {
    [Claim(n, true), DomainCommits(n, generation), FinalizeApplied(n, generation, resultRef)]
  }

  lemma {:induction false} RefusalsClaimedInRun(ns: Namespace, s: State, events: seq<Event>)
    requires RefusalsClaimed(s)
    ensures RefusalsClaimed(Run(ns, s, events))
    decreases |events|
  {
    hide Apply, RefusalsClaimed;
    if events != [] {
      RefusalsStayClaimed(ns, s, events[0]);
      RefusalsClaimedInRun(ns, Apply(ns, s, events[0]), events[1..]);
    }
  }

  lemma FinishSteps(ns: Namespace, s: State, n: nat, generation: nat, resultRef: Text)
    ensures Run(ns, s, Finish(n, generation, resultRef)) ==
            Apply(ns, Apply(ns, Apply(ns, s, Claim(n, true)), DomainCommits(n, generation)), FinalizeApplied(n, generation, resultRef))
  {
    hide Apply, Run;
    var r := Finish(n, generation, resultRef);
    NoSteps(ns, s);
    RunSnoc(ns, s, [], r[0]);
    RunSnoc(ns, s, r[..1], r[1]);
    RunSnoc(ns, s, r[..2], r[2]);
    assert [] + [r[0]] == r[..1] && r[..1] + [r[1]] == r[..2] && r[..2] + [r[2]] == r;
  }

  /** From an open receipt the three steps reach the end, whatever its past claims did. */
  lemma OpenReceiptFinishes(ns: Namespace, s: State, n: nat, resultRef: Text)
    requires Contiguous(s) && RefusalsClaimed(s) && n in s.receipts && !Finalized(s, n)
    ensures var r := s.receipts[n];
            var after := Run(ns, s, Finish(n, r.generation + 1, resultRef));
            && after.cursor == Some(n)
            && after.receipts == s.receipts[n := r.(status := Applied, generation := r.generation + 1, resultRef := Some(resultRef))]
            && after.effects == if Committed(s, r.operationId) then s.effects else s.effects + [Effect(n, r.operationId)]
  {
    hide Run, Admit, SemanticRequest, Parsed, Committed;
    var r := s.receipts[n];
    var g := r.generation + 1;
    FinishSteps(ns, s, n, g, resultRef);
    var s1 := Apply(ns, s, Claim(n, true));
    SameKeys(s, s1, r.operationId);
    var s2 := Apply(ns, s1, DomainCommits(n, g));
    MoreCommitted(s1, Effect(n, r.operationId), r.operationId);
    assert Committed(s2, r.operationId);
  }

  /** In every reachable state an open receipt, stuck or not, can be brought to APPLIED with exactly one effect behind it. */
  lemma OpenReceiptCanBeFinished(ns: Namespace, events: seq<Event>, n: nat, resultRef: Text)
    requires var s := Run(ns, INITIAL, events); n in s.receipts && !Finalized(s, n)
    ensures var s := Run(ns, INITIAL, events);
            var r := s.receipts[n];
            var after := Run(ns, s, Finish(n, r.generation + 1, resultRef));
            && NextExpected(s.cursor) == Some(n) && after.cursor == Some(n)
            && after.receipts == s.receipts[n := r.(status := Applied, generation := r.generation + 1, resultRef := Some(resultRef))]
            && after.effects == if Committed(s, r.operationId) then s.effects else s.effects + [Effect(n, r.operationId)]
  {
    hide Run, Committed, Minted;
    RunSound(ns, INITIAL, events);
    RefusalsClaimedInRun(ns, INITIAL, events);
    OpenReceiptFinishes(ns, Run(ns, INITIAL, events), n, resultRef);
  }

  /** No receipt is under the operation's id, and none is at its position. */
  predicate Unused(s: State, op: Operation) {
    op.deviceSequence !in s.receipts && forall m :: m in s.receipts ==> s.receipts[m].operationId != op.offlineOperationId
  }

  /**
   In every reachable state a parsed operation at the next position, under an id
   not used before, is taken, and can be brought to APPLIED: its receipt, its one
   effect after all earlier ones, and the cursor on it.
   */
  lemma FreshOperationIsTaken(ns: Namespace, events: seq<Event>, op: Operation, resultRef: Text)
    requires Parsed(op) && op.deviceSequence >= 0
    requires var s := Run(ns, INITIAL, events); NextExpected(s.cursor) == Some(op.deviceSequence) && Unused(s, op)
    ensures var s := Run(ns, INITIAL, events);
            var n: nat := op.deviceSequence;
            var request := SemanticRequest(ns, op);
            var taken := Apply(ns, s, Submit(op));
            var after := Run(ns, taken, Finish(n, 1, resultRef));
            && taken == s.(receipts := s.receipts[n := Receipt(op.offlineOperationId, n, request, Received, 0, None)])
            && after.cursor == Some(n)
            && after.receipts == s.receipts[n := Receipt(op.offlineOperationId, n, request, Applied, 1, Some(resultRef))]
            && after.effects == s.effects + [Effect(n, op.offlineOperationId)]
  {
    hide Run, SemanticRequest, Parsed, Minted;
    RunSound(ns, INITIAL, events);
    var s := Run(ns, INITIAL, events);
    var n: nat := op.deviceSequence;
    var taken := Apply(ns, s, Submit(op));
    TakenWhenUnused(ns, s, op);
    SubmitSound(ns, s, Submit(op));
    RefusalsClaimedInRun(ns, INITIAL, events);
    RefusalsStayClaimed(ns, s, Submit(op));
    OpenReceiptFinishes(ns, taken, n, resultRef);
    UnusedIsUncommitted(s, op);
    SameKeys(s, taken, op.offlineOperationId);
  }

  lemma TakenWhenUnused(ns: Namespace, s: State, op: Operation)
    requires Parsed(op) && op.deviceSequence >= 0 && NextExpected(s.cursor) == Some(op.deviceSequence) && Unused(s, op)
    ensures Apply(ns, s, Submit(op)) ==
            s.(receipts := s.receipts[op.deviceSequence :=
                 Receipt(op.offlineOperationId, op.deviceSequence, SemanticRequest(ns, op), Received, 0, None)])
  {
    hide SemanticRequest, Parsed;
  }

  lemma UnusedIsUncommitted(s: State, op: Operation)
    requires EffectsProper(s) && Unused(s, op)
    ensures !Committed(s, op.offlineOperationId)
  {
  }
}
