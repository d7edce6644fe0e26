/**
 Device, Edge and central together. The wire is the set of everything ever sent:
 a message may be lost by never being read, read many times, and read late. The
 Edge may crash at any point, and central decides and commits in separate steps
 among any other traffic.
 */
module EdgeProtocol {
  import opened JsText
  import opened Options
  import opened DeviceTime
  import opened DeviceRegistry
  import opened OneShot
  import opened StoredOperation
  import opened EdgeQueue
  import OfflineOperation
  import ReplayStore

  type Envelope = OfflineOperation.Envelope

  /** Central's answer to one request, on the connection that carried that envelope. */
  datatype Response = Response(envelope: Envelope, answer: TerminalAnswer)

  datatype System = System(
    edge: Queue,
    requests: set<Envelope>,
    responses: set<Response>,
    central: ReplayStore.State,
    admitted: seq<(Envelope, nat)>)

  const INITIAL: System := System(EMPTY, {}, {}, ReplayStore.INITIAL, [])

  datatype Event =
    | EdgeAdmits(envelope: Envelope, storable: bool)
    | EdgeMarksReady(id: Text)
    | EdgeClaims(id: Text)
    | EdgeSends(id: Text)
    | EdgeHearsProgress(id: Text, progress: Progress)
    | EdgeHearsNothing(id: Text, reason: UnknownReason)
    | EdgeHearsAnswer(id: Text, answer: TerminalAnswer)
    | EdgeReclaims(id: Text)
    | EdgeCrashes
    | CentralWorks(event: ReplayStore.Event)
    | CentralAnswers(envelope: Envelope, facts: OfflineOperation.Input, refusalCode: Text)
    | CentralConfirms(envelope: Envelope)

  /** The bytes an operation spends its slot on: signed under the one approved profile. */
  function BytesOf(e: Envelope): Text {
    OfflineOperation.Fingerprint(e, Literal(APPROVED_PROFILE))
  }

  /** The store holds this operation's slot for this operation's bytes under this reference. */
  predicate StoredFor(store: ReplayStore.Store, e: Envelope, ref: Text) {
    OfflineOperation.ReplayKey(e) in store && store[OfflineOperation.ReplayKey(e)] == Row(BytesOf(e), ref)
  }

  function Answering(dates: DateParse, s: System, e: Envelope, facts: OfflineOperation.Input, refusalCode: Text): Option<TerminalAnswer> {
    match ReplayStore.Judge(dates, s.central.store, ReplayStore.OperationRequest(facts.(envelope := e)))
    case Effect => None
    case Converged(ref) => Some(CentralAccepted(ref))
    case Declined => Some(CentralRefused(refusalCode))
  }

  function Apply(dates: DateParse, s: System, e: Event): System {
    match e
    case EdgeAdmits(envelope, storable) =>
      s.(edge := Admit(s.edge, envelope, storable),
         admitted := if MayAdmit(s.edge, envelope, storable) then s.admitted + [(envelope, s.edge.nextPosition)] else s.admitted)
    case EdgeMarksReady(id) => s.(edge := MarkReady(s.edge, id))
    case EdgeClaims(id) => s.(edge := Claim(s.edge, id))
    case EdgeSends(id) =>
      if id in s.edge.entries && s.edge.entries[id].state.Forwarding?
      then s.(requests := s.requests + {s.edge.entries[id].envelope})
      else s
    case EdgeHearsProgress(id, progress) => s.(edge := RecordProgress(s.edge, id, progress))
    case EdgeHearsNothing(id, reason) => s.(edge := RecordUnknown(s.edge, id, reason))
    case EdgeHearsAnswer(id, answer) =>
      if id in s.edge.entries && Response(s.edge.entries[id].envelope, answer) in s.responses
      then s.(edge := Settle(s.edge, id, answer))
      else s
    case EdgeReclaims(id) => s.(edge := Reclaim(s.edge, id))
    case EdgeCrashes => s.(edge := Recover(s.edge))
    case CentralWorks(event) =>
      if event.Decide? && event.request.OperationRequest? && event.request.operation.envelope !in s.requests then s
      else s.(central := ReplayStore.Apply(dates, s.central, event))
    case CentralAnswers(envelope, facts, refusalCode) =>
      var answer := Answering(dates, s, envelope, facts, refusalCode);
      if envelope in s.requests && answer.Some?
      then s.(responses := s.responses + {Response(envelope, answer.value)})
      else s
    case CentralConfirms(envelope) =>
      var slot := OfflineOperation.ReplayKey(envelope);
      if envelope in s.requests && slot in s.central.store && s.central.store[slot].statementFingerprint == BytesOf(envelope)
      then s.(responses := s.responses + {Response(envelope, CentralAccepted(s.central.store[slot].storedOutcomeRef))})
      else s
  }

  function Run(dates: DateParse, s: System, events: seq<Event>): System
    decreases |events|
  {
    if events == [] then s else Run(dates, Apply(dates, s, events[0]), events[1..])
  }

  // ----- what every run keeps -----

  /** An acceptance on the wire names what central stores for that operation. */
  ghost predicate TrueAcceptances(s: System) {
    forall r :: r in s.responses && r.answer.CentralAccepted? ==>
                  StoredFor(s.central.store, r.envelope, r.answer.centralReference)
  }

  /** Whatever ended an entry was an answer central sent for that very envelope. */
  ghost predicate AnswersAreCentrals(s: System) {
    forall entry: Entry :: entry.settlement.Some? && Keeps(s.edge, entry) ==>
                             Response(entry.envelope, entry.settlement.value) in s.responses
  }

  ghost predicate NothingLost(s: System) {
    forall i :: 0 <= i < |s.admitted| ==> Accounted(s.edge, s.admitted[i].0, s.admitted[i].1)
  }

  ghost predicate Sound(s: System) {
    && SoundQueue(s.edge)
    && ReplayStore.Sound(s.central)
    && TrueAcceptances(s)
    && AnswersAreCentrals(s)
    && NothingLost(s)
  }

  /** What is settled stays settled with the same answer, what is stored stays stored, what is done stays done. */
  ghost predicate Extends(before: System, after: System) {
    && (forall entry: Entry :: entry.settlement.Some? && Keeps(before.edge, entry) ==> Keeps(after.edge, entry))
    && ReplayStore.Extends(before.central, after.central)
    && before.admitted <= after.admitted
  }

  lemma LocalStep(s: System, after: System)
    requires Sound(s) && OnlyLocalChange(s.edge, after.edge)
    requires after.central == s.central && after.responses == s.responses
    requires after.admitted == s.admitted
             || exists e, p :: after.admitted == s.admitted + [(e, p)] && Accounted(after.edge, e, p)
    ensures Sound(after) && Extends(s, after)
  {
  }

  lemma EdgeStep(dates: DateParse, s: System, e: Event)
    requires Sound(s)
    requires e.EdgeAdmits? || e.EdgeMarksReady? || e.EdgeClaims? || e.EdgeSends? || e.EdgeHearsProgress?
             || e.EdgeHearsNothing? || e.EdgeReclaims? || e.EdgeCrashes?
    ensures Sound(Apply(dates, s, e)) && Extends(s, Apply(dates, s, e))
  {
    hide Sound, Extends, SoundQueue, OnlyLocalChange, Accounted, Keeps, Answering, BytesOf;
    SoundParts(s);
    match e {
      case EdgeAdmits(envelope, storable) => AdmitKeeps(s.edge, envelope, storable);
      case EdgeMarksReady(id) => MarkReadyKeeps(s.edge, id);
      case EdgeClaims(id) => ClaimKeeps(s.edge, id);
      case EdgeSends(id) => StayingIsLocal(s.edge);
      case EdgeHearsProgress(id, progress) => ProgressKeeps(s.edge, id, progress);
      case EdgeHearsNothing(id, reason) => UnknownKeeps(s.edge, id, reason);
      case EdgeReclaims(id) => ReclaimKeeps(s.edge, id);
      case EdgeCrashes => RecoverKeeps(s.edge);
    }
    LocalStep(s, Apply(dates, s, e));
  }

  lemma SoundParts(s: System)
    requires Sound(s)
    ensures SoundQueue(s.edge)
  {
  }

  lemma StayingIsLocal(q: Queue)
    requires SoundQueue(q)
    ensures OnlyLocalChange(q, q)
  {
  }

  lemma AnswerStep(dates: DateParse, s: System, e: Event)
    requires Sound(s) && e.EdgeHearsAnswer?
    ensures Sound(Apply(dates, s, e)) && Extends(s, Apply(dates, s, e))
  {
    hide SoundQueue, Accounted, Keeps, Settle, Answering, StoredFor;
    SettleKeeps(s.edge, e.id, e.answer);
  }

  lemma WorkStep(dates: DateParse, s: System, e: Event)
    requires Sound(s) && e.CentralWorks?
    ensures Sound(Apply(dates, s, e)) && Extends(s, Apply(dates, s, e))
  {
    hide SoundQueue, Accounted, Keeps, ReplayStore.Apply, OfflineOperation.ReplayKey, BytesOf;
    ReplayStore.ApplySound(dates, s.central, e.event);
  }

  lemma ConvergedMeansStored(dates: DateParse, store: ReplayStore.Store, op: OfflineOperation.Input)
    requires ReplayStore.Judge(dates, store, ReplayStore.OperationRequest(op)).Converged?
    ensures StoredFor(store, op.envelope, ReplayStore.Judge(dates, store, ReplayStore.OperationRequest(op)).storedOutcomeRef)
  {
    hide OfflineOperation.Fingerprint, OfflineOperation.ReplayKey, OfflineOperation.Evaluate, Literal;
    var r := ReplayStore.OperationRequest(op);
    ReplayStore.ConvergenceNamesTheStoredOutcome(dates, store, r);
    OfflineOperation.DecisionExact(dates, op.(consumption := ReplayStore.Report(store, ReplayStore.Slots(r)[0], ReplayStore.Bytes(r))));
  }

  lemma ResponseStep(dates: DateParse, s: System, e: Event)
    requires Sound(s) && (e.CentralAnswers? || e.CentralConfirms?)
    ensures Sound(Apply(dates, s, e)) && Extends(s, Apply(dates, s, e))
  {
    hide SoundQueue, Accounted, Keeps, ReplayStore.Judge, OfflineOperation.ReplayKey, BytesOf;
    if e.CentralAnswers? && Answering(dates, s, e.envelope, e.facts, e.refusalCode).Some?
       && Answering(dates, s, e.envelope, e.facts, e.refusalCode).value.CentralAccepted? {
      ConvergedMeansStored(dates, s.central.store, e.facts.(envelope := e.envelope));
    }
  }

  lemma ApplySound(dates: DateParse, s: System, e: Event)
    requires Sound(s)
    ensures Sound(Apply(dates, s, e)) && Extends(s, Apply(dates, s, e))
  {
    hide Sound, Extends, Apply;
    if e.EdgeHearsAnswer? {
      AnswerStep(dates, s, e);
    } else if e.CentralWorks? {
      WorkStep(dates, s, e);
    } else if e.CentralAnswers? || e.CentralConfirms? {
      ResponseStep(dates, s, e);
    } else {
      EdgeStep(dates, s, e);
    }
  }

  lemma ExtendsTransitive(a: System, b: System, c: System)
    requires Extends(a, b) && Extends(b, c)
    ensures Extends(a, c)
  {
  }

  lemma ExtendsReflexive(s: System)
    ensures Extends(s, s)
  {
  }

  lemma {:induction false} RunSound(dates: DateParse, s: System, events: seq<Event>)
    requires Sound(s)
    ensures Sound(Run(dates, s, events)) && Extends(s, Run(dates, s, events))
    decreases |events|
  {
    hide Sound, Extends, Apply;
    if events == [] {
      ExtendsReflexive(s);
    } else {
      var next := Apply(dates, s, events[0]);
      ApplySound(dates, s, events[0]);
      RunSound(dates, next, events[1..]);
      ExtendsTransitive(s, next, Run(dates, next, events[1..]));
    }
  }

  lemma InitialSound()
    ensures Sound(INITIAL)
  {
  }

  // ----- the main results -----

  /**
   No admitted operation disappears. In every later state it is still in the
   queue, QUEUED or carrying central's answer, or it was reclaimed carrying
   central's answer; and an entry is TERMINAL exactly when it carries one.
   */
  lemma NoOperationDisappears(dates: DateParse, events: seq<Event>, i: nat)
    requires i < |Run(dates, INITIAL, events).admitted|
    ensures var s := Run(dates, INITIAL, events);
            Accounted(s.edge, s.admitted[i].0, s.admitted[i].1)
    ensures var q := Run(dates, INITIAL, events).edge;
            forall id :: id in q.entries ==>
                           && (ToOperationState(q.entries[id].state) == Terminal <==> q.entries[id].settlement.Some?)
                           && (q.entries[id].settlement.Some? ==> q.entries[id].attempts > 0)
  {
    hide Apply, Run, Keeps, Accounted;
    InitialSound();
    RunSound(dates, INITIAL, events);
  }

  /**
   A TERMINAL entry that central accepted names the very outcome central stores
   for that operation's slot, for that operation's bytes, now and ever after, and
   exactly one effect stands behind it.
   */
  lemma AcceptedNamesTheStoredOutcome(dates: DateParse, events: seq<Event>, later: seq<Event>, entry: Entry)
    requires Keeps(Run(dates, INITIAL, events).edge, entry)
    requires entry.settlement.Some? && entry.settlement.value.CentralAccepted?
    ensures var after := Run(dates, Run(dates, INITIAL, events), later);
            && Keeps(after.edge, entry)
            && StoredFor(after.central.store, entry.envelope, entry.settlement.value.centralReference)
            && exists i :: 0 <= i < |after.central.effects|
                           && OfflineOperation.ReplayKey(entry.envelope) in after.central.effects[i].slots
                           && after.central.effects[i].bytes == BytesOf(entry.envelope)
                           && after.central.effects[i].storedOutcomeRef == entry.settlement.value.centralReference
  {
    hide Apply, Run, OfflineOperation.ReplayKey, BytesOf, Keeps;
    InitialSound();
    RunSound(dates, INITIAL, events);
    var s := Run(dates, INITIAL, events);
    RunSound(dates, s, later);
    var after := Run(dates, s, later);
    assert Response(entry.envelope, entry.settlement.value) in s.responses;
    EffectBehind(after, entry.envelope, entry.settlement.value.centralReference);
  }

  /** Central reads this envelope off the wire, declines it on what its store holds then, and says so. */
  ghost predicate Declines(dates: DateParse, s: System, e: Event, envelope: Envelope, code: Text) {
    && e.CentralAnswers? && e.envelope == envelope && e.refusalCode == code && envelope in s.requests
    && ReplayStore.Judge(dates, s.central.store, ReplayStore.OperationRequest(e.facts.(envelope := envelope))).Declined?
  }

  lemma NewRefusalIsDeclined(dates: DateParse, s: System, e: Event, r: Response)
    requires r in Apply(dates, s, e).responses && r !in s.responses && r.answer.CentralRefused?
    ensures Declines(dates, s, e, r.envelope, r.answer.refusalCode)
  {
    hide ReplayStore.Judge, ReplayStore.Apply, OfflineOperation.ReplayKey, BytesOf, Admit, MarkReady, Claim, RecordProgress, RecordUnknown,
         Settle, Reclaim, Recover, MayAdmit;
  }

  lemma RunFirst(dates: DateParse, s: System, events: seq<Event>, k: nat)
    requires 0 < k <= |events|
    ensures Run(dates, s, events[..k]) == Run(dates, Apply(dates, s, events[0]), events[1..][..k - 1])
  {
    hide Apply;
    assert events[..k][1..] == events[1..][..k - 1];
  }

  lemma NoEvents(dates: DateParse, s: System)
    ensures Run(dates, s, []) == s
  {
  }

  lemma {:induction false} RefusalHasOrigin(dates: DateParse, s: System, events: seq<Event>, r: Response) returns (k: nat)
    requires r in Run(dates, s, events).responses && r !in s.responses && r.answer.CentralRefused?
    ensures k < |events| && Declines(dates, Run(dates, s, events[..k]), events[k], r.envelope, r.answer.refusalCode)
    decreases |events|
  {
    hide Apply, Declines;
    var next := Apply(dates, s, events[0]);
    if r in next.responses {
      NewRefusalIsDeclined(dates, s, events[0], r);
      NoEvents(dates, s);
      k := 0;
    } else {
      var later := RefusalHasOrigin(dates, next, events[1..], r);
      RunFirst(dates, s, events, later + 1);
      k := later + 1;
    }
  }

  /**
   A TERMINAL entry that central refused carries a refusal central gave, at one step
   of the run, to that very envelope, and it carries it ever after.
   */
  lemma RefusedEntriesWereDeclined(dates: DateParse, events: seq<Event>, later: seq<Event>, entry: Entry)
    requires Keeps(Run(dates, INITIAL, events).edge, entry)
    requires entry.settlement.Some? && entry.settlement.value.CentralRefused?
    ensures Keeps(Run(dates, Run(dates, INITIAL, events), later).edge, entry)
    ensures exists k: nat :: k < |events| && Declines(dates, Run(dates, INITIAL, events[..k]), events[k], entry.envelope, entry.settlement.value.refusalCode)
  {
    hide Apply, Run, Keeps, Declines, ReplayStore.Sound, SoundQueue, Accounted;
    InitialSound();
    RunSound(dates, INITIAL, events);
    RunSound(dates, Run(dates, INITIAL, events), later);
    var k := RefusalHasOrigin(dates, INITIAL, events, Response(entry.envelope, entry.settlement.value));
  }

  lemma EffectBehind(s: System, e: Envelope, ref: Text)
    requires Sound(s) && StoredFor(s.central.store, e, ref)
    ensures exists i :: 0 <= i < |s.central.effects| && OfflineOperation.ReplayKey(e) in s.central.effects[i].slots
                        && s.central.effects[i].bytes == BytesOf(e) && s.central.effects[i].storedOutcomeRef == ref
  {
    hide OfflineOperation.ReplayKey, BytesOf, Keeps, SoundQueue, Accounted;
    var slot := OfflineOperation.ReplayKey(e);
    var i :| 0 <= i < |s.central.effects| && slot in s.central.effects[i].slots;
    assert ReplayStore.Recorded(s.central.store, s.central.effects[i]);
  }

  /** However often an envelope is sent, read, retried or answered, central applies it at most once. */
  lemma EachEnvelopeTakesEffectAtMostOnce(dates: DateParse, events: seq<Event>, e: Envelope, i: nat, j: nat)
    requires var effects := Run(dates, INITIAL, events).central.effects;
             && i < |effects| && j < |effects|
             && OfflineOperation.ReplayKey(e) in effects[i].slots && OfflineOperation.ReplayKey(e) in effects[j].slots
    ensures i == j
  {
    hide Apply, Run, OfflineOperation.ReplayKey;
    InitialSound();
    RunSound(dates, INITIAL, events);
  }

  /** Two queue entries accepted for one envelope were told the same thing. */
  lemma AcceptancesAgree(dates: DateParse, events: seq<Event>, a: Entry, b: Entry)
    requires Keeps(Run(dates, INITIAL, events).edge, a) && Keeps(Run(dates, INITIAL, events).edge, b)
    requires a.envelope == b.envelope && a.settlement.Some? && b.settlement.Some?
    requires a.settlement.value.CentralAccepted? && b.settlement.value.CentralAccepted?
    ensures a.settlement == b.settlement
  {
    hide Apply, Run, OfflineOperation.ReplayKey, BytesOf, Keeps;
    InitialSound();
    RunSound(dates, INITIAL, events);
    var s := Run(dates, INITIAL, events);
    assert Response(a.envelope, a.settlement.value) in s.responses && Response(b.envelope, b.settlement.value) in s.responses;
  }

  // ----- every operation can be brought to an end -----

  lemma {:induction false} RunAppend(dates: DateParse, s: System, first: seq<Event>, more: seq<Event>)
    ensures Run(dates, s, first + more) == Run(dates, Run(dates, s, first), more)
    decreases |first|
  {
    hide Apply;
    if first == [] {
      assert first + more == more;
    } else {
      assert (first + more)[1..] == first[1..] + more;
      RunAppend(dates, Apply(dates, s, first[0]), first[1..], more);
    }
  }

  lemma RunOne(dates: DateParse, s: System, e: Event)
    ensures Run(dates, s, [e]) == Apply(dates, s, e)
  {
    hide Apply;
    assert [e][1..] == [];
  }

  /** The entry is on its way: forwarding, unanswered, and its envelope on the wire. */
  predicate UnderWay(s: System, id: Text, envelope: Envelope) {
    && id in s.edge.entries && s.edge.entries[id].state.Forwarding? && s.edge.entries[id].settlement.None?
    && s.edge.entries[id].envelope == envelope && envelope in s.requests
  }

  lemma SendingIsPossible(dates: DateParse, s: System, id: Text)
    requires Sound(s) && id in s.edge.entries && s.edge.entries[id].settlement.None?
    ensures var sent := Run(dates, s, [EdgeMarksReady(id), EdgeClaims(id), EdgeSends(id)]);
            sent.central == s.central && UnderWay(sent, id, s.edge.entries[id].envelope)
  {
    hide Run, MarkReady, Claim, ReplayStore.Judge, BytesOf, OfflineOperation.ReplayKey, ReplayStore.Sound, AnswersAreCentrals, NothingLost;
    AttemptIsPossible(s.edge, id);
    var a, b, c := EdgeMarksReady(id), EdgeClaims(id), EdgeSends(id);
    assert [a, b, c] == [a] + ([b] + [c]);
    RunAppend(dates, s, [a], [b] + [c]);
    RunOne(dates, s, a);
    RunAppend(dates, Apply(dates, s, a), [b], [c]);
    RunOne(dates, Apply(dates, s, a), b);
    RunOne(dates, Apply(dates, Apply(dates, s, a), b), c);
  }

  /** The answer the facts central holds call for: what is stored, a refusal, or the reference of a new effect. */
  function AnswerCalledFor(dates: DateParse, s: System, envelope: Envelope, facts: OfflineOperation.Input, ref: Text, code: Text)
    : TerminalAnswer
  {
    match ReplayStore.Judge(dates, s.central.store, ReplayStore.OperationRequest(facts.(envelope := envelope)))
    case Converged(stored) => CentralAccepted(stored)
    case Declined => CentralRefused(code)
    case Effect => CentralAccepted(ref)
  }

  /** Central can put that answer on the wire. */
  lemma AnsweringIsPossible(dates: DateParse, s: System, id: Text, envelope: Envelope, facts: OfflineOperation.Input, ref: Text, code: Text)
    returns (events: seq<Event>)
    requires Sound(s) && UnderWay(s, id, envelope)
    ensures var after := Run(dates, s, events);
            UnderWay(after, id, envelope) && Response(envelope, AnswerCalledFor(dates, s, envelope, facts, ref, code)) in after.responses
  {
    hide Run, ReplayStore.Judge, ReplayStore.Apply, Sound, BytesOf, OfflineOperation.ReplayKey;
    var request := ReplayStore.OperationRequest(facts.(envelope := envelope));
    if ReplayStore.Judge(dates, s.central.store, request).Effect? {
      var decide, commit := CentralWorks(ReplayStore.Decide(request)), CentralWorks(ReplayStore.TryCommit(|s.central.pending|, ref));
      events := [decide] + ([commit] + [CentralConfirms(envelope)]);
      EffectIsConfirmed(dates, s, envelope, facts, ref);
      RunThree(dates, s, decide, commit, CentralConfirms(envelope));
    } else {
      events := [CentralAnswers(envelope, facts, code)];
      RunOne(dates, s, CentralAnswers(envelope, facts, code));
    }
  }

  lemma RunThree(dates: DateParse, s: System, a: Event, b: Event, c: Event)
    ensures Run(dates, s, [a] + ([b] + [c])) == Apply(dates, Apply(dates, Apply(dates, s, a), b), c)
  {
    hide Run, Apply;
    RunAppend(dates, s, [a], [b] + [c]);
    RunOne(dates, s, a);
    RunAppend(dates, Apply(dates, s, a), [b], [c]);
    RunOne(dates, Apply(dates, s, a), b);
    RunOne(dates, Apply(dates, Apply(dates, s, a), b), c);
  }

  /** An uncontested effect is committed and then confirmed with its reference. */
  lemma EffectIsConfirmed(dates: DateParse, s: System, envelope: Envelope, facts: OfflineOperation.Input, ref: Text)
    requires Sound(s) && envelope in s.requests
    requires ReplayStore.Judge(dates, s.central.store, ReplayStore.OperationRequest(facts.(envelope := envelope))).Effect?
    ensures var request := ReplayStore.OperationRequest(facts.(envelope := envelope));
            var decided := Apply(dates, s, CentralWorks(ReplayStore.Decide(request)));
            var committed := Apply(dates, decided, CentralWorks(ReplayStore.TryCommit(|s.central.pending|, ref)));
            var confirmed := Apply(dates, committed, CentralConfirms(envelope));
            && confirmed.edge == s.edge && s.requests <= confirmed.requests
            && Response(envelope, CentralAccepted(ref)) in confirmed.responses
  {
    hide ReplayStore.Judge, ReplayStore.Apply, ReplayStore.Sound, ReplayStore.Recorded, BytesOf, OfflineOperation.ReplayKey, ReplayStore.Slots,
         ReplayStore.Bytes, SoundQueue, TrueAcceptances, AnswersAreCentrals, NothingLost, Admit, Settle, Recover, Reclaim;
    var request := ReplayStore.OperationRequest(facts.(envelope := envelope));
    CommitStores(dates, s.central, request, ref);
    OperationSlotAndBytes(dates, s.central.store, facts.(envelope := envelope));
    assert ReplayStore.Slots(request)[0] == OfflineOperation.ReplayKey(envelope);
    var decided := Apply(dates, s, CentralWorks(ReplayStore.Decide(request)));
    assert decided == s.(central := ReplayStore.Apply(dates, s.central, ReplayStore.Decide(request)));
    var committed := Apply(dates, decided, CentralWorks(ReplayStore.TryCommit(|s.central.pending|, ref)));
    assert StoredFor(committed.central.store, envelope, ref);
  }

  lemma CommitStores(dates: DateParse, central: ReplayStore.State, request: ReplayStore.Request, ref: Text)
    requires ReplayStore.Sound(central) && ReplayStore.Judge(dates, central.store, request).Effect?
    ensures var decided := ReplayStore.Apply(dates, central, ReplayStore.Decide(request));
            var after := ReplayStore.Apply(dates, decided, ReplayStore.TryCommit(|central.pending|, ref));
            forall i :: 0 <= i < |ReplayStore.Slots(request)| ==>
              ReplayStore.Slots(request)[i] in after.store
              && after.store[ReplayStore.Slots(request)[i]] == Row(ReplayStore.Bytes(request), ref)
  {
    hide ReplayStore.Judge, ReplayStore.Apply, ReplayStore.Slots, ReplayStore.Bytes;
    var decided := ReplayStore.Apply(dates, central, ReplayStore.Decide(request));
    var after := ReplayStore.Apply(dates, decided, ReplayStore.TryCommit(|central.pending|, ref));
    ReplayStore.UncontestedCommitSucceeds(dates, central, request, ref);
    ReplayStore.ApplySound(dates, central, ReplayStore.Decide(request));
    ReplayStore.ApplySound(dates, decided, ReplayStore.TryCommit(|central.pending|, ref));
    assert ReplayStore.Recorded(after.store, after.effects[|central.effects|]);
  }

  lemma OperationSlotAndBytes(dates: DateParse, store: ReplayStore.Store, op: OfflineOperation.Input)
    requires ReplayStore.Judge(dates, store, ReplayStore.OperationRequest(op)).Effect?
    ensures ReplayStore.Slots(ReplayStore.OperationRequest(op)) == [OfflineOperation.ReplayKey(op.envelope)]
    ensures ReplayStore.Bytes(ReplayStore.OperationRequest(op)) == BytesOf(op.envelope)
  {
    hide OfflineOperation.Fingerprint, OfflineOperation.ReplayKey, OfflineOperation.Evaluate, Literal;
    var r := ReplayStore.OperationRequest(op);
    OfflineOperation.DecisionExact(dates, op.(consumption := ReplayStore.Report(store, ReplayStore.Slots(r)[0], ReplayStore.Bytes(r))));
  }

  lemma HearingSettles(dates: DateParse, s: System, id: Text, envelope: Envelope, answer: TerminalAnswer)
    requires UnderWay(s, id, envelope) && Response(envelope, answer) in s.responses
    ensures var after := Apply(dates, s, EdgeHearsAnswer(id, answer)).edge;
            && id in after.entries && after.entries[id].envelope == envelope && after.entries[id].settlement == Some(answer)
            && ToOperationState(after.entries[id].state) == Terminal
            && (after.entries[id].state.CentralApplied? <==> answer.CentralAccepted?)
  {
    hide Settle, ReplayStore.Judge, BytesOf, OfflineOperation.ReplayKey;
    SettleRecordsTheAnswer(s.edge, id, answer);
  }

  /**
   From every reachable state, every operation still queued can be brought to
   TERMINAL, whatever facts central holds about it, and by these events it ends with
   the answer those facts call for.
   */
  lemma QueuedCanBeBroughtToAnEnd(dates: DateParse, events: seq<Event>, id: Text, facts: OfflineOperation.Input, ref: Text, code: Text)
    returns (later: seq<Event>)
    requires var q := Run(dates, INITIAL, events).edge; id in q.entries && q.entries[id].settlement.None?
    ensures var s := Run(dates, INITIAL, events);
            var after := Run(dates, s, later).edge;
            var e := s.edge.entries[id].envelope;
            && id in after.entries && after.entries[id].envelope == e
            && after.entries[id].settlement == Some(AnswerCalledFor(dates, s, e, facts, ref, code))
            && ToOperationState(after.entries[id].state) == Terminal
  {
    hide Run, Apply, Sound, ReplayStore.Judge, UnderWay, ToOperationState;
    InitialSound();
    RunSound(dates, INITIAL, events);
    var s := Run(dates, INITIAL, events);
    var e := s.edge.entries[id].envelope;
    var send := [EdgeMarksReady(id), EdgeClaims(id), EdgeSends(id)];
    SendingIsPossible(dates, s, id);
    var sent := Run(dates, s, send);
    RunSound(dates, s, send);
    var reply := AnsweringIsPossible(dates, sent, id, e, facts, ref, code);
    var answered := Run(dates, sent, reply);
    var answer := AnswerCalledFor(dates, s, e, facts, ref, code);
    HearingSettles(dates, answered, id, e, answer);
    later := send + (reply + [EdgeHearsAnswer(id, answer)]);
    RunAppend(dates, s, send, reply + [EdgeHearsAnswer(id, answer)]);
    RunAppend(dates, sent, reply, [EdgeHearsAnswer(id, answer)]);
    RunOne(dates, answered, EdgeHearsAnswer(id, answer));
  }
}
