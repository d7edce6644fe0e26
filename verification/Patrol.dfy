/**
 Patrol runs: a run pins one version of a route, start turns its relative
 offsets into instants once, and afterwards only an in-order verification, the
 missed sweep or abandonment may take a checkpoint out of PENDING. Every
 transaction holds the run's row lock and reads the database clock under it, so
 each is one atomic step at one instant.
 */
module Patrol {
  import opened Options

  datatype RunStatus = Scheduled | InProgress | Completed | Abandoned | CalledOff

  datatype CheckpointState = Pending | Verified | Late | Missed | Cancelled

  /** One checkpoint of a route version: its place in the order and its offsets from the start. */
  datatype Definition = Definition(sequence: int, openOffset: int, lateOffset: int, missedOffset: int)

  datatype Checkpoint = Checkpoint(
    sequence: int,
    opensAt: int,
    lateAfter: int,
    missedAfter: int,
    state: CheckpointState,
    resolvedAt: Option<int>)

  datatype PatrolRun = PatrolRun(
    status: RunStatus,
    startedAt: Option<int>,
    endedAt: Option<int>,
    checkpoints: seq<Checkpoint>)

  datatype Timing = TooEarly | Resolves(state: CheckpointState) | Expired

  datatype Verdict =
    | RunNotInProgress | AssignmentNotActive | AlreadyResolved | OutOfOrder | NotYetOpen | DeadlinePassed
    | Accepted(state: CheckpointState)

  // ----- the rules -----

  predicate CanTransition(from: RunStatus, to: RunStatus) {
    match from
    case Scheduled => to.InProgress? || to.CalledOff?
    case InProgress => to.Completed? || to.Abandoned?
    case _ => false
  }

  /** What a route version admits: the window opens, then turns late, then is missed. */
  predicate OrderedOffsets(d: Definition) {
    0 <= d.openOffset <= d.lateOffset <= d.missedOffset
  }

  function MaterialiseCheckpoint(startedAt: int, d: Definition): Checkpoint {
    Checkpoint(d.sequence, startedAt + d.openOffset, startedAt + d.lateOffset, startedAt + d.missedOffset, Pending, None)
  }

  function ResolveTiming(received: int, c: Checkpoint): Timing {
    if received < c.opensAt then TooEarly
    else if received <= c.lateAfter then Resolves(Verified)
    else if received <= c.missedAfter then Resolves(Late)
    else Expired
  }

  predicate IsMissed(now: int, c: Checkpoint) {
    c.state.Pending? && now > c.missedAfter
  }

  predicate CanVerifySequence(sequence: int, siblings: seq<Checkpoint>) {
    forall i :: 0 <= i < |siblings| ==> siblings[i].sequence >= sequence || !siblings[i].state.Pending?
  }

  function ResolveAbandoned(now: int, c: Checkpoint): Option<CheckpointState> {
    if !c.state.Pending? then None else if now > c.missedAfter then Some(Missed) else Some(Cancelled)
  }

  predicate CanComplete(checkpoints: seq<Checkpoint>) {
    && checkpoints != []
    && forall i :: 0 <= i < |checkpoints| ==> checkpoints[i].state in {Verified, Late, Missed}
  }

  // ----- the transactions -----

  /** `mayExecute`: the run has no incident, or the operative's assignment to it allows execution. */
  function VerifyVerdict(run: PatrolRun, i: nat, mayExecute: bool, now: int): Verdict
    requires i < |run.checkpoints|
  {
    var c := run.checkpoints[i];
    if !run.status.InProgress? then RunNotInProgress
    else if !mayExecute then AssignmentNotActive
    else if !c.state.Pending? then AlreadyResolved
    else if !CanVerifySequence(c.sequence, run.checkpoints) then OutOfOrder
    else
      match ResolveTiming(now, c)
      case TooEarly => NotYetOpen
      case Expired => DeadlinePassed
      case Resolves(state) => Accepted(state)
  }

  function CompleteIfFinished(run: PatrolRun, now: int): PatrolRun {
    if run.status.InProgress? && CanComplete(run.checkpoints) then run.(status := Completed, endedAt := Some(now)) else run
  }

  function StartRun(definitions: seq<Definition>, run: PatrolRun, mayExecute: bool, now: int): PatrolRun {
    if !CanTransition(run.status, InProgress) || !mayExecute || definitions == [] then run
    else
      run.(status := InProgress,
           startedAt := Some(now),
           checkpoints := seq(|definitions|, i requires 0 <= i < |definitions| => MaterialiseCheckpoint(now, definitions[i])))
  }

  function CancelRun(run: PatrolRun, now: int): PatrolRun {
    if CanTransition(run.status, CalledOff) then run.(status := CalledOff, endedAt := Some(now)) else run
  }

  function AbandonCheckpoint(now: int, c: Checkpoint): Checkpoint {
    match ResolveAbandoned(now, c)
    case None => c
    case Some(state) => c.(state := state)
  }

  function AbandonRun(run: PatrolRun, now: int): PatrolRun {
    if !CanTransition(run.status, Abandoned) then run
    else
      var cs := run.checkpoints;
      run.(status := Abandoned,
           endedAt := Some(now),
           checkpoints := seq(|cs|, i requires 0 <= i < |cs| => AbandonCheckpoint(now, cs[i])))
  }

  function VerifyCheckpoint(run: PatrolRun, i: nat, mayExecute: bool, now: int): PatrolRun {
    if i >= |run.checkpoints| then run
    else
      match VerifyVerdict(run, i, mayExecute, now)
      case Accepted(state) =>
        var row := run.checkpoints[i].(state := state, resolvedAt := Some(now));
        CompleteIfFinished(run.(checkpoints := run.checkpoints[i := row]), now)
      case _ => run
  }

  function SweepCheckpoint(run: PatrolRun, i: nat, now: int): PatrolRun {
    if i >= |run.checkpoints| || !run.status.InProgress? || !IsMissed(now, run.checkpoints[i]) then run
    else CompleteIfFinished(run.(checkpoints := run.checkpoints[i := run.checkpoints[i].(state := Missed)]), now)
  }

  datatype Event =
    | Start(now: int, mayExecute: bool)
    | CallOff(now: int)
    | Abandon(now: int)
    | Verify(now: int, index: nat, mayExecute: bool)
    | Sweep(now: int, index: nat)

  /** One run, the route version it pins, and the latest instant the server clock has shown. */
  datatype World = World(definitions: seq<Definition>, run: PatrolRun, clock: int)

  function Commit(definitions: seq<Definition>, run: PatrolRun, e: Event): PatrolRun {
    match e
    case Start(now, mayExecute) => StartRun(definitions, run, mayExecute, now)
    case CallOff(now) => CancelRun(run, now)
    case Abandon(now) => AbandonRun(run, now)
    case Verify(now, i, mayExecute) => VerifyCheckpoint(run, i, mayExecute, now)
    case Sweep(now, i) => SweepCheckpoint(run, i, now)
  }

  /** The server clock never runs backwards: an event from before it does not occur. */
  function Step(w: World, e: Event): World {
    if e.now < w.clock then w else w.(run := Commit(w.definitions, w.run, e), clock := e.now)
  }

  function Steps(w: World, events: seq<Event>): World {
    if events == [] then w else Step(Steps(w, events[..|events| - 1]), events[|events| - 1])
  }

  function Planned(definitions: seq<Definition>, clock: int): World {
    World(definitions, PatrolRun(Scheduled, None, None, []), clock)
  }

  // ----- what every run keeps -----

  predicate Reached(c: Checkpoint) {
    c.state.Verified? || c.state.Late?
  }

  /** A row agrees with its own window, with the clock and with the run it belongs to. */
  predicate RowValid(c: Checkpoint, run: PatrolRun, clock: int) {
    && c.opensAt <= c.lateAfter <= c.missedAfter
    && (Reached(c) <==> c.resolvedAt.Some?)
    && (Reached(c) ==> ResolveTiming(c.resolvedAt.value, c) == Resolves(c.state) && c.resolvedAt.value <= clock)
    && (c.state.Missed? ==> c.missedAfter < (if run.endedAt.Some? then run.endedAt.value else clock))
    && (c.state.Cancelled? ==> run.status.Abandoned? && run.endedAt.Some? && run.endedAt.value <= c.missedAfter)
  }

  /** Statuses and instants agree, as the run schema demands. */
  predicate TimesAgree(run: PatrolRun, clock: int) {
    && (run.startedAt.Some? <==> run.status.InProgress? || run.status.Completed? || run.status.Abandoned?)
    && (run.endedAt.Some? <==> run.status.Completed? || run.status.Abandoned? || run.status.CalledOff?)
    && (run.startedAt.Some? ==> run.startedAt.value <= clock)
    && (run.endedAt.Some? ==> run.endedAt.value <= clock)
    && (run.startedAt.Some? && run.endedAt.Some? ==> run.startedAt.value <= run.endedAt.value)
  }

  /** The rows are the pinned version's, with the windows start gave them. */
  predicate Materialised(definitions: seq<Definition>, run: PatrolRun) {
    if run.startedAt.None? then run.checkpoints == []
    else
      && definitions != [] && |run.checkpoints| == |definitions|
      && forall i :: 0 <= i < |definitions| ==>
           run.checkpoints[i].(state := Pending, resolvedAt := None) == MaterialiseCheckpoint(run.startedAt.value, definitions[i])
  }

  /** Below a reached checkpoint nothing is pending and nothing was reached later. */
  predicate InOrder(cs: seq<Checkpoint>) {
    forall i, j :: 0 <= i < |cs| && 0 <= j < |cs| && cs[i].sequence < cs[j].sequence && Reached(cs[j]) ==>
      !cs[i].state.Pending? && (Reached(cs[i]) && cs[i].resolvedAt.Some? && cs[j].resolvedAt.Some? ==>
        cs[i].resolvedAt.value <= cs[j].resolvedAt.value)
  }

  predicate HasPending(cs: seq<Checkpoint>) {
    exists i :: 0 <= i < |cs| && cs[i].state.Pending?
  }

  predicate RowsValid(run: PatrolRun, clock: int) {
    forall i :: 0 <= i < |run.checkpoints| ==> RowValid(run.checkpoints[i], run, clock)
  }

  /** A run is in progress exactly while something is outstanding, and completes only with every row decided. */
  predicate StatusFits(run: PatrolRun) {
    && (run.status.InProgress? <==> HasPending(run.checkpoints))
    && (run.status.Completed? ==> CanComplete(run.checkpoints))
  }

  predicate RunValid(definitions: seq<Definition>, run: PatrolRun, clock: int) {
    && TimesAgree(run, clock) && Materialised(definitions, run) && RowsValid(run, clock)
    && InOrder(run.checkpoints) && StatusFits(run)
  }

  predicate WorldValid(w: World) {
    && (forall i :: 0 <= i < |w.definitions| ==> OrderedOffsets(w.definitions[i]))
    && RunValid(w.definitions, w.run, w.clock)
  }

  lemma StartKeeps(definitions: seq<Definition>, run: PatrolRun, clock: int, mayExecute: bool, now: int)
    requires forall i :: 0 <= i < |definitions| ==> OrderedOffsets(definitions[i])
    requires RunValid(definitions, run, clock) && clock <= now
    ensures RunValid(definitions, StartRun(definitions, run, mayExecute, now), now)
  {
    var after := StartRun(definitions, run, mayExecute, now);
    if after != run {
      assert after.checkpoints[0].state.Pending?;
    }
  }

  lemma CancelKeeps(definitions: seq<Definition>, run: PatrolRun, clock: int, now: int)
    requires RunValid(definitions, run, clock) && clock <= now
    ensures RunValid(definitions, CancelRun(run, now), now)
  {
  }

  lemma AbandonKeeps(definitions: seq<Definition>, run: PatrolRun, clock: int, now: int)
    requires RunValid(definitions, run, clock) && clock <= now
    ensures RunValid(definitions, AbandonRun(run, now), now)
  {
    var after := AbandonRun(run, now);
    if run.status.InProgress? {
      assert forall i :: 0 <= i < |run.checkpoints| ==> after.checkpoints[i] == AbandonCheckpoint(now, run.checkpoints[i]);
      assert forall i :: 0 <= i < |run.checkpoints| && Reached(after.checkpoints[i]) ==> after.checkpoints[i] == run.checkpoints[i];
    }
  }

  /** Deciding one pending row, and completing the run when it was the last. */
  lemma ResolveKeeps(definitions: seq<Definition>, run: PatrolRun, clock: int, now: int, i: nat, row: Checkpoint)
    requires RunValid(definitions, run, clock) && clock <= now && run.status.InProgress?
    requires i < |run.checkpoints| && run.checkpoints[i].state.Pending?
    requires row.(state := Pending, resolvedAt := None) == run.checkpoints[i]
    requires row.state in {Verified, Late, Missed} && RowValid(row, run, now)
    requires Reached(row) ==> row.resolvedAt == Some(now) && CanVerifySequence(row.sequence, run.checkpoints)
    ensures RunValid(definitions, CompleteIfFinished(run.(checkpoints := run.checkpoints[i := row]), now), now)
  {
    var resolved := run.(checkpoints := run.checkpoints[i := row]);
    assert InOrder(resolved.checkpoints);
    assert RowsValid(resolved, now);
    NothingOutstanding(resolved, now);
    assert run.checkpoints[i].resolvedAt == None;
  }

  lemma NothingOutstanding(run: PatrolRun, now: int)
    requires RowsValid(run, now) && run.status.InProgress? && run.endedAt.None? && run.checkpoints != []
    ensures CanComplete(run.checkpoints) <==> !HasPending(run.checkpoints)
    ensures RowsValid(CompleteIfFinished(run, now), now)
  {
    if !HasPending(run.checkpoints) {
      forall i | 0 <= i < |run.checkpoints|
        ensures run.checkpoints[i].state in {Verified, Late, Missed}
      {
        assert RowValid(run.checkpoints[i], run, now);
      }
    }
  }

  lemma VerifyKeeps(definitions: seq<Definition>, run: PatrolRun, clock: int, now: int, i: nat, mayExecute: bool)
    requires RunValid(definitions, run, clock) && clock <= now
    ensures RunValid(definitions, VerifyCheckpoint(run, i, mayExecute, now), now)
  {
    hide InOrder, Materialised, CompleteIfFinished, CanVerifySequence;
    if i < |run.checkpoints| && VerifyVerdict(run, i, mayExecute, now).Accepted? {
      assert RowValid(run.checkpoints[i], run, clock);
      var row := run.checkpoints[i].(state := VerifyVerdict(run, i, mayExecute, now).state, resolvedAt := Some(now));
      ResolveKeeps(definitions, run, clock, now, i, row);
    }
  }

  lemma SweepKeeps(definitions: seq<Definition>, run: PatrolRun, clock: int, now: int, i: nat)
    requires RunValid(definitions, run, clock) && clock <= now
    ensures RunValid(definitions, SweepCheckpoint(run, i, now), now)
  {
    hide InOrder, Materialised, CompleteIfFinished, CanVerifySequence;
    if i < |run.checkpoints| && run.status.InProgress? && IsMissed(now, run.checkpoints[i]) {
      assert RowValid(run.checkpoints[i], run, clock);
      ResolveKeeps(definitions, run, clock, now, i, run.checkpoints[i].(state := Missed));
    }
  }

  lemma StepKeeps(w: World, e: Event)
    requires WorldValid(w)
    ensures WorldValid(Step(w, e)) && Step(w, e).definitions == w.definitions
  {
    hide RunValid, StartRun, CancelRun, AbandonRun, VerifyCheckpoint, SweepCheckpoint;
    if e.now >= w.clock {
      match e
      case Start(now, mayExecute) => StartKeeps(w.definitions, w.run, w.clock, mayExecute, now);
      case CallOff(now) => CancelKeeps(w.definitions, w.run, w.clock, now);
      case Abandon(now) => AbandonKeeps(w.definitions, w.run, w.clock, now);
      case Verify(now, i, mayExecute) => VerifyKeeps(w.definitions, w.run, w.clock, now, i, mayExecute);
      case Sweep(now, i) => SweepKeeps(w.definitions, w.run, w.clock, now, i);
    }
  }

  lemma {:induction false} StepsKeep(w: World, events: seq<Event>)
    requires WorldValid(w)
    ensures WorldValid(Steps(w, events)) && Steps(w, events).definitions == w.definitions
  {
    hide WorldValid, Step;
    if events != [] {
      StepsKeep(w, events[..|events| - 1]);
      StepKeeps(Steps(w, events[..|events| - 1]), events[|events| - 1]);
    }
  }

  ghost predicate Reachable(w: World) {
    exists definitions: seq<Definition>, clock: int, events: seq<Event> ::
      (forall i :: 0 <= i < |definitions| ==> OrderedOffsets(definitions[i])) && w == Steps(Planned(definitions, clock), events)
  }

  lemma ReachableIsValid(w: World)
    requires Reachable(w)
    ensures WorldValid(w)
  {
    hide Steps;
    var definitions: seq<Definition>, clock: int, events: seq<Event> :|
      (forall i :: 0 <= i < |definitions| ==> OrderedOffsets(definitions[i])) && w == Steps(Planned(definitions, clock), events);
    StepsKeep(Planned(definitions, clock), events);
  }

  // ----- theorems over every run -----

  /** Two checkpoints that were both reached were reached in the order of the route. */
  lemma ReachedInRouteOrder(w: World, i: nat, j: nat)
    requires Reachable(w) && i < |w.run.checkpoints| && j < |w.run.checkpoints|
    requires w.run.checkpoints[i].sequence < w.run.checkpoints[j].sequence
    requires Reached(w.run.checkpoints[i]) && Reached(w.run.checkpoints[j])
    ensures w.run.checkpoints[i].resolvedAt.Some? && w.run.checkpoints[j].resolvedAt.Some?
    ensures w.run.checkpoints[i].resolvedAt.value <= w.run.checkpoints[j].resolvedAt.value <= w.clock
  {
    hide Reachable;
    ReachableIsValid(w);
    assert RowValid(w.run.checkpoints[i], w.run, w.clock) && RowValid(w.run.checkpoints[j], w.run, w.clock);
  }

  /** COMPLETED runs hold neither PENDING nor CANCELLED; only runs with outstanding work are in progress. */
  lemma StatusTellsTheRows(w: World)
    requires Reachable(w)
    ensures w.run.status.Completed? ==> w.run.checkpoints != []
    ensures w.run.status.Completed? ==>
              forall i :: 0 <= i < |w.run.checkpoints| ==> w.run.checkpoints[i].state in {Verified, Late, Missed}
    ensures w.run.status.InProgress? <==> HasPending(w.run.checkpoints)
    ensures w.run.status.Scheduled? || w.run.status.CalledOff? <==> w.run.checkpoints == []
  {
    hide Reachable;
    ReachableIsValid(w);
  }

  /** Abandonment does not erase an overdue obligation: at the end, MISSED and CANCELLED are divided by the deadline. */
  lemma AbandonmentIsExact(w: World, i: nat)
    requires Reachable(w) && w.run.status.Abandoned? && i < |w.run.checkpoints| && !Reached(w.run.checkpoints[i])
    ensures w.run.endedAt.Some?
    ensures w.run.checkpoints[i].state == if w.run.endedAt.value > w.run.checkpoints[i].missedAfter then Missed else Cancelled
  {
    hide Reachable;
    ReachableIsValid(w);
    assert RowValid(w.run.checkpoints[i], w.run, w.clock);
    assert !HasPending(w.run.checkpoints);
    assert !w.run.checkpoints[i].state.Pending?;
  }

  /**
   Every stored row passes its schema: a receipt exactly on reached rows, inside
   the part of the window its state names, and the window is still the one the
   start fixed.
   */
  lemma RowsAreHonest(w: World, i: nat)
    requires Reachable(w) && i < |w.run.checkpoints|
    ensures w.run.startedAt.Some? && i < |w.definitions|
    ensures var c, d, start := w.run.checkpoints[i], w.definitions[i], w.run.startedAt.value;
            && c.sequence == d.sequence && c.opensAt == start + d.openOffset
            && c.lateAfter == start + d.lateOffset && c.missedAfter == start + d.missedOffset
            && (Reached(c) <==> c.resolvedAt.Some?)
            && (c.state.Verified? ==> start <= c.opensAt <= c.resolvedAt.value <= c.lateAfter)
            && (c.state.Late? ==> c.lateAfter < c.resolvedAt.value <= c.missedAfter)
            && (c.state.Missed? ==> c.missedAfter < w.clock)
  {
    hide Reachable;
    ReachableIsValid(w);
    assert RowValid(w.run.checkpoints[i], w.run, w.clock);
    assert OrderedOffsets(w.definitions[i]);
    assert w.run.checkpoints[i].(state := Pending, resolvedAt := None) == MaterialiseCheckpoint(w.run.startedAt.value, w.definitions[i]);
  }

  /** What a later event may do to a row: nothing, unless it was pending. */
  lemma DecidedRowsStay(definitions: seq<Definition>, run: PatrolRun, e: Event, i: nat)
    requires i < |run.checkpoints| && !run.checkpoints[i].state.Pending? && run.startedAt.Some? && !run.status.Scheduled?
    ensures i < |Commit(definitions, run, e).checkpoints| && Commit(definitions, run, e).checkpoints[i] == run.checkpoints[i]
    ensures Commit(definitions, run, e).startedAt == run.startedAt && !Commit(definitions, run, e).status.Scheduled?
  {
  }

  /** No checkpoint ever leaves a state other than PENDING, and its window and its receipt stay as they were. */
  lemma {:induction false} DecidedForever(w: World, later: seq<Event>, i: nat)
    requires Reachable(w) && i < |w.run.checkpoints| && !w.run.checkpoints[i].state.Pending?
    ensures i < |Steps(w, later).run.checkpoints| && Steps(w, later).run.checkpoints[i] == w.run.checkpoints[i]
    ensures Steps(w, later).run.startedAt.Some? && !Steps(w, later).run.status.Scheduled?
  {
    hide Reachable, Commit;
    if later == [] {
      ReachableIsValid(w);
    } else {
      DecidedForever(w, later[..|later| - 1], i);
      var before := Steps(w, later[..|later| - 1]);
      DecidedRowsStay(before.definitions, before.run, later[|later| - 1], i);
    }
  }

  // ----- verification against the sweep -----

  /**
   At one instant a verification and the missed sweep can both claim a pending
   checkpoint exactly when its window is stored out of order; the route schema
   refuses such a window, so for a materialised one they never can.
   */
  lemma BothEnabledExactlyWhen(c: Checkpoint)
    requires c.state.Pending?
    ensures (exists now :: ResolveTiming(now, c).Resolves? && IsMissed(now, c)) <==>
            c.missedAfter < c.lateAfter && c.opensAt <= c.lateAfter
  {
    if c.missedAfter < c.lateAfter && c.opensAt <= c.lateAfter {
      assert ResolveTiming(c.lateAfter, c).Resolves? && IsMissed(c.lateAfter, c);
    }
  }

  lemma VerifyAndSweepExclude(w: World, i: nat, mayExecute: bool, now: int)
    requires Reachable(w) && i < |w.run.checkpoints|
    ensures !(VerifyVerdict(w.run, i, mayExecute, now).Accepted? && IsMissed(now, w.run.checkpoints[i]))
    ensures VerifyVerdict(w.run, i, mayExecute, now).DeadlinePassed? ==> IsMissed(now, w.run.checkpoints[i])
  {
    hide Reachable;
    ReachableIsValid(w);
    assert RowValid(w.run.checkpoints[i], w.run, w.clock);
  }

  /**
   A verification is accepted exactly for an executing operative, on a pending
   row with nothing pending before it, from the opening of its window to its
   deadline; on time up to the late mark, late after it.
   */
  lemma AcceptedExactlyWhen(w: World, i: nat, mayExecute: bool, now: int)
    requires Reachable(w) && i < |w.run.checkpoints|
    ensures var c := w.run.checkpoints[i];
            var verdict := VerifyVerdict(w.run, i, mayExecute, now);
            && (verdict.Accepted? <==>
                && mayExecute && c.state.Pending? && c.opensAt <= now <= c.missedAfter
                && forall j :: 0 <= j < |w.run.checkpoints| && w.run.checkpoints[j].state.Pending? ==>
                                 c.sequence <= w.run.checkpoints[j].sequence)
            && (verdict.Accepted? ==> verdict.state == if now <= c.lateAfter then Verified else Late)
  {
    hide Reachable;
    ReachableIsValid(w);
    assert RowValid(w.run.checkpoints[i], w.run, w.clock);
    assert w.run.checkpoints[i].state.Pending? ==> HasPending(w.run.checkpoints);
  }

  // ----- what each event does -----

  /** A start by someone who may execute opens a scheduled run with every window counted from that instant; nothing else does. */
  lemma StartingOpensTheRun(w: World, mayExecute: bool, now: int)
    requires Reachable(w) && w.clock <= now
    ensures var after := Step(w, Start(now, mayExecute)).run;
            if w.run.status.Scheduled? && mayExecute && w.definitions != []
            then
              && after.status == InProgress && after.startedAt == Some(now) && after.endedAt == None
              && |after.checkpoints| == |w.definitions|
              && forall i :: 0 <= i < |w.definitions| ==>
                   var d := w.definitions[i];
                   after.checkpoints[i] ==
                   Checkpoint(d.sequence, now + d.openOffset, now + d.lateOffset, now + d.missedOffset, Pending, None)
            else after == w.run
  {
    hide Reachable;
    ReachableIsValid(w);
  }

  /** Calling off ends a scheduled run and abandoning one in progress; what is pending is then MISSED or CANCELLED by its deadline. */
  lemma EndingEarly(w: World, now: int)
    requires Reachable(w) && w.clock <= now
    ensures Step(w, CallOff(now)).run ==
            if w.run.status.Scheduled? then PatrolRun(CalledOff, None, Some(now), []) else w.run
    ensures var after := Step(w, Abandon(now)).run;
            if w.run.status.InProgress?
            then
              && after.status == Abandoned && after.startedAt == w.run.startedAt && after.endedAt == Some(now)
              && |after.checkpoints| == |w.run.checkpoints|
              && forall i :: 0 <= i < |after.checkpoints| ==>
                   var c := w.run.checkpoints[i];
                   after.checkpoints[i] ==
                   if !c.state.Pending? then c else c.(state := if now > c.missedAfter then Missed else Cancelled)
            else after == w.run
  {
    hide Reachable;
    ReachableIsValid(w);
  }

  /** One pending row decided, and the run completed at that instant when it was the last one pending. */
  ghost predicate RowDecided(run: PatrolRun, after: PatrolRun, i: nat, row: Checkpoint, now: int) {
    && i < |run.checkpoints| && after.checkpoints == run.checkpoints[i := row] && after.startedAt == run.startedAt
    && if exists j :: 0 <= j < |run.checkpoints| && j != i && run.checkpoints[j].state.Pending?
       then after.status == InProgress && after.endedAt == None
       else after.status == Completed && after.endedAt == Some(now)
  }

  lemma LastRowCompletes(w: World, i: nat, row: Checkpoint, now: int)
    requires WorldValid(w) && w.run.status.InProgress? && i < |w.run.checkpoints| && row.state in {Verified, Late, Missed}
    ensures RowDecided(w.run, CompleteIfFinished(w.run.(checkpoints := w.run.checkpoints[i := row]), now), i, row, now)
  {
    var rows := w.run.checkpoints;
    forall j | 0 <= j < |rows| && !rows[j].state.Pending?
      ensures rows[j].state in {Verified, Late, Missed}
    {
      assert RowValid(rows[j], w.run, w.clock);
    }
    if exists j :: 0 <= j < |rows| && j != i && rows[j].state.Pending? {
      var j :| 0 <= j < |rows| && j != i && rows[j].state.Pending?;
      assert rows[i := row][j].state.Pending?;
    }
  }

  /** An accepted verification writes its state and its receipt into its own row; any other changes nothing. */
  lemma VerifyingDecides(w: World, i: nat, mayExecute: bool, now: int)
    requires Reachable(w) && w.clock <= now && i < |w.run.checkpoints|
    ensures var verdict := VerifyVerdict(w.run, i, mayExecute, now);
            var after := Step(w, Verify(now, i, mayExecute)).run;
            if verdict.Accepted?
            then RowDecided(w.run, after, i, w.run.checkpoints[i].(state := verdict.state, resolvedAt := Some(now)), now)
            else after == w.run
  {
    hide Reachable, RowDecided, WorldValid, CompleteIfFinished, CanVerifySequence;
    ReachableIsValid(w);
    var verdict := VerifyVerdict(w.run, i, mayExecute, now);
    if verdict.Accepted? {
      LastRowCompletes(w, i, w.run.checkpoints[i].(state := verdict.state, resolvedAt := Some(now)), now);
    }
  }

  /** The sweep turns a pending row past its deadline into MISSED, and does nothing else. */
  lemma SweepingDecides(w: World, i: nat, now: int)
    requires Reachable(w) && w.clock <= now && i < |w.run.checkpoints|
    ensures var c := w.run.checkpoints[i];
            var after := Step(w, Sweep(now, i)).run;
            if w.run.status.InProgress? && c.state.Pending? && now > c.missedAfter
            then RowDecided(w.run, after, i, c.(state := Missed), now)
            else after == w.run
  {
    hide Reachable, RowDecided, WorldValid, CompleteIfFinished;
    ReachableIsValid(w);
    if w.run.status.InProgress? && w.run.checkpoints[i].state.Pending? && now > w.run.checkpoints[i].missedAfter {
      LastRowCompletes(w, i, w.run.checkpoints[i].(state := Missed), now);
    }
  }

  // ----- the server can always finish a run -----

  function SweepAll(w: World, now: int, n: nat): World {
    if n == 0 then w else Step(SweepAll(w, now, n - 1), Sweep(now, n - 1))
  }

  lemma {:induction false} SweepAllDecides(w: World, now: int, n: nat)
    requires WorldValid(w) && w.run.status.InProgress? && w.clock <= now && n <= |w.run.checkpoints|
    requires forall i :: 0 <= i < |w.run.checkpoints| ==> w.run.checkpoints[i].missedAfter < now
    ensures var after := SweepAll(w, now, n);
            && WorldValid(after) && after.clock <= now
            && (after.run.status.InProgress? || after.run.status.Completed?)
            && |after.run.checkpoints| == |w.run.checkpoints|
            && (forall i :: 0 <= i < n ==> !after.run.checkpoints[i].state.Pending?)
            && (forall i :: 0 <= i < |w.run.checkpoints| ==> after.run.checkpoints[i].missedAfter < now)
  {
    if n > 0 {
      SweepAllDecides(w, now, n - 1);
      var before := SweepAll(w, now, n - 1);
      StepKeeps(before, Sweep(now, n - 1));
      SweepDecides(before, now, n - 1);
    }
  }

  lemma SweepDecides(w: World, now: int, k: nat)
    requires WorldValid(w) && w.clock <= now && k < |w.run.checkpoints| && w.run.checkpoints[k].missedAfter < now
    requires w.run.status.InProgress? || w.run.status.Completed?
    ensures var after := Step(w, Sweep(now, k)).run;
            && (after.status.InProgress? || after.status.Completed?)
            && |after.checkpoints| == |w.run.checkpoints|
            && !after.checkpoints[k].state.Pending?
            && (forall i :: 0 <= i < |w.run.checkpoints| ==> after.checkpoints[i].missedAfter == w.run.checkpoints[i].missedAfter)
            && (forall i :: 0 <= i < |w.run.checkpoints| && i != k ==> after.checkpoints[i] == w.run.checkpoints[i])
  {
    hide Materialised, InOrder, RowsValid, TimesAgree;
    assert w.run.status.Completed? ==> !w.run.checkpoints[k].state.Pending?;
  }

  /** Once every deadline has passed, one sweep over the rows completes whatever run is still in progress. */
  lemma SweepingCompletes(w: World, now: int)
    requires Reachable(w) && w.run.status.InProgress? && w.clock <= now
    requires forall i :: 0 <= i < |w.run.checkpoints| ==> w.run.checkpoints[i].missedAfter < now
    ensures SweepAll(w, now, |w.run.checkpoints|).run.status.Completed?
  {
    hide Reachable, SweepAll;
    ReachableIsValid(w);
    SweepAllDecides(w, now, |w.run.checkpoints|);
    var after := SweepAll(w, now, |w.run.checkpoints|).run;
    assert !HasPending(after.checkpoints);
  }
}
