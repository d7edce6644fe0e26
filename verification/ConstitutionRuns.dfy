/**
 Any number of service instances over one policy table: boots, drafts, gate
 decisions under possibly stale policies, activations and reloads in any order,
 while the database rewrites the key order of what it stores.
 */
module ConstitutionRuns {
  import opened JsText
  import opened Options
  import opened ConstitutionPolicy
  import opened ConstitutionEngine
  import opened ConstitutionStore

  /** An activation the gate let through: the version asked for and the ledger record of the decision. */
  datatype Gate = Gate(version: Text, ledgerIndex: nat)

  /** The versions that became active, in order; the bootstrap has no ledger record. */
  datatype Change = Change(version: Text, ledgerIndex: Option<nat>)

  datatype State = State(
    rows: Rows,
    ledger: seq<LedgerEntry>,
    instances: map<nat, Loaded>,
    gates: seq<Gate>,
    changes: seq<Change>)

  const INITIAL: State := State([], [], map[], [], [])

  datatype Event =
    | Seed
    | Load(instance: nat)
    | StoreDraft(instance: nat, policy: Policy, createdBy: Text)
    | Ask(instance: nat, request: Request)
    | PassGate(instance: nat, command: Command)
    | ActivateThrough(gate: nat)
    | RewriteKeys(row: nat, body: Policy)

  ghost predicate MayActivate(s: State, version: Text) {
    && Find(s.rows, version).Some?
    && ShapeOk(s.rows[Find(s.rows, version).value].body) && Coherent(s.rows[Find(s.rows, version).value].body)
    && ActivateSpec(s.rows, version).Ok?
  }

  /** Only a loaded instance serves requests; drafts come in through one. */
  ghost function Apply(fold: CaseFold, baseline: Policy, s: State, e: Event): State {
    match e
    case Seed =>
      var seeded := SeedSpec(s.rows, baseline);
      if s.rows == [] && seeded.Ok?
      then s.(rows := seeded.value, changes := s.changes + [Change(baseline.version, None)])
      else s
    case Load(instance) =>
      var loaded := LoadActiveSpec(s.rows);
      if loaded.Ok? then s.(instances := s.instances[instance := loaded.value]) else s
    case StoreDraft(instance, policy, createdBy) =>
      var drafted := DraftSpec(s.rows, policy, createdBy);
      if instance in s.instances && Proper(policy) && drafted.Ok? then s.(rows := drafted.value) else s
    case Ask(instance, request) =>
      if instance in s.instances
      then
        var p := s.instances[instance];
        s.(ledger := s.ledger + [LedgerEntry(request, Decide(fold, p.policy, request), p.version, p.contentHash)])
      else s
    case PassGate(instance, command) =>
      if instance in s.instances
      then
        var p := s.instances[instance];
        var request := ActivationRequest(command);
        var decision := Decide(fold, p.policy, request);
        s.(ledger := s.ledger + [LedgerEntry(request, decision, p.version, p.contentHash)],
           gates := if decision == Allow then s.gates + [Gate(command.version, |s.ledger|)] else s.gates)
      else s
    case ActivateThrough(gate) =>
      if gate < |s.gates| && MayActivate(s, s.gates[gate].version)
      then
        var g := s.gates[gate];
        var rows := ActivateSpec(s.rows, g.version).value;
        s.(rows := rows,
           gates := s.gates[..gate] + s.gates[gate + 1..],
           changes := if rows == s.rows then s.changes else s.changes + [Change(g.version, Some(g.ledgerIndex))])
      else s
    case RewriteKeys(row, body) =>
      if row < |s.rows| && Proper(body) && SamePolicy(s.rows[row].body, body)
      then s.(rows := s.rows[row := s.rows[row].(body := body)])
      else s
  }

  ghost function Run(fold: CaseFold, baseline: Policy, s: State, events: seq<Event>): State
    decreases |events|
  {
    if events == [] then s else Run(fold, baseline, Apply(fold, baseline, s, events[0]), events[1..])
  }

  // ----- what every run keeps -----

  /** The row holds a coherent policy under its own version, with the hash of what it says. */
  ghost predicate SoundRow(row: Row) {
    && Proper(row.body) && Coherent(row.body)
    && row.contentHash == Content(row.body) && row.body.version == row.version
    && (row.status.Active? ==> ShapeOk(row.body))
  }

  ghost predicate SoundRows(rows: Rows) {
    && (forall i :: 0 <= i < |rows| ==> SoundRow(rows[i]))
    && (forall i, j :: 0 <= i < j < |rows| ==> rows[i].version != rows[j].version)
    && (rows != [] ==> ActiveCount(rows) == 1)
  }

  /** A ledgered ALLOW of the alter action. */
  ghost predicate Allowed(s: State, ledgerIndex: nat) {
    && ledgerIndex < |s.ledger|
    && s.ledger[ledgerIndex].decision == Allow && s.ledger[ledgerIndex].request.action == AlterAction()
  }

  ghost predicate SoundHistory(s: State) {
    && (forall i :: 0 <= i < |s.gates| ==> Allowed(s, s.gates[i].ledgerIndex))
    && (s.rows == [] <==> s.changes == [])
    && (forall i :: 0 <= i < |s.changes| ==> (s.changes[i].ledgerIndex.None? <==> i == 0))
    && (forall i :: 0 < i < |s.changes| ==> Allowed(s, s.changes[i].ledgerIndex.value))
    && (forall i, j :: 0 < i < j < |s.changes| ==> s.changes[i].ledgerIndex != s.changes[j].ledgerIndex)
    && (forall i, j :: 0 < i < |s.changes| && 0 <= j < |s.gates| ==> s.changes[i].ledgerIndex != Some(s.gates[j].ledgerIndex))
    && (forall i, j :: 0 <= i < j < |s.gates| ==> s.gates[i].ledgerIndex != s.gates[j].ledgerIndex)
    && (s.changes != [] ==>
          Find(s.rows, s.changes[|s.changes| - 1].version).Some?
          && s.rows[Find(s.rows, s.changes[|s.changes| - 1].version).value].status.Active?)
  }

  ghost predicate Sound(s: State) {
    && SoundRows(s.rows)
    && SoundHistory(s)
    && (s.instances.Keys != {} ==> s.rows != [])
  }

  /** A row keeps its version, its meaning and its author; what retired stays retired; the ledger only grows. */
  ghost predicate RowExtends(before: Row, after: Row) {
    && after.version == before.version && after.contentHash == before.contentHash && after.createdBy == before.createdBy
    && SamePolicy(before.body, after.body)
    && (before.status.Retired? ==> after.status.Retired?)
    && (before.status.Active? ==> !after.status.Draft?)
  }

  ghost predicate Extends(before: State, after: State) {
    && |before.rows| <= |after.rows|
    && (forall i :: 0 <= i < |before.rows| ==> RowExtends(before.rows[i], after.rows[i]))
    && before.ledger <= after.ledger && before.changes <= after.changes
  }

  lemma {:induction false} CountAppend(rows: Rows, row: Row)
    requires !row.status.Active?
    ensures ActiveCount(rows + [row]) == ActiveCount(rows)
  {
    if rows != [] {
      assert (rows + [row])[1..] == rows[1..] + [row];
      CountAppend(rows[1..], row);
    } else {
      assert [row][1..] == [];
    }
  }

  lemma {:induction false} CountSameStatus(rows: Rows, after: Rows)
    requires |rows| == |after| && forall i :: 0 <= i < |rows| ==> after[i].status == rows[i].status
    ensures ActiveCount(after) == ActiveCount(rows)
  {
    if rows != [] {
      CountSameStatus(rows[1..], after[1..]);
    }
  }

  lemma SamePolicyReflexive(p: Policy)
    ensures SamePolicy(p, p)
  {
  }

  lemma NothingChanges(s: State)
    ensures Extends(s, s)
  {
    forall i | 0 <= i < |s.rows|
      ensures RowExtends(s.rows[i], s.rows[i])
    {
      SamePolicyReflexive(s.rows[i].body);
    }
  }

  lemma SameRowsExtend(before: State, after: State)
    requires after.rows == before.rows && before.ledger <= after.ledger && before.changes <= after.changes
    ensures Extends(before, after)
  {
    NothingChanges(before);
  }

  lemma AllowedStays(s: State, after: State)
    requires s.ledger <= after.ledger
    ensures forall k: nat :: Allowed(s, k) ==> Allowed(after, k) && k < |s.ledger|
  {
    hide AlterAction;
  }

  /** The rows of the last change, if there is one, are where they were. */
  ghost predicate LastChangeActive(s: State) {
    s.changes != [] ==>
      && Find(s.rows, s.changes[|s.changes| - 1].version).Some?
      && s.rows[Find(s.rows, s.changes[|s.changes| - 1].version).value].status.Active?
  }

  lemma HistoryStays(s: State, after: State)
    requires SoundHistory(s) && after.gates == s.gates && after.changes == s.changes && s.ledger <= after.ledger
    requires (after.rows == [] <==> s.rows == []) && LastChangeActive(after)
    ensures SoundHistory(after)
  {
    hide Allowed, Find;
    AllowedStays(s, after);
  }

  lemma SeededRows(baseline: Policy)
    requires Proper(baseline) && ShapeOk(baseline) && SeedSpec([], baseline).Ok?
    ensures var rows := SeedSpec([], baseline).value;
            rows != [] && SoundRows(rows) && Find(rows, baseline.version) == Some(0) && rows[0].status.Active?
  {
    hide Content, Coherent, Proper, ShapeOk;
    var rows := SeedSpec([], baseline).value;
    assert rows[1..] == [];
    assert ActiveCount(rows) == 1;
    UniqueFind(rows, 0);
  }

  lemma SeededHistory(s: State, after: State, version: Text)
    requires SoundHistory(s) && s.rows == [] && after.rows != []
    requires after.gates == s.gates && after.ledger == s.ledger && after.changes == s.changes + [Change(version, None)]
    requires LastChangeActive(after)
    ensures SoundHistory(after)
  {
    hide Allowed, Find;
    AllowedStays(s, after);
  }

  lemma SeedStep(fold: CaseFold, baseline: Policy, s: State)
    requires Sound(s) && Proper(baseline) && ShapeOk(baseline)
    ensures Sound(Apply(fold, baseline, s, Seed)) && Extends(s, Apply(fold, baseline, s, Seed))
  {
    hide SoundRows, SoundHistory, RowExtends, SeedSpec, Find, Proper, ShapeOk;
    var after := Apply(fold, baseline, s, Seed);
    if s.rows == [] && SeedSpec(s.rows, baseline).Ok? {
      SeededRows(baseline);
      SeededHistory(s, after, baseline.version);
    } else {
      NothingChanges(s);
    }
  }

  lemma ReadStep(fold: CaseFold, baseline: Policy, s: State, e: Event)
    requires Sound(s) && (e.Load? || e.Ask?)
    ensures Sound(Apply(fold, baseline, s, e)) && Extends(s, Apply(fold, baseline, s, e))
  {
    hide SoundRows, Decide, LoadSpec, SoundHistory, Extends, ActiveCount;
    var after := Apply(fold, baseline, s, e);
    SameRowsExtend(s, after);
    LastChangeHolds(s);
    HistoryStays(s, after);
    if e.Load? {
      LoadedMeansRows(s.rows);
    }
  }

  lemma LoadedMeansRows(rows: Rows)
    ensures LoadActiveSpec(rows).Ok? ==> rows != []
  {
    hide LoadSpec;
  }

  lemma LastChangeHolds(s: State)
    requires SoundHistory(s)
    ensures LastChangeActive(s)
  {
  }

  /** A gate that points at a new ledgered ALLOW points at no earlier entry. */
  lemma GateHistory(s: State, after: State, gate: Gate)
    requires SoundHistory(s) && after.rows == s.rows && after.changes == s.changes
    requires s.ledger < after.ledger && after.gates == s.gates + [gate]
    requires gate.ledgerIndex == |s.ledger| && Allowed(after, gate.ledgerIndex)
    ensures SoundHistory(after)
  {
    hide Allowed, Find;
    AllowedStays(s, after);
  }

  /** What an attempt at the gate does to the state, without the other events in sight. */
  lemma GateMeans(fold: CaseFold, baseline: Policy, s: State, e: Event)
    requires e.PassGate?
    ensures var after := Apply(fold, baseline, s, e);
            && after.rows == s.rows && after.changes == s.changes && after.instances == s.instances && s.ledger <= after.ledger
            && (after.gates != s.gates ==>
                  && |after.ledger| == |s.ledger| + 1 && after.ledger[|s.ledger|].decision == Allow
                  && after.ledger[|s.ledger|].request == ActivationRequest(e.command)
                  && after.gates == s.gates + [Gate(e.command.version, |s.ledger|)])
  {
    hide Decide, ActivationRequest, SeedSpec, LoadActiveSpec, DraftSpec, ActivateSpec, MayActivate, Proper, SamePolicy;
  }

  lemma GateStep(fold: CaseFold, baseline: Policy, s: State, e: Event)
    requires Sound(s) && e.PassGate?
    ensures Sound(Apply(fold, baseline, s, e)) && Extends(s, Apply(fold, baseline, s, e))
  {
    hide Apply, SoundRows, SoundHistory, AlterAction, ActivationRequest, Find, Extends, Allowed;
    var after := Apply(fold, baseline, s, e);
    GateMeans(fold, baseline, s, e);
    SameRowsExtend(s, after);
    LastChangeHolds(s);
    if after.gates == s.gates {
      HistoryStays(s, after);
    } else {
      NewestIsAllowed(after, e.command);
      GateHistory(s, after, Gate(e.command.version, |s.ledger|));
    }
  }

  lemma NewestIsAllowed(s: State, command: Command)
    requires s.ledger != [] && s.ledger[|s.ledger| - 1].decision == Allow
    requires s.ledger[|s.ledger| - 1].request == ActivationRequest(command)
    ensures Allowed(s, |s.ledger| - 1)
  {
    hide AlterAction;
  }

  lemma DraftStep(fold: CaseFold, baseline: Policy, s: State, e: Event)
    requires Sound(s) && e.StoreDraft?
    ensures Sound(Apply(fold, baseline, s, e)) && Extends(s, Apply(fold, baseline, s, e))
  {
    hide Content, Coherent, ShapeOk, Proper, SamePolicy, AlterAction, Find, ActiveCount, SoundRow;
    var after := Apply(fold, baseline, s, e);
    if after == s {
      NothingChanges(s);
    } else {
      DraftRowsSound(s.rows, e.policy, e.createdBy);
      KeptRowsExtend(s.rows, after.rows);
      if s.changes != [] {
        LastChangeStays(s, after);
      }
      HistoryStays(s, after);
    }
  }

  lemma KeptRowsExtend(rows: Rows, after: Rows)
    requires rows <= after
    ensures forall i :: 0 <= i < |rows| ==> RowExtends(rows[i], after[i])
  {
    forall i | 0 <= i < |rows|
      ensures RowExtends(rows[i], after[i])
    {
      SamePolicyReflexive(rows[i].body);
    }
  }

  lemma DraftRowsSound(rows: Rows, policy: Policy, createdBy: Text)
    requires SoundRows(rows) && Proper(policy) && rows != [] && DraftSpec(rows, policy, createdBy).Ok?
    ensures SoundRows(DraftSpec(rows, policy, createdBy).value)
  {
    hide Content, Coherent, ShapeOk, Proper, Find;
    CountAppend(rows, NewRow(policy, Draft, createdBy));
    assert forall i :: 0 <= i < |rows| ==> rows[i].version != policy.version;
  }

  /** The row of the last change is found where it was. */
  lemma LastChangeStays(s: State, after: State)
    requires SoundHistory(s) && SoundRows(s.rows) && SoundRows(after.rows) && s.changes != [] && after.changes == s.changes
    requires |s.rows| <= |after.rows|
    requires forall i :: 0 <= i < |s.rows| ==> after.rows[i].version == s.rows[i].version && after.rows[i].status == s.rows[i].status
    ensures Find(after.rows, s.changes[|s.changes| - 1].version).Some?
    ensures after.rows[Find(after.rows, s.changes[|s.changes| - 1].version).value].status.Active?
  {
    hide SoundRow;
    var k := Find(s.rows, s.changes[|s.changes| - 1].version).value;
    UniqueFind(after.rows, k);
  }

  /** What a rewrite of stored keys does to the state, without the other events in sight. */
  lemma RewriteMeans(fold: CaseFold, baseline: Policy, s: State, e: Event)
    requires e.RewriteKeys?
    ensures Apply(fold, baseline, s, e) ==
            if e.row < |s.rows| && Proper(e.body) && SamePolicy(s.rows[e.row].body, e.body)
            then s.(rows := s.rows[e.row := s.rows[e.row].(body := e.body)]) else s
  {
    hide Proper, SamePolicy, SeedSpec, LoadActiveSpec, DraftSpec, ActivateSpec, MayActivate, Decide, ActivationRequest;
  }

  lemma RewriteStep(fold: CaseFold, baseline: Policy, s: State, e: Event)
    requires Sound(s) && e.RewriteKeys?
    ensures Sound(Apply(fold, baseline, s, e)) && Extends(s, Apply(fold, baseline, s, e))
  {
    hide Apply, Content, Coherent, ShapeOk, Proper, SamePolicy, AlterAction, Find, ActiveCount, SoundRow, SoundHistory, RowExtends;
    var after := Apply(fold, baseline, s, e);
    RewriteMeans(fold, baseline, s, e);
    if after == s {
      NothingChanges(s);
    } else {
      RewrittenRows(s.rows, e.row, e.body);
      if s.changes != [] {
        LastChangeStays(s, after);
      }
      HistoryStays(s, after);
    }
  }

  lemma RewrittenRows(rows: Rows, n: nat, body: Policy)
    requires SoundRows(rows) && n < |rows| && Proper(body) && SamePolicy(rows[n].body, body)
    ensures var after := rows[n := rows[n].(body := body)];
            SoundRows(after) && forall i :: 0 <= i < |rows| ==> RowExtends(rows[i], after[i])
  {
    hide Content, Coherent, ShapeOk, Proper, SamePolicy, SoundRow, ActiveCount;
    var after := rows[n := rows[n].(body := body)];
    RewrittenRowSound(rows[n], body);
    CountSameStatus(rows, after);
    forall i | 0 <= i < |rows|
      ensures RowExtends(rows[i], after[i])
    {
      SamePolicyReflexive(rows[i].body);
    }
  }

  lemma RewrittenRowSound(row: Row, body: Policy)
    requires SoundRow(row) && Proper(body) && SamePolicy(row.body, body)
    ensures SoundRow(row.(body := body))
  {
    ContentIgnoresKeyOrder(row.body, body);
    CoherenceIgnoresKeyOrder(row.body, body);
    if ShapeOk(row.body) {
      ShapeIgnoresKeyOrder(row.body, body);
    }
    hide Content, Coherent, ShapeOk;
  }

  lemma ActivateStep(fold: CaseFold, baseline: Policy, s: State, e: Event)
    requires Sound(s) && e.ActivateThrough?
    ensures Sound(Apply(fold, baseline, s, e)) && Extends(s, Apply(fold, baseline, s, e))
  {
    hide Content, Coherent, ShapeOk, Proper, SamePolicy, AlterAction, Find, ActivateSpec, SoundRow, RowExtends;
    var after := Apply(fold, baseline, s, e);
    if after == s {
      NothingChanges(s);
    } else {
      ActivatedRows(s.rows, s.gates[e.gate].version);
      assert forall k :: Allowed(s, k) ==> Allowed(after, k);
      ActivateHistory(s, after, e.gate);
    }
  }

  /** A successful activation keeps the rows sound and makes the version asked for the active one. */
  lemma ActivatedRows(rows: Rows, version: Text)
    requires SoundRows(rows) && ActivateSpec(rows, version).Ok? && Find(rows, version).Some?
    requires ShapeOk(rows[Find(rows, version).value].body)
    ensures var after := ActivateSpec(rows, version).value;
            && SoundRows(after) && |after| == |rows| && after != []
            && (forall i :: 0 <= i < |rows| ==> RowExtends(rows[i], after[i]))
            && (after == rows || rows[Find(rows, version).value].status.Draft?)
            && Find(after, version).Some? && after[Find(after, version).value].status.Active?
  {
    hide Content, Coherent, ShapeOk, Proper, SamePolicy;
    var after := ActivateSpec(rows, version).value;
    var k := Find(rows, version).value;
    UniqueFind(rows, k);
    forall i | 0 <= i < |rows|
      ensures SoundRow(after[i]) && RowExtends(rows[i], after[i])
    {
      assert SoundRow(rows[i]);
      SamePolicyReflexive(rows[i].body);
      if rows[i].version == version && i != k {
        assert false;
      }
    }
    hide SoundRow, RowExtends;
    assert forall i :: 0 <= i < |rows| ==> after[i].version == rows[i].version;
    UniqueFind(after, k);
  }

  lemma ActivateHistory(s: State, after: State, gate: nat)
    requires Sound(s) && gate < |s.gates| && after.ledger == s.ledger && after.rows != []
    requires after.gates == s.gates[..gate] + s.gates[gate + 1..]
    requires var g := s.gates[gate];
             after.changes == if after.rows == s.rows then s.changes else s.changes + [Change(g.version, Some(g.ledgerIndex))]
    requires Find(s.rows, s.gates[gate].version).Some?
    requires Find(after.rows, s.gates[gate].version).Some?
    requires after.rows[Find(after.rows, s.gates[gate].version).value].status.Active?
    ensures SoundHistory(after)
  {
    hide SoundRows, AlterAction, Find;
    assert s.changes != [];
    assert forall k :: Allowed(s, k) ==> Allowed(after, k);
    forall i | 0 <= i < |after.gates|
      ensures exists k :: 0 <= k < |s.gates| && k != gate && after.gates[i] == s.gates[k] && (i < gate ==> k == i) && (i >= gate ==> k == i + 1)
    {
      assert after.gates[i] == s.gates[if i < gate then i else i + 1];
    }
  }

  lemma ApplySound(fold: CaseFold, baseline: Policy, s: State, e: Event)
    requires Sound(s) && Proper(baseline) && ShapeOk(baseline)
    ensures Sound(Apply(fold, baseline, s, e)) && Extends(s, Apply(fold, baseline, s, e))
  {
    hide Sound, Extends, Apply;
    match e
    case Seed => SeedStep(fold, baseline, s);
    case Load(_) => ReadStep(fold, baseline, s, e);
    case Ask(_, _) => ReadStep(fold, baseline, s, e);
    case PassGate(_, _) => GateStep(fold, baseline, s, e);
    case StoreDraft(_, _, _) => DraftStep(fold, baseline, s, e);
    case ActivateThrough(_) => ActivateStep(fold, baseline, s, e);
    case RewriteKeys(_, _) => RewriteStep(fold, baseline, s, e);
  }

  lemma ExtendsTransitive(a: State, b: State, c: State)
    requires Extends(a, b) && Extends(b, c)
    ensures Extends(a, c)
  {
    forall i | 0 <= i < |a.rows|
      ensures RowExtends(a.rows[i], c.rows[i])
    {
      assert RowExtends(a.rows[i], b.rows[i]) && RowExtends(b.rows[i], c.rows[i]);
      SamePolicyTransitive(a.rows[i].body, b.rows[i].body, c.rows[i].body);
    }
  }

  lemma SamePolicyTransitive(p: Policy, q: Policy, r: Policy)
    requires SamePolicy(p, q) && SamePolicy(q, r)
    ensures SamePolicy(p, r)
  {
  }

  lemma {:induction false} RunSound(fold: CaseFold, baseline: Policy, s: State, events: seq<Event>)
    requires Sound(s) && Proper(baseline) && ShapeOk(baseline)
    ensures Sound(Run(fold, baseline, s, events)) && Extends(s, Run(fold, baseline, s, events))
    decreases |events|
  {
    hide Sound, Extends, Apply;
    if events == [] {
      NothingChanges(s);
    } else {
      ApplySound(fold, baseline, s, events[0]);
      RunSound(fold, baseline, Apply(fold, baseline, s, events[0]), events[1..]);
      ExtendsTransitive(s, Apply(fold, baseline, s, events[0]),
                        Run(fold, baseline, Apply(fold, baseline, s, events[0]), events[1..]));
    }
  }

  // ----- the main results -----

  /** Once seeded, exactly one row is active: the one found first is the only one, and the last change named it. */
  lemma ExactlyOneActive(fold: CaseFold, baseline: Policy, events: seq<Event>, i: nat, j: nat)
    requires Proper(baseline) && ShapeOk(baseline)
    requires Run(fold, baseline, INITIAL, events).rows != []
    ensures var s := Run(fold, baseline, INITIAL, events);
            && FirstActive(s.rows).Some?
            && (i < |s.rows| && j < |s.rows| && s.rows[i].status.Active? && s.rows[j].status.Active? ==> i == j)
            && s.changes != [] && s.rows[FirstActive(s.rows).value].version == s.changes[|s.changes| - 1].version
  {
    hide Apply, Run, SoundRow, Find, AlterAction;
    RunSound(fold, baseline, INITIAL, events);
    var s := Run(fold, baseline, INITIAL, events);
    CountBelow(s.rows);
  }

  /** What is retired stays retired, and no row ever changes its version, its author or what it says. */
  lemma RetiredIsAbsorbing(fold: CaseFold, baseline: Policy, events: seq<Event>, later: seq<Event>, i: nat)
    requires Proper(baseline) && ShapeOk(baseline)
    requires i < |Run(fold, baseline, INITIAL, events).rows|
    ensures var s := Run(fold, baseline, INITIAL, events);
            var t := Run(fold, baseline, s, later);
            && i < |t.rows| && t.rows[i].version == s.rows[i].version && t.rows[i].createdBy == s.rows[i].createdBy
            && SamePolicy(s.rows[i].body, t.rows[i].body) && t.rows[i].contentHash == s.rows[i].contentHash
            && (s.rows[i].status.Retired? ==> t.rows[i].status.Retired?)
  {
    hide Apply, Run, Sound, SamePolicy;
    InitialSound();
    RunSound(fold, baseline, INITIAL, events);
    var s := Run(fold, baseline, INITIAL, events);
    RunSound(fold, baseline, s, later);
    assert RowExtends(s.rows[i], Run(fold, baseline, s, later).rows[i]);
  }

  lemma InitialSound()
    ensures Sound(INITIAL)
  {
  }

  /** Once seeded, a reload succeeds under any stored key order: the active body parses, is coherent and hashes to what its row says. */
  lemma ReloadAlwaysSucceeds(fold: CaseFold, baseline: Policy, events: seq<Event>)
    requires Proper(baseline) && ShapeOk(baseline)
    requires Run(fold, baseline, INITIAL, events).rows != []
    ensures LoadActiveSpec(Run(fold, baseline, INITIAL, events).rows).Ok?
  {
    hide Apply, Run, Content, Coherent, ShapeOk;
    RunSound(fold, baseline, INITIAL, events);
    var rows := Run(fold, baseline, INITIAL, events).rows;
    assert SoundRow(rows[FirstActive(rows).value]);
  }

  /** Every change of the active version except the bootstrap rests on its own ledgered ALLOW of the alter action. */
  lemma EveryChangeWasAllowed(fold: CaseFold, baseline: Policy, events: seq<Event>, i: nat, j: nat)
    requires Proper(baseline) && ShapeOk(baseline)
    requires i < |Run(fold, baseline, INITIAL, events).changes|
    ensures var s := Run(fold, baseline, INITIAL, events);
            && (i == 0 <==> s.changes[i].ledgerIndex.None?)
            && (i > 0 ==> && s.changes[i].ledgerIndex.value < |s.ledger|
                          && s.ledger[s.changes[i].ledgerIndex.value].decision == Allow
                          && s.ledger[s.changes[i].ledgerIndex.value].request.action == Literal("constitution.rules.alter.core"))
            && (0 < i < j < |s.changes| ==> s.changes[i].ledgerIndex != s.changes[j].ledgerIndex)
  {
    hide Apply, Run, SoundRows, Literal, Find;
    InitialSound();
    RunSound(fold, baseline, INITIAL, events);
  }
}
