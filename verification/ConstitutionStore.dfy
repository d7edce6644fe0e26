/**
 Where policies live: rows that are drafted, activated and retired in place, a
 seed that runs once on an empty table, and the service that changes the active
 policy only through its own gate.
 */
module ConstitutionStore {
  import opened JsText
  import opened Options
  import opened ConstitutionPolicy
  import opened ConstitutionEngine
  import opened ConstitutionValidation

  const SEED_ATTEMPTS := 5

  function BootstrapAuthor(): Text {
    Literal("system.bootstrap")
  }

  function AlterAction(): Text {
    Literal("constitution.rules.alter.core")
  }

  function PlatformOrganisation(): Text {
    Literal("sentinel-platform")
  }

  datatype Status = Draft | Active | Retired

  datatype Row = Row(version: Text, body: Policy, contentHash: Text, status: Status, createdBy: Text)

  type Rows = seq<Row>

  datatype Outcome<+T> =
    | Ok(value: T)
    | PolicyInvalid
    | VersionTaken
    | PolicyNotFound
    | NotActivatable
    | NotSingleActive(count: nat)
    | NoActivePolicy
    | ShapeError
    | IntegrityError
    | WriteConflict
    | NotLoaded
    | LedgerUnavailable

  datatype Loaded = Loaded(policy: Policy, version: Text, contentHash: Text, createdBy: Text)

  // ----- the store as a function of its rows -----

  function Find(rows: Rows, version: Text): (i: Option<nat>)
    ensures i.Some? ==> i.value < |rows| && rows[i.value].version == version
    ensures i.None? <==> forall k :: 0 <= k < |rows| ==> rows[k].version != version
  {
    if rows == [] then None
    else if rows[0].version == version then Some(0)
    else
      assert rows == [rows[0]] + rows[1..];
      match Find(rows[1..], version)
      case None => None
      case Some(k) => Some(k + 1)
  }

  function ActiveCount(rows: Rows): nat {
    if rows == [] then 0 else (if rows[0].status.Active? then 1 else 0) + ActiveCount(rows[1..])
  }

  function FirstActive(rows: Rows): (i: Option<nat>)
    ensures i.Some? ==> i.value < |rows| && rows[i.value].status.Active?
    ensures i.None? <==> ActiveCount(rows) == 0
  {
    if rows == [] then None
    else if rows[0].status.Active? then Some(0)
    else
      match FirstActive(rows[1..])
      case None => None
      case Some(k) => Some(k + 1)
  }

  function NewRow(policy: Policy, status: Status, createdBy: Text): Row {
    Row(policy.version, policy, Content(policy), status, createdBy)
  }

  ghost function DraftSpec(rows: Rows, policy: Policy, createdBy: Text): Outcome<Rows> {
    if !Coherent(policy) then PolicyInvalid
    else if Find(rows, policy.version).Some? then VersionTaken
    else Ok(rows + [NewRow(policy, Draft, createdBy)])
  }

  /** Every other active row retires and the target becomes active. */
  function Switch(rows: Rows, version: Text): (after: Rows)
    ensures |after| == |rows|
    ensures forall i :: 0 <= i < |rows| ==>
                          after[i] == if rows[i].version == version then rows[i].(status := Active)
                                      else if rows[i].status.Active? then rows[i].(status := Retired) else rows[i]
  {
    seq(|rows|, i requires 0 <= i < |rows| =>
      if rows[i].version == version then rows[i].(status := Active)
      else if rows[i].status.Active? then rows[i].(status := Retired) else rows[i])
  }

  function ActivateSpec(rows: Rows, version: Text): Outcome<Rows> {
    match Find(rows, version)
    case None => PolicyNotFound
    case Some(i) =>
      if rows[i].status.Retired? then NotActivatable
      else
        var after := if rows[i].status.Active? then rows else Switch(rows, version);
        if ActiveCount(after) != 1 then NotSingleActive(ActiveCount(after)) else Ok(after)
  }

  ghost function SeedSpec(rows: Rows, baseline: Policy): Outcome<Rows> {
    if rows != [] then Ok(rows)
    else if !Coherent(baseline) then PolicyInvalid
    else Ok([NewRow(baseline, Active, BootstrapAuthor())])
  }

  /** What a seeding transaction that is not aborted does to the rows it saw. */
  ghost predicate Seeded(seen: Rows, baseline: Policy, after: Rows, r: Outcome<()>) {
    match SeedSpec(seen, baseline)
    case Ok(rows) => r == Ok(()) && after == rows && after != []
    case _ => r == PolicyInvalid && after == seen == [] && !Coherent(baseline)
  }

  ghost function LoadSpec(row: Row): Outcome<Loaded> {
    if !ShapeOk(row.body) then ShapeError
    else if !Coherent(row.body) then PolicyInvalid
    else if Content(row.body) != row.contentHash then IntegrityError
    else if row.body.version != row.version then IntegrityError
    else Ok(Loaded(row.body, row.version, row.contentHash, row.createdBy))
  }

  ghost function LoadActiveSpec(rows: Rows): Outcome<Loaded> {
    match FirstActive(rows)
    case None => NoActivePolicy
    case Some(i) => LoadSpec(rows[i])
  }

  lemma {:induction false} CountBelow(rows: Rows)
    ensures ActiveCount(rows) == 0 <==> forall i :: 0 <= i < |rows| ==> !rows[i].status.Active?
    ensures ActiveCount(rows) <= 1 ==> forall i, j :: 0 <= i < j < |rows| ==> !(rows[i].status.Active? && rows[j].status.Active?)
  {
    if rows != [] {
      CountBelow(rows[1..]);
      assert rows == [rows[0]] + rows[1..];
      forall i, j | ActiveCount(rows) <= 1 && 0 <= i < j < |rows|
        ensures !(rows[i].status.Active? && rows[j].status.Active?)
      {
        assert rows[j] == rows[1..][j - 1];
        if i > 0 {
          assert rows[i] == rows[1..][i - 1];
        }
      }
    }
  }

  lemma UniqueFind(rows: Rows, i: nat)
    requires i < |rows| && forall a, b :: 0 <= a < b < |rows| ==> rows[a].version != rows[b].version
    ensures Find(rows, rows[i].version) == Some(i)
  {
  }

  /** The row found under the version is the one an activation leaves active, and nothing but its status has changed. */
  lemma ActivatedIsFirst(rows: Rows, version: Text)
    requires ActivateSpec(rows, version).Ok?
    ensures Find(rows, version).Some?
    ensures var after := ActivateSpec(rows, version).value;
            var i := Find(rows, version).value;
            && |after| == |rows| && FirstActive(after) == Some(i) && after[i] == rows[i].(status := Active)
            && LoadActiveSpec(after) == LoadSpec(rows[i])
  {
    hide ActiveCount, FirstActive, LoadSpec, Find;
    var after := ActivateSpec(rows, version).value;
    OnlyOneActive(after, Find(rows, version).value);
    LoadReadsNoStatus(rows[Find(rows, version).value]);
  }

  lemma OnlyOneActive(rows: Rows, i: nat)
    requires ActiveCount(rows) == 1 && i < |rows| && rows[i].status.Active?
    ensures FirstActive(rows) == Some(i)
  {
    CountBelow(rows);
    hide ActiveCount;
  }

  lemma LoadReadsNoStatus(row: Row)
    ensures LoadSpec(row.(status := Active)) == LoadSpec(row)
  {
    hide Content, Coherent, ShapeOk;
  }

  lemma {:induction false} SwitchLeavesOne(rows: Rows, version: Text)
    requires forall a, b :: 0 <= a < b < |rows| ==> rows[a].version != rows[b].version
    ensures ActiveCount(Switch(rows, version)) == if Find(rows, version).Some? then 1 else 0
  {
    if rows != [] {
      SwitchLeavesOne(rows[1..], version);
      assert Switch(rows, version)[1..] == Switch(rows[1..], version);
    }
  }

  /** A draft as it is stored can be activated: its version is found, it loads, and it ends as the one active row. */
  lemma StoredDraftCanBeActivated(rows: Rows, i: nat, policy: Policy, author: Text)
    requires i < |rows| && rows[i] == NewRow(policy, Draft, author) && ShapeOk(policy) && Coherent(policy)
    requires forall a, b :: 0 <= a < b < |rows| ==> rows[a].version != rows[b].version
    ensures Find(rows, policy.version) == Some(i)
    ensures LoadSpec(rows[i]) == Ok(Loaded(policy, policy.version, Content(policy), author))
    ensures ActivateSpec(rows, policy.version).Ok?
    ensures var after := ActivateSpec(rows, policy.version).value;
            && |after| == |rows| && after[i] == NewRow(policy, Active, author)
            && forall k :: 0 <= k < |rows| && k != i ==>
                             after[k] == if rows[k].status.Active? then rows[k].(status := Retired) else rows[k]
  {
    hide Content, Coherent, ShapeOk, ActiveCount;
    UniqueFind(rows, i);
    SwitchLeavesOne(rows, policy.version);
  }

  /**
   The integrity test told from what it keeps out. Under the hash of a policy a
   row loads exactly when it holds that policy, up to key order, under its own
   version; anything else of the right shape is an integrity error.
   */
  lemma LoadedIsWhatWasHashed(row: Row, p: Policy)
    requires Proper(p) && Proper(row.body) && row.contentHash == Content(p)
    ensures LoadSpec(row).Ok? <==> SamePolicy(p, row.body) && row.version == p.version && ShapeOk(p) && Coherent(p)
    ensures LoadSpec(row).Ok? ==> LoadSpec(row).value.policy == row.body && LoadSpec(row).value.version == p.version
    ensures ShapeOk(row.body) && Coherent(row.body) ==>
              (LoadSpec(row).IntegrityError? <==> !SamePolicy(p, row.body) || row.version != p.version)
  {
    hide Content, Coherent, ShapeOk, Proper;
    ContentDecidesPolicy(p, row.body);
    if SamePolicy(p, row.body) {
      SamePolicyBack(p, row.body);
      if Coherent(p) {
        CoherenceIgnoresKeyOrder(p, row.body);
      }
      if Coherent(row.body) {
        CoherenceIgnoresKeyOrder(row.body, p);
      }
      if ShapeOk(p) {
        ShapeIgnoresKeyOrder(p, row.body);
      }
      if ShapeOk(row.body) {
        ShapeIgnoresKeyOrder(row.body, p);
      }
    }
  }

  lemma SamePolicyBack(p: Policy, q: Policy)
    requires SamePolicy(p, q)
    ensures SamePolicy(q, p) && p.version == q.version
  {
  }

  // ----- the repository -----

  class Repository {
    var rows: Rows

    constructor ()
      ensures rows == []
    {
      rows := [];
    }

    method CreateDraft(policy: Policy, createdBy: Text) returns (r: Outcome<Row>)
      modifies this
      ensures DraftSpec(old(rows), policy, createdBy).Ok? ==>
              rows == DraftSpec(old(rows), policy, createdBy).value && r == Ok(NewRow(policy, Draft, createdBy))
      ensures !DraftSpec(old(rows), policy, createdBy).Ok? ==> rows == old(rows) && !r.Ok?
      ensures (r.PolicyInvalid? <==> !Coherent(policy)) && (r.VersionTaken? <==> DraftSpec(old(rows), policy, createdBy).VersionTaken?)
    {
      hide Violates, Content, Find;
      var issues := ValidatePolicy(policy);
      if issues != [] {
        return PolicyInvalid;
      }
      if Find(rows, policy.version).Some? {
        return VersionTaken;
      }
      var row := NewRow(policy, Draft, createdBy);
      rows := rows + [row];
      return Ok(row);
    }

    /** One serializable transaction: everything it wrote is undone when the count is not one. */
    method Activate(version: Text) returns (r: Outcome<Row>)
      modifies this
      ensures ActivateSpec(old(rows), version).Ok? ==>
              && rows == ActivateSpec(old(rows), version).value && r.Ok?
              && Find(rows, version).Some? && r.value == rows[Find(rows, version).value]
      ensures !ActivateSpec(old(rows), version).Ok? ==> rows == old(rows) && !r.Ok?
    {
      var before := rows;
      var target := Find(rows, version);
      if target.None? {
        return PolicyNotFound;
      }
      if rows[target.value].status.Retired? {
        return NotActivatable;
      }
      if !rows[target.value].status.Active? {
        rows := Switch(rows, version);
      }
      var activeCount := ActiveCount(rows);
      if activeCount != 1 {
        rows := before;
        return NotSingleActive(activeCount);
      }
      SwitchKeepsVersions(before, version);
      return Ok(rows[Find(rows, version).value]);
    }

    /**
     One seeding transaction. A conflict aborts it and leaves the table as other
     writers have made it by then.
     */
    method SeedBaselineOnce(baseline: Policy, conflict: Option<Rows>) returns (r: Outcome<()>)
      modifies this
      ensures conflict.Some? ==> r == WriteConflict && rows == conflict.value
      ensures conflict.None? ==> Seeded(old(rows), baseline, rows, r)
    {
      hide Violates, Content;
      if conflict.Some? {
        rows := conflict.value;
        return WriteConflict;
      }
      if |rows| > 0 {
        return Ok(());
      }
      var issues := ValidatePolicy(baseline);
      if issues != [] {
        return PolicyInvalid;
      }
      rows := [NewRow(baseline, Active, BootstrapAuthor())];
      return Ok(());
    }

    /**
     The counted retry: at most five attempts, each one lost to a conflict or the
     last. It returns normally only with a table that is not empty, and gives up
     only after five conflicts or on an incoherent baseline.
     */
    method EnsureBaselineSeeded(baseline: Policy, conflicts: seq<Option<Rows>>) returns (r: Outcome<()>, attempts: nat)
      requires |conflicts| == SEED_ATTEMPTS
      modifies this
      ensures 1 <= attempts <= SEED_ATTEMPTS
      ensures forall k :: 0 <= k < attempts - 1 ==> conflicts[k].Some?
      ensures r.WriteConflict? <==> forall k :: 0 <= k < SEED_ATTEMPTS ==> conflicts[k].Some?
      ensures !r.WriteConflict? ==>
              && conflicts[attempts - 1].None?
              && Seeded(if attempts == 1 then old(rows) else conflicts[attempts - 2].value, baseline, rows, r)
      ensures r.Ok? ==> rows != []
    {
      hide Seeded;
      attempts := 1;
      r := SeedBaselineOnce(baseline, conflicts[0]);
      SeedingIsNoConflict(old(rows), baseline, rows, r);
      while r.WriteConflict? && attempts < SEED_ATTEMPTS
        invariant 1 <= attempts <= SEED_ATTEMPTS
        invariant forall k :: 0 <= k < attempts - 1 ==> conflicts[k].Some?
        invariant r.WriteConflict? <==> conflicts[attempts - 1].Some?
        invariant r.WriteConflict? ==> rows == conflicts[attempts - 1].value
        invariant !r.WriteConflict? ==>
                    Seeded(if attempts == 1 then old(rows) else conflicts[attempts - 2].value, baseline, rows, r)
        invariant r.Ok? ==> rows != []
        decreases SEED_ATTEMPTS - attempts
      {
        ghost var seen := rows;
        attempts := attempts + 1;
        r := SeedBaselineOnce(baseline, conflicts[attempts - 1]);
        SeedingIsNoConflict(seen, baseline, rows, r);
      }
    }
  }

  lemma SeedingIsNoConflict(seen: Rows, baseline: Policy, after: Rows, r: Outcome<()>)
    ensures Seeded(seen, baseline, after, r) ==> !r.WriteConflict? && (r.Ok? ==> after != [])
  {
  }

  lemma SwitchKeepsVersions(rows: Rows, version: Text)
    ensures Find(Switch(rows, version), version).Some? <==> Find(rows, version).Some?
  {
    assert forall k :: 0 <= k < |rows| ==> Switch(rows, version)[k].version == rows[k].version;
  }

  // ----- the service -----

  datatype LedgerEntry = LedgerEntry(request: Request, decision: Decision, policyVersion: Text, policyHash: Text)

  datatype Command = Command(version: Text, actor: Actor, approvals: seq<Approval>, approverRoles: Record<seq<Text>>)

  /** Changing the constitution is an action on the platform's own document. */
  function ActivationRequest(c: Command): Request {
    Request(AlterAction(), c.actor, Target(PlatformOrganisation(), Restricted, Finite(3.0)), c.approvals, c.approverRoles)
  }

  /** Why an activation did not happen, or the decision and the policy in force afterwards. */
  datatype Activation = NotAllowed(decision: Decision) | Activated(active: Loaded) | Failed(outcome: Outcome<()>)

  class Service {
    const repository: Repository
    var ledger: seq<LedgerEntry>
    var loaded: Option<Loaded>

    constructor (repository: Repository)
      ensures this.repository == repository && ledger == [] && loaded == None
    {
      this.repository := repository;
      ledger := [];
      loaded := None;
    }

    method LoadStored(row: Row) returns (r: Outcome<Loaded>)
      ensures r == LoadSpec(row)
    {
      hide Violates, Content;
      if !ShapeOk(row.body) {
        return ShapeError;
      }
      var issues := ValidatePolicy(row.body);
      if issues != [] {
        return PolicyInvalid;
      }
      if Content(row.body) != row.contentHash {
        return IntegrityError;
      }
      if row.body.version != row.version {
        return IntegrityError;
      }
      return Ok(Loaded(row.body, row.version, row.contentHash, row.createdBy));
    }

    /** Seeds when the table is empty, then loads the active row; the loaded policy changes only when that succeeds. */
    method Reload(baseline: Policy, conflicts: seq<Option<Rows>>) returns (r: Outcome<Loaded>)
      requires |conflicts| == SEED_ATTEMPTS
      modifies repository, this`loaded
      ensures r.Ok? ==> && loaded == Some(r.value) && repository.rows != [] && r == LoadActiveSpec(repository.rows)
      ensures !r.Ok? ==> loaded == old(loaded)
      ensures conflicts[0].None? && old(repository.rows) != [] ==>
              repository.rows == old(repository.rows) && r == LoadActiveSpec(repository.rows)
      ensures conflicts[0].None? && old(repository.rows) == [] && Coherent(baseline) && ShapeOk(baseline) ==>
              && repository.rows == [NewRow(baseline, Active, BootstrapAuthor())]
              && r == Ok(Loaded(baseline, baseline.version, Content(baseline), BootstrapAuthor()))
    {
      hide Coherent, Content, ShapeOk;
      var seeded, attempts := repository.EnsureBaselineSeeded(baseline, conflicts);
      if !seeded.Ok? {
        return if seeded.WriteConflict? then WriteConflict else PolicyInvalid;
      }
      var active := FirstActive(repository.rows);
      if active.None? {
        return NoActivePolicy;
      }
      r := LoadStored(repository.rows[active.value]);
      if r.Ok? {
        loaded := Some(r.value);
      }
    }

    /** Exactly one ledger record per decision returned; a sink that refuses the record refuses the decision. */
    method Decided(fold: CaseFold, request: Request, sinkAccepts: bool) returns (r: Outcome<Decision>)
      modifies this`ledger
      ensures loaded.None? ==> r == NotLoaded && ledger == old(ledger)
      ensures loaded.Some? && !sinkAccepts ==> r == LedgerUnavailable && ledger == old(ledger)
      ensures loaded.Some? && sinkAccepts ==>
              && r == Ok(Decide(fold, loaded.value.policy, request))
              && ledger == old(ledger) + [LedgerEntry(request, r.value, loaded.value.version, loaded.value.contentHash)]
    {
      hide Decide;
      if loaded.None? {
        return NotLoaded;
      }
      var decision, results, reasons := Evaluate(fold, loaded.value.policy, request);
      if !sinkAccepts {
        return LedgerUnavailable;
      }
      ledger := ledger + [LedgerEntry(request, decision, loaded.value.version, loaded.value.contentHash)];
      return Ok(decision);
    }

    /**
     The gate. Whatever the outcome, one record of the alter action is ledgered
     first; anything but ALLOW leaves the rows and the loaded policy as they were;
     and the rows change only by the activation of a stored, coherent version.
     */
    method ActivatePolicy(fold: CaseFold, command: Command, sinkAccepts: bool, baseline: Policy, conflicts: seq<Option<Rows>>)
      returns (r: Activation)
      requires |conflicts| == SEED_ATTEMPTS
      modifies repository, this`loaded, this`ledger
      ensures old(loaded).None? ==> r == Failed(NotLoaded) && ledger == old(ledger)
      ensures old(loaded).Some? && sinkAccepts ==>
              ledger == old(ledger) + [LedgerEntry(ActivationRequest(command), Decide(fold, old(loaded).value.policy, ActivationRequest(command)),
                                                   old(loaded).value.version, old(loaded).value.contentHash)]
      ensures old(loaded).Some? && !sinkAccepts ==> r == Failed(LedgerUnavailable) && ledger == old(ledger)
      ensures r.NotAllowed? || old(loaded).None? || !sinkAccepts ==> repository.rows == old(repository.rows) && loaded == old(loaded)
      ensures r.NotAllowed? ==> r.decision != Allow
      ensures repository.rows != old(repository.rows) && conflicts[0].None? ==>
              && old(loaded).Some? && Decide(fold, old(loaded).value.policy, ActivationRequest(command)) == Allow && sinkAccepts
              && ActivateSpec(old(repository.rows), command.version) == Ok(repository.rows)
              && Find(old(repository.rows), command.version).Some?
              && var body := old(repository.rows)[Find(old(repository.rows), command.version).value].body;
                 ShapeOk(body) && Coherent(body)
      ensures r.Activated? ==> loaded == Some(r.active) && LoadActiveSpec(repository.rows) == Ok(r.active)
      ensures
        && old(loaded).Some? && sinkAccepts && conflicts[0].None?
        && Decide(fold, old(loaded).value.policy, ActivationRequest(command)) == Allow
        && ActivateSpec(old(repository.rows), command.version).Ok?
        && LoadSpec(old(repository.rows)[Find(old(repository.rows), command.version).value]).Ok? ==>
          && repository.rows == ActivateSpec(old(repository.rows), command.version).value
          && r == Activated(LoadSpec(old(repository.rows)[Find(old(repository.rows), command.version).value]).value)
    {
      hide Decide, Coherent, Content, ShapeOk, ActiveCount, Switch, FirstActive, LoadActiveSpec;
      var decision := Decided(fold, ActivationRequest(command), sinkAccepts);
      if !decision.Ok? {
        return Failed(if decision.NotLoaded? then NotLoaded else LedgerUnavailable);
      }
      if decision.value != Allow {
        return NotAllowed(decision.value);
      }
      var candidate := Find(repository.rows, command.version);
      if candidate.None? {
        return Failed(PolicyNotFound);
      }
      var body := repository.rows[candidate.value].body;
      if !ShapeOk(body) {
        return Failed(ShapeError);
      }
      var issues := ValidatePolicy(body);
      if issues != [] {
        return Failed(PolicyInvalid);
      }
      var activated := repository.Activate(command.version);
      if !activated.Ok? {
        return Failed(NotActivatable);
      }
      ActivatedIsNotEmpty(old(repository.rows), command.version);
      ActivatedIsFirst(old(repository.rows), command.version);
      var reloaded := Reload(baseline, conflicts);
      if !reloaded.Ok? {
        return Failed(NoActivePolicy);
      }
      return Activated(reloaded.value);
    }
  }

  lemma ActivatedIsNotEmpty(rows: Rows, version: Text)
    requires ActivateSpec(rows, version).Ok?
    ensures ActivateSpec(rows, version).value != []
  {
  }

  /** Whoever gets past the gate speaks for the platform, is cleared for the document, says why, and is on a device we trust. */
  lemma GateDemandsPlatformAuthority(fold: CaseFold, p: Policy, c: Command)
    requires Decide(fold, p, ActivationRequest(c)) == Allow
    ensures c.actor.organisationId == Literal("sentinel-platform")
    ensures c.actor.clearance.Finite? && c.actor.clearance.value >= 3.0
    ensures c.actor.purpose.Some? && !IsBlank(c.actor.purpose.value)
    ensures c.actor.deviceTrust in {Trusted, Degraded}
    ensures Literal("constitution.rules.alter.core") !in p.prohibitedActions
  {
    hide Decide, UnderControl, Literal;
    AllowExactlyWhen(fold, p, ActivationRequest(c));
  }
}
