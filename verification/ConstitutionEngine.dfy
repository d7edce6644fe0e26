/**
 The evaluator: twelve checks in a fixed order, all of them run on every
 request, and a decision that is ALLOW only when none of them fails.
 */
module ConstitutionEngine {
  import opened JsText
  import opened Options
  import opened ConstitutionPolicy
  import opened FiniteSets

  /** A JavaScript number: a finite value, or NaN or an infinity. */
  datatype Number = Finite(value: real) | NonFinite

  datatype Classification = Public | Internal | Sensitive | Restricted | Evidence | Secrets | UnknownLabel

  datatype DeviceTrust = Trusted | Degraded | Suspicious | Quarantined | Compromised | UnknownTrust

  datatype Actor = Actor(
    userId: Text,
    roles: seq<Text>,
    organisationId: Text,
    clearance: Number,
    purpose: Option<Text>,
    deviceTrust: DeviceTrust)

  datatype Target = Target(organisationId: Text, classification: Classification, classificationLevel: Number)

  /** The claimed role and time of an approval are recorded and never read. */
  datatype Approval = Approval(userId: Text, role: Text, at: Text)

  datatype Request = Request(
    action: Text,
    actor: Actor,
    target: Target,
    approvals: seq<Approval>,
    approverRoles: Record<seq<Text>>)

  datatype CheckId =
    | ActionNotProhibited
    | ActionKnown
    | ActionCategoryKnown
    | RolePermitsAction
    | OrganisationMatch
    | ClassificationConsistent
    | ClearanceSufficient
    | DeviceTrustAcceptable
    | PurposePresent
    | ApprovalSelfExclusion
    | ApprovalRoleAuthorised
    | ApprovalDistinctSufficient

  datatype Severity = Hard | ApprovalLevel

  datatype CheckResult = CheckResult(check: CheckId, severity: Severity, passed: bool)

  datatype Decision = Allow | Deny | RequireApproval | RequireTwoPerson

  /** The codes of the reasons; their prose is not modelled. */
  datatype Reason =
    | HardCheckFailed(failures: nat)
    | ApprovalPending(requirement: ApprovalRequirement)
    | Authorised
    | ApprovalSatisfied(approvers: nat)
    | CheckFailed(check: CheckId)

  // ----- identities and approvers -----

  /** `toLowerCase` is a parameter: the results hold for every case folding. */
  type CaseFold = Text -> Text

  function NormaliseId(fold: CaseFold, id: Text): Text {
    fold(Trim(id))
  }

  function ActionCategory(p: Policy, action: Text): Option<Category> {
    match Lookup(p.actions, action)
    case None => None
    case Some(categoryId) => Lookup(p.categories, categoryId)
  }

  function CategoryOf(p: Policy, r: Request): Option<Category> {
    ActionCategory(p, r.action)
  }

  /** An unresolved category is treated as the strictest one, with nobody authorised. */
  function RequirementOf(p: Policy, r: Request): ApprovalRequirement {
    match CategoryOf(p, r)
    case None => TwoPerson
    case Some(c) => c.approval
  }

  function RequiredApprovers(requirement: ApprovalRequirement): nat {
    match requirement
    case NoApproval => 0
    case One => 1
    case TwoPerson => 2
  }

  function ApprovalRolesOf(p: Policy, r: Request): seq<Text> {
    match CategoryOf(p, r)
    case None => []
    case Some(c) => c.approvalRoles
  }

  predicate DemandsDiversity(p: Policy, r: Request) {
    CategoryOf(p, r).Some? && CategoryOf(p, r).value.requireRoleDiversity == Some(true)
  }

  /** Roles are looked up under the normalised id first, then under the id as given. */
  function ResolvedRoles(fold: CaseFold, r: Request, userId: Text): seq<Text> {
    match Lookup(r.approverRoles, NormaliseId(fold, userId))
    case Some(roles) => roles
    case None =>
      match Lookup(r.approverRoles, userId)
      case Some(roles) => roles
      case None => []
  }

  predicate IsSelf(fold: CaseFold, r: Request, a: Approval) {
    NormaliseId(fold, a.userId) == NormaliseId(fold, r.actor.userId)
  }

  predicate IsCandidate(fold: CaseFold, r: Request, a: Approval) {
    !IsSelf(fold, r, a) && Trim(a.userId) != []
  }

  predicate IsRoleAuthorised(fold: CaseFold, p: Policy, r: Request, userId: Text) {
    exists role :: role in ResolvedRoles(fold, r, userId) && role in ApprovalRolesOf(p, r)
  }

  predicate IsEligible(fold: CaseFold, p: Policy, r: Request, a: Approval) {
    IsCandidate(fold, r, a) && IsRoleAuthorised(fold, p, r, a.userId)
  }

  /** Distinct normalised ids of the approvals that may count. */
  function EligibleIds(fold: CaseFold, p: Policy, r: Request): set<Text> {
    set a | a in r.approvals && IsEligible(fold, p, r, a) :: NormaliseId(fold, a.userId)
  }

  function CandidateIds(fold: CaseFold, r: Request): set<Text> {
    set a | a in r.approvals && IsCandidate(fold, r, a) :: NormaliseId(fold, a.userId)
  }

  /** The authorising roles the eligible approvers cover between them. */
  function CoveredRoles(fold: CaseFold, p: Policy, r: Request): set<Text> {
    set id, role | id in EligibleIds(fold, p, r) && role in ResolvedRoles(fold, r, id) && role in ApprovalRolesOf(p, r) :: role
  }

  // ----- levels -----

  function CanonicalLevel(c: Classification): Option<real> {
    match c
    case Public => Some(0.0)
    case Internal => Some(1.0)
    case Sensitive => Some(2.0)
    case Restricted => Some(3.0)
    case Evidence => Some(4.0)
    case Secrets => Some(5.0)
    case UnknownLabel => None
  }

  /** The stricter of label and declared level; the strictest of all when either cannot be used. */
  function EffectiveLevel(t: Target): real {
    if CanonicalLevel(t.classification).None? then 5.0
    else if t.classificationLevel.NonFinite? then 5.0
    else if CanonicalLevel(t.classification).value >= t.classificationLevel.value then CanonicalLevel(t.classification).value
    else t.classificationLevel.value
  }

  predicate TrustAcceptable(trust: DeviceTrust, level: real) {
    match trust
    case Trusted => true
    case Degraded => true
    case Suspicious => level <= 1.0
    case _ => false
  }

  // ----- the checks -----

  predicate Passes(fold: CaseFold, p: Policy, r: Request, check: CheckId) {
    var level := EffectiveLevel(r.target);
    var needed := RequiredApprovers(RequirementOf(p, r));
    match check
    case ActionNotProhibited => r.action !in p.prohibitedActions
    case ActionKnown => Lookup(p.actions, r.action).Some?
    case ActionCategoryKnown => CategoryOf(p, r).Some?
    case RolePermitsAction => exists role :: role in r.actor.roles && Grants(p, role, r.action)
    case OrganisationMatch => r.actor.organisationId == r.target.organisationId
    case ClassificationConsistent =>
      CanonicalLevel(r.target.classification).Some?
      && r.target.classificationLevel == Finite(CanonicalLevel(r.target.classification).value)
    case ClearanceSufficient => r.actor.clearance.Finite? && r.actor.clearance.value >= level
    case DeviceTrustAcceptable => TrustAcceptable(r.actor.deviceTrust, level)
    case PurposePresent => level < 2.0 || (r.actor.purpose.Some? && Trim(r.actor.purpose.value) != [])
    case ApprovalSelfExclusion => needed == 0 || forall a :: a in r.approvals ==> !IsSelf(fold, r, a)
    case ApprovalRoleAuthorised => needed == 0 || CandidateIds(fold, r) <= EligibleIds(fold, p, r)
    case ApprovalDistinctSufficient =>
      |EligibleIds(fold, p, r)| >= needed && (DemandsDiversity(p, r) ==> |CoveredRoles(fold, p, r)| >= needed)
  }

  function SeverityOf(check: CheckId): Severity {
    match check
    case ApprovalSelfExclusion => ApprovalLevel
    case ApprovalRoleAuthorised => ApprovalLevel
    case ApprovalDistinctSufficient => ApprovalLevel
    case _ => Hard
  }

  const CHECK_SEQUENCE: seq<CheckId> := [
    ActionNotProhibited, ActionKnown, ActionCategoryKnown, RolePermitsAction, OrganisationMatch, ClassificationConsistent,
    ClearanceSufficient, DeviceTrustAcceptable, PurposePresent, ApprovalSelfExclusion, ApprovalRoleAuthorised,
    ApprovalDistinctSufficient]

  predicate AllOf(fold: CaseFold, p: Policy, r: Request, severity: Severity) {
    forall i :: 0 <= i < |CHECK_SEQUENCE| && SeverityOf(CHECK_SEQUENCE[i]) == severity ==> Passes(fold, p, r, CHECK_SEQUENCE[i])
  }

  /** The decision as a function of what passes. */
  function Decide(fold: CaseFold, p: Policy, r: Request): Decision {
    if !AllOf(fold, p, r, Hard) then Deny
    else if !AllOf(fold, p, r, ApprovalLevel) then (if RequirementOf(p, r).TwoPerson? then RequireTwoPerson else RequireApproval)
    else Allow
  }

  function RunChecks(fold: CaseFold, p: Policy, r: Request): (results: seq<CheckResult>)
    ensures |results| == 12
    ensures forall i :: 0 <= i < 12 ==>
                          results[i] == CheckResult(CHECK_SEQUENCE[i], SeverityOf(CHECK_SEQUENCE[i]), Passes(fold, p, r, CHECK_SEQUENCE[i]))
  {
    seq(12, i requires 0 <= i < 12 =>
      CheckResult(CHECK_SEQUENCE[i], SeverityOf(CHECK_SEQUENCE[i]), Passes(fold, p, r, CHECK_SEQUENCE[i])))
  }

  function Failures(results: seq<CheckResult>, severity: Severity): (n: nat)
    ensures n == 0 <==> forall i :: 0 <= i < |results| && results[i].severity == severity ==> results[i].passed
  {
    if results == [] then 0
    else
      assert results == [results[0]] + results[1..];
      (if results[0].severity == severity && !results[0].passed then 1 else 0) + Failures(results[1..], severity)
  }

  /** The evaluator: every check runs and leaves one result; the reasons follow the decision and then the failures in order. */
  method Evaluate(fold: CaseFold, p: Policy, r: Request)
    returns (decision: Decision, results: seq<CheckResult>, reasons: seq<Reason>)
    ensures decision == Decide(fold, p, r)
    ensures results == RunChecks(fold, p, r)
    ensures forall check :: CheckFailed(check) in reasons <==> !Passes(fold, p, r, check)
    ensures decision.Allow? ==> reasons == if RequirementOf(p, r).NoApproval? then [Authorised]
                                           else [Authorised, ApprovalSatisfied(|EligibleIds(fold, p, r)|)]
    ensures decision.Deny? ==> reasons != [] && reasons[0] == HardCheckFailed(Failures(results, Hard)) && Failures(results, Hard) > 0
    ensures !decision.Allow? && !decision.Deny? ==> reasons != [] && reasons[0] == ApprovalPending(RequirementOf(p, r))
  {
    hide Passes, EligibleIds, RequirementOf, AllOf, Failures, RunChecks;
    results := RunChecks(fold, p, r);
    ResultsDecide(fold, p, r, results);
    if Failures(results, Hard) > 0 {
      decision := Deny;
      reasons := [HardCheckFailed(Failures(results, Hard))];
    } else if Failures(results, ApprovalLevel) > 0 {
      decision := if RequirementOf(p, r).TwoPerson? then RequireTwoPerson else RequireApproval;
      reasons := [ApprovalPending(RequirementOf(p, r))];
    } else {
      decision := Allow;
      reasons := [Authorised];
      if RequiredApprovers(RequirementOf(p, r)) > 0 {
        reasons := reasons + [ApprovalSatisfied(|EligibleIds(fold, p, r)|)];
      }
    }
    ghost var opening := reasons;
    var i := 0;
    while i < |results|
      invariant 0 <= i <= |results|
      invariant opening <= reasons
      invariant forall check :: CheckFailed(check) in reasons <==> exists k :: 0 <= k < i && results[k].check == check && !results[k].passed
      invariant (forall k :: 0 <= k < i ==> results[k].passed) ==> reasons == opening
    {
      if !results[i].passed {
        reasons := reasons + [CheckFailed(results[i].check)];
      }
      i := i + 1;
    }
    EveryCheckRuns(fold, p, r, results);
    if decision.Allow? {
      AllowedMeansAllPassed(fold, p, r, results);
    }
  }

  lemma AllowedMeansAllPassed(fold: CaseFold, p: Policy, r: Request, results: seq<CheckResult>)
    requires results == RunChecks(fold, p, r) && AllOf(fold, p, r, Hard) && AllOf(fold, p, r, ApprovalLevel)
    ensures forall k :: 0 <= k < 12 ==> results[k].passed
  {
    hide Passes;
  }

  lemma ResultsDecide(fold: CaseFold, p: Policy, r: Request, results: seq<CheckResult>)
    requires |results| == 12
    requires forall i :: 0 <= i < 12 ==>
                           results[i] == CheckResult(CHECK_SEQUENCE[i], SeverityOf(CHECK_SEQUENCE[i]), Passes(fold, p, r, CHECK_SEQUENCE[i]))
    ensures AllOf(fold, p, r, Hard) <==> forall i :: 0 <= i < 12 && results[i].severity.Hard? ==> results[i].passed
    ensures AllOf(fold, p, r, ApprovalLevel) <==> forall i :: 0 <= i < 12 && results[i].severity.ApprovalLevel? ==> results[i].passed
  {
    hide Passes;
  }

  lemma EveryCheckRuns(fold: CaseFold, p: Policy, r: Request, results: seq<CheckResult>)
    requires |results| == 12
    requires forall i :: 0 <= i < 12 ==>
                           results[i] == CheckResult(CHECK_SEQUENCE[i], SeverityOf(CHECK_SEQUENCE[i]), Passes(fold, p, r, CHECK_SEQUENCE[i]))
    ensures forall check :: !Passes(fold, p, r, check) <==> exists k :: 0 <= k < 12 && results[k].check == check && !results[k].passed
  {
    hide Passes;
    forall check: CheckId
      ensures !Passes(fold, p, r, check) <==> exists k :: 0 <= k < 12 && results[k].check == check && !results[k].passed
    {
      PlaceOf(check);
      assert results[Place(check)].check == check;
    }
  }

  function Place(check: CheckId): (k: nat)
    ensures k < 12
  {
    match check
    case ActionNotProhibited => 0
    case ActionKnown => 1
    case ActionCategoryKnown => 2
    case RolePermitsAction => 3
    case OrganisationMatch => 4
    case ClassificationConsistent => 5
    case ClearanceSufficient => 6
    case DeviceTrustAcceptable => 7
    case PurposePresent => 8
    case ApprovalSelfExclusion => 9
    case ApprovalRoleAuthorised => 10
    case ApprovalDistinctSufficient => 11
  }

  lemma PlaceOf(check: CheckId)
    ensures CHECK_SEQUENCE[Place(check)] == check
  {
  }

  // ----- the rule in one piece -----

  /** Somebody other than the actor, with a usable id and a role authorised for the category, approved. */
  ghost predicate Counts(fold: CaseFold, p: Policy, r: Request, id: Text) {
    exists a :: a in r.approvals && NormaliseId(fold, a.userId) == id && IsEligible(fold, p, r, a)
  }

  /** What is asked for is permitted, registered, granted to a role of the actor's, and within what the actor may reach. */
  ghost predicate OnTheMerits(p: Policy, r: Request) {
    var marking, declared := r.target.classification, r.target.classificationLevel;
    && r.action !in p.prohibitedActions
    && Lookup(p.actions, r.action).Some? && Lookup(p.categories, Lookup(p.actions, r.action).value).Some?
    && (exists role :: role in r.actor.roles && Lookup(p.roles, role).Some? && r.action in Lookup(p.roles, role).value)
    && r.actor.organisationId == r.target.organisationId
    && ((marking.Public? && declared == Finite(0.0)) || (marking.Internal? && declared == Finite(1.0))
        || (marking.Sensitive? && declared == Finite(2.0)) || (marking.Restricted? && declared == Finite(3.0))
        || (marking.Evidence? && declared == Finite(4.0)) || (marking.Secrets? && declared == Finite(5.0)))
    && r.actor.clearance.Finite? && r.actor.clearance.value >= declared.value
    && (r.actor.deviceTrust in {Trusted, Degraded} || (r.actor.deviceTrust.Suspicious? && marking in {Public, Internal}))
    && (marking in {Public, Internal} || (r.actor.purpose.Some? && !IsBlank(r.actor.purpose.value)))
  }

  /** No approval by the actor, none by anyone unauthorised, and enough by enough different people. */
  ghost predicate UnderControl(fold: CaseFold, p: Policy, r: Request) {
    && (forall a :: a in r.approvals ==> !IsSelf(fold, r, a))
    && (forall a :: a in r.approvals && !IsBlank(a.userId) ==> Counts(fold, p, r, NormaliseId(fold, a.userId)))
    && (RequirementOf(p, r).One? ==> exists x :: Counts(fold, p, r, x))
    && (RequirementOf(p, r).TwoPerson? ==> exists x, y :: x != y && Counts(fold, p, r, x) && Counts(fold, p, r, y))
    && (RequirementOf(p, r).One? && DemandsDiversity(p, r) ==> exists x :: x in CoveredRoles(fold, p, r))
    && (RequirementOf(p, r).TwoPerson? && DemandsDiversity(p, r) ==>
          exists x, y :: x != y && x in CoveredRoles(fold, p, r) && y in CoveredRoles(fold, p, r))
  }

  ghost predicate AllowRule(fold: CaseFold, p: Policy, r: Request) {
    OnTheMerits(p, r) && (RequirementOf(p, r).NoApproval? || UnderControl(fold, p, r))
  }

  lemma EligibleIffCounts(fold: CaseFold, p: Policy, r: Request, id: Text)
    ensures id in EligibleIds(fold, p, r) <==> Counts(fold, p, r, id)
  {
    hide IsEligible, NormaliseId;
  }

  /** The merits in the words of the checks. */
  lemma MeritsMean(p: Policy, r: Request)
    ensures OnTheMerits(p, r) ==> && CategoryOf(p, r).Some? && r.action !in p.prohibitedActions
                                  && exists role :: role in r.actor.roles && Grants(p, role, r.action)
  {
    hide Lookup, IsBlank;
    assert forall role :: Grants(p, role, r.action) <==> Lookup(p.roles, role).Some? && r.action in Lookup(p.roles, role).value;
  }

  lemma ActionChecks(fold: CaseFold, p: Policy, r: Request)
    ensures Passes(fold, p, r, ActionNotProhibited) && Passes(fold, p, r, ActionKnown) && Passes(fold, p, r, ActionCategoryKnown)
            && Passes(fold, p, r, RolePermitsAction) && Passes(fold, p, r, OrganisationMatch) <==>
            && r.action !in p.prohibitedActions
            && Lookup(p.actions, r.action).Some? && Lookup(p.categories, Lookup(p.actions, r.action).value).Some?
            && (exists role :: role in r.actor.roles && Lookup(p.roles, role).Some? && r.action in Lookup(p.roles, role).value)
            && r.actor.organisationId == r.target.organisationId
  {
    hide Lookup, EffectiveLevel, RequirementOf, EligibleIds, CandidateIds, CoveredRoles, DemandsDiversity, TrustAcceptable, IsSelf;
    assert forall role :: Grants(p, role, r.action) <==> Lookup(p.roles, role).Some? && r.action in Lookup(p.roles, role).value;
  }

  lemma LevelChecks(fold: CaseFold, p: Policy, r: Request)
    ensures Passes(fold, p, r, ClassificationConsistent) && Passes(fold, p, r, ClearanceSufficient)
            && Passes(fold, p, r, DeviceTrustAcceptable) && Passes(fold, p, r, PurposePresent) <==>
            var marking, declared := r.target.classification, r.target.classificationLevel;
            && ((marking.Public? && declared == Finite(0.0)) || (marking.Internal? && declared == Finite(1.0))
                || (marking.Sensitive? && declared == Finite(2.0)) || (marking.Restricted? && declared == Finite(3.0))
                || (marking.Evidence? && declared == Finite(4.0)) || (marking.Secrets? && declared == Finite(5.0)))
            && r.actor.clearance.Finite? && r.actor.clearance.value >= declared.value
            && (r.actor.deviceTrust in {Trusted, Degraded} || (r.actor.deviceTrust.Suspicious? && marking in {Public, Internal}))
            && (marking in {Public, Internal} || (r.actor.purpose.Some? && !IsBlank(r.actor.purpose.value)))
  {
    hide Lookup, Grants, CategoryOf, RequirementOf, EligibleIds, CandidateIds, CoveredRoles, DemandsDiversity, IsSelf, Trim, IsBlank;
    if r.actor.purpose.Some? {
      TrimMeans(r.actor.purpose.value);
    }
  }

  lemma MeritsExact(fold: CaseFold, p: Policy, r: Request)
    ensures AllOf(fold, p, r, Hard) <==> OnTheMerits(p, r)
  {
    hide Passes, Lookup, IsBlank;
    ActionChecks(fold, p, r);
    LevelChecks(fold, p, r);
    var s := CHECK_SEQUENCE;
    assert AllOf(fold, p, r, Hard) <==>
           && Passes(fold, p, r, s[0]) && Passes(fold, p, r, s[1]) && Passes(fold, p, r, s[2]) && Passes(fold, p, r, s[3])
           && Passes(fold, p, r, s[4]) && Passes(fold, p, r, s[5]) && Passes(fold, p, r, s[6]) && Passes(fold, p, r, s[7])
           && Passes(fold, p, r, s[8]);
  }

  lemma ControlExact(fold: CaseFold, p: Policy, r: Request)
    ensures AllOf(fold, p, r, ApprovalLevel) <==> RequirementOf(p, r).NoApproval? || UnderControl(fold, p, r)
  {
    hide Passes, AllOf, Counts, CoveredRoles;
    ApprovalChecks(fold, p, r);
    if RequirementOf(p, r).NoApproval? {
      NothingNeeded(fold, p, r);
    } else {
      SelfExact(fold, p, r);
      CountExact(fold, p, r);
    }
  }

  lemma NothingNeeded(fold: CaseFold, p: Policy, r: Request)
    requires RequirementOf(p, r).NoApproval?
    ensures Passes(fold, p, r, ApprovalSelfExclusion) && Passes(fold, p, r, ApprovalRoleAuthorised)
    ensures Passes(fold, p, r, ApprovalDistinctSufficient)
  {
    hide EligibleIds, CoveredRoles, CandidateIds, Lookup, EffectiveLevel;
  }

  lemma ApprovalChecks(fold: CaseFold, p: Policy, r: Request)
    ensures AllOf(fold, p, r, ApprovalLevel) <==>
            && Passes(fold, p, r, ApprovalSelfExclusion) && Passes(fold, p, r, ApprovalRoleAuthorised)
            && Passes(fold, p, r, ApprovalDistinctSufficient)
  {
    hide Passes;
    var s := CHECK_SEQUENCE;
    assert s[9] == ApprovalSelfExclusion && s[10] == ApprovalRoleAuthorised && s[11] == ApprovalDistinctSufficient;
    assert SeverityOf(s[0]).Hard? && SeverityOf(s[1]).Hard? && SeverityOf(s[2]).Hard? && SeverityOf(s[3]).Hard?;
    assert SeverityOf(s[4]).Hard? && SeverityOf(s[5]).Hard? && SeverityOf(s[6]).Hard? && SeverityOf(s[7]).Hard? && SeverityOf(s[8]).Hard?;
  }

  /** No self-approval and no unauthorised candidate, said about approvals instead of sets of ids. */
  lemma SelfExact(fold: CaseFold, p: Policy, r: Request)
    requires !RequirementOf(p, r).NoApproval?
    ensures Passes(fold, p, r, ApprovalSelfExclusion) && Passes(fold, p, r, ApprovalRoleAuthorised) <==>
            && (forall a :: a in r.approvals ==> !IsSelf(fold, r, a))
            && (forall a :: a in r.approvals && !IsBlank(a.userId) ==> Counts(fold, p, r, NormaliseId(fold, a.userId)))
  {
    hide EligibleIds, CandidateIds, CoveredRoles, Counts, IsSelf, NormaliseId, EffectiveLevel, Lookup, CategoryOf;
    CandidatesExact(fold, p, r);
  }

  lemma CandidateMeans(fold: CaseFold, r: Request, a: Approval)
    ensures IsCandidate(fold, r, a) <==> !IsSelf(fold, r, a) && !IsBlank(a.userId)
  {
    hide Trim, IsSelf, IsBlank;
    TrimMeans(a.userId);
  }

  lemma CandidatesExact(fold: CaseFold, p: Policy, r: Request)
    ensures CandidateIds(fold, r) <= EligibleIds(fold, p, r) <==>
            forall a :: a in r.approvals && !IsSelf(fold, r, a) && !IsBlank(a.userId) ==> Counts(fold, p, r, NormaliseId(fold, a.userId))
  {
    hide EligibleIds, Counts, IsSelf, IsBlank, IsCandidate, NormaliseId;
    forall a: Approval
      ensures IsCandidate(fold, r, a) <==> !IsSelf(fold, r, a) && !IsBlank(a.userId)
    {
      CandidateMeans(fold, r, a);
    }
    forall id: Text
      ensures id in EligibleIds(fold, p, r) <==> Counts(fold, p, r, id)
    {
      EligibleIffCounts(fold, p, r, id);
    }
    if CandidateIds(fold, r) <= EligibleIds(fold, p, r) {
      forall a | a in r.approvals && !IsSelf(fold, r, a) && !IsBlank(a.userId)
        ensures Counts(fold, p, r, NormaliseId(fold, a.userId))
      {
        assert IsCandidate(fold, r, a);
        assert NormaliseId(fold, a.userId) in CandidateIds(fold, r);
      }
    }
  }

  lemma CountExact(fold: CaseFold, p: Policy, r: Request)
    ensures Passes(fold, p, r, ApprovalDistinctSufficient) <==>
            && (RequirementOf(p, r).One? ==> exists x :: Counts(fold, p, r, x))
            && (RequirementOf(p, r).TwoPerson? ==> exists x, y :: x != y && Counts(fold, p, r, x) && Counts(fold, p, r, y))
            && (RequirementOf(p, r).One? && DemandsDiversity(p, r) ==> exists x :: x in CoveredRoles(fold, p, r))
            && (RequirementOf(p, r).TwoPerson? && DemandsDiversity(p, r) ==>
                  exists x, y :: x != y && x in CoveredRoles(fold, p, r) && y in CoveredRoles(fold, p, r))
  {
    hide EligibleIds, CoveredRoles, Counts, EffectiveLevel, RequirementOf, DemandsDiversity;
    forall id: Text
      ensures id in EligibleIds(fold, p, r) <==> Counts(fold, p, r, id)
    {
      EligibleIffCounts(fold, p, r, id);
    }
    AtLeastOne(EligibleIds(fold, p, r));
    AtLeastTwo(EligibleIds(fold, p, r));
    AtLeastOne(CoveredRoles(fold, p, r));
    AtLeastTwo(CoveredRoles(fold, p, r));
  }

  /** The evaluator answers ALLOW exactly when the rule holds. */
  lemma AllowExactlyWhen(fold: CaseFold, p: Policy, r: Request)
    ensures Decide(fold, p, r) == Allow <==> AllowRule(fold, p, r)
    ensures Decide(fold, p, r) == Deny <==> !OnTheMerits(p, r)
    ensures Decide(fold, p, r) == RequireTwoPerson <==>
            OnTheMerits(p, r) && RequirementOf(p, r).TwoPerson? && !UnderControl(fold, p, r)
  {
    hide AllOf, OnTheMerits, UnderControl;
    MeritsExact(fold, p, r);
    ControlExact(fold, p, r);
  }

  /** By the entry under the normalised id or, when there is none, by the entry under the id as given. */
  ghost predicate HoldsRole(fold: CaseFold, r: Request, userId: Text, role: Text) {
    match Lookup(r.approverRoles, fold(Trim(userId)))
    case Some(roles) => role in roles
    case None => Lookup(r.approverRoles, userId).Some? && role in Lookup(r.approverRoles, userId).value
  }

  /** An approval by someone who is not the actor and holds a role the category authorises. */
  ghost predicate Stands(fold: CaseFold, r: Request, c: Category, a: Approval) {
    && a in r.approvals && !IsBlank(a.userId) && fold(Trim(a.userId)) != fold(Trim(r.actor.userId))
    && exists role :: role in c.approvalRoles && HoldsRole(fold, r, a.userId, role)
  }

  ghost predicate Approves(fold: CaseFold, r: Request, c: Category, id: Text) {
    exists a :: Stands(fold, r, c, a) && fold(Trim(a.userId)) == id
  }

  ghost predicate Covers(fold: CaseFold, r: Request, c: Category, role: Text) {
    role in c.approvalRoles && exists id :: Approves(fold, r, c, id) && HoldsRole(fold, r, id, role)
  }

  /** The people a category asks for have agreed, and nobody agreed who may not. */
  ghost predicate Agreed(fold: CaseFold, r: Request, c: Category) {
    && (forall a :: a in r.approvals ==> fold(Trim(a.userId)) != fold(Trim(r.actor.userId)))
    && (forall a :: a in r.approvals && !IsBlank(a.userId) ==> Approves(fold, r, c, fold(Trim(a.userId))))
    && (c.approval.One? ==> exists x :: Approves(fold, r, c, x))
    && (c.approval.TwoPerson? ==> exists x, y :: x != y && Approves(fold, r, c, x) && Approves(fold, r, c, y))
    && (c.requireRoleDiversity == Some(true) && c.approval.One? ==> exists x :: Covers(fold, r, c, x))
    && (c.requireRoleDiversity == Some(true) && c.approval.TwoPerson? ==>
          exists x, y :: x != y && Covers(fold, r, c, x) && Covers(fold, r, c, y))
  }

  lemma RolesResolved(fold: CaseFold, r: Request, userId: Text, role: Text)
    ensures role in ResolvedRoles(fold, r, userId) <==> HoldsRole(fold, r, userId, role)
  {
    hide Trim, Lookup;
  }

  lemma EligibleMeans(fold: CaseFold, p: Policy, r: Request, c: Category, a: Approval)
    requires CategoryOf(p, r) == Some(c)
    ensures a in r.approvals && IsEligible(fold, p, r, a) <==> Stands(fold, r, c, a)
  {
    hide Trim, Lookup, ResolvedRoles, HoldsRole, IsBlank, CategoryOf;
    CandidateMeans(fold, r, a);
    forall role: Text
      ensures role in ResolvedRoles(fold, r, a.userId) <==> HoldsRole(fold, r, a.userId, role)
    {
      RolesResolved(fold, r, a.userId, role);
    }
  }

  lemma CountsMeansApproves(fold: CaseFold, p: Policy, r: Request, c: Category, id: Text)
    requires CategoryOf(p, r) == Some(c)
    ensures Counts(fold, p, r, id) <==> Approves(fold, r, c, id)
  {
    hide Trim, CategoryOf, IsEligible, Stands;
    if Counts(fold, p, r, id) {
      var a :| a in r.approvals && NormaliseId(fold, a.userId) == id && IsEligible(fold, p, r, a);
      EligibleMeans(fold, p, r, c, a);
    }
    if Approves(fold, r, c, id) {
      var a :| Stands(fold, r, c, a) && fold(Trim(a.userId)) == id;
      EligibleMeans(fold, p, r, c, a);
      assert NormaliseId(fold, a.userId) == id;
    }
  }

  lemma CoveredMeansCovers(fold: CaseFold, p: Policy, r: Request, c: Category, role: Text)
    requires CategoryOf(p, r) == Some(c)
    ensures role in CoveredRoles(fold, p, r) <==> Covers(fold, r, c, role)
  {
    hide Trim, Lookup, ResolvedRoles, HoldsRole, EligibleIds, Approves, Counts, CategoryOf;
    assert ApprovalRolesOf(p, r) == c.approvalRoles;
    if role in CoveredRoles(fold, p, r) {
      var id :| id in EligibleIds(fold, p, r) && role in ResolvedRoles(fold, r, id) && role in ApprovalRolesOf(p, r);
      EligibleIffCounts(fold, p, r, id);
      CountsMeansApproves(fold, p, r, c, id);
      RolesResolved(fold, r, id, role);
    }
    if Covers(fold, r, c, role) {
      var id :| Approves(fold, r, c, id) && HoldsRole(fold, r, id, role);
      EligibleIffCounts(fold, p, r, id);
      CountsMeansApproves(fold, p, r, c, id);
      RolesResolved(fold, r, id, role);
    }
  }

  lemma ControlMeansAgreed(fold: CaseFold, p: Policy, r: Request, c: Category)
    requires CategoryOf(p, r) == Some(c)
    ensures UnderControl(fold, p, r) <==> Agreed(fold, r, c)
  {
    hide Trim, Lookup, CoveredRoles, Covers, Approves, Counts, IsBlank, CategoryOf;
    forall id: Text
      ensures Counts(fold, p, r, id) <==> Approves(fold, r, c, id)
      ensures id in CoveredRoles(fold, p, r) <==> Covers(fold, r, c, id)
    {
      CountsMeansApproves(fold, p, r, c, id);
      CoveredMeansCovers(fold, p, r, c, id);
    }
  }

  /**
   Every decision read off the records of the policy and the request, with no
   word of the checks: DENY exactly off the merits, and on them the answer the
   category's requirement gives to whether the people it asks for have agreed.
   */
  lemma DecisionReadOffTheRecords(fold: CaseFold, p: Policy, r: Request)
    ensures Decide(fold, p, r) == Deny <==> !OnTheMerits(p, r)
    ensures OnTheMerits(p, r) ==>
              var c := Lookup(p.categories, Lookup(p.actions, r.action).value).value;
              Decide(fold, p, r) == if c.approval.NoApproval? || Agreed(fold, r, c) then Allow
                                    else if c.approval.TwoPerson? then RequireTwoPerson else RequireApproval
  {
    hide Agreed, UnderControl, AllOf, Lookup, OnTheMerits;
    AllowExactlyWhen(fold, p, r);
    MeritsMean(p, r);
    if OnTheMerits(p, r) {
      ControlMeansAgreed(fold, p, r, Lookup(p.categories, Lookup(p.actions, r.action).value).value);
    }
  }

  /** Two-person control means two people: two ids that differ after normalisation, neither the actor's, each with an authorised role. */
  lemma TwoPersonsStandBehindIt(fold: CaseFold, p: Policy, r: Request, c: Category)
    requires Decide(fold, p, r) == Allow && CategoryOf(p, r) == Some(c) && c.approval.TwoPerson?
    ensures exists a, b :: Stands(fold, r, c, a) && Stands(fold, r, c, b) && fold(Trim(a.userId)) != fold(Trim(b.userId))
  {
    hide Decide, OnTheMerits, Trim, IsBlank, UnderControl, CategoryOf, Covers, Stands;
    AllowExactlyWhen(fold, p, r);
    RequirementIs(p, r, c);
    ControlMeansAgreed(fold, p, r, c);
  }

  lemma RequirementIs(p: Policy, r: Request, c: Category)
    requires CategoryOf(p, r) == Some(c)
    ensures RequirementOf(p, r) == c.approval
  {
  }

  /** An approval by the actor, under any spelling of the id, keeps an action that needs approval from being allowed. */
  lemma SelfApprovalBlocks(fold: CaseFold, p: Policy, r: Request, a: Approval)
    requires a in r.approvals && fold(Trim(a.userId)) == fold(Trim(r.actor.userId))
    requires CategoryOf(p, r).Some? ==> !CategoryOf(p, r).value.approval.NoApproval?
    ensures Decide(fold, p, r) != Allow
  {
    hide Decide, OnTheMerits, Trim;
    AllowExactlyWhen(fold, p, r);
  }

  /** A prohibited action is denied under every policy that prohibits it, whatever the request carries. */
  lemma ProhibitedIsDenied(fold: CaseFold, p: Policy, r: Request)
    requires r.action in p.prohibitedActions
    ensures Decide(fold, p, r) == Deny
  {
    hide Decide;
    AllowExactlyWhen(fold, p, r);
  }

  /** The decision sees the approvals as a set: permuting or repeating them changes nothing. */
  lemma ApprovalsAreASet(fold: CaseFold, p: Policy, r: Request, approvals: seq<Approval>)
    requires forall a :: a in approvals <==> a in r.approvals
    ensures Decide(fold, p, r.(approvals := approvals)) == Decide(fold, p, r)
  {
    hide Passes, AllOf;
    var other := r.(approvals := approvals);
    SameSets(fold, p, r, other);
    assert RequirementOf(p, other) == RequirementOf(p, r);
    forall severity: Severity
      ensures AllOf(fold, p, other, severity) == AllOf(fold, p, r, severity)
    {
      SamePassesSameAll(fold, p, r, p, other, severity);
    }
  }

  lemma SamePassesSameAll(fold: CaseFold, p: Policy, r: Request, q: Policy, other: Request, severity: Severity)
    requires forall i :: 0 <= i < |CHECK_SEQUENCE| ==>
                           Passes(fold, p, r, CHECK_SEQUENCE[i]) == Passes(fold, q, other, CHECK_SEQUENCE[i])
    ensures AllOf(fold, p, r, severity) == AllOf(fold, q, other, severity)
  {
    hide Passes;
  }

  lemma SameApprover(fold: CaseFold, p: Policy, r: Request, other: Request, a: Approval)
    requires other.action == r.action && other.actor == r.actor && other.approverRoles == r.approverRoles
    ensures IsSelf(fold, other, a) == IsSelf(fold, r, a) && IsCandidate(fold, other, a) == IsCandidate(fold, r, a)
    ensures IsEligible(fold, p, other, a) == IsEligible(fold, p, r, a)
    ensures forall id :: ResolvedRoles(fold, other, id) == ResolvedRoles(fold, r, id)
    ensures ApprovalRolesOf(p, other) == ApprovalRolesOf(p, r)
  {
    hide NormaliseId, Lookup, Trim;
    assert ApprovalRolesOf(p, other) == ApprovalRolesOf(p, r);
    assert forall id :: ResolvedRoles(fold, other, id) == ResolvedRoles(fold, r, id);
    hide ApprovalRolesOf, ResolvedRoles;
    assert IsRoleAuthorised(fold, p, other, a.userId) == IsRoleAuthorised(fold, p, r, a.userId);
  }

  lemma SameSets(fold: CaseFold, p: Policy, r: Request, other: Request)
    requires other.action == r.action && other.actor == r.actor && other.target == r.target && other.approverRoles == r.approverRoles
    requires forall a :: a in other.approvals <==> a in r.approvals
    ensures forall check :: Passes(fold, p, r, check) == Passes(fold, p, other, check)
  {
    hide IsSelf, IsCandidate, IsEligible, NormaliseId, ResolvedRoles, ApprovalRolesOf, Lookup, Trim, IsRoleAuthorised;
    forall a: Approval
      ensures IsSelf(fold, other, a) == IsSelf(fold, r, a) && IsCandidate(fold, other, a) == IsCandidate(fold, r, a)
      ensures IsEligible(fold, p, other, a) == IsEligible(fold, p, r, a)
    {
      SameApprover(fold, p, r, other, a);
    }
    assert EligibleIds(fold, p, other) == EligibleIds(fold, p, r);
    assert CandidateIds(fold, other) == CandidateIds(fold, r);
    SameApprover(fold, p, r, other, Approval([], [], []));
    assert CoveredRoles(fold, p, other) == CoveredRoles(fold, p, r);
    hide EligibleIds, CandidateIds, CoveredRoles;
    assert RequirementOf(p, other) == RequirementOf(p, r) && DemandsDiversity(p, other) == DemandsDiversity(p, r);
    hide RequirementOf, DemandsDiversity, EffectiveLevel;
    assert CategoryOf(p, other) == CategoryOf(p, r);
    forall check: CheckId
      ensures Passes(fold, p, r, check) == Passes(fold, p, other, check)
    {
      assert check.ApprovalSelfExclusion? ==>
          ((forall a :: a in r.approvals ==> !IsSelf(fold, r, a)) <==> (forall a :: a in other.approvals ==> !IsSelf(fold, other, a)));
    }
  }

  /** What an approval claims about its role and time is never read. */
  lemma ClaimsAreNotRead(fold: CaseFold, p: Policy, r: Request, i: nat, role: Text, at: Text)
    requires i < |r.approvals|
    ensures var claimed := r.approvals[i := r.approvals[i].(role := role, at := at)];
            Decide(fold, p, r.(approvals := claimed)) == Decide(fold, p, r)
  {
    hide Decide, OnTheMerits, UnderControl, Counts, CoveredRoles, RequirementOf;
    var other := r.(approvals := r.approvals[i := r.approvals[i].(role := role, at := at)]);
    SameCountsBothWays(fold, p, r, other);
    if UnderControl(fold, p, r) {
      SameControl(fold, p, r, other);
    }
    if UnderControl(fold, p, other) {
      SameControl(fold, p, other, r);
    }
    AllowExactlyWhen(fold, p, r);
    AllowExactlyWhen(fold, p, other);
    SameMerits(p, r, other);
  }

  predicate SameIds(r: Request, other: Request) {
    && other.action == r.action && other.actor == r.actor && other.target == r.target && other.approverRoles == r.approverRoles
    && |other.approvals| == |r.approvals|
    && forall k :: 0 <= k < |r.approvals| ==> other.approvals[k].userId == r.approvals[k].userId
  }

  lemma SameMerits(p: Policy, r: Request, other: Request)
    requires SameIds(r, other)
    ensures OnTheMerits(p, r) == OnTheMerits(p, other) && RequirementOf(p, r) == RequirementOf(p, other)
    ensures DemandsDiversity(p, r) == DemandsDiversity(p, other)
  {
  }

  lemma SameCountsBothWays(fold: CaseFold, p: Policy, r: Request, other: Request)
    requires SameIds(r, other)
    ensures forall id :: Counts(fold, p, other, id) <==> Counts(fold, p, r, id)
    ensures CoveredRoles(fold, p, other) == CoveredRoles(fold, p, r)
  {
    hide Counts, EligibleIds, ResolvedRoles, ApprovalRolesOf, IsCandidate, IsRoleAuthorised;
    forall id: Text
      ensures Counts(fold, p, other, id) <==> Counts(fold, p, r, id)
      ensures id in EligibleIds(fold, p, other) <==> id in EligibleIds(fold, p, r)
    {
      if Counts(fold, p, r, id) {
        SameCounts(fold, p, r, other, id);
      }
      if Counts(fold, p, other, id) {
        SameCounts(fold, p, other, r, id);
      }
      EligibleIffCounts(fold, p, r, id);
      EligibleIffCounts(fold, p, other, id);
    }
    assert EligibleIds(fold, p, other) == EligibleIds(fold, p, r);
    SameApprover(fold, p, r, other, Approval([], [], []));
  }

  lemma SameCounts(fold: CaseFold, p: Policy, r: Request, other: Request, id: Text)
    requires SameIds(r, other) && Counts(fold, p, r, id)
    ensures Counts(fold, p, other, id)
  {
    hide IsEligible, NormaliseId;
    var a :| a in r.approvals && NormaliseId(fold, a.userId) == id && IsEligible(fold, p, r, a);
    var k :| 0 <= k < |r.approvals| && r.approvals[k] == a;
    var b := other.approvals[k];
    assert b in other.approvals;
    SameApprover(fold, p, r, other, b);
    OnlyTheIdCounts(fold, p, r, a, b);
  }

  lemma OnlyTheIdCounts(fold: CaseFold, p: Policy, r: Request, a: Approval, b: Approval)
    requires a.userId == b.userId
    ensures IsEligible(fold, p, r, a) == IsEligible(fold, p, r, b)
  {
    hide NormaliseId, Trim, ResolvedRoles, ApprovalRolesOf;
  }

  lemma SameControl(fold: CaseFold, p: Policy, r: Request, other: Request)
    requires SameIds(r, other) && UnderControl(fold, p, r)
    requires forall id :: Counts(fold, p, other, id) <==> Counts(fold, p, r, id)
    requires CoveredRoles(fold, p, other) == CoveredRoles(fold, p, r)
    ensures UnderControl(fold, p, other)
  {
    hide Counts, CoveredRoles, OnTheMerits;
    SameMerits(p, r, other);
    forall b | b in other.approvals
      ensures !IsSelf(fold, other, b) && (!IsBlank(b.userId) ==> Counts(fold, p, other, NormaliseId(fold, b.userId)))
    {
      var k :| 0 <= k < |other.approvals| && other.approvals[k] == b;
      assert r.approvals[k] in r.approvals && !IsSelf(fold, r, r.approvals[k]);
    }
  }

  /** A decision depends on what the policy says, not on the order its keys are stored in. */
  lemma DecisionIgnoresKeyOrder(fold: CaseFold, p: Policy, q: Policy, r: Request)
    requires SamePolicy(p, q)
    ensures Decide(fold, p, r) == Decide(fold, q, r)
  {
    hide Passes, AllOf;
    SamePolicyPasses(fold, p, q, r);
    assert RequirementOf(p, r) == RequirementOf(q, r) by {
      SameCategory(p, q, r);
    }
    forall severity: Severity
      ensures AllOf(fold, p, r, severity) == AllOf(fold, q, r, severity)
    {
      SamePassesSameAll(fold, p, r, q, r, severity);
    }
  }

  lemma SameCategory(p: Policy, q: Policy, r: Request)
    requires SamePolicy(p, q)
    ensures CategoryOf(p, r) == CategoryOf(q, r) && Lookup(p.actions, r.action) == Lookup(q.actions, r.action)
    ensures forall role, action :: Grants(p, role, action) == Grants(q, role, action)
  {
    assert SameRecord(p.categories, q.categories) && SameRecord(p.actions, q.actions) && SameRecord(p.roles, q.roles);
  }

  lemma SamePolicyPasses(fold: CaseFold, p: Policy, q: Policy, r: Request)
    requires SamePolicy(p, q)
    ensures forall check :: Passes(fold, p, r, check) == Passes(fold, q, r, check)
  {
    hide SamePolicy, Grants, Lookup, CategoryOf, ResolvedRoles, IsCandidate, NormaliseId, IsSelf, Trim;
    SameCategory(p, q, r);
    SameProhibitions(p, q);
    assert ApprovalRolesOf(p, r) == ApprovalRolesOf(q, r);
    forall a: Approval
      ensures IsEligible(fold, p, r, a) == IsEligible(fold, q, r, a)
    {
    }
    hide IsEligible;
    assert EligibleIds(fold, p, r) == EligibleIds(fold, q, r);
    assert CoveredRoles(fold, p, r) == CoveredRoles(fold, q, r);
    hide EligibleIds, CoveredRoles, CandidateIds;
  }

  lemma SameProhibitions(p: Policy, q: Policy)
    requires SamePolicy(p, q)
    ensures p.prohibitedActions == q.prohibitedActions
  {
  }
}
