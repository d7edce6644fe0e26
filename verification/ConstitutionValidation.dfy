/**
 The load-time validator: loops over sorted keys that collect every broken rule,
 and what a policy that passes them promises of the evaluator.
 */
module ConstitutionValidation {
  import opened JsText
  import opened TextSort
  import opened Options
  import opened ConstitutionPolicy
  import opened ConstitutionEngine

  lemma SortKeepsElements(texts: seq<Text>)
    ensures |Sort(texts)| == |texts|
    ensures forall t :: t in Sort(texts) <==> t in texts
  {
    SortSorts(texts);
    assert |Sort(texts)| == |multiset(Sort(texts))| && |texts| == |multiset(texts)|;
    forall t: Text
      ensures t in Sort(texts) <==> t in texts
    {
      assert t in Sort(texts) <==> t in multiset(Sort(texts));
      assert t in texts <==> t in multiset(texts);
    }
  }

  lemma KeyIffLookup<T>(r: Record<T>, key: Text)
    ensures key in Keys(r) <==> Lookup(r, key).Some?
  {
    if key in Keys(r) {
      var i :| 0 <= i < |Keys(r)| && Keys(r)[i] == key;
      assert r[i].key == key;
    }
    if Lookup(r, key).Some? {
      var i :| 0 <= i < |r| && r[i].key == key;
      assert Keys(r)[i] == key;
    }
  }

  /** Rule 1: actions that point at a category the policy does not define. */
  method DanglingCategories(p: Policy) returns (issues: seq<Issue>)
    ensures forall issue: Issue :: issue in issues <==> issue.CategoryDangling? && Violates(p, issue)
  {
    hide Sort, Lookup;
    issues := [];
    var actions := Sort(Keys(p.actions));
    SortKeepsElements(Keys(p.actions));
    var i := 0;
    while i < |actions|
      invariant 0 <= i <= |actions|
      invariant forall issue: Issue :: issue in issues <==>
                                         issue.CategoryDangling? && issue.action in actions[..i] && Violates(p, issue)
    {
      KeyIffLookup(p.actions, actions[i]);
      assert actions[i] in Keys(p.actions);
      var categoryId := Lookup(p.actions, actions[i]).value;
      if Lookup(p.categories, categoryId).None? {
        issues := issues + [CategoryDangling(actions[i], categoryId)];
      }
      i := i + 1;
      assert actions[..i] == actions[..i - 1] + [actions[i - 1]];
    }
    assert actions[..i] == actions;
    forall issue: Issue | issue.CategoryDangling? && Violates(p, issue)
      ensures issue.action in actions
    {
      KeyIffLookup(p.actions, issue.action);
    }
  }

  /** Rules 2 and 3 for the grants of one role. */
  method GrantIssues(p: Policy, role: Text, grants: seq<Text>) returns (issues: seq<Issue>)
    requires Lookup(p.roles, role) == Some(grants)
    ensures forall issue: Issue ::
              issue in issues <==> && (issue.ActionUnregistered? || issue.ProhibitedActionGranted?) && issue.role == role
                                   && Violates(p, issue)
  {
    hide Sort, Lookup;
    issues := [];
    var actions := Sort(grants);
    SortKeepsElements(grants);
    var i := 0;
    while i < |actions|
      invariant 0 <= i <= |actions|
      invariant forall issue: Issue ::
                  issue in issues <==> && (issue.ActionUnregistered? || issue.ProhibitedActionGranted?) && issue.role == role
                                       && issue.action in actions[..i] && Violates(p, issue)
    {
      var action := actions[i];
      assert action in grants;
      if Lookup(p.actions, action).None? {
        issues := issues + [ActionUnregistered(role, action)];
      }
      if action in p.prohibitedActions {
        issues := issues + [ProhibitedActionGranted(role, action)];
      }
      i := i + 1;
      assert actions[..i] == actions[..i - 1] + [actions[i - 1]];
    }
    assert actions[..i] == actions;
  }

  /** Rules 2 and 3: grants of actions nobody registered, and grants of prohibited ones. */
  method RoleIssues(p: Policy) returns (issues: seq<Issue>)
    ensures forall issue: Issue ::
              issue in issues <==> (issue.ActionUnregistered? || issue.ProhibitedActionGranted?) && Violates(p, issue)
  {
    hide Sort, Lookup;
    issues := [];
    var roles := Sort(Keys(p.roles));
    SortKeepsElements(Keys(p.roles));
    var i := 0;
    while i < |roles|
      invariant 0 <= i <= |roles|
      invariant forall issue: Issue ::
                  issue in issues <==> && (issue.ActionUnregistered? || issue.ProhibitedActionGranted?)
                                       && issue.role in roles[..i] && Violates(p, issue)
    {
      KeyIffLookup(p.roles, roles[i]);
      assert roles[i] in Keys(p.roles);
      var found := GrantIssues(p, roles[i], Lookup(p.roles, roles[i]).value);
      issues := issues + found;
      i := i + 1;
      assert roles[..i] == roles[..i - 1] + [roles[i - 1]];
    }
    assert roles[..i] == roles;
    forall issue: Issue | (issue.ActionUnregistered? || issue.ProhibitedActionGranted?) && Violates(p, issue)
      ensures issue.role in roles
    {
      KeyIffLookup(p.roles, issue.role);
    }
  }

  /** Rules 4 and 5 for one category. */
  method CategoryIssues(p: Policy, categoryId: Text, category: Category) returns (issues: seq<Issue>)
    requires Lookup(p.categories, categoryId) == Some(category)
    ensures forall issue: Issue ::
              issue in issues <==> && (issue.ApprovalRolesEmpty? || issue.ApprovalRoleUnregistered?) && issue.category == categoryId
                                   && Violates(p, issue)
  {
    hide Sort, Lookup;
    issues := [];
    if RequiresApproval(category) && |category.approvalRoles| == 0 {
      issues := [ApprovalRolesEmpty(categoryId)];
    }
    var roles := Sort(category.approvalRoles);
    SortKeepsElements(category.approvalRoles);
    var i := 0;
    while i < |roles|
      invariant 0 <= i <= |roles|
      invariant forall issue: Issue ::
                  issue in issues <==>
                  && Violates(p, issue)
                  && (issue == ApprovalRolesEmpty(categoryId)
                      || (issue.ApprovalRoleUnregistered? && issue.category == categoryId && issue.role in roles[..i]))
    {
      assert roles[i] in category.approvalRoles;
      if Lookup(p.roles, roles[i]).None? {
        issues := issues + [ApprovalRoleUnregistered(categoryId, roles[i])];
      }
      i := i + 1;
      assert roles[..i] == roles[..i - 1] + [roles[i - 1]];
    }
    assert roles[..i] == roles;
  }

  /** Rules 4 and 5: approval nobody could give, and authority of roles nobody defined. */
  method ApprovalIssues(p: Policy) returns (issues: seq<Issue>)
    ensures forall issue: Issue ::
              issue in issues <==> (issue.ApprovalRolesEmpty? || issue.ApprovalRoleUnregistered?) && Violates(p, issue)
  {
    hide Sort, Lookup;
    issues := [];
    var categories := Sort(Keys(p.categories));
    SortKeepsElements(Keys(p.categories));
    var i := 0;
    while i < |categories|
      invariant 0 <= i <= |categories|
      invariant forall issue: Issue ::
                  issue in issues <==> && (issue.ApprovalRolesEmpty? || issue.ApprovalRoleUnregistered?)
                                       && issue.category in categories[..i] && Violates(p, issue)
    {
      KeyIffLookup(p.categories, categories[i]);
      assert categories[i] in Keys(p.categories);
      var found := CategoryIssues(p, categories[i], Lookup(p.categories, categories[i]).value);
      issues := issues + found;
      i := i + 1;
      assert categories[..i] == categories[..i - 1] + [categories[i - 1]];
    }
    assert categories[..i] == categories;
    forall issue: Issue | (issue.ApprovalRolesEmpty? || issue.ApprovalRoleUnregistered?) && Violates(p, issue)
      ensures issue.category in categories
    {
      KeyIffLookup(p.categories, issue.category);
    }
  }

  /** The validator is exact: it reports the rules that are broken and no others, and nothing exactly for a coherent policy. */
  method ValidatePolicy(p: Policy) returns (issues: seq<Issue>)
    ensures forall issue: Issue :: issue in issues <==> Violates(p, issue)
    ensures issues == [] <==> Coherent(p)
  {
    hide Violates;
    var dangling := DanglingCategories(p);
    var granted := RoleIssues(p);
    var approvals := ApprovalIssues(p);
    issues := dangling + granted + approvals;
    if issues != [] {
      assert issues[0] in issues;
    }
  }

  // ----- what a coherent policy promises -----

  /** A case folding that leaves these three ids apart after trimming. */
  predicate KeepsApart(fold: CaseFold, actor: Text, first: Text, second: Text) {
    && NormaliseId(fold, first) != NormaliseId(fold, second)
    && NormaliseId(fold, first) != NormaliseId(fold, actor)
    && NormaliseId(fold, second) != NormaliseId(fold, actor)
    && !IsBlank(first) && !IsBlank(second)
  }

  /** Two different roles may approve. */
  ghost predicate TwoApprovalRoles(c: Category) {
    exists x, y :: x != y && x in c.approvalRoles && y in c.approvalRoles
  }

  /** The category's own demand for diversity can be met. */
  ghost predicate DiversityPossible(c: Category) {
    c.approval.TwoPerson? && c.requireRoleDiversity == Some(true) ==> TwoApprovalRoles(c)
  }

  /** A request for an action by someone who holds one granting role, with one approval per given approver. */
  function Candidate(action: Text, role: Text, actor: Text, approvers: seq<Text>, approverRoles: Record<seq<Text>>): Request {
    Request(action,
            Actor(actor, [role], [], Finite(0.0), None, Trusted),
            Target([], Public, Finite(0.0)),
            seq(|approvers|, i requires 0 <= i < |approvers| => Approval(approvers[i], [], [])),
            approverRoles)
  }

  lemma CoherentAction(p: Policy, role: Text, action: Text)
    requires Coherent(p) && Grants(p, role, action)
    ensures action !in p.prohibitedActions
    ensures ActionCategory(p, action).Some?
    ensures RequiresApproval(ActionCategory(p, action).value) ==> ActionCategory(p, action).value.approvalRoles != []
  {
    hide Lookup;
    assert !Violates(p, ActionUnregistered(role, action));
    assert !Violates(p, ProhibitedActionGranted(role, action));
    assert !Violates(p, CategoryDangling(action, Lookup(p.actions, action).value));
    assert !Violates(p, ApprovalRolesEmpty(Lookup(p.actions, action).value));
  }

  lemma CandidateHasMerit(p: Policy, r: Request, role: Text, action: Text)
    requires Coherent(p) && Grants(p, role, action)
    requires r.action == action && r.actor == Actor(r.actor.userId, [role], [], Finite(0.0), None, Trusted)
    requires r.target == Target([], Public, Finite(0.0))
    ensures OnTheMerits(p, r)
    ensures CategoryOf(p, r) == ActionCategory(p, action)
  {
    hide Lookup;
    CoherentAction(p, role, action);
    assert role in r.actor.roles;
  }

  /** The witness: the actor holds the granting role, and as many strangers as needed approve under roles that may. */
  function WitnessRequest(fold: CaseFold, action: Text, role: Text, needed: nat, actor: Text, first: Text, second: Text,
                          firstRole: Text, secondRole: Text): Request
  {
    Candidate(action, role, actor,
              if needed == 0 then [] else if needed == 1 then [first] else [first, second],
              [ Entry(NormaliseId(fold, first), [firstRole]), Entry(NormaliseId(fold, NormaliseId(fold, first)), [firstRole]),
                Entry(NormaliseId(fold, second), [secondRole]), Entry(NormaliseId(fold, NormaliseId(fold, second)), [secondRole])])
  }

  /**
   For a coherent policy, an action some role grants can be allowed: there is a
   request the evaluator answers ALLOW, provided its category's demand for role
   diversity is one its own approval roles can meet.
   */
  lemma GrantedActionsCanBeAllowed(fold: CaseFold, p: Policy, role: Text, action: Text, actor: Text, first: Text, second: Text)
    requires Coherent(p) && Grants(p, role, action)
    requires KeepsApart(fold, actor, first, second) && StableIds(fold, first, second)
    requires ActionCategory(p, action).Some? ==> DiversityPossible(ActionCategory(p, action).value)
    ensures exists r: Request :: r.action == action && Decide(fold, p, r) == Allow
  {
    hide Decide, KeepsApart, StableIds, ActionCategory, Coherent, Grants, DiversityPossible, WitnessRequest;
    CoherentAction(p, role, action);
    var c := ActionCategory(p, action).value;
    var x, y := ApprovingRoles(c);
    var r := WitnessRequest(fold, action, role, RequiredApprovers(c.approval), actor, first, second, x, y);
    WitnessAllowed(fold, p, c, r, role, action, actor, first, second, x, y);
    assert r.action == action && Decide(fold, p, r) == Allow;
  }

  lemma WitnessAllowed(fold: CaseFold, p: Policy, c: Category, r: Request, role: Text, action: Text,
                       actor: Text, first: Text, second: Text, x: Text, y: Text)
    requires Coherent(p) && Grants(p, role, action)
    requires KeepsApart(fold, actor, first, second) && StableIds(fold, first, second)
    requires ActionCategory(p, action) == Some(c)
    requires RequiresApproval(c) ==> x in c.approvalRoles && y in c.approvalRoles
    requires c.approval.TwoPerson? && c.requireRoleDiversity == Some(true) ==> x != y
    requires r == WitnessRequest(fold, action, role, RequiredApprovers(c.approval), actor, first, second, x, y)
    ensures r.action == action && Decide(fold, p, r) == Allow
  {
    hide Decide, OnTheMerits, UnderControl, NormaliseId, KeepsApart, StableIds, CategoryOf, ActionCategory, Coherent, Grants;
    CandidateHasMerit(p, r, role, action);
    WitnessRequirement(p, r);
    AllowExactlyWhen(fold, p, r);
    if !c.approval.NoApproval? {
      WitnessUnderControl(fold, p, r, c, action, role, actor, first, second, x, y);
    }
  }

  lemma WitnessRequirement(p: Policy, r: Request)
    ensures CategoryOf(p, r).Some? ==> RequirementOf(p, r) == CategoryOf(p, r).value.approval
  {
  }

  /** Normalising an id that was normalised changes nothing. */
  predicate StableIds(fold: CaseFold, first: Text, second: Text) {
    && NormaliseId(fold, NormaliseId(fold, first)) == NormaliseId(fold, first)
    && NormaliseId(fold, NormaliseId(fold, second)) == NormaliseId(fold, second)
  }

  /** Two roles that may approve, different ones where diversity needs them. */
  lemma ApprovingRoles(c: Category) returns (x: Text, y: Text)
    requires RequiresApproval(c) ==> c.approvalRoles != []
    requires DiversityPossible(c)
    ensures RequiresApproval(c) ==> x in c.approvalRoles && y in c.approvalRoles
    ensures c.approval.TwoPerson? && c.requireRoleDiversity == Some(true) ==> x != y
  {
    if c.approval.TwoPerson? && c.requireRoleDiversity == Some(true) {
      x, y :| x != y && x in c.approvalRoles && y in c.approvalRoles;
    } else if RequiresApproval(c) {
      x, y := c.approvalRoles[0], c.approvalRoles[0];
    } else {
      x, y := [], [];
    }
  }

  /** An approval by a stranger holding an approving role counts, and covers that role. */
  lemma StrangerCounts(fold: CaseFold, p: Policy, r: Request, a: Approval, role: Text)
    requires a in r.approvals && !IsSelf(fold, r, a) && !IsBlank(a.userId) && role in ApprovalRolesOf(p, r)
    requires ResolvedRoles(fold, r, a.userId) == [role] && ResolvedRoles(fold, r, NormaliseId(fold, a.userId)) == [role]
    ensures Counts(fold, p, r, NormaliseId(fold, a.userId)) && role in CoveredRoles(fold, p, r)
  {
    hide NormaliseId, ResolvedRoles, ApprovalRolesOf, IsSelf, EligibleIds;
    CandidateMeans(fold, r, a);
    assert role in ResolvedRoles(fold, r, a.userId);
    assert IsEligible(fold, p, r, a);
    EligibleIffCounts(fold, p, r, NormaliseId(fold, a.userId));
    assert role in ResolvedRoles(fold, r, NormaliseId(fold, a.userId));
  }

  lemma WitnessUnderControl(fold: CaseFold, p: Policy, r: Request, c: Category, action: Text, role: Text,
                            actor: Text, first: Text, second: Text, x: Text, y: Text)
    requires KeepsApart(fold, actor, first, second) && StableIds(fold, first, second)
    requires CategoryOf(p, r) == Some(c) && !c.approval.NoApproval?
    requires x in c.approvalRoles && y in c.approvalRoles
    requires c.approval.TwoPerson? && c.requireRoleDiversity == Some(true) ==> x != y
    requires r == WitnessRequest(fold, action, role, RequiredApprovers(c.approval), actor, first, second, x, y)
    ensures UnderControl(fold, p, r)
  {
    hide NormaliseId, ResolvedRoles, CoveredRoles, Counts, CategoryOf;
    var a, b := Approval(first, [], []), Approval(second, [], []);
    WitnessRoles(fold, r, first, second, x, y);
    assert r.approvals[0] == a && (c.approval.TwoPerson? ==> r.approvals[1] == b);
    StrangerCounts(fold, p, r, a, x);
    if c.approval.TwoPerson? {
      StrangerCounts(fold, p, r, b, y);
    }
    assert forall e :: e in r.approvals ==> e == a || (c.approval.TwoPerson? && e == b);
  }

  lemma WitnessRoles(fold: CaseFold, r: Request, first: Text, second: Text, x: Text, y: Text)
    requires StableIds(fold, first, second) && NormaliseId(fold, first) != NormaliseId(fold, second)
    requires var f, g := NormaliseId(fold, first), NormaliseId(fold, second);
             r.approverRoles == [Entry(f, [x]), Entry(NormaliseId(fold, f), [x]), Entry(g, [y]), Entry(NormaliseId(fold, g), [y])]
    ensures var f, g := NormaliseId(fold, first), NormaliseId(fold, second);
            && ResolvedRoles(fold, r, first) == [x] && ResolvedRoles(fold, r, f) == [x]
            && ResolvedRoles(fold, r, second) == [y] && ResolvedRoles(fold, r, g) == [y]
  {
    hide NormaliseId;
    var s := r.approverRoles;
    assert s[1..] == [s[1], s[2], s[3]] && s[1..][1..] == [s[2], s[3]];
  }

  /** Without two approval roles, a two-person category that demands diversity can never be satisfied. */
  lemma DiversityWithoutRolesNeverAllows(fold: CaseFold, p: Policy, r: Request)
    requires CategoryOf(p, r).Some? && !DiversityPossible(CategoryOf(p, r).value)
    ensures Decide(fold, p, r) != Allow
  {
    hide Decide, OnTheMerits, NormaliseId, ResolvedRoles, EligibleIds;
    AllowExactlyWhen(fold, p, r);
    assert forall role :: role in CoveredRoles(fold, p, r) ==> role in CategoryOf(p, r).value.approvalRoles;
  }

  /** An action no role grants is never allowed. */
  lemma UngrantedNeverAllows(fold: CaseFold, p: Policy, r: Request)
    requires forall role :: !Grants(p, role, r.action)
    ensures Decide(fold, p, r) == Deny
  {
    hide Decide, OnTheMerits;
    AllowExactlyWhen(fold, p, r);
    MeritsMean(p, r);
  }

  /**
   Exactly which actions of a coherent policy can be allowed at all: those some
   role grants and whose category can meet its own demand for diversity.
   */
  lemma AllowableExactlyWhen(fold: CaseFold, p: Policy, action: Text, actor: Text, first: Text, second: Text)
    requires Coherent(p) && KeepsApart(fold, actor, first, second) && StableIds(fold, first, second)
    ensures (exists r: Request :: r.action == action && Decide(fold, p, r) == Allow) <==>
            && (exists role :: Grants(p, role, action))
            && ActionCategory(p, action).Some? && DiversityPossible(ActionCategory(p, action).value)
  {
    hide Decide, NormaliseId, Coherent, DiversityPossible, Grants, ActionCategory, UnderControl, KeepsApart, StableIds, OnTheMerits;
    if exists r: Request :: r.action == action && Decide(fold, p, r) == Allow {
      var r: Request :| r.action == action && Decide(fold, p, r) == Allow;
      AllowExactlyWhen(fold, p, r);
      MeritsMean(p, r);
      if !DiversityPossible(CategoryOf(p, r).value) {
        DiversityWithoutRolesNeverAllows(fold, p, r);
      }
    }
    if (exists role :: Grants(p, role, action))
       && ActionCategory(p, action).Some? && DiversityPossible(ActionCategory(p, action).value) {
      var role :| Grants(p, role, action);
      GrantedActionsCanBeAllowed(fold, p, role, action, actor, first, second);
    }
  }
}
