/**
 A constitution policy as a value: what each rule of coherence says, and the
 stored body whose canonical text is its content hash.
 */
module ConstitutionPolicy {
  import opened JsText
  import opened JsonValue
  import opened CanonicalJson
  import opened Options
  import SignedRecord

  datatype Entry<+T> = Entry(key: Text, value: T)

  /** An object used as a dictionary, in the order its keys were written. */
  type Record<+T> = seq<Entry<T>>

  predicate DistinctEntries<T>(r: Record<T>) {
    forall i, j :: 0 <= i < j < |r| ==> r[i].key != r[j].key
  }

  /** Own-property lookup. */
  function Lookup<T>(r: Record<T>, key: Text): (v: Option<T>)
    ensures v.Some? <==> exists i :: 0 <= i < |r| && r[i].key == key
    ensures v.Some? ==> exists i :: 0 <= i < |r| && r[i] == Entry(key, v.value)
  {
    if r == [] then None
    else if r[0].key == key then Some(r[0].value)
    else
      var rest := Lookup(r[1..], key);
      assert r == [r[0]] + r[1..];
      rest
  }

  lemma {:induction false} LookupFinds<T>(r: Record<T>, i: nat)
    requires DistinctEntries(r) && i < |r|
    ensures Lookup(r, r[i].key) == Some(r[i].value)
  {
    if i > 0 {
      assert r[0].key != r[i].key;
      LookupFinds(r[1..], i - 1);
    }
  }

  function Keys<T>(r: Record<T>): (keys: seq<Text>)
    ensures |keys| == |r| && forall i :: 0 <= i < |r| ==> keys[i] == r[i].key
  {
    seq(|r|, i requires 0 <= i < |r| => r[i].key)
  }

  datatype ApprovalRequirement = NoApproval | One | TwoPerson

  datatype Category = Category(
    approval: ApprovalRequirement,
    description: Text,
    approvalRoles: seq<Text>,
    requireRoleDiversity: Option<bool>)

  datatype Policy = Policy(
    version: Text,
    categories: Record<Category>,
    actions: Record<Text>,
    roles: Record<seq<Text>>,
    prohibitedActions: seq<Text>)

  /** What the language guarantees of the three dictionaries. */
  predicate Proper(p: Policy) {
    DistinctEntries(p.categories) && DistinctEntries(p.actions) && DistinctEntries(p.roles)
  }

  /** The shape rules that a value of this type can still break: nothing empty where a name is asked for. */
  predicate ShapeOk(p: Policy) {
    && p.version != []
    && (forall i :: 0 <= i < |p.categories| ==>
                      && p.categories[i].value.description != []
                      && forall j :: 0 <= j < |p.categories[i].value.approvalRoles| ==> p.categories[i].value.approvalRoles[j] != [])
    && (forall i :: 0 <= i < |p.actions| ==> p.actions[i].value != [])
    && (forall i :: 0 <= i < |p.roles| ==> forall j :: 0 <= j < |p.roles[i].value| ==> p.roles[i].value[j] != [])
    && (forall i :: 0 <= i < |p.prohibitedActions| ==> p.prohibitedActions[i] != [])
  }

  // ----- the five rules -----

  datatype Issue =
    | CategoryDangling(action: Text, category: Text)
    | ActionUnregistered(role: Text, action: Text)
    | ProhibitedActionGranted(role: Text, action: Text)
    | ApprovalRolesEmpty(category: Text)
    | ApprovalRoleUnregistered(category: Text, role: Text)

  predicate RequiresApproval(c: Category) {
    c.approval.One? || c.approval.TwoPerson?
  }

  predicate Grants(p: Policy, role: Text, action: Text) {
    Lookup(p.roles, role).Some? && action in Lookup(p.roles, role).value
  }

  /** The rule an issue stands for is broken by this policy. */
  predicate Violates(p: Policy, issue: Issue) {
    match issue
    case CategoryDangling(action, category) =>
      Lookup(p.actions, action) == Some(category) && Lookup(p.categories, category).None?
    case ActionUnregistered(role, action) =>
      Grants(p, role, action) && Lookup(p.actions, action).None?
    case ProhibitedActionGranted(role, action) =>
      Grants(p, role, action) && action in p.prohibitedActions
    case ApprovalRolesEmpty(category) =>
      var c := Lookup(p.categories, category);
      c.Some? && RequiresApproval(c.value) && c.value.approvalRoles == []
    case ApprovalRoleUnregistered(category, role) =>
      var c := Lookup(p.categories, category);
      c.Some? && role in c.value.approvalRoles && Lookup(p.roles, role).None?
  }

  /** No rule is broken anywhere. */
  ghost predicate Coherent(p: Policy) {
    forall issue: Issue :: !Violates(p, issue)
  }

  // ----- the stored body -----

  function RequirementName(a: ApprovalRequirement): string {
    match a
    case NoApproval => "NONE"
    case One => "ONE"
    case TwoPerson => "TWO_PERSON"
  }

  function Strings(texts: seq<Text>): Json {
    Arr(seq(|texts|, i requires 0 <= i < |texts| => Str(texts[i])))
  }

  /** An absent option is an absent key. */
  function CategoryBody(c: Category): Json {
    Obj([ Member(Literal("approval"), Str(Literal(RequirementName(c.approval)))),
          Member(Literal("description"), Str(c.description)),
          Member(Literal("approval_roles"), Strings(c.approvalRoles))]
        + (if c.requireRoleDiversity.Some? then [Member(Literal("require_role_diversity"), Bool(c.requireRoleDiversity.value))] else []))
  }

  function Dictionary<T>(r: Record<T>, body: T -> Json): (ms: seq<Member>)
    ensures |ms| == |r| && forall i :: 0 <= i < |r| ==> ms[i] == Member(r[i].key, body(r[i].value))
  {
    seq(|r|, i requires 0 <= i < |r| => Member(r[i].key, body(r[i].value)))
  }

  function PolicyBody(p: Policy): Json {
    Obj([ Member(Literal("version"), Str(p.version)),
          Member(Literal("categories"), Obj(Dictionary(p.categories, CategoryBody))),
          Member(Literal("actions"), Obj(Dictionary(p.actions, t => Str(t)))),
          Member(Literal("roles"), Obj(Dictionary(p.roles, Strings))),
          Member(Literal("prohibitedActions"), Strings(p.prohibitedActions))])
  }

  /** The text the content hash is taken of. */
  function Content(p: Policy): Text {
    Canonical(PolicyBody(p))
  }

  // ----- key order does not matter -----

  ghost predicate SameRecord<T(!new)>(a: Record<T>, b: Record<T>) {
    forall key :: Lookup(a, key) == Lookup(b, key)
  }

  /** The same policy with the keys of its dictionaries written in another order. */
  ghost predicate SamePolicy(p: Policy, q: Policy) {
    && p.version == q.version && p.prohibitedActions == q.prohibitedActions
    && SameRecord(p.categories, q.categories) && SameRecord(p.actions, q.actions) && SameRecord(p.roles, q.roles)
  }

  lemma StringsWellFormed(texts: seq<Text>)
    ensures WellFormed(Strings(texts))
  {
  }

  lemma {:induction false} CategoryBodyWellFormed(c: Category)
    ensures WellFormed(CategoryBody(c))
  {
    hide Literal;
    CategoryKeys();
    StringsWellFormed(c.approvalRoles);
  }

  lemma CategoryKeys()
    ensures Literal("approval") != Literal("description") && Literal("approval") != Literal("approval_roles")
    ensures Literal("approval") != Literal("require_role_diversity") && Literal("description") != Literal("approval_roles")
    ensures Literal("description") != Literal("require_role_diversity")
    ensures Literal("approval_roles") != Literal("require_role_diversity")
  {
    LiteralInjective("approval", "description");
    LiteralInjective("approval", "approval_roles");
    LiteralInjective("approval", "require_role_diversity");
    LiteralInjective("description", "approval_roles");
    LiteralInjective("description", "require_role_diversity");
    LiteralInjective("approval_roles", "require_role_diversity");
  }

  lemma PolicyKeys()
    ensures Literal("version") != Literal("categories") && Literal("version") != Literal("actions")
    ensures Literal("version") != Literal("roles") && Literal("version") != Literal("prohibitedActions")
    ensures Literal("categories") != Literal("actions") && Literal("categories") != Literal("roles")
    ensures Literal("categories") != Literal("prohibitedActions") && Literal("actions") != Literal("roles")
    ensures Literal("actions") != Literal("prohibitedActions") && Literal("roles") != Literal("prohibitedActions")
  {
    LiteralInjective("version", "categories");
    LiteralInjective("version", "actions");
    LiteralInjective("version", "roles");
    LiteralInjective("version", "prohibitedActions");
    LiteralInjective("categories", "actions");
    LiteralInjective("categories", "roles");
    LiteralInjective("categories", "prohibitedActions");
    LiteralInjective("actions", "roles");
    LiteralInjective("actions", "prohibitedActions");
    LiteralInjective("roles", "prohibitedActions");
  }

  lemma DictionaryWellFormed<T>(r: Record<T>, body: T -> Json)
    requires DistinctEntries(r) && forall i :: 0 <= i < |r| ==> WellFormed(body(r[i].value))
    ensures WellFormed(Obj(Dictionary(r, body)))
  {
    var ms := Dictionary(r, body);
    assert forall i :: 0 <= i < |r| ==> ms[i].key == r[i].key;
  }

  lemma SameDictionary<T(!new)>(a: Record<T>, b: Record<T>, body: T -> Json)
    requires DistinctEntries(a) && DistinctEntries(b) && SameRecord(a, b)
    requires forall i :: 0 <= i < |a| ==> WellFormed(body(a[i].value))
    ensures SameUpToKeyOrder(Obj(Dictionary(a, body)), Obj(Dictionary(b, body)))
  {
    var x, y := Dictionary(a, body), Dictionary(b, body);
    forall i | 0 <= i < |x|
      ensures HasKey(y, x[i].key)
    {
      LookupFinds(a, i);
      var j :| 0 <= j < |b| && b[j].key == a[i].key;
      assert y[j].key == x[i].key;
    }
    forall j | 0 <= j < |y|
      ensures HasKey(x, y[j].key)
    {
      LookupFinds(b, j);
      var i :| 0 <= i < |a| && a[i].key == b[j].key;
      assert x[i].key == y[j].key;
    }
    forall i, j | 0 <= i < |x| && 0 <= j < |y| && x[i].key == y[j].key
      ensures SameUpToKeyOrder(x[i].value, y[j].value)
    {
      LookupFinds(a, i);
      LookupFinds(b, j);
      SameReflexive(x[i].value);
    }
  }

  lemma DictionariesWellFormed(p: Policy)
    requires Proper(p)
    ensures WellFormed(Obj(Dictionary(p.categories, CategoryBody)))
    ensures WellFormed(Obj(Dictionary(p.actions, t => Str(t))))
    ensures WellFormed(Obj(Dictionary(p.roles, Strings)))
    ensures WellFormed(Strings(p.prohibitedActions))
  {
    hide Literal;
    forall c: Category
      ensures WellFormed(CategoryBody(c))
    {
      CategoryBodyWellFormed(c);
    }
    forall texts: seq<Text>
      ensures WellFormed(Strings(texts))
    {
      StringsWellFormed(texts);
    }
    DictionaryWellFormed(p.categories, CategoryBody);
    DictionaryWellFormed(p.actions, t => Str(t));
    DictionaryWellFormed(p.roles, Strings);
  }

  lemma BodyWellFormed(p: Policy)
    requires Proper(p)
    ensures WellFormed(PolicyBody(p))
  {
    hide Literal, Dictionary, Strings;
    PolicyKeys();
    DictionariesWellFormed(p);
  }

  /** The content hash of a policy depends on what it says, not on the order its keys are stored in. */
  lemma ContentIgnoresKeyOrder(p: Policy, q: Policy)
    requires Proper(p) && Proper(q) && SamePolicy(p, q)
    ensures Content(p) == Content(q)
  {
    hide Literal, Dictionary, Strings, CategoryBody;
    BodyWellFormed(p);
    BodyWellFormed(q);
    DictionariesWellFormed(p);
    forall c: Category
      ensures WellFormed(CategoryBody(c))
    {
      CategoryBodyWellFormed(c);
    }
    forall texts: seq<Text>
      ensures WellFormed(Strings(texts))
    {
      StringsWellFormed(texts);
    }
    SameDictionary(p.categories, q.categories, CategoryBody);
    SameDictionary(p.actions, q.actions, t => Str(t));
    SameDictionary(p.roles, q.roles, Strings);
    SameReflexive(Strings(p.prohibitedActions));
    FiveMembersSame(PolicyBody(p).members, PolicyBody(q).members);
    CanonicalInjective(PolicyBody(p), PolicyBody(q));
  }

  lemma FiveMembersSame(x: seq<Member>, y: seq<Member>)
    requires |x| == |y| == 5 && DistinctKeys(x)
    requires x[0] == y[0] && x[0].value.Str?
    requires x[1].key == y[1].key && x[2].key == y[2].key && x[3].key == y[3].key && x[4].key == y[4].key
    requires SameUpToKeyOrder(x[1].value, y[1].value) && SameUpToKeyOrder(x[2].value, y[2].value)
    requires SameUpToKeyOrder(x[3].value, y[3].value) && SameUpToKeyOrder(x[4].value, y[4].value)
    ensures SameUpToKeyOrder(Obj(x), Obj(y))
  {
    SignedRecord.SameFieldsSameObject(x, y);
  }

  // ----- nothing else does not matter -----

  lemma StringsDecide(a: seq<Text>, b: seq<Text>)
    ensures SameUpToKeyOrder(Strings(a), Strings(b)) ==> a == b
  {
    if SameUpToKeyOrder(Strings(a), Strings(b)) {
      forall i | 0 <= i < |a|
        ensures a[i] == b[i]
      {
        assert SameUpToKeyOrder(Strings(a).items[i], Strings(b).items[i]);
      }
    }
  }

  lemma RequirementNamesDiffer(a: ApprovalRequirement, b: ApprovalRequirement)
    ensures Literal(RequirementName(a)) == Literal(RequirementName(b)) <==> a == b
  {
    LiteralInjective(RequirementName(a), RequirementName(b));
  }

  /** A member found in one of two objects that are the same is found in the other. */
  lemma SameMember(x: seq<Member>, y: seq<Member>, i: nat, j: nat)
    requires SameUpToKeyOrder(Obj(x), Obj(y)) && i < |x| && j < |y| && x[i].key == y[j].key
    ensures SameUpToKeyOrder(x[i].value, y[j].value)
  {
  }

  lemma SameKeys(x: seq<Member>, y: seq<Member>, i: nat)
    requires SameUpToKeyOrder(Obj(x), Obj(y))
    ensures i < |x| ==> HasKey(y, x[i].key)
    ensures i < |y| ==> HasKey(x, y[i].key)
  {
  }

  lemma CategoryDecides(c: Category, d: Category)
    ensures SameUpToKeyOrder(CategoryBody(c), CategoryBody(d)) ==> c == d
  {
    hide Literal, SameUpToKeyOrder, Strings;
    if SameUpToKeyOrder(CategoryBody(c), CategoryBody(d)) {
      var x, y := CategoryBody(c).members, CategoryBody(d).members;
      CategoryKeys();
      SameMember(x, y, 0, 0);
      SameMember(x, y, 1, 1);
      SameMember(x, y, 2, 2);
      SameLeaf(x[0].value, y[0].value);
      SameLeaf(x[1].value, y[1].value);
      RequirementNamesDiffer(c.approval, d.approval);
      StringsDecide(c.approvalRoles, d.approvalRoles);
      SameKeys(x, y, 3);
      if c.requireRoleDiversity.Some? && d.requireRoleDiversity.Some? {
        SameMember(x, y, 3, 3);
        SameLeaf(x[3].value, y[3].value);
      }
    }
  }

  lemma SameLeaf(v: Json, w: Json)
    requires SameUpToKeyOrder(v, w) && !v.Arr? && !v.Obj?
    ensures v == w
  {
  }

  lemma NoOtherKey<T>(a: Record<T>, b: Record<T>, body: T -> Json, key: Text)
    requires SameUpToKeyOrder(Obj(Dictionary(a, body)), Obj(Dictionary(b, body)))
    ensures Lookup(b, key).Some? ==> Lookup(a, key).Some?
  {
    hide SameUpToKeyOrder;
    if Lookup(b, key).Some? {
      var x, y := Dictionary(a, body), Dictionary(b, body);
      var j :| 0 <= j < |b| && b[j] == Entry(key, Lookup(b, key).value);
      SameKeys(x, y, j);
      var i :| 0 <= i < |x| && x[i].key == y[j].key;
      assert a[i].key == key;
    }
  }

  lemma DictionaryDecides<T(!new)>(a: Record<T>, b: Record<T>, body: T -> Json)
    requires DistinctEntries(a) && DistinctEntries(b)
    requires forall x: T, y: T :: SameUpToKeyOrder(body(x), body(y)) ==> x == y
    requires SameUpToKeyOrder(Obj(Dictionary(a, body)), Obj(Dictionary(b, body)))
    ensures SameRecord(a, b)
  {
    hide SameUpToKeyOrder;
    var x, y := Dictionary(a, body), Dictionary(b, body);
    forall key
      ensures Lookup(a, key) == Lookup(b, key)
    {
      if Lookup(a, key).Some? {
        var i :| 0 <= i < |a| && a[i] == Entry(key, Lookup(a, key).value);
        SameKeys(x, y, i);
        var j :| 0 <= j < |y| && y[j].key == x[i].key;
        SameMember(x, y, i, j);
        LookupFinds(b, j);
        assert SameUpToKeyOrder(body(a[i].value), body(b[j].value));
      }
      NoOtherKey(a, b, body, key);
    }
  }

  /**
   The content text tells policies apart: two policies have one content exactly when
   they say the same, key order aside.
   */
  lemma ContentDecidesPolicy(p: Policy, q: Policy)
    requires Proper(p) && Proper(q)
    ensures Content(p) == Content(q) <==> SamePolicy(p, q)
  {
    hide Literal, Dictionary, Strings, CategoryBody, SamePolicy;
    if Content(p) == Content(q) {
      BodyWellFormed(p);
      BodyWellFormed(q);
      CanonicalInjective(PolicyBody(p), PolicyBody(q));
      SameBodySamePolicy(p, q);
    }
    if SamePolicy(p, q) {
      ContentIgnoresKeyOrder(p, q);
    }
  }

  lemma SameBodySamePolicy(p: Policy, q: Policy)
    requires Proper(p) && Proper(q) && SameUpToKeyOrder(PolicyBody(p), PolicyBody(q))
    ensures SamePolicy(p, q)
  {
    hide Literal, SameUpToKeyOrder, Dictionary, Strings, CategoryBody;
    var x, y := PolicyBody(p).members, PolicyBody(q).members;
    SameMember(x, y, 0, 0);
    SameMember(x, y, 1, 1);
    SameMember(x, y, 2, 2);
    SameMember(x, y, 3, 3);
    SameMember(x, y, 4, 4);
    SameLeaf(x[0].value, y[0].value);
    StringsDecide(p.prohibitedActions, q.prohibitedActions);
    forall c: Category, d: Category
      ensures SameUpToKeyOrder(CategoryBody(c), CategoryBody(d)) ==> c == d
    {
      CategoryDecides(c, d);
    }
    forall a: seq<Text>, b: seq<Text>
      ensures SameUpToKeyOrder(Strings(a), Strings(b)) ==> a == b
    {
      StringsDecide(a, b);
    }
    forall a: Text, b: Text
      ensures SameUpToKeyOrder(Str(a), Str(b)) ==> a == b
    {
      if SameUpToKeyOrder(Str(a), Str(b)) {
        SameLeaf(Str(a), Str(b));
      }
    }
    DictionaryDecides(p.categories, q.categories, CategoryBody);
    DictionaryDecides(p.actions, q.actions, t => Str(t));
    DictionaryDecides(p.roles, q.roles, Strings);
  }

  /** Coherence does not depend on key order either. */
  lemma CoherenceIgnoresKeyOrder(p: Policy, q: Policy)
    requires SamePolicy(p, q) && Coherent(p)
    ensures Coherent(q)
  {
    forall issue: Issue
      ensures !Violates(q, issue)
    {
      assert !Violates(p, issue);
      assert SameRecord(p.categories, q.categories) && SameRecord(p.actions, q.actions) && SameRecord(p.roles, q.roles);
    }
  }

  /** Every text the body schema wants non-empty, wherever the policy holds it. */
  ghost predicate NamedIn(p: Policy, t: Text) {
    || t == p.version || t in p.prohibitedActions
    || (exists i :: 0 <= i < |p.categories| && (t == p.categories[i].value.description || t in p.categories[i].value.approvalRoles))
    || (exists i :: 0 <= i < |p.actions| && t == p.actions[i].value)
    || (exists i :: 0 <= i < |p.roles| && t in p.roles[i].value)
  }

  lemma ShapeFindsEmptyNames(p: Policy)
    ensures ShapeOk(p) <==> !NamedIn(p, [])
  {
  }

  /** Nor does the shape. */
  lemma ShapeIgnoresKeyOrder(p: Policy, q: Policy)
    requires SamePolicy(p, q) && ShapeOk(p) && Proper(p) && Proper(q)
    ensures ShapeOk(q)
  {
    forall i | 0 <= i < |q.categories|
      ensures exists k :: 0 <= k < |p.categories| && p.categories[k] == q.categories[i]
    {
      LookupFinds(q.categories, i);
    }
    forall i | 0 <= i < |q.actions|
      ensures exists k :: 0 <= k < |p.actions| && p.actions[k] == q.actions[i]
    {
      LookupFinds(q.actions, i);
    }
    forall i | 0 <= i < |q.roles|
      ensures exists k :: 0 <= k < |p.roles| && p.roles[k] == q.roles[i]
    {
      LookupFinds(q.roles, i);
    }
  }
}
