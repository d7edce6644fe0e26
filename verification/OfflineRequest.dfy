/**
 The semantic request behind an offline operation: what makes two submissions
 the same request. Key order and the order of recipients do not count, a fresh
 trace does not count, and everything else does.
 */
module OfflineRequest {
  import opened JsText
  import opened TextSort
  import opened JsonValue
  import opened CanonicalJson
  import opened FieldNames
  import opened SignedRecord
  import opened OfflineOperation

  /** The authenticated namespace, never the operation's own claims. */
  datatype Namespace = Namespace(organisationId: Text, siteId: Text, userId: Text, deviceId: Text)

  /** A message payload has its recipients apart; any other payload is its members. */
  datatype Payload =
    | Message(recipients: seq<Text>, others: seq<Member>)
    | Plain(members: seq<Member>)

  datatype Operation = Operation(
    offlineOperationId: Text,
    deviceSequence: SafeInt,
    idempotencyKey: Text,
    operationKind: OperationKind,
    payload: Payload,
    createdAt: Text,
    traceId: Text)

  function RecipientsKey(): Text {
    Literal(Spelling(RecipientUserIds))
  }

  function Strings(texts: seq<Text>): (items: seq<Json>)
    ensures |items| == |texts| && forall i :: 0 <= i < |texts| ==> items[i] == Str(texts[i])
  {
    seq(|texts|, i requires 0 <= i < |texts| => Str(texts[i]))
  }

  function PayloadMembers(p: Payload): seq<Member> {
    match p
    case Message(recipients, others) => [Member(RecipientsKey(), Arr(Strings(recipients)))] + others
    case Plain(members) => members
  }

  /** What parsing guarantees: a message payload exactly for a message, and a proper JSON object. */
  predicate Parsed(op: Operation) {
    && (op.operationKind.MessageSend? <==> op.payload.Message?)
    && WellFormed(Obj(PayloadMembers(op.payload)))
  }

  // ----- the fingerprint -----

  function Normalise(op: Operation): Operation {
    match op.payload
    case Message(recipients, others) => op.(payload := Message(Sort(recipients), others))
    case Plain(_) => op
  }

  function NamespaceFields(n: Namespace): (fields: seq<Field>)
    ensures |fields| == 4
  {
    [ Field(Name.OrganisationId, Str(n.organisationId)),
      Field(Name.SiteId, Str(n.siteId)),
      Field(Name.UserId, Str(n.userId)),
      Field(Name.DeviceId, Str(n.deviceId))
    ]
  }

  function SemanticFields(n: Namespace, op: Operation): (fields: seq<Field>)
    ensures |fields| == 7
  {
    [ Field(Name.Namespace, Obj(Members(NamespaceFields(n)))),
      Field(Name.OfflineOperationId, Str(op.offlineOperationId)),
      Field(Name.DeviceSequence, Num(op.deviceSequence)),
      Field(Name.IdempotencyKey, Str(op.idempotencyKey)),
      Field(Name.OperationKind, Str(Literal(KindName(op.operationKind)))),
      Field(Name.Payload, Obj(PayloadMembers(op.payload))),
      Field(Name.CreatedAt, Str(op.createdAt))
    ]
  }

  /** The canonical semantic request of an operation in its namespace. */
  function SemanticRequest(n: Namespace, op: Operation): Text {
    RecordText(SemanticFields(n, Normalise(op)))
  }

  /** Same recipients whatever their order, and otherwise the same object. */
  ghost predicate SamePayload(p: Payload, q: Payload) {
    match p
    case Message(recipients, others) =>
      q.Message? && multiset(recipients) == multiset(q.recipients) && SameUpToKeyOrder(Obj(others), Obj(q.others))
    case Plain(members) => q.Plain? && SameUpToKeyOrder(Obj(members), Obj(q.members))
  }

  ghost predicate SameRequest(n: Namespace, a: Operation, m: Namespace, b: Operation) {
    && n == m
    && a.offlineOperationId == b.offlineOperationId && a.deviceSequence == b.deviceSequence
    && a.idempotencyKey == b.idempotencyKey && a.operationKind == b.operationKind && a.createdAt == b.createdAt
    && SamePayload(a.payload, b.payload)
  }

  lemma SameStrings(a: seq<Text>, b: seq<Text>)
    ensures SameUpToKeyOrder(Arr(Strings(a)), Arr(Strings(b))) <==> a == b
  {
    if SameUpToKeyOrder(Arr(Strings(a)), Arr(Strings(b))) {
      forall i | 0 <= i < |a|
        ensures a[i] == b[i]
      {
        assert SameUpToKeyOrder(Strings(a)[i], Strings(b)[i]);
      }
    }
  }

  /** One member with the same key on both sides can be compared apart. */
  lemma SameWithoutFirst(m: Member, a: seq<Member>, k: Member, b: seq<Member>)
    requires m.key == k.key && DistinctKeys([m] + a) && DistinctKeys([k] + b)
    ensures SameUpToKeyOrder(Obj([m] + a), Obj([k] + b)) <==>
            SameUpToKeyOrder(m.value, k.value) && SameUpToKeyOrder(Obj(a), Obj(b))
  {
    if SameUpToKeyOrder(Obj([m] + a), Obj([k] + b)) {
      RestIsSame(m, a, k, b);
    }
    if SameUpToKeyOrder(m.value, k.value) && SameUpToKeyOrder(Obj(a), Obj(b)) {
      WholeIsSame(m, a, k, b);
    }
  }

  lemma RestIsSame(m: Member, a: seq<Member>, k: Member, b: seq<Member>)
    requires m.key == k.key && DistinctKeys([m] + a) && DistinctKeys([k] + b)
    requires SameUpToKeyOrder(Obj([m] + a), Obj([k] + b))
    ensures SameUpToKeyOrder(m.value, k.value) && SameUpToKeyOrder(Obj(a), Obj(b))
  {
    var x, y := [m] + a, [k] + b;
    assert SameUpToKeyOrder(x[0].value, y[0].value);
    forall i | 0 <= i < |a|
      ensures HasKey(b, a[i].key)
    {
      assert x[i + 1] == a[i] && HasKey(y, x[i + 1].key);
      var j :| 0 <= j < |y| && y[j].key == x[i + 1].key;
      assert x[0].key != x[i + 1].key;
      assert b[j - 1] == y[j];
    }
    forall j | 0 <= j < |b|
      ensures HasKey(a, b[j].key)
    {
      assert y[j + 1] == b[j] && HasKey(x, y[j + 1].key);
      var i :| 0 <= i < |x| && x[i].key == y[j + 1].key;
      assert y[0].key != y[j + 1].key;
      assert a[i - 1] == x[i];
    }
    forall i, j | 0 <= i < |a| && 0 <= j < |b| && a[i].key == b[j].key
      ensures SameUpToKeyOrder(a[i].value, b[j].value)
    {
      assert x[i + 1] == a[i] && y[j + 1] == b[j];
    }
  }

  lemma WholeIsSame(m: Member, a: seq<Member>, k: Member, b: seq<Member>)
    requires m.key == k.key && DistinctKeys([m] + a) && DistinctKeys([k] + b)
    requires SameUpToKeyOrder(m.value, k.value) && SameUpToKeyOrder(Obj(a), Obj(b))
    ensures SameUpToKeyOrder(Obj([m] + a), Obj([k] + b))
  {
    hide SameUpToKeyOrder;
    var x, y := [m] + a, [k] + b;
    KeysMatch(m, a, k, b);
    forall i, j | 0 <= i < |x| && 0 <= j < |y| && x[i].key == y[j].key
      ensures SameUpToKeyOrder(x[i].value, y[j].value)
    {
      assert x[0].key == y[0].key;
      assert i == 0 <==> j == 0;
      if i > 0 {
        SameInside(a, b, i - 1, j - 1);
        assert x[i] == a[i - 1] && y[j] == b[j - 1];
      }
    }
    SameObject(x, y);
  }

  lemma SameObject(x: seq<Member>, y: seq<Member>)
    requires forall i :: 0 <= i < |x| ==> HasKey(y, x[i].key)
    requires forall j :: 0 <= j < |y| ==> HasKey(x, y[j].key)
    requires forall i, j :: 0 <= i < |x| && 0 <= j < |y| && x[i].key == y[j].key ==> SameUpToKeyOrder(x[i].value, y[j].value)
    ensures SameUpToKeyOrder(Obj(x), Obj(y))
  {
  }

  lemma SameInside(a: seq<Member>, b: seq<Member>, i: nat, j: nat)
    requires SameUpToKeyOrder(Obj(a), Obj(b)) && i < |a| && j < |b| && a[i].key == b[j].key
    ensures SameUpToKeyOrder(a[i].value, b[j].value)
  {
  }

  lemma KeysMatch(m: Member, a: seq<Member>, k: Member, b: seq<Member>)
    requires m.key == k.key && SameUpToKeyOrder(Obj(a), Obj(b))
    ensures forall i :: 0 <= i < |[m] + a| ==> HasKey([k] + b, ([m] + a)[i].key)
    ensures forall j :: 0 <= j < |[k] + b| ==> HasKey([m] + a, ([k] + b)[j].key)
  {
    forall key: Text | HasKey([m] + a, key)
      ensures HasKey([k] + b, key)
    {
      KeyOfWhole(m, a, key);
      KeyOfWhole(k, b, key);
    }
    forall key: Text | HasKey([k] + b, key)
      ensures HasKey([m] + a, key)
    {
      KeyOfWhole(m, a, key);
      KeyOfWhole(k, b, key);
    }
  }

  lemma KeyOfWhole(m: Member, a: seq<Member>, key: Text)
    ensures HasKey([m] + a, key) <==> m.key == key || HasKey(a, key)
  {
    var x := [m] + a;
    if m.key == key {
      assert x[0].key == key;
    }
    if HasKey(a, key) {
      var i :| 0 <= i < |a| && a[i].key == key;
      assert x[i + 1].key == key;
    }
    if HasKey(x, key) && m.key != key {
      var i :| 0 <= i < |x| && x[i].key == key;
      assert a[i - 1].key == key;
    }
  }

  lemma SameNormalPayload(a: Operation, b: Operation)
    requires Parsed(a) && Parsed(b) && a.operationKind == b.operationKind
    ensures SameUpToKeyOrder(Obj(PayloadMembers(Normalise(a).payload)), Obj(PayloadMembers(Normalise(b).payload))) <==>
            SamePayload(a.payload, b.payload)
  {
    hide Spelling, Literal, SameUpToKeyOrder, Sort;
    if a.payload.Message? {
      NormaliseParsed(a);
      NormaliseParsed(b);
      var x, y := Sort(a.payload.recipients), Sort(b.payload.recipients);
      SameWithoutFirst(Member(RecipientsKey(), Arr(Strings(x))), a.payload.others,
                       Member(RecipientsKey(), Arr(Strings(y))), b.payload.others);
      SameStrings(x, y);
      SortEqualIffSameElements(a.payload.recipients, b.payload.recipients);
    }
  }

  lemma NormaliseParsed(op: Operation)
    requires Parsed(op)
    ensures Parsed(Normalise(op))
  {
    hide Spelling, Literal, Sort;
    if op.payload.Message? {
      var ms, ns := PayloadMembers(op.payload), PayloadMembers(Normalise(op).payload);
      assert forall i :: 0 <= i < |ns| ==> ns[i].key == ms[i].key && (i > 0 ==> ns[i] == ms[i]);
      var items := Strings(Sort(op.payload.recipients));
      assert ns[0].value == Arr(items);
      assert forall i :: 0 <= i < |items| ==> WellFormed(items[i]);
      assert WellFormed(ns[0].value);
      assert DistinctKeys(ns);
      assert forall i :: 0 < i < |ns| ==> WellFormed(ns[i].value);
    }
  }

  lemma NamespaceProper(n: Namespace)
    ensures DistinctNames(NamespaceFields(n)) && AllLeaves(NamespaceFields(n))
    ensures WellFormed(Obj(Members(NamespaceFields(n))))
  {
    LeavesWellFormed(NamespaceFields(n));
    RecordWellFormed(NamespaceFields(n));
  }

  lemma SameNamespace(n: Namespace, m: Namespace)
    ensures SameUpToKeyOrder(Obj(Members(NamespaceFields(n))), Obj(Members(NamespaceFields(m)))) <==> n == m
  {
    hide Members, SameUpToKeyOrder;
    NamespaceProper(n);
    NamespaceProper(m);
    var x, y := NamespaceFields(n), NamespaceFields(m);
    if SameUpToKeyOrder(Obj(Members(x)), Obj(Members(y))) {
      SameLeafObjects(x, y);
      assert x[0] == y[0] && x[1] == y[1] && x[2] == y[2] && x[3] == y[3];
    }
    if n == m {
      SameReflexive(Obj(Members(x)));
    }
  }

  lemma SemanticProper(n: Namespace, op: Operation)
    requires Parsed(op)
    ensures DistinctNames(SemanticFields(n, op)) && AllWellFormed(SemanticFields(n, op))
  {
    hide Members, PayloadMembers, NamespaceFields, Literal, KindName;
    NamespaceProper(n);
  }

  /**
   The semantic request, read back: the authenticated namespace and the operation's
   own fields under their names, and the payload with its recipients sorted.
   */
  lemma SemanticSays(n: Namespace, op: Operation)
    requires Parsed(op)
    ensures var text := SemanticRequest(n, op);
            && ReadsAsObject(text, 7)
            && Says(text, Name.OfflineOperationId, Str(op.offlineOperationId))
            && Says(text, Name.DeviceSequence, Num(op.deviceSequence))
            && Says(text, Name.IdempotencyKey, Str(op.idempotencyKey))
            && Says(text, Name.OperationKind, Str(Literal(KindName(op.operationKind))))
            && Says(text, Name.CreatedAt, Str(op.createdAt))
            && Says(text, Name.Payload, SortKeysDeep(Obj(PayloadMembers(Normalise(op).payload))))
            && exists v :: && Says(text, Name.Namespace, v) && v.Obj? && |v.members| == 4
                           && Holds(v, Name.OrganisationId, Str(n.organisationId)) && Holds(v, Name.SiteId, Str(n.siteId))
                           && Holds(v, Name.UserId, Str(n.userId)) && Holds(v, Name.DeviceId, Str(n.deviceId))
  {
    hide RecordText, Says, ReadsAsObject, Holds, Literal, KindName, DistinctNames, AllWellFormed, Members, Parsed, PayloadMembers,
         NamespaceFields;
    var fields := SemanticFields(n, Normalise(op));
    NormaliseParsed(op);
    SemanticProper(n, Normalise(op));
    RecordHolds(fields);
    assert fields[0].name.Namespace? && fields[1].name.OfflineOperationId? && fields[2].name.DeviceSequence?;
    assert fields[3].name.IdempotencyKey? && fields[4].name.OperationKind?;
    assert fields[5].name.Payload? && fields[6].name.CreatedAt?;
    NamespaceSays(n);
    assert Says(RecordText(fields), Name.Namespace, SortKeysDeep(fields[0].value));
  }

  lemma NamespaceSays(n: Namespace)
    ensures var v := SortKeysDeep(Obj(Members(NamespaceFields(n))));
            && v.Obj? && |v.members| == 4
            && Holds(v, Name.OrganisationId, Str(n.organisationId)) && Holds(v, Name.SiteId, Str(n.siteId))
            && Holds(v, Name.UserId, Str(n.userId)) && Holds(v, Name.DeviceId, Str(n.deviceId))
  {
    hide Holds, Literal, DistinctNames, AllWellFormed, AllLeaves, Members;
    var fields := NamespaceFields(n);
    NamespaceProper(n);
    LeavesWellFormed(fields);
    SortedHolds(fields);
    assert fields[0].name.OrganisationId? && fields[1].name.SiteId? && fields[2].name.UserId? && fields[3].name.DeviceId?;
  }

  lemma SameText(a: Text, b: Text)
    ensures SameUpToKeyOrder(Str(a), Str(b)) <==> a == b
  {
  }

  lemma SameNumber(a: SafeInt, b: SafeInt)
    ensures SameUpToKeyOrder(Num(a), Num(b)) <==> a == b
  {
  }

  lemma SevenFields(x: seq<Field>, y: seq<Field>)
    requires |x| == |y| == 7
    ensures (forall i :: 0 <= i < 7 ==> SameUpToKeyOrder(x[i].value, y[i].value)) <==>
            && SameUpToKeyOrder(x[0].value, y[0].value) && SameUpToKeyOrder(x[1].value, y[1].value)
            && SameUpToKeyOrder(x[2].value, y[2].value) && SameUpToKeyOrder(x[3].value, y[3].value)
            && SameUpToKeyOrder(x[4].value, y[4].value) && SameUpToKeyOrder(x[5].value, y[5].value)
            && SameUpToKeyOrder(x[6].value, y[6].value)
  {
    hide SameUpToKeyOrder;
  }

  lemma SameFields(n: Namespace, a: Operation, m: Namespace, b: Operation)
    ensures var x, y := SemanticFields(n, a), SemanticFields(m, b);
            SameNames(x, y)
            && ((forall i :: 0 <= i < 7 ==> SameUpToKeyOrder(x[i].value, y[i].value)) <==>
                && n == m && a.offlineOperationId == b.offlineOperationId && a.deviceSequence == b.deviceSequence
                && a.idempotencyKey == b.idempotencyKey && a.operationKind == b.operationKind && a.createdAt == b.createdAt
                && SameUpToKeyOrder(Obj(PayloadMembers(a.payload)), Obj(PayloadMembers(b.payload))))
  {
    hide Members, PayloadMembers, NamespaceFields, Literal, KindName, SameUpToKeyOrder;
    SameNamespace(n, m);
    KindNamesDiffer(a.operationKind, b.operationKind);
    SameText(a.offlineOperationId, b.offlineOperationId);
    SameNumber(a.deviceSequence, b.deviceSequence);
    SameText(a.idempotencyKey, b.idempotencyKey);
    SameText(Literal(KindName(a.operationKind)), Literal(KindName(b.operationKind)));
    SameText(a.createdAt, b.createdAt);
    SevenFields(SemanticFields(n, a), SemanticFields(m, b));
  }

  /** Two submissions are one request exactly when they agree on everything but key order, recipient order and trace. */
  lemma SemanticRequestDecides(n: Namespace, a: Operation, m: Namespace, b: Operation)
    requires Parsed(a) && Parsed(b)
    ensures SemanticRequest(n, a) == SemanticRequest(m, b) <==> SameRequest(n, a, m, b)
  {
    hide RecordText, SemanticFields, PayloadMembers, SameUpToKeyOrder, Sort, SamePayload;
    NormaliseParsed(a);
    NormaliseParsed(b);
    SemanticProper(n, Normalise(a));
    SemanticProper(m, Normalise(b));
    SameFields(n, Normalise(a), m, Normalise(b));
    TextDecidesFields(SemanticFields(n, Normalise(a)), SemanticFields(m, Normalise(b)));
    if a.operationKind == b.operationKind {
      SameNormalPayload(a, b);
    }
  }

  lemma SameRequestReflexive(n: Namespace, op: Operation)
    requires Parsed(op)
    ensures SameRequest(n, op, n, op)
  {
    hide Sort, Literal, Spelling;
    if op.payload.Message? {
      var ms := PayloadMembers(op.payload);
      assert forall i :: 0 <= i < |op.payload.others| ==> op.payload.others[i] == ms[i + 1];
      assert WellFormed(Obj(op.payload.others));
      SameReflexive(Obj(op.payload.others));
    } else {
      SameReflexive(Obj(op.payload.members));
    }
  }

  /** A retry with a fresh trace is the same request. */
  lemma TraceIsNotSemantic(n: Namespace, op: Operation, traceId: Text)
    ensures SemanticRequest(n, op.(traceId := traceId)) == SemanticRequest(n, op)
  {
    hide RecordText, Sort;
    assert SemanticFields(n, Normalise(op.(traceId := traceId))) == SemanticFields(n, Normalise(op));
  }
}
