/**
 Everything a device signs, and every one-shot slot, is the canonical text of a
 flat record with a fixed list of field names, headed by a domain tag. Two such
 records share a text only when they are the same record.
 */
module SignedRecord {
  import opened JsText
  import opened JsonValue
  import opened JsonReader
  import opened CanonicalJson
  import opened FieldNames

  datatype Field = Field(name: Name, value: Json)

  /** The value of the `domain` field that heads a record. */
  function Tag(tag: DomainTag): Json {
    Str(Literal(TagSpelling(tag)))
  }

  predicate DistinctNames(fields: seq<Field>) {
    forall i, j :: 0 <= i < j < |fields| ==> fields[i].name != fields[j].name
  }

  predicate SameNames(a: seq<Field>, b: seq<Field>) {
    |a| == |b| && forall i :: 0 <= i < |a| ==> a[i].name == b[i].name
  }

  function Members(fields: seq<Field>): (ms: seq<Member>)
    ensures |ms| == |fields|
    ensures forall i :: 0 <= i < |fields| ==> ms[i] == Member(Literal(Spelling(fields[i].name)), fields[i].value)
  {
    seq(|fields|, i requires 0 <= i < |fields| => Member(Literal(Spelling(fields[i].name)), fields[i].value))
  }

  function RecordText(fields: seq<Field>): Text {
    Canonical(Obj(Members(fields)))
  }

  predicate IsLeaf(v: Json) {
    !v.Arr? && !v.Obj?
  }

  predicate AllLeaves(fields: seq<Field>) {
    forall i :: 0 <= i < |fields| ==> IsLeaf(fields[i].value)
  }

  predicate AllWellFormed(fields: seq<Field>) {
    forall i :: 0 <= i < |fields| ==> WellFormed(fields[i].value)
  }

  lemma LeavesWellFormed(fields: seq<Field>)
    requires AllLeaves(fields)
    ensures AllWellFormed(fields)
  {
  }

  lemma RecordWellFormed(fields: seq<Field>)
    requires DistinctNames(fields) && AllWellFormed(fields)
    ensures WellFormed(Obj(Members(fields)))
  {
    hide Literal, Spelling;
    var ms := Members(fields);
    forall i, j | 0 <= i < j < |ms|
      ensures ms[i].key != ms[j].key
    {
      LiteralInjective(Spelling(fields[i].name), Spelling(fields[j].name));
      if Spelling(fields[i].name) == Spelling(fields[j].name) {
        SpellingInjective(fields[i].name, fields[j].name);
      }
    }
  }

  /** Under one list of names, the text decides every field. */
  lemma TextDecidesFields(a: seq<Field>, b: seq<Field>)
    requires DistinctNames(a) && SameNames(a, b) && AllWellFormed(a) && AllWellFormed(b)
    ensures RecordText(a) == RecordText(b) <==> forall i :: 0 <= i < |a| ==> SameUpToKeyOrder(a[i].value, b[i].value)
  {
    hide Literal, Spelling;
    assert DistinctNames(b);
    RecordWellFormed(a);
    RecordWellFormed(b);
    CanonicalInjective(Obj(Members(a)), Obj(Members(b)));
    if forall i :: 0 <= i < |a| ==> SameUpToKeyOrder(a[i].value, b[i].value) {
      SameFieldsSameObject(Members(a), Members(b));
    } else {
      FieldsOfSameObject(Members(a), Members(b));
    }
  }

  lemma FieldsOfSameObject(x: seq<Member>, y: seq<Member>)
    requires |x| == |y| && forall i :: 0 <= i < |x| ==> x[i].key == y[i].key
    ensures SameUpToKeyOrder(Obj(x), Obj(y)) ==> forall i :: 0 <= i < |x| ==> SameUpToKeyOrder(x[i].value, y[i].value)
  {
  }

  lemma SameFieldsSameObject(x: seq<Member>, y: seq<Member>)
    requires |x| == |y| && DistinctKeys(x)
    requires forall i :: 0 <= i < |x| ==> x[i].key == y[i].key && SameUpToKeyOrder(x[i].value, y[i].value)
    ensures SameUpToKeyOrder(Obj(x), Obj(y))
  {
    forall i | 0 <= i < |x|
      ensures HasKey(y, x[i].key) && HasKey(x, y[i].key)
    {
      assert x[i].key == y[i].key;
    }
    forall i, j | 0 <= i < |x| && 0 <= j < |y| && x[i].key == y[j].key
      ensures SameUpToKeyOrder(x[i].value, y[j].value)
    {
      assert x[j].key == x[i].key;
    }
  }

  lemma SameLeafObjects(a: seq<Field>, b: seq<Field>)
    requires SameNames(a, b) && AllLeaves(a) && AllLeaves(b)
    requires SameUpToKeyOrder(Obj(Members(a)), Obj(Members(b)))
    ensures a == b
  {
    hide Literal, Spelling;
    FieldsOfSameObject(Members(a), Members(b));
    forall i | 0 <= i < |a|
      ensures a[i] == b[i]
    {
      assert SameUpToKeyOrder(Members(a)[i].value, Members(b)[i].value);
    }
  }

  /** With leaves only, the text decides the record itself. */
  lemma TextDecidesLeaves(a: seq<Field>, b: seq<Field>)
    requires DistinctNames(a) && SameNames(a, b) && AllLeaves(a) && AllLeaves(b)
    ensures RecordText(a) == RecordText(b) <==> a == b
  {
    hide RecordText;
    TextDecidesFields(a, b);
    if RecordText(a) == RecordText(b) {
      forall i | 0 <= i < |a|
        ensures a[i] == b[i]
      {
        assert SameUpToKeyOrder(a[i].value, b[i].value);
      }
    }
  }

  /** The canonical text of whatever a text reads as. */
  function Recanonicalised(text: Text): Text {
    match JsonParse(text)
    case Unreadable => []
    case Read(value, _) => Canonical(value)
  }

  /** A record text is a canonical JSON text: reading and printing it again changes nothing. */
  lemma RecordTextIsCanonical(fields: seq<Field>)
    requires DistinctNames(fields) && AllWellFormed(fields)
    ensures RecordText(fields) != []
    ensures Recanonicalised(RecordText(fields)) == RecordText(fields)
  {
    hide Literal, Spelling;
    RecordWellFormed(fields);
    CanonicalIdempotent(Obj(Members(fields)));
  }

  /** Read back, the text is an object with this many members and no key twice. */
  predicate ReadsAsObject(text: Text, count: nat) {
    var read := JsonParse(text);
    read.Read? && read.value.Obj? && |read.value.members| == count && DistinctKeys(read.value.members)
  }

  /** Read back, the text is an object that holds this value under the spelling of this name. */
  predicate Says(text: Text, name: Name, value: Json) {
    var read := JsonParse(text);
    read.Read? && read.value.Obj? && Member(Literal(Spelling(name)), value) in read.value.members
  }

  /** The object holds this value under the spelling of this name. */
  predicate Holds(v: Json, name: Name, value: Json) {
    v.Obj? && Member(Literal(Spelling(name)), value) in v.members
  }

  /** A record, its keys sorted, is an object of exactly its fields, each sorted value under its own name and no other. */
  lemma SortedHolds(fields: seq<Field>)
    requires DistinctNames(fields) && AllWellFormed(fields)
    ensures var v := SortKeysDeep(Obj(Members(fields)));
            && v.Obj? && |v.members| == |fields| && DistinctKeys(v.members)
            && forall i :: 0 <= i < |fields| ==> Holds(v, fields[i].name, SortKeysDeep(fields[i].value))
  {
    hide Literal, Spelling;
    RecordWellFormed(fields);
    var ms := Members(fields);
    SortWellFormed(Obj(ms));
    var values := SortValues(ms);
    SortElements(values);
    assert |multiset(SortMembers(values))| == |multiset(values)|;
    forall i | 0 <= i < |fields|
      ensures Holds(SortKeysDeep(Obj(ms)), fields[i].name, SortKeysDeep(fields[i].value))
    {
      assert values[i] == Member(Literal(Spelling(fields[i].name)), SortKeysDeep(fields[i].value));
      assert values[i] in multiset(values);
      assert values[i] in multiset(SortMembers(values));
    }
  }

  lemma RecordHolds(fields: seq<Field>)
    requires DistinctNames(fields) && AllWellFormed(fields)
    ensures ReadsAsObject(RecordText(fields), |fields|)
    ensures forall i :: 0 <= i < |fields| ==> Says(RecordText(fields), fields[i].name, SortKeysDeep(fields[i].value))
  {
    hide Literal, Spelling, Members, SortKeysDeep;
    RecordWellFormed(fields);
    ParseCanonical(Obj(Members(fields)));
    SortedHolds(fields);
    assert forall name, value :: Says(RecordText(fields), name, value) <==> Holds(SortKeysDeep(Obj(Members(fields))), name, value);
  }

  /** A record text holds, read back, exactly its fields, each under its own name and no other. */
  lemma RecordSays(fields: seq<Field>)
    requires DistinctNames(fields) && AllLeaves(fields)
    ensures ReadsAsObject(RecordText(fields), |fields|)
    ensures forall i :: 0 <= i < |fields| ==> Says(RecordText(fields), fields[i].name, fields[i].value)
  {
    hide RecordText, Says, ReadsAsObject;
    LeavesWellFormed(fields);
    RecordHolds(fields);
    forall i | 0 <= i < |fields|
      ensures SortKeysDeep(fields[i].value) == fields[i].value
    {
    }
  }

  /** Records headed by different domain tags never share a text, whatever else they hold. */
  lemma DomainsApart(a: seq<Field>, b: seq<Field>, tag: DomainTag, other: DomainTag)
    requires a != [] && DistinctNames(a) && AllWellFormed(a) && a[0] == Field(Name.Domain, Tag(tag))
    requires b != [] && DistinctNames(b) && AllWellFormed(b) && b[0] == Field(Name.Domain, Tag(other))
    requires tag != other
    ensures RecordText(a) != RecordText(b)
  {
    hide Literal, Spelling, TagSpelling;
    if RecordText(a) == RecordText(b) {
      RecordWellFormed(a);
      RecordWellFormed(b);
      CanonicalInjective(Obj(Members(a)), Obj(Members(b)));
      assert Members(a)[0].key == Members(b)[0].key;
      assert SameUpToKeyOrder(a[0].value, b[0].value);
      LiteralInjective(TagSpelling(tag), TagSpelling(other));
      TagSpellingInjective(tag, other);
    }
  }
}
