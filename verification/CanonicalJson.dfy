/**
 Canonical JSON: object keys sorted at every depth, array order kept, printed
 without spaces. Equal texts mean equal values up to key order, and the reader
 gives back the sorted value.
 */
module CanonicalJson {
  import opened JsText
  import opened KeyOrder
  import opened JsonValue
  import opened JsonPrinter
  import opened JsonReader
  import opened JsonRoundTrip

  function InsertMember(m: Member, ms: seq<Member>): seq<Member> {
    if ms == [] || KeyBefore(m.key, ms[0].key) then [m] + ms
    else [ms[0]] + InsertMember(m, ms[1..])
  }

  function SortMembers(ms: seq<Member>): seq<Member> {
    if ms == [] then [] else InsertMember(ms[0], SortMembers(ms[1..]))
  }

  function SortValues(ms: seq<Member>): (r: seq<Member>)
    ensures |r| == |ms|
    ensures forall i :: 0 <= i < |ms| ==> r[i] == Member(ms[i].key, SortKeysDeep(ms[i].value))
    decreases ms, 0
  {
    seq(|ms|, i requires 0 <= i < |ms| => Member(ms[i].key, SortKeysDeep(ms[i].value)))
  }

  function SortKeysDeep(v: Json): Json
    decreases v, 1
  {
    match v
    case Arr(items) => Arr(seq(|items|, i requires 0 <= i < |items| => SortKeysDeep(items[i])))
    case Obj(ms) => Obj(SortMembers(SortValues(ms)))
    case _ => v
  }

  function Canonical(v: Json): Text {
    Print(SortKeysDeep(v))
  }

  // ----- sorting -----

  predicate Ascending(ms: seq<Member>) {
    forall i, j :: 0 <= i < j < |ms| ==> KeyBefore(ms[i].key, ms[j].key)
  }

  lemma {:induction false} InsertElements(m: Member, ms: seq<Member>)
    ensures multiset(InsertMember(m, ms)) == multiset{m} + multiset(ms)
  {
    if ms != [] && !KeyBefore(m.key, ms[0].key) {
      InsertElements(m, ms[1..]);
      assert ms == [ms[0]] + ms[1..];
    }
  }

  lemma {:induction false} SortElements(ms: seq<Member>)
    ensures multiset(SortMembers(ms)) == multiset(ms)
  {
    if ms != [] {
      SortElements(ms[1..]);
      InsertElements(ms[0], SortMembers(ms[1..]));
      assert ms == [ms[0]] + ms[1..];
    }
  }

  lemma {:induction false} InsertAscending(m: Member, ms: seq<Member>)
    requires Ascending(ms) && !HasKey(ms, m.key)
    ensures Ascending(InsertMember(m, ms))
  {
    if ms == [] {
    } else if KeyBefore(m.key, ms[0].key) {
      forall j | 0 < j < |ms|
        ensures KeyBefore(m.key, ms[j].key)
      {
        KeyBeforeTransitive(m.key, ms[0].key, ms[j].key);
      }
    } else {
      var more := ms[1..];
      assert forall i :: 0 <= i < |more| ==> more[i] == ms[i + 1];
      InsertAscending(m, more);
      KeyBeforeTotal(m.key, ms[0].key);
      InsertElements(m, more);
      var r := InsertMember(m, more);
      forall j | 0 <= j < |r|
        ensures KeyBefore(ms[0].key, r[j].key)
      {
        assert r[j] in multiset(r);
        if r[j] != m {
          assert r[j] in more;
        }
      }
    }
  }

  lemma {:induction false} SortAscending(ms: seq<Member>)
    requires DistinctKeys(ms)
    ensures Ascending(SortMembers(ms))
  {
    if ms != [] {
      var more := ms[1..];
      assert forall i :: 0 <= i < |more| ==> more[i] == ms[i + 1];
      SortAscending(more);
      var sorted := SortMembers(more);
      SortElements(more);
      forall i | 0 <= i < |sorted|
        ensures sorted[i].key != ms[0].key
      {
        assert sorted[i] in multiset(sorted);
        assert sorted[i] in more;
      }
      InsertAscending(ms[0], sorted);
    }
  }

  lemma FirstIsElement(ms: seq<Member>)
    requires ms != []
    ensures exists m :: m in ms
  {
    assert ms[0] in ms;
  }

  /** An ascending list is determined by its elements. */
  lemma {:induction false} AscendingUnique(a: seq<Member>, b: seq<Member>)
    requires Ascending(a) && Ascending(b)
    requires forall m :: m in a <==> m in b
    ensures a == b
  {
    if a == [] {
      if b != [] {
        FirstIsElement(b);
        assert false;
      }
    } else {
      assert a[0] in b;
      assert b[0] in a;
      KeyBeforeTotal(a[0].key, b[0].key);
      assert a[0] == b[0];
      DropFirst(a);
      DropFirst(b);
      AscendingUnique(a[1..], b[1..]);
      assert a == [a[0]] + a[1..] && b == [b[0]] + b[1..];
    }
  }

  lemma DropFirst(a: seq<Member>)
    requires Ascending(a) && a != []
    ensures Ascending(a[1..]) && forall m :: m in a[1..] <==> m in a && m != a[0]
  {
    assert forall i :: 0 <= i < |a[1..]| ==> a[1..][i] == a[i + 1];
    forall i | 0 < i < |a|
      ensures a[i] != a[0]
    {
      KeyBeforeTotal(a[0].key, a[i].key);
    }
    forall m | m in a && m != a[0]
      ensures m in a[1..]
    {
      var i :| 0 <= i < |a| && a[i] == m;
      assert a[1..][i - 1] == m;
    }
  }

  lemma AscendingDistinct(ms: seq<Member>)
    requires Ascending(ms)
    ensures DistinctKeys(ms)
  {
    forall i, j | 0 <= i < j < |ms|
      ensures ms[i].key != ms[j].key
    {
      KeyBeforeTotal(ms[i].key, ms[j].key);
    }
  }

  lemma SortedMembership(ms: seq<Member>, m: Member)
    ensures m in SortMembers(ms) <==> m in ms
  {
    SortElements(ms);
    assert m in SortMembers(ms) <==> m in multiset(SortMembers(ms));
    assert m in ms <==> m in multiset(ms);
  }

  // ----- the sorted value -----

  lemma {:induction false} SortWellFormed(v: Json)
    requires WellFormed(v)
    ensures WellFormed(SortKeysDeep(v))
  {
    match v
    case Arr(items) =>
      forall i | 0 <= i < |items|
        ensures WellFormed(SortKeysDeep(items[i]))
      {
        SortWellFormed(items[i]);
      }
    case Obj(ms) =>
      var values := SortValues(ms);
      var sorted := SortMembers(values);
      SortAscending(values);
      AscendingDistinct(sorted);
      forall i | 0 <= i < |sorted|
        ensures WellFormed(sorted[i].value)
      {
        SortedMembership(values, sorted[i]);
        var j :| 0 <= j < |values| && values[j] == sorted[i];
        SortWellFormed(ms[j].value);
      }
    case _ =>
  }

  /** The two lists of sorted members hold the same pairs. */
  ghost predicate SamePairs(a: seq<Member>, b: seq<Member>) {
    forall m :: m in SortValues(a) <==> m in SortValues(b)
  }

  lemma SortedEqualIffSamePairs(a: seq<Member>, b: seq<Member>)
    requires DistinctKeys(a) && DistinctKeys(b)
    ensures SortMembers(SortValues(a)) == SortMembers(SortValues(b)) <==> SamePairs(a, b)
  {
    var x, y := SortValues(a), SortValues(b);
    forall m
      ensures (m in SortMembers(x) <==> m in x) && (m in SortMembers(y) <==> m in y)
    {
      SortedMembership(x, m);
      SortedMembership(y, m);
    }
    if SamePairs(a, b) {
      SortAscending(x);
      SortAscending(y);
      AscendingUnique(SortMembers(x), SortMembers(y));
    }
  }

  /** Sorting removes the order of keys and nothing else. */
  lemma {:induction false} SortEqualIffSame(v: Json, w: Json)
    requires WellFormed(v) && WellFormed(w)
    ensures SortKeysDeep(v) == SortKeysDeep(w) <==> SameUpToKeyOrder(v, w)
    decreases v, 1
  {
    if v.Arr? && w.Arr? {
      ArraysEqualIffSame(v.items, w.items);
    } else if v.Obj? && w.Obj? {
      SortedEqualIffSamePairs(v.members, w.members);
      ObjectsEqualIffSame(v.members, w.members);
    }
  }

  lemma {:induction false} ArraysEqualIffSame(a: seq<Json>, b: seq<Json>)
    requires WellFormed(Arr(a)) && WellFormed(Arr(b))
    ensures SortKeysDeep(Arr(a)) == SortKeysDeep(Arr(b)) <==> SameUpToKeyOrder(Arr(a), Arr(b))
    decreases a, 0
  {
    var x, y := SortKeysDeep(Arr(a)).items, SortKeysDeep(Arr(b)).items;
    if |a| == |b| {
      forall i | 0 <= i < |a|
        ensures x[i] == y[i] <==> SameUpToKeyOrder(a[i], b[i])
      {
        SortEqualIffSame(a[i], b[i]);
      }
    }
  }

  lemma {:induction false} ObjectsEqualIffSame(a: seq<Member>, b: seq<Member>)
    requires WellFormed(Obj(a)) && WellFormed(Obj(b))
    ensures SamePairs(a, b) <==> SameUpToKeyOrder(Obj(a), Obj(b))
    decreases a, 0
  {
    forall i, j | 0 <= i < |a| && 0 <= j < |b|
      ensures SortKeysDeep(a[i].value) == SortKeysDeep(b[j].value) <==> SameUpToKeyOrder(a[i].value, b[j].value)
    {
      SortEqualIffSame(a[i].value, b[j].value);
    }
    if SamePairs(a, b) {
      PairsGiveSame(a, b);
    } else if SameUpToKeyOrder(Obj(a), Obj(b)) {
      SameGivesPairs(a, b);
    }
  }

  /** Sorting decides sameness for every pair of member values of the two objects. */
  ghost predicate SortDecides(a: seq<Member>, b: seq<Member>) {
    forall i, j :: 0 <= i < |a| && 0 <= j < |b| ==>
                     (SortKeysDeep(a[i].value) == SortKeysDeep(b[j].value) <==> SameUpToKeyOrder(a[i].value, b[j].value))
  }

  lemma PairsGiveSame(a: seq<Member>, b: seq<Member>)
    requires DistinctKeys(b) && SamePairs(a, b) && SortDecides(a, b)
    ensures SameUpToKeyOrder(Obj(a), Obj(b))
  {
    var x, y := SortValues(a), SortValues(b);
    PairsToKeys(a, b);
    PairsToKeys(b, a);
    forall i, j | 0 <= i < |a| && 0 <= j < |b| && a[i].key == b[j].key
      ensures SameUpToKeyOrder(a[i].value, b[j].value)
    {
      assert x[i] in y;
      var k :| 0 <= k < |b| && y[k] == x[i];
      assert k == j;
    }
  }

  lemma SameGivesPairs(a: seq<Member>, b: seq<Member>)
    requires SameUpToKeyOrder(Obj(a), Obj(b)) && SortDecides(a, b)
    ensures SamePairs(a, b)
  {
    var x, y := SortValues(a), SortValues(b);
    forall m | m in x
      ensures m in y
    {
      var i :| 0 <= i < |a| && x[i] == m;
      var j :| 0 <= j < |b| && b[j].key == a[i].key;
      assert y[j] == m;
    }
    forall m | m in y
      ensures m in x
    {
      var j :| 0 <= j < |b| && y[j] == m;
      var i :| 0 <= i < |a| && a[i].key == b[j].key;
      assert x[i] == m;
    }
  }

  lemma PairsToKeys(a: seq<Member>, b: seq<Member>)
    requires SamePairs(a, b)
    ensures forall i :: 0 <= i < |a| ==> HasKey(b, a[i].key)
  {
    forall i | 0 <= i < |a|
      ensures HasKey(b, a[i].key)
    {
      assert SortValues(a)[i] in SortValues(b);
      var j :| 0 <= j < |b| && SortValues(b)[j] == SortValues(a)[i];
      assert b[j].key == a[i].key;
    }
  }

  lemma {:induction false} SameReflexive(v: Json)
    requires WellFormed(v)
    ensures SameUpToKeyOrder(v, v)
  {
    SortEqualIffSame(v, v);
  }

  /** Sorting twice is sorting once. */
  lemma {:induction false} SortIdempotent(v: Json)
    requires WellFormed(v)
    ensures SortKeysDeep(SortKeysDeep(v)) == SortKeysDeep(v)
  {
    match v
    case Arr(items) =>
      forall i | 0 <= i < |items|
        ensures SortKeysDeep(SortKeysDeep(items[i])) == SortKeysDeep(items[i])
      {
        SortIdempotent(items[i]);
      }
    case Obj(ms) =>
      var values := SortValues(ms);
      var sorted := SortMembers(values);
      forall i | 0 <= i < |sorted|
        ensures SortKeysDeep(sorted[i].value) == sorted[i].value
      {
        SortedMembership(values, sorted[i]);
        var j :| 0 <= j < |values| && values[j] == sorted[i];
        SortIdempotent(ms[j].value);
      }
      assert SortValues(sorted) == sorted;
      SortAscending(values);
      AscendingDistinct(sorted);
      SortAscending(sorted);
      forall m
        ensures m in SortMembers(sorted) <==> m in sorted
      {
        SortedMembership(sorted, m);
      }
      AscendingUnique(SortMembers(sorted), sorted);
    case _ =>
  }

  // ----- the main results -----

  /** Reading a canonical text gives the value with its keys sorted. */
  lemma ParseCanonical(v: Json)
    requires WellFormed(v)
    ensures JsonParse(Canonical(v)) == Read(SortKeysDeep(v), [])
  {
    SortWellFormed(v);
    ParsePrint(SortKeysDeep(v));
  }

  /** One canonical text per value up to key order, and one value up to key order per canonical text. */
  lemma CanonicalInjective(v: Json, w: Json)
    requires WellFormed(v) && WellFormed(w)
    ensures Canonical(v) == Canonical(w) <==> SameUpToKeyOrder(v, w)
  {
    ParseCanonical(v);
    ParseCanonical(w);
    SortEqualIffSame(v, w);
  }

  /** Printing what was read back from a canonical text changes nothing. */
  lemma CanonicalIdempotent(v: Json)
    requires WellFormed(v)
    ensures JsonParse(Canonical(v)).Read? && Canonical(JsonParse(Canonical(v)).value) == Canonical(v)
  {
    ParseCanonical(v);
    SortIdempotent(v);
  }
}
