/** `Array.prototype.sort` on strings: by code units, keeping every occurrence. */
module TextSort {
  import opened JsText

  function Insert(t: Text, sorted: seq<Text>): seq<Text> {
    if sorted == [] || !Less(sorted[0], t) then [t] + sorted else [sorted[0]] + Insert(t, sorted[1..])
  }

  function Sort(texts: seq<Text>): seq<Text> {
    if texts == [] then [] else Insert(texts[0], Sort(texts[1..]))
  }

  predicate Sorted(texts: seq<Text>) {
    forall i, j :: 0 <= i < j < |texts| ==> !Less(texts[j], texts[i])
  }

  lemma NotLessTransitive(a: Text, b: Text, c: Text)
    requires !Less(b, a) && !Less(c, b)
    ensures !Less(c, a)
  {
    LessTotal(a, b);
    LessTotal(b, c);
    LessTotal(a, c);
    if Less(a, b) && Less(b, c) {
      LessTransitive(a, b, c);
    }
  }

  lemma {:induction false} InsertSorts(t: Text, sorted: seq<Text>)
    requires Sorted(sorted)
    ensures Sorted(Insert(t, sorted)) && multiset(Insert(t, sorted)) == multiset(sorted) + multiset{t}
  {
    hide Less;
    if sorted == [] {
    } else if !Less(sorted[0], t) {
      forall j | 0 <= j < |sorted|
        ensures !Less(sorted[j], t)
      {
        if j > 0 {
          NotLessTransitive(t, sorted[0], sorted[j]);
        }
      }
    } else {
      var rest := Insert(t, sorted[1..]);
      InsertSorts(t, sorted[1..]);
      assert sorted == [sorted[0]] + sorted[1..];
      LessTotal(sorted[0], t);
      forall j | 0 <= j < |rest|
        ensures !Less(rest[j], sorted[0])
      {
        InsertedFrom(t, sorted[1..], rest, j);
      }
    }
  }

  lemma InsertedFrom(t: Text, others: seq<Text>, rest: seq<Text>, j: nat)
    requires multiset(rest) == multiset(others) + multiset{t} && j < |rest|
    ensures rest[j] == t || rest[j] in others
  {
    assert rest[j] in multiset(rest);
  }

  lemma {:induction false} SortSorts(texts: seq<Text>)
    ensures Sorted(Sort(texts)) && multiset(Sort(texts)) == multiset(texts)
  {
    hide Less, Insert, Sorted;
    if texts == [] {
      NothingSorted();
    } else if texts != [] {
      SortSorts(texts[1..]);
      InsertSorts(texts[0], Sort(texts[1..]));
      assert texts == [texts[0]] + texts[1..];
    }
  }

  lemma {:induction false} SortedUnique(a: seq<Text>, b: seq<Text>)
    requires Sorted(a) && Sorted(b) && multiset(a) == multiset(b)
    ensures a == b
  {
    hide Less;
    if a == [] || b == [] {
      assert |a| == |multiset(a)| && |b| == |multiset(b)|;
    } else {
      SameLeast(a, b);
      WithoutFirst(a);
      WithoutFirst(b);
      SortedUnique(a[1..], b[1..]);
    }
  }

  lemma WithoutFirst(a: seq<Text>)
    requires a != []
    ensures a == [a[0]] + a[1..] && multiset(a[1..]) == multiset(a) - multiset{a[0]}
  {
    assert a == [a[0]] + a[1..];
  }

  lemma SameLeast(a: seq<Text>, b: seq<Text>)
    requires Sorted(a) && Sorted(b) && multiset(a) == multiset(b) && a != [] && b != []
    ensures a[0] == b[0]
  {
    assert a[0] in multiset(b) && b[0] in multiset(a);
    var i :| 0 <= i < |b| && b[i] == a[0];
    var j :| 0 <= j < |a| && a[j] == b[0];
    LessTotal(a[0], b[0]);
  }

  lemma NothingSorted()
    ensures Sorted([])
  {
  }

  /** Sorting forgets the order and nothing else. */
  lemma SortEqualIffSameElements(a: seq<Text>, b: seq<Text>)
    ensures Sort(a) == Sort(b) <==> multiset(a) == multiset(b)
  {
    SortSorts(a);
    SortSorts(b);
    if multiset(a) == multiset(b) {
      SortedUnique(Sort(a), Sort(b));
    }
  }
}
