/** Counting the elements of finite sets. */
module FiniteSets {
  lemma AtLeastOne<T>(s: set<T>)
    ensures |s| >= 1 <==> exists x :: x in s
  {
  }

  lemma AtLeastTwo<T>(s: set<T>)
    ensures |s| >= 2 <==> exists x, y :: x != y && x in s && y in s
  {
    if |s| >= 2 {
      var x :| x in s;
      var rest := s - {x};
      assert |rest| >= 1;
      var y :| y in rest;
      assert x != y && x in s && y in s;
    }
    if exists x, y :: x != y && x in s && y in s {
      var x, y :| x != y && x in s && y in s;
      assert {x, y} <= s;
      SubsetIsNoLarger({x, y}, s);
      assert |{x, y}| == 2;
    }
  }

  lemma SubsetIsNoLarger<T>(a: set<T>, b: set<T>)
    requires a <= b
    ensures |a| <= |b|
  {
    assert b == a + (b - a);
  }
}
