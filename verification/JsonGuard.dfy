/**
 The guard in front of the canonicaliser. It walks an object graph that may
 share objects or run in circles, keeping the objects on the current path in a
 set it changes as it goes, and refuses whatever JSON text could not represent
 without loss.
 */
module JsonGuard {
  import opened JsText
  import opened JsonValue
  import opened CanonicalJson

  type Ref = nat

  datatype JsValue =
    | NullValue
    | StringValue(s: Text)
    | BooleanValue(b: bool)
    | NumberValue(n: SafeInt)
    | NonFiniteNumber
    | UnsupportedValue  // undefined, bigint, symbol, function
    | ObjectValue(ref: Ref)

  /** What a property descriptor says. An accessor has a getter or a setter instead of a value. */
  datatype Descriptor = Descriptor(enumerable: bool, accessor: bool, value: JsValue)

  datatype Property = Property(key: Text, descriptor: Descriptor)

  datatype ArrayName = LengthName | IndexName(index: nat) | OtherName

  datatype JsObject =
    | ArrayObject(standardPrototype: bool, symbolKeys: bool, length: nat, names: seq<ArrayName>, slots: map<nat, Descriptor>)
    | RecordObject(plainPrototype: bool, symbolKeys: bool, properties: seq<Property>)

  type Heap = map<Ref, JsObject>

  datatype Refusal =
    | NonFinite
    | Cyclic
    | NonPlainObject
    | SymbolKeyed
    | HiddenOrAccessor
    | NonStandardArray
    | NamedArrayProperty
    | SparseHole
    | UnsupportedType

  datatype Verdict = Accepted | Refused(refusal: Refusal)

  // ----- the graph -----

  /** The values the guard descends into from one object. */
  function Held(o: JsObject): set<JsValue> {
    match o
    case RecordObject(_, _, ps) => set i | 0 <= i < |ps| :: ps[i].descriptor.value
    case ArrayObject(_, _, length, _, slots) => set i | 0 <= i < length && i in slots :: slots[i].value
  }

  predicate Points(heap: Heap, v: JsValue) {
    v.ObjectValue? ==> v.ref in heap
  }

  /** No dangling references, and no object lists one property twice. */
  ghost predicate ValidHeap(heap: Heap) {
    && (forall r, v :: r in heap && v in Held(heap[r]) ==> Points(heap, v))
    && forall r :: r in heap && heap[r].RecordObject? ==> DistinctProperties(heap[r].properties)
  }

  predicate DistinctProperties(ps: seq<Property>) {
    forall i, j :: 0 <= i < j < |ps| ==> ps[i].key != ps[j].key
  }

  predicate Hidden(d: Descriptor) {
    !d.enumerable || d.accessor
  }

  predicate StrayName(name: ArrayName, length: nat) {
    name.OtherName? || (name.IndexName? && name.index >= length)
  }

  // ----- the guard as a function of the graph and the path -----

  function Check(heap: Heap, v: JsValue, seen: set<Ref>): Verdict
    requires ValidHeap(heap) && Points(heap, v)
    decreases heap.Keys - seen, 0
  {
    match v
    case NonFiniteNumber => Refused(NonFinite)
    case UnsupportedValue => Refused(UnsupportedType)
    case ObjectValue(r) => if r in seen then Refused(Cyclic) else CheckObject(heap, r, seen)
    case _ => Accepted
  }

  function CheckObject(heap: Heap, r: Ref, seen: set<Ref>): Verdict
    requires ValidHeap(heap) && r in heap && r !in seen
    decreases heap.Keys - seen, 0, 0
  {
    var o := heap[r];
    if o.ArrayObject? then
      if !o.standardPrototype then Refused(NonStandardArray)
      else if o.symbolKeys then Refused(SymbolKeyed)
      else if exists i :: 0 <= i < |o.names| && StrayName(o.names[i], o.length) then Refused(NamedArrayProperty)
      else CheckSlots(heap, r, 0, seen + {r})
    else if !o.plainPrototype then Refused(NonPlainObject)
    else if o.symbolKeys then Refused(SymbolKeyed)
    else CheckProperties(heap, r, 0, seen + {r})
  }

  /** The properties from position i on, in order, with the object itself on the path. */
  function CheckProperties(heap: Heap, r: Ref, i: nat, seen: set<Ref>): Verdict
    requires ValidHeap(heap) && r in heap && heap[r].RecordObject? && i <= |heap[r].properties|
    decreases heap.Keys - seen, 1, |heap[r].properties| - i
  {
    if i == |heap[r].properties| then Accepted
    else
      var d := heap[r].properties[i].descriptor;
      assert d.value in Held(heap[r]);
      if Hidden(d) then Refused(HiddenOrAccessor)
      else
        match Check(heap, d.value, seen)
        case Refused(why) => Refused(why)
        case Accepted => CheckProperties(heap, r, i + 1, seen)
  }

  function CheckSlots(heap: Heap, r: Ref, i: nat, seen: set<Ref>): Verdict
    requires ValidHeap(heap) && r in heap && heap[r].ArrayObject? && i <= heap[r].length
    decreases heap.Keys - seen, 1, heap[r].length - i
  {
    if i == heap[r].length then Accepted
    else if i !in heap[r].slots then Refused(SparseHole)
    else
      var d := heap[r].slots[i];
      assert d.value in Held(heap[r]);
      if Hidden(d) then Refused(HiddenOrAccessor)
      else
        match Check(heap, d.value, seen)
        case Refused(why) => Refused(why)
        case Accepted => CheckSlots(heap, r, i + 1, seen)
  }

  // ----- the guard as the program runs it -----

  /** The mutable set of the objects on the current path. */
  class PathSet {
    var items: set<Ref>

    constructor ()
      ensures items == {}
    {
      items := {};
    }

    method Add(r: Ref)
      modifies this
      ensures items == old(items) + {r}
    {
      items := items + {r};
    }

    method Delete(r: Ref)
      modifies this
      ensures items == old(items) - {r}
    {
      items := items - {r};
    }
  }

  /** Answers what `Check` says and leaves the path as it found it unless it refuses. */
  method AssertJsonSafe(heap: Heap, v: JsValue, seen: PathSet) returns (verdict: Verdict)
    requires ValidHeap(heap) && Points(heap, v)
    modifies seen
    ensures verdict == Check(heap, v, old(seen.items))
    ensures verdict.Accepted? ==> seen.items == old(seen.items)
    decreases heap.Keys - seen.items, 0
  {
    match v {
      case NonFiniteNumber => return Refused(NonFinite);
      case UnsupportedValue => return Refused(UnsupportedType);
      case ObjectValue(r) =>
        if r in seen.items { return Refused(Cyclic); }
        seen.Add(r);
        ghost var path := seen.items;
        if heap[r].ArrayObject? {
          verdict := AssertDenseJsonArray(heap, r, seen);
          if verdict.Refused? { return; }
          seen.Delete(r);
          return;
        }
        if !heap[r].plainPrototype { return Refused(NonPlainObject); }
        if heap[r].symbolKeys { return Refused(SymbolKeyed); }
        var i := 0;
        while i < |heap[r].properties|
          invariant i <= |heap[r].properties| && seen.items == path
          invariant CheckProperties(heap, r, i, path) == CheckProperties(heap, r, 0, path)
        {
          var d := heap[r].properties[i].descriptor;
          if Hidden(d) { return Refused(HiddenOrAccessor); }
          assert d.value in Held(heap[r]);
          verdict := AssertJsonSafe(heap, d.value, seen);
          if verdict.Refused? { return; }
          i := i + 1;
        }
        seen.Delete(r);
        return Accepted;
      case _ => return Accepted;
    }
  }

  method AssertDenseJsonArray(heap: Heap, r: Ref, seen: PathSet) returns (verdict: Verdict)
    requires ValidHeap(heap) && r in heap && heap[r].ArrayObject? && r in seen.items
    modifies seen
    ensures verdict == CheckObject(heap, r, old(seen.items) - {r})
    ensures verdict.Accepted? ==> seen.items == old(seen.items)
    decreases heap.Keys - seen.items, 1
  {
    var o := heap[r];
    ghost var path := seen.items;
    assert path - {r} + {r} == path;
    if !o.standardPrototype { return Refused(NonStandardArray); }
    if o.symbolKeys { return Refused(SymbolKeyed); }
    var n := 0;
    while n < |o.names|
      invariant n <= |o.names| && forall i :: 0 <= i < n ==> !StrayName(o.names[i], o.length)
    {
      if StrayName(o.names[n], o.length) { return Refused(NamedArrayProperty); }
      n := n + 1;
    }
    var index := 0;
    while index < o.length
      invariant index <= o.length && seen.items == path
      invariant CheckSlots(heap, r, index, path) == CheckSlots(heap, r, 0, path)
    {
      if index !in o.slots { return Refused(SparseHole); }
      var d := o.slots[index];
      if Hidden(d) { return Refused(HiddenOrAccessor); }
      assert d.value in Held(heap[r]);
      verdict := AssertJsonSafe(heap, d.value, seen);
      if verdict.Refused? { return; }
      index := index + 1;
    }
    return Accepted;
  }
}

/** What the guard accepts, said without running it. */
module JsonGuardExactness {
  import opened JsText
  import opened JsonValue
  import opened JsonReader
  import opened CanonicalJson
  import opened JsonGuard

  predicate LeafFine(v: JsValue) {
    !v.NonFiniteNumber? && !v.UnsupportedValue?
  }

  /** One object on its own: ordinary prototype, plain visible data properties, dense, representable leaves. */
  predicate ObjectFine(o: JsObject) {
    && (forall v :: v in Held(o) ==> LeafFine(v))
    && !o.symbolKeys
    && match o
       case RecordObject(plain, _, ps) =>
         plain && forall i :: 0 <= i < |ps| ==> ps[i].descriptor.enumerable && !ps[i].descriptor.accessor
       case ArrayObject(standard, _, length, names, slots) =>
         && standard
         && (forall i :: 0 <= i < |names| ==> names[i].LengthName? || (names[i].IndexName? && names[i].index < length))
         && forall i :: 0 <= i < length ==> i in slots && slots[i].enumerable && !slots[i].accessor
  }

  /** A walk from a value: the objects met by following held values. */
  ghost predicate Walk(heap: Heap, v: JsValue, w: seq<Ref>)
    decreases |w|, 0
  {
    w == [] || (v == ObjectValue(w[0]) && w[0] in heap && (|w| == 1 || WalkOn(heap, w[0], w[1..])))
  }

  ghost predicate WalkOn(heap: Heap, r: Ref, w: seq<Ref>)
    requires r in heap
    decreases |w|, 1
  {
    exists c :: c in Held(heap[r]) && Walk(heap, c, w)
  }

  predicate NoRepeats(w: seq<Ref>) {
    forall i, j :: 0 <= i < j < |w| ==> w[i] != w[j]
  }

  predicate Avoids(w: seq<Ref>, seen: set<Ref>) {
    forall i :: 0 <= i < |w| ==> w[i] !in seen
  }

  /** The object a walk ends in is fine. */
  predicate EndsFine(heap: Heap, w: seq<Ref>)
    requires w != []
  {
    w[|w| - 1] in heap && ObjectFine(heap[w[|w| - 1]])
  }

  /** A walk that never meets an object twice, stays off the path, and ends in a fine object. */
  predicate GoodWalk(heap: Heap, w: seq<Ref>, seen: set<Ref>) {
    w != [] ==> NoRepeats(w) && Avoids(w, seen) && EndsFine(heap, w)
  }

  lemma {:induction false} PropertiesAccepted(heap: Heap, r: Ref, i: nat, seen: set<Ref>)
    requires ValidHeap(heap) && r in heap && heap[r].RecordObject? && i <= |heap[r].properties|
    ensures CheckProperties(heap, r, i, seen).Accepted? <==>
            forall k :: i <= k < |heap[r].properties| ==>
                          var d := heap[r].properties[k].descriptor;
                          !Hidden(d) && Points(heap, d.value) && Check(heap, d.value, seen).Accepted?
    decreases |heap[r].properties| - i
  {
    if i < |heap[r].properties| {
      assert heap[r].properties[i].descriptor.value in Held(heap[r]);
      PropertiesAccepted(heap, r, i + 1, seen);
    }
  }

  lemma {:induction false} SlotsAccepted(heap: Heap, r: Ref, i: nat, seen: set<Ref>)
    requires ValidHeap(heap) && r in heap && heap[r].ArrayObject? && i <= heap[r].length
    ensures CheckSlots(heap, r, i, seen).Accepted? <==>
            forall k :: i <= k < heap[r].length ==>
                          && k in heap[r].slots && !Hidden(heap[r].slots[k])
                          && Points(heap, heap[r].slots[k].value) && Check(heap, heap[r].slots[k].value, seen).Accepted?
    decreases heap[r].length - i
  {
    if i < heap[r].length && i in heap[r].slots {
      assert heap[r].slots[i].value in Held(heap[r]);
      SlotsAccepted(heap, r, i + 1, seen);
    }
  }

  /** An object is accepted when it is fine in itself and everything it holds is accepted below it. */
  lemma ObjectAccepted(heap: Heap, r: Ref, seen: set<Ref>)
    requires ValidHeap(heap) && r in heap && r !in seen
    ensures CheckObject(heap, r, seen).Accepted? <==>
            ObjectFine(heap[r]) && forall c :: c in Held(heap[r]) ==> Check(heap, c, seen + {r}).Accepted?
  {
    var o := heap[r];
    forall c | c in Held(o) && Check(heap, c, seen + {r}).Accepted?
      ensures LeafFine(c)
    {
    }
    if o.RecordObject? {
      PropertiesAccepted(heap, r, 0, seen + {r});
      assert forall k :: 0 <= k < |o.properties| ==> o.properties[k].descriptor.value in Held(o);
    } else {
      SlotsAccepted(heap, r, 0, seen + {r});
      assert forall k :: 0 <= k < o.length && k in o.slots ==> o.slots[k].value in Held(o);
    }
  }

  lemma {:induction false} AcceptedWalksAreGood(heap: Heap, v: JsValue, seen: set<Ref>, w: seq<Ref>)
    requires ValidHeap(heap) && Points(heap, v) && Check(heap, v, seen).Accepted? && Walk(heap, v, w)
    ensures GoodWalk(heap, w, seen)
    decreases |w|
  {
    if w != [] {
      var r := w[0];
      ObjectAccepted(heap, r, seen);
      if |w| > 1 {
        var c :| c in Held(heap[r]) && Walk(heap, c, w[1..]);
        AcceptedWalksAreGood(heap, c, seen + {r}, w[1..]);
        assert forall i :: 1 <= i < |w| ==> w[i] == w[1..][i - 1];
      }
    }
  }

  lemma {:induction false} GoodWalksAreAccepted(heap: Heap, v: JsValue, seen: set<Ref>)
    requires ValidHeap(heap) && Points(heap, v) && LeafFine(v)
    requires forall w :: Walk(heap, v, w) ==> GoodWalk(heap, w, seen)
    ensures Check(heap, v, seen).Accepted?
    decreases heap.Keys - seen
  {
    if v.ObjectValue? {
      var r := v.ref;
      assert Walk(heap, v, [r]);
      assert [r][0] !in seen;
      forall c | c in Held(heap[r])
        ensures Check(heap, c, seen + {r}).Accepted?
      {
        forall w | Walk(heap, c, w)
          ensures GoodWalk(heap, w, seen + {r})
        {
          ExtendWalk(heap, v, c, w, seen);
        }
        GoodWalksAreAccepted(heap, c, seen + {r});
      }
      ObjectAccepted(heap, r, seen);
    }
  }

  lemma ExtendWalk(heap: Heap, v: JsValue, c: JsValue, w: seq<Ref>, seen: set<Ref>)
    requires ValidHeap(heap) && Points(heap, v) && v.ObjectValue? && c in Held(heap[v.ref]) && Walk(heap, c, w)
    requires forall u :: Walk(heap, v, u) ==> GoodWalk(heap, u, seen)
    ensures GoodWalk(heap, w, seen + {v.ref})
  {
    hide ValidHeap;
    if w != [] {
      var u := [v.ref] + w;
      assert u[1..] == w;
      assert Walk(heap, v, u);
      assert GoodWalk(heap, u, seen);
      forall i | 0 <= i < |w|
        ensures w[i] !in seen + {v.ref}
      {
        assert w[i] == u[i + 1] && u[0] == v.ref;
      }
    }
  }

  /**
   The guard accepts a value exactly when it is not an unrepresentable leaf, no
   walk from it meets an object twice, and every object some walk ends in is
   fine. Objects shared between branches are met by several walks and are no
   obstacle.
   */
  lemma GuardIsExact(heap: Heap, v: JsValue)
    requires ValidHeap(heap) && Points(heap, v)
    ensures Check(heap, v, {}).Accepted? <==>
            LeafFine(v) && forall w :: Walk(heap, v, w) && w != [] ==> NoRepeats(w) && EndsFine(heap, w)
  {
    if Check(heap, v, {}).Accepted? {
      forall w | Walk(heap, v, w)
        ensures GoodWalk(heap, w, {})
      {
        AcceptedWalksAreGood(heap, v, {}, w);
      }
    } else if LeafFine(v) && forall w :: Walk(heap, v, w) && w != [] ==> NoRepeats(w) && EndsFine(heap, w) {
      GoodWalksAreAccepted(heap, v, {});
    }
  }

  // ----- the value an accepted graph stands for -----

  lemma PropertyBelow(heap: Heap, r: Ref, seen: set<Ref>, i: nat)
    requires ValidHeap(heap) && r in heap && heap[r].RecordObject? && i < |heap[r].properties|
    requires Check(heap, ObjectValue(r), seen).Accepted?
    ensures r !in seen && Points(heap, heap[r].properties[i].descriptor.value)
    ensures Check(heap, heap[r].properties[i].descriptor.value, seen + {r}).Accepted?
  {
    PropertiesAccepted(heap, r, 0, seen + {r});
  }

  lemma SlotBelow(heap: Heap, r: Ref, seen: set<Ref>, i: nat)
    requires ValidHeap(heap) && r in heap && heap[r].ArrayObject? && i < heap[r].length
    requires Check(heap, ObjectValue(r), seen).Accepted?
    ensures r !in seen && i in heap[r].slots && Points(heap, heap[r].slots[i].value)
    ensures Check(heap, heap[r].slots[i].value, seen + {r}).Accepted?
  {
    SlotsAccepted(heap, r, 0, seen + {r});
  }

  /** The tree JSON.stringify sees: sharing is lost, and that is all that is lost. */
  function Unfold(heap: Heap, v: JsValue, seen: set<Ref>): Json
    requires ValidHeap(heap) && Points(heap, v) && Check(heap, v, seen).Accepted?
    decreases heap.Keys - seen
  {
    match v
    case NullValue => Null
    case StringValue(s) => Str(s)
    case BooleanValue(b) => Bool(b)
    case NumberValue(n) => Num(n)
    case ObjectValue(r) =>
      var o := heap[r];
      if o.RecordObject? then
        Obj(seq(|o.properties|, i requires 0 <= i < |o.properties| =>
          (PropertyBelow(heap, r, seen, i);
           Member(o.properties[i].key, Unfold(heap, o.properties[i].descriptor.value, seen + {r})))))
      else
        Arr(seq(o.length, i requires 0 <= i < o.length =>
          (SlotBelow(heap, r, seen, i);
           Unfold(heap, o.slots[i].value, seen + {r}))))
  }

  lemma {:induction false} UnfoldWellFormed(heap: Heap, v: JsValue, seen: set<Ref>)
    requires ValidHeap(heap) && Points(heap, v) && Check(heap, v, seen).Accepted?
    ensures WellFormed(Unfold(heap, v, seen))
    decreases heap.Keys - seen
  {
    if v.ObjectValue? {
      var o := heap[v.ref];
      if o.RecordObject? {
        PropertiesAccepted(heap, v.ref, 0, seen + {v.ref});
        forall i | 0 <= i < |o.properties|
          ensures WellFormed(Unfold(heap, v, seen).members[i].value)
        {
          UnfoldWellFormed(heap, o.properties[i].descriptor.value, seen + {v.ref});
        }
      } else {
        SlotsAccepted(heap, v.ref, 0, seen + {v.ref});
        forall i | 0 <= i < o.length
          ensures WellFormed(Unfold(heap, v, seen).items[i])
        {
          UnfoldWellFormed(heap, o.slots[i].value, seen + {v.ref});
        }
      }
    }
  }

  // ----- what a value of the graph stands for, read off the heap -----

  predicate HasProperty(ps: seq<Property>, key: Text) {
    exists i :: 0 <= i < |ps| && ps[i].key == key
  }

  /**
   The JSON value says what the heap holds: the same leaf, or an array of the same
   length with the same elements in order, or an object with the same keys, in any
   order, over the same values.
   */
  ghost predicate Denotes(heap: Heap, v: JsValue, j: Json)
    decreases j
  {
    match j
    case Null => v == NullValue
    case Bool(b) => v == BooleanValue(b)
    case Num(n) => v == NumberValue(n)
    case Str(s) => v == StringValue(s)
    case Arr(items) =>
      && v.ObjectValue? && v.ref in heap && heap[v.ref].ArrayObject? && heap[v.ref].length == |items|
      && forall i :: 0 <= i < |items| ==> i in heap[v.ref].slots && Denotes(heap, heap[v.ref].slots[i].value, items[i])
    case Obj(ms) =>
      && v.ObjectValue? && v.ref in heap && heap[v.ref].RecordObject?
      && (forall i :: 0 <= i < |ms| ==> HasProperty(heap[v.ref].properties, ms[i].key))
      && (forall k :: 0 <= k < |heap[v.ref].properties| ==> HasKey(ms, heap[v.ref].properties[k].key))
      && forall i, k :: 0 <= i < |ms| && 0 <= k < |heap[v.ref].properties| && ms[i].key == heap[v.ref].properties[k].key ==>
           Denotes(heap, heap[v.ref].properties[k].descriptor.value, ms[i].value)
  }

  lemma {:induction false} UnfoldDenotes(heap: Heap, v: JsValue, seen: set<Ref>)
    requires ValidHeap(heap) && Points(heap, v) && Check(heap, v, seen).Accepted?
    ensures Denotes(heap, v, Unfold(heap, v, seen))
    decreases heap.Keys - seen
  {
    if v.ObjectValue? {
      var o := heap[v.ref];
      if o.RecordObject? {
        RecordDenotes(heap, v, seen);
      } else {
        SlotsAccepted(heap, v.ref, 0, seen + {v.ref});
        forall i | 0 <= i < o.length
          ensures i in o.slots && Denotes(heap, o.slots[i].value, Unfold(heap, v, seen).items[i])
        {
          UnfoldDenotes(heap, o.slots[i].value, seen + {v.ref});
        }
      }
    }
  }

  lemma {:induction false} RecordDenotes(heap: Heap, v: JsValue, seen: set<Ref>)
    requires ValidHeap(heap) && Points(heap, v) && Check(heap, v, seen).Accepted?
    requires v.ObjectValue? && heap[v.ref].RecordObject?
    ensures Denotes(heap, v, Unfold(heap, v, seen))
    decreases heap.Keys - seen, 0
  {
    var ps := heap[v.ref].properties;
    var ms := Unfold(heap, v, seen).members;
    PropertiesAccepted(heap, v.ref, 0, seen + {v.ref});
    forall i | 0 <= i < |ps|
      ensures ms[i].key == ps[i].key && Denotes(heap, ps[i].descriptor.value, ms[i].value)
      ensures HasProperty(ps, ms[i].key) && HasKey(ms, ps[i].key)
    {
      UnfoldDenotes(heap, ps[i].descriptor.value, seen + {v.ref});
    }
    assert DistinctProperties(ps);
  }

  /** What a value stands for does not depend on key order, and is determined up to it. */
  lemma {:induction false} DenotesUpToKeyOrder(heap: Heap, v: JsValue, j: Json, k: Json)
    requires ValidHeap(heap) && WellFormed(j) && WellFormed(k) && Denotes(heap, v, j)
    ensures Denotes(heap, v, k) <==> SameUpToKeyOrder(j, k)
    decreases j
  {
    if j.Arr? && k.Arr? && |j.items| == |k.items| {
      forall i | 0 <= i < |j.items|
        ensures Denotes(heap, heap[v.ref].slots[i].value, k.items[i]) <==> SameUpToKeyOrder(j.items[i], k.items[i])
      {
        DenotesUpToKeyOrder(heap, heap[v.ref].slots[i].value, j.items[i], k.items[i]);
      }
    } else if j.Obj? && k.Obj? {
      MembersUpToKeyOrder(heap, v, j.members, k.members);
    }
  }

  lemma {:induction false} MembersUpToKeyOrder(heap: Heap, v: JsValue, a: seq<Member>, b: seq<Member>)
    requires ValidHeap(heap) && WellFormed(Obj(a)) && WellFormed(Obj(b)) && Denotes(heap, v, Obj(a))
    ensures Denotes(heap, v, Obj(b)) <==> SameUpToKeyOrder(Obj(a), Obj(b))
    decreases a
  {
    var ps := heap[v.ref].properties;
    forall i, n, k | 0 <= i < |a| && 0 <= n < |b| && 0 <= k < |ps| && a[i].key == b[n].key == ps[k].key
      ensures Denotes(heap, ps[k].descriptor.value, b[n].value) <==> SameUpToKeyOrder(a[i].value, b[n].value)
    {
      DenotesUpToKeyOrder(heap, ps[k].descriptor.value, a[i].value, b[n].value);
    }
    if Denotes(heap, v, Obj(b)) {
      DenotedSame(heap, v, a, b);
    }
    if SameUpToKeyOrder(Obj(a), Obj(b)) {
      SameDenoted(heap, v, a, b);
    }
  }

  lemma DenotedSame(heap: Heap, v: JsValue, a: seq<Member>, b: seq<Member>)
    requires Denotes(heap, v, Obj(a)) && Denotes(heap, v, Obj(b))
    requires var ps := heap[v.ref].properties;
             forall i, n, k :: 0 <= i < |a| && 0 <= n < |b| && 0 <= k < |ps| && a[i].key == b[n].key == ps[k].key ==>
               (Denotes(heap, ps[k].descriptor.value, b[n].value) <==> SameUpToKeyOrder(a[i].value, b[n].value))
    ensures SameUpToKeyOrder(Obj(a), Obj(b))
  {
    var ps := heap[v.ref].properties;
    forall i | 0 <= i < |a|
      ensures HasKey(b, a[i].key)
    {
      assert HasProperty(ps, a[i].key);
      var k :| 0 <= k < |ps| && ps[k].key == a[i].key;
    }
    forall n | 0 <= n < |b|
      ensures HasKey(a, b[n].key)
    {
      assert HasProperty(ps, b[n].key);
      var k :| 0 <= k < |ps| && ps[k].key == b[n].key;
    }
    forall i, n | 0 <= i < |a| && 0 <= n < |b| && a[i].key == b[n].key
      ensures SameUpToKeyOrder(a[i].value, b[n].value)
    {
      assert HasProperty(ps, a[i].key);
      var k :| 0 <= k < |ps| && ps[k].key == a[i].key;
    }
  }

  lemma SameDenoted(heap: Heap, v: JsValue, a: seq<Member>, b: seq<Member>)
    requires Denotes(heap, v, Obj(a)) && SameUpToKeyOrder(Obj(a), Obj(b))
    requires var ps := heap[v.ref].properties;
             forall i, n, k :: 0 <= i < |a| && 0 <= n < |b| && 0 <= k < |ps| && a[i].key == b[n].key == ps[k].key ==>
               (Denotes(heap, ps[k].descriptor.value, b[n].value) <==> SameUpToKeyOrder(a[i].value, b[n].value))
    ensures Denotes(heap, v, Obj(b))
  {
    var ps := heap[v.ref].properties;
    forall n | 0 <= n < |b|
      ensures HasProperty(ps, b[n].key)
    {
      var i :| 0 <= i < |a| && a[i].key == b[n].key;
    }
    forall k | 0 <= k < |ps|
      ensures HasKey(b, ps[k].key)
    {
      var i :| 0 <= i < |a| && a[i].key == ps[k].key;
      assert HasKey(b, a[i].key);
    }
    forall n, k | 0 <= n < |b| && 0 <= k < |ps| && b[n].key == ps[k].key
      ensures Denotes(heap, ps[k].descriptor.value, b[n].value)
    {
      var i :| 0 <= i < |a| && a[i].key == b[n].key;
    }
  }

  // ----- the canonical text of a graph -----

  /** Sort and print. */
  function GraphText(heap: Heap, v: JsValue): Text
    requires ValidHeap(heap) && Points(heap, v) && Check(heap, v, {}).Accepted?
  {
    Canonical(Unfold(heap, v, {}))
  }

  /** What is read back from the text of a graph is what the graph holds. */
  lemma TextSaysWhatTheGraphHolds(heap: Heap, v: JsValue)
    requires ValidHeap(heap) && Points(heap, v) && Check(heap, v, {}).Accepted?
    ensures JsonParse(GraphText(heap, v)).Read? && WellFormed(JsonParse(GraphText(heap, v)).value)
    ensures Denotes(heap, v, JsonParse(GraphText(heap, v)).value)
  {
    hide Unfold, Denotes, JsonParse, SortKeysDeep, Canonical, ValidHeap;
    var j := Unfold(heap, v, {});
    UnfoldWellFormed(heap, v, {});
    UnfoldDenotes(heap, v, {});
    ParseCanonical(j);
    SortWellFormed(j);
    SortIdempotent(j);
    SortEqualIffSame(j, SortKeysDeep(j));
    DenotesUpToKeyOrder(heap, v, j, SortKeysDeep(j));
  }

  /** Guard first, then sort and print: the text reads back as what the graph holds. */
  method CanonicalDeviceJson(heap: Heap, v: JsValue) returns (verdict: Verdict, text: Text)
    requires ValidHeap(heap) && Points(heap, v)
    ensures verdict == Check(heap, v, {})
    ensures verdict.Accepted? ==> text == GraphText(heap, v)
    ensures verdict.Accepted? ==> JsonParse(text).Read? && Denotes(heap, v, JsonParse(text).value)
  {
    var seen := new PathSet();
    verdict := AssertJsonSafe(heap, v, seen);
    if verdict.Accepted? {
      TextSaysWhatTheGraphHolds(heap, v);
      text := GraphText(heap, v);
    } else {
      text := [];
    }
  }

  /** Two accepted graphs have one canonical text exactly when some value is what both hold. */
  lemma GraphsShareTextIffSameValue(heap: Heap, v: JsValue, heap': Heap, v': JsValue)
    requires ValidHeap(heap) && Points(heap, v) && Check(heap, v, {}).Accepted?
    requires ValidHeap(heap') && Points(heap', v') && Check(heap', v', {}).Accepted?
    ensures GraphText(heap, v) == GraphText(heap', v') <==>
            exists j: Json :: WellFormed(j) && Denotes(heap, v, j) && Denotes(heap', v', j)
  {
    hide Unfold, Denotes, JsonParse, Canonical, ValidHeap, WellFormed;
    TextSaysWhatTheGraphHolds(heap, v);
    TextSaysWhatTheGraphHolds(heap', v');
    if exists j: Json :: WellFormed(j) && Denotes(heap, v, j) && Denotes(heap', v', j) {
      var j: Json :| WellFormed(j) && Denotes(heap, v, j) && Denotes(heap', v', j);
      HeldValueDecidesText(heap, v, j);
      HeldValueDecidesText(heap', v', j);
    }
  }

  /** The text of a graph is the canonical text of any value it stands for. */
  lemma HeldValueDecidesText(heap: Heap, v: JsValue, j: Json)
    requires ValidHeap(heap) && Points(heap, v) && Check(heap, v, {}).Accepted?
    requires WellFormed(j) && Denotes(heap, v, j)
    ensures GraphText(heap, v) == Canonical(j)
  {
    hide Unfold, Denotes, Canonical, ValidHeap, WellFormed;
    UnfoldWellFormed(heap, v, {});
    UnfoldDenotes(heap, v, {});
    DenotesUpToKeyOrder(heap, v, j, Unfold(heap, v, {}));
    CanonicalInjective(j, Unfold(heap, v, {}));
  }
}
