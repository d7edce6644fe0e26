/**
 JSON values, with object members kept in the order they were written, and the
 relation "equal up to the order of object keys".
 */
module JsonValue {
  import opened JsText

  /** The integers a JavaScript number holds exactly. */
  type SafeInt = n: int | -0x1f_ffff_ffff_ffff <= n <= 0x1f_ffff_ffff_ffff

  datatype Member = Member(key: Text, value: Json)

  datatype Json =
    | Null
    | Bool(b: bool)
    | Num(n: SafeInt)
    | Str(s: Text)
    | Arr(items: seq<Json>)
    | Obj(members: seq<Member>)

  predicate DistinctKeys(ms: seq<Member>) {
    forall i, j :: 0 <= i < j < |ms| ==> ms[i].key != ms[j].key
  }

  /** No object anywhere inside has two members with one key. */
  predicate WellFormed(v: Json) {
    match v
    case Arr(items) => forall i :: 0 <= i < |items| ==> WellFormed(items[i])
    case Obj(ms) => DistinctKeys(ms) && forall i :: 0 <= i < |ms| ==> WellFormed(ms[i].value)
    case _ => true
  }

  predicate HasKey(ms: seq<Member>, key: Text) {
    exists i :: 0 <= i < |ms| && ms[i].key == key
  }

  /** Same leaves, same arrays in the same order, same object entries in any order. */
  ghost predicate SameUpToKeyOrder(v: Json, w: Json)
    decreases v
  {
    match v
    case Arr(a) =>
      w.Arr? && |a| == |w.items| && forall i :: 0 <= i < |a| ==> SameUpToKeyOrder(a[i], w.items[i])
    case Obj(a) =>
      && w.Obj?
      && (forall i :: 0 <= i < |a| ==> HasKey(w.members, a[i].key))
      && (forall j :: 0 <= j < |w.members| ==> HasKey(a, w.members[j].key))
      && forall i, j :: 0 <= i < |a| && 0 <= j < |w.members| && a[i].key == w.members[j].key ==>
                          SameUpToKeyOrder(a[i].value, w.members[j].value)
    case _ => v == w
  }
}
