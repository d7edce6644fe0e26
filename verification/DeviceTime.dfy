/** A value that may be absent, for the source's `null`. */
module Options {
  datatype Option<+T> = None | Some(value: T)
}

/**
 Server instants. `Date.parse` is a parameter of everything that reads a clock:
 every result below holds for every reading of timestamp texts, including texts
 no reading accepts.
 */
module DeviceTime {
  import opened JsText
  import opened Options

  /** `Date.parse`: milliseconds, or none for a text it cannot read. */
  type DateParse = Text -> Option<int>

  /** All the instants in the same order, or none as soon as one of them is unreadable. */
  function Instants(dates: DateParse, texts: seq<Text>): (r: Option<seq<int>>)
    ensures r.Some? <==> forall i :: 0 <= i < |texts| ==> dates(texts[i]).Some?
    ensures r.Some? ==> |r.value| == |texts|
    ensures r.Some? ==> forall i :: 0 <= i < |texts| ==> dates(texts[i]) == Some(r.value[i])
  {
    if texts == [] then Some([])
    else
      match dates(texts[0])
      case None => None
      case Some(first) =>
        var rest := Instants(dates, texts[1..]);
        if rest.None? then None else Some([first] + rest.value)
  }

  /** The record-filling loop: the first unreadable instant abandons the whole set. */
  method ParseAuthoritativeInstants<K(==)>(dates: DateParse, keys: seq<K>, texts: seq<Text>)
    returns (r: Option<map<K, int>>)
    requires |keys| == |texts|
    requires forall i, j :: 0 <= i < j < |keys| ==> keys[i] != keys[j]
    ensures r.Some? <==> Instants(dates, texts).Some?
    ensures r.Some? ==> r.value.Keys == set key | key in keys
    ensures r.Some? ==> forall i :: 0 <= i < |keys| ==> keys[i] in r.value && dates(texts[i]) == Some(r.value[keys[i]])
  {
    var parsed: map<K, int> := map[];
    var i := 0;
    while i < |keys|
      invariant 0 <= i <= |keys|
      invariant parsed.Keys == set key | key in keys[..i]
      invariant forall k :: 0 <= k < i ==> keys[k] in parsed && dates(texts[k]) == Some(parsed[keys[k]])
    {
      var ms := dates(texts[i]);
      if ms.None? {
        return None;
      }
      parsed := parsed[keys[i] := ms.value];
      i := i + 1;
      assert keys[..i] == keys[..i - 1] + [keys[i - 1]];
    }
    assert keys[..i] == keys;
    return Some(parsed);
  }

  /** Expiry is exclusive: the instant named is the first one that is too late. */
  predicate IsExpiredAt(now: int, expires: int) {
    now >= expires
  }

  /** What the window refinement leaves without an issue. */
  predicate ValidWindow(dates: DateParse, issued: Text, expires: Text, maxLifetime: int) {
    var instants := Instants(dates, [issued, expires]);
    && instants.Some?
    && instants.value[1] > instants.value[0]
    && instants.value[1] - instants.value[0] <= maxLifetime
  }
}
