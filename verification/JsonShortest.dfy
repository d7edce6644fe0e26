/**
 What the printer writes, said without the printer: no text the reader takes for
 a value is shorter, every escape is the one the language prescribes, and keys
 stand in order. A space, a longer escape or a repeated key would each show.
 */
module JsonShortest {
  import opened JsText
  import opened KeyOrder
  import opened JsonValue
  import opened JsonPrinter
  import opened JsonReader
  import opened JsonRoundTrip
  import opened CanonicalJson

  predicate IsSurrogate(c: CodeUnit) {
    0xd800 <= c <= 0xdfff
  }

  /** No half of a surrogate pair stands alone. */
  predicate Paired(s: Text) {
    s == []
    || (!IsSurrogate(s[0]) && Paired(s[1..]))
    || (0xd800 <= s[0] <= 0xdbff && |s| > 1 && 0xdc00 <= s[1] <= 0xdfff && Paired(s[2..]))
  }

  /** Every string and every key of the value is paired. */
  predicate PairedDeep(v: Json) {
    match v
    case Str(s) => Paired(s)
    case Arr(items) => forall i :: 0 <= i < |items| ==> PairedDeep(items[i])
    case Obj(ms) => forall i :: 0 <= i < |ms| ==> Paired(ms[i].key) && PairedDeep(ms[i].value)
    case _ => true
  }

  // ----- the fewest code units a value takes -----

  /** A quotation mark, a backslash and five controls take two, any other control six, everything else one. */
  function UnitCost(c: CodeUnit): nat {
    if c in {0x08, 0x09, 0x0a, 0x0c, 0x0d, 0x22, 0x5c} then 2 else if c < 0x20 then 6 else 1
  }

  function StringCost(s: Text): nat {
    if s == [] then 0 else UnitCost(s[0]) + StringCost(s[1..])
  }

  function Cost(v: Json): nat
    decreases v, 1
  {
    match v
    case Null => 4
    case Bool(b) => if b then 4 else 5
    case Num(n) => |IntegerText(n)|
    case Str(s) => StringCost(s) + 2
    case Arr(items) => if items == [] then 2 else ItemsCost(items) + 1
    case Obj(ms) => if ms == [] then 2 else MembersCost(ms) + 1
  }

  /** Each element with the comma or bracket after it. */
  function ItemsCost(items: seq<Json>): nat
    decreases items, 0
  {
    if items == [] then 0 else Cost(items[0]) + 1 + ItemsCost(items[1..])
  }

  function MemberCost(m: Member): nat
    decreases m, 2
  {
    StringCost(m.key) + 3 + Cost(m.value)
  }

  function MembersCost(ms: seq<Member>): nat
    decreases ms, 3
  {
    if ms == [] then 0 else MemberCost(ms[0]) + 1 + MembersCost(ms[1..])
  }

  // ----- the printer takes no more -----

  lemma {:induction false} EscapeTakes(s: Text)
    requires Paired(s)
    ensures |Escape(s)| == StringCost(s)
  {
    if s != [] {
      if !IsSurrogate(s[0]) {
        EscapeTakes(s[1..]);
      } else {
        EscapeTakes(s[2..]);
        assert s[1..][1..] == s[2..];
      }
    }
  }

  lemma {:induction false} PrintTakes(v: Json)
    requires PairedDeep(v)
    ensures |Print(v)| == Cost(v)
    decreases v, 1
  {
    match v
    case Str(s) => EscapeTakes(s);
    case Arr(items) =>
      if items != [] {
        PrintTakes(items[0]);
        ItemsTake(items[1..]);
      }
    case Obj(ms) =>
      if ms != [] {
        MemberTakes(ms[0]);
        MembersTake(ms[1..]);
      }
    case _ =>
  }

  lemma {:induction false} ItemsTake(items: seq<Json>)
    requires forall i :: 0 <= i < |items| ==> PairedDeep(items[i])
    ensures |PrintItems(items)| == ItemsCost(items) + 1
    decreases items, 0
  {
    if items != [] {
      PrintTakes(items[0]);
      ItemsTake(items[1..]);
    }
  }

  lemma {:induction false} MemberTakes(m: Member)
    requires Paired(m.key) && PairedDeep(m.value)
    ensures |PrintMember(m)| == MemberCost(m)
    decreases m, 0
  {
    EscapeTakes(m.key);
    PrintTakes(m.value);
  }

  lemma {:induction false} MembersTake(ms: seq<Member>)
    requires forall i :: 0 <= i < |ms| ==> Paired(ms[i].key) && PairedDeep(ms[i].value)
    ensures |PrintMembers(ms)| == MembersCost(ms) + 1
    decreases ms, 0
  {
    if ms != [] {
      MemberTakes(ms[0]);
      MembersTake(ms[1..]);
    }
  }

  // ----- the reader demands no less -----

  lemma {:induction false} StringDemands(t: Text)
    ensures ReadString(t).Read? ==> StringCost(ReadString(t).value) + 1 <= |t| - |ReadString(t).rest|
  {
    if t != [] && t[0] != QUOTE && t[0] >= 0x20 {
      if t[0] != BACKSLASH {
        StringDemands(t[1..]);
        Prepended(t[0], ReadString(t[1..]));
      } else if |t| >= 6 && t[1] == LETTER_U && IsHexDigit(t[2]) && IsHexDigit(t[3]) && IsHexDigit(t[4]) && IsHexDigit(t[5]) {
        StringDemands(t[6..]);
        Prepended(HexValue(t[2]) * 4096 + HexValue(t[3]) * 256 + HexValue(t[4]) * 16 + HexValue(t[5]), ReadString(t[6..]));
      } else if |t| >= 2 && t[1] != LETTER_U && ShortEscape(t[1]) != [] {
        StringDemands(t[2..]);
        Prepended(ShortEscape(t[1])[0], ReadString(t[2..]));
      }
    }
  }

  lemma Prepended(c: CodeUnit, r: Reading<Text>)
    ensures r.Read? ==> Prepend(c, r).Read? && StringCost(Prepend(c, r).value) == UnitCost(c) + StringCost(r.value)
    ensures Prepend(c, r).Read? ==> r.Read? && Prepend(c, r).rest == r.rest
  {
    if r.Read? {
      assert ([c] + r.value)[1..] == r.value;
    }
  }

  /** A numeral has the length of the printed number. */
  lemma NumeralLength(t: Text)
    requires IsNumeral(t)
    ensures |t| == |Decimal(DigitsValue(t))|
  {
    var d := Decimal(DigitsValue(t));
    DecimalReads(DigitsValue(t));
    if |t| < |d| {
      LongerIsLarger(t, d);
    }
    if |d| < |t| {
      LongerIsLarger(d, t);
    }
  }

  lemma IntegerDemands(t: Text)
    ensures ReadInteger(t).Read? ==> |IntegerText(ReadInteger(t).value)| <= |t| - |ReadInteger(t).rest|
  {
    NaturalDemands(t);
    if t != [] {
      NaturalDemands(t[1..]);
    }
  }

  lemma NaturalDemands(t: Text)
    ensures ReadNatural(t).Read? ==> |Decimal(ReadNatural(t).value)| == |t| - |ReadNatural(t).rest|
  {
    if ReadNatural(t).Read? {
      NumeralLength(t[..DigitRun(t)]);
    }
  }

  lemma {:induction false} ItemsCostAppend(items: seq<Json>, v: Json)
    ensures ItemsCost(items + [v]) == ItemsCost(items) + Cost(v) + 1
  {
    if items == [] {
      assert items + [v] == [v];
    } else {
      ItemsCostAppend(items[1..], v);
      assert (items + [v])[1..] == items[1..] + [v];
    }
  }

  lemma {:induction false} PutCost(ms: seq<Member>, key: Text, value: Json)
    ensures MembersCost(Put(ms, key, value)) <= MembersCost(ms) + MemberCost(Member(key, value)) + 1
  {
    if ms != [] {
      if ms[0].key == key {
        assert ([Member(key, value)] + ms[1..])[1..] == ms[1..];
      } else {
        PutCost(ms[1..], key, value);
        assert ([ms[0]] + Put(ms[1..], key, value))[1..] == Put(ms[1..], key, value);
      }
    }
  }

  lemma {:induction false} ValueDemands(text: Text)
    ensures ReadValue(text).Read? ==> Cost(ReadValue(text).value) <= |text| - |ReadValue(text).rest|
    decreases |text|, 2
  {
    var t := SkipSpace(text);
    if t != [] {
      if t[0] == QUOTE {
        StringDemands(t[1..]);
      } else if t[0] == OPEN_BRACKET {
        ArrayDemands(t[1..]);
      } else if t[0] == OPEN_BRACE {
        ObjectDemands(t[1..]);
      } else {
        IntegerDemands(t);
      }
    }
  }

  lemma {:induction false} ArrayDemands(text: Text)
    ensures ReadArray(text).Read? ==> Cost(ReadArray(text).value) <= 1 + |text| - |ReadArray(text).rest|
    decreases |text|, 3
  {
    hide ReadValue, ReadItems;
    var t := SkipSpace(text);
    if !(t != [] && t[0] == CLOSE_BRACKET) && ReadValue(t).Read? {
      var v, rest := ReadValue(t).value, ReadValue(t).rest;
      ValueDemands(t);
      ItemsDemand(rest, [v]);
      assert ItemsCost([v]) == Cost(v) + 1;
    }
  }

  lemma {:induction false} ItemsDemand(text: Text, before: seq<Json>)
    ensures var r := ReadItems(text, before);
            r.Read? ==> ItemsCost(r.value) <= ItemsCost(before) + (|text| - |r.rest|) - 1 && |before| <= |r.value|
    decreases |text|, 0
  {
    hide ReadValue;
    var t := SkipSpace(text);
    if t != [] && t[0] == COMMA && ReadValue(t[1..]).Read? {
      var v, rest := ReadValue(t[1..]).value, ReadValue(t[1..]).rest;
      ValueDemands(t[1..]);
      ItemsCostAppend(before, v);
      ItemsDemand(rest, before + [v]);
    }
  }

  lemma {:induction false} ObjectDemands(text: Text)
    ensures ReadObject(text).Read? ==> Cost(ReadObject(text).value) <= 1 + |text| - |ReadObject(text).rest|
    decreases |text|, 3
  {
    hide ReadMember, ReadMembers;
    var t := SkipSpace(text);
    if !(t != [] && t[0] == CLOSE_BRACE) && ReadMember(t, []).Read? {
      MemberDemands(t, []);
      MembersDemand(ReadMember(t, []).rest, ReadMember(t, []).value);
    }
  }

  lemma {:induction false} MemberDemands(text: Text, before: seq<Member>)
    ensures var r := ReadMember(text, before);
            r.Read? ==> MembersCost(r.value) <= MembersCost(before) + (|text| - |r.rest|) + 1 && r.value != []
    decreases |text|, 0
  {
    hide ReadValue, ReadString;
    var t := SkipSpace(text);
    if t != [] && t[0] == QUOTE && ReadString(t[1..]).Read? {
      var key := ReadString(t[1..]).value;
      var u := SkipSpace(ReadString(t[1..]).rest);
      StringDemands(t[1..]);
      if u != [] && u[0] == COLON && ReadValue(u[1..]).Read? {
        ValueDemands(u[1..]);
        PutCost(before, key, ReadValue(u[1..]).value);
      }
    }
  }

  lemma {:induction false} MembersDemand(text: Text, before: seq<Member>)
    requires before != []
    ensures var r := ReadMembers(text, before);
            r.Read? ==> MembersCost(r.value) <= MembersCost(before) + (|text| - |r.rest|) - 1 && r.value != []
    decreases |text|, 0
  {
    hide ReadMember;
    var t := SkipSpace(text);
    if t != [] && t[0] == COMMA && ReadMember(t[1..], before).Read? {
      MemberDemands(t[1..], before);
      MembersDemand(ReadMember(t[1..], before).rest, ReadMember(t[1..], before).value);
    }
  }

  // ----- sorting costs nothing -----

  lemma {:induction false} InsertCost(m: Member, ms: seq<Member>)
    ensures MembersCost(InsertMember(m, ms)) == MemberCost(m) + 1 + MembersCost(ms)
  {
    if ms == [] || KeyBefore(m.key, ms[0].key) {
      assert ([m] + ms)[1..] == ms;
    } else {
      InsertCost(m, ms[1..]);
      assert ([ms[0]] + InsertMember(m, ms[1..]))[1..] == InsertMember(m, ms[1..]);
    }
  }

  lemma {:induction false} SortCost(ms: seq<Member>)
    ensures MembersCost(SortMembers(ms)) == MembersCost(ms) && |SortMembers(ms)| == |ms|
  {
    if ms != [] {
      SortCost(ms[1..]);
      InsertCost(ms[0], SortMembers(ms[1..]));
      SortElements(ms);
      assert |multiset(SortMembers(ms))| == |multiset(ms)|;
    }
  }

  lemma {:induction false} SortedCost(v: Json)
    ensures Cost(SortKeysDeep(v)) == Cost(v)
    decreases v, 1
  {
    match v
    case Arr(items) => SortedItemsCost(items, SortKeysDeep(v).items);
    case Obj(ms) =>
      SortedMembersCost(ms, SortValues(ms));
      SortCost(SortValues(ms));
    case _ =>
  }

  lemma {:induction false} SortedItemsCost(items: seq<Json>, sorted: seq<Json>)
    requires |items| == |sorted| && forall i :: 0 <= i < |items| ==> sorted[i] == SortKeysDeep(items[i])
    ensures ItemsCost(sorted) == ItemsCost(items)
    decreases items, 0
  {
    if items != [] {
      SortedCost(items[0]);
      SortedItemsCost(items[1..], sorted[1..]);
    }
  }

  lemma {:induction false} SortedMembersCost(ms: seq<Member>, sorted: seq<Member>)
    requires |ms| == |sorted| && forall i :: 0 <= i < |ms| ==> sorted[i] == Member(ms[i].key, SortKeysDeep(ms[i].value))
    ensures MembersCost(sorted) == MembersCost(ms)
    decreases ms, 0
  {
    if ms != [] {
      SortedCost(ms[0].value);
      SortedMembersCost(ms[1..], sorted[1..]);
    }
  }

  lemma {:induction false} SortedPaired(v: Json)
    requires PairedDeep(v)
    ensures PairedDeep(SortKeysDeep(v))
  {
    match v
    case Arr(items) =>
      forall i | 0 <= i < |items|
        ensures PairedDeep(SortKeysDeep(items[i]))
      {
        SortedPaired(items[i]);
      }
    case Obj(ms) =>
      var sorted := SortMembers(SortValues(ms));
      forall i | 0 <= i < |sorted|
        ensures Paired(sorted[i].key) && PairedDeep(sorted[i].value)
      {
        SortedMembership(SortValues(ms), sorted[i]);
        var j :| 0 <= j < |ms| && SortValues(ms)[j] == sorted[i];
        SortedPaired(ms[j].value);
      }
    case _ =>
  }

  // ----- the main results -----

  /** No text that reads as the value is shorter than the printed one. */
  lemma PrintedIsShortest(v: Json, text: Text)
    requires PairedDeep(v) && JsonParse(text) == Read(v, [])
    ensures |Print(v)| <= |text|
  {
    ValueDemands(text);
    PrintTakes(v);
  }

  /** No text that reads as the value up to key order is shorter than the canonical one. */
  lemma CanonicalIsShortest(v: Json, text: Text)
    requires WellFormed(v) && PairedDeep(v)
    requires JsonParse(text).Read? && SameUpToKeyOrder(JsonParse(text).value, v)
    ensures |Canonical(v)| <= |text|
  {
    hide JsonParse, Cost, Print, SortKeysDeep;
    ReadDemands(text);
    var w := JsonParse(text).value;
    SortEqualIffSame(w, v);
    SortedCost(w);
    SortedCost(v);
    SortedPaired(v);
    PrintTakes(SortKeysDeep(v));
  }

  lemma ReadDemands(text: Text)
    ensures JsonParse(text).Read? ==> WellFormed(JsonParse(text).value) && Cost(JsonParse(text).value) <= |text|
  {
    ValueDemands(text);
    ReadsWellFormed(text);
  }

  /** Keys stand in the order of `KeyBefore` at every depth of the value. */
  predicate AscendingDeep(v: Json) {
    match v
    case Arr(items) => forall i :: 0 <= i < |items| ==> AscendingDeep(items[i])
    case Obj(ms) => Ascending(ms) && forall i :: 0 <= i < |ms| ==> AscendingDeep(ms[i].value)
    case _ => true
  }

  lemma {:induction false} SortedAscends(v: Json)
    requires WellFormed(v)
    ensures AscendingDeep(SortKeysDeep(v))
  {
    match v
    case Arr(items) =>
      forall i | 0 <= i < |items|
        ensures AscendingDeep(SortKeysDeep(items[i]))
      {
        SortedAscends(items[i]);
      }
    case Obj(ms) =>
      var sorted := SortMembers(SortValues(ms));
      SortAscending(SortValues(ms));
      forall i | 0 <= i < |sorted|
        ensures AscendingDeep(sorted[i].value)
      {
        SortedMembership(SortValues(ms), sorted[i]);
        var j :| 0 <= j < |ms| && SortValues(ms)[j] == sorted[i];
        SortedAscends(ms[j].value);
      }
    case _ =>
  }

  /** What a canonical text reads as is the same value with its keys in order, at every depth. */
  lemma CanonicalKeysAscend(v: Json)
    requires WellFormed(v)
    ensures JsonParse(Canonical(v)).Read? && AscendingDeep(JsonParse(Canonical(v)).value)
    ensures SameUpToKeyOrder(JsonParse(Canonical(v)).value, v)
  {
    hide JsonParse, Canonical, SortKeysDeep;
    ParseCanonical(v);
    SortedAscends(v);
    SortWellFormed(v);
    SortIdempotent(v);
    SortEqualIffSame(SortKeysDeep(v), v);
  }

  function LowerHex(n: int): CodeUnit
    requires 0 <= n < 16
  {
    "0123456789abcdef"[n] as int
  }

  lemma HexIsLower(n: int)
    requires 0 <= n < 16
    ensures HexDigit(n) == LowerHex(n)
  {
  }

  lemma EscapeAlone(c: CodeUnit)
    ensures Escape([c]) == EscapeUnit(c)
  {
    hide EscapeUnit;
    assert [c][1..] == [];
    assert EscapeUnit(c) + [] == EscapeUnit(c);
  }

  /** The two-character escapes: b, t, n, f, r, the quotation mark and the backslash. */
  lemma ShortEscapesArePrescribed()
    ensures Escape([0x08]) == [0x5c, 0x62] && Escape([0x09]) == [0x5c, 0x74] && Escape([0x0a]) == [0x5c, 0x6e]
    ensures Escape([0x0c]) == [0x5c, 0x66] && Escape([0x0d]) == [0x5c, 0x72]
    ensures Escape([0x22]) == [0x5c, 0x22] && Escape([0x5c]) == [0x5c, 0x5c]
  {
    hide Escape;
    EscapeAlone(0x08);
    EscapeAlone(0x09);
    EscapeAlone(0x0a);
    EscapeAlone(0x0c);
    EscapeAlone(0x0d);
    EscapeAlone(0x22);
    EscapeAlone(0x5c);
  }

  /**
   The escapes whose shortest text is not the only one: every other control, and a
   lone surrogate, as four lower-case hexadecimal digits.
   */
  lemma HexEscapesArePrescribed(c: CodeUnit)
    requires IsSurrogate(c) || (c < 0x20 && c !in {0x08, 0x09, 0x0a, 0x0c, 0x0d})
    ensures Escape([c]) ==
            [0x5c, 0x75, LowerHex(c / 4096), LowerHex(c / 256 % 16), LowerHex(c / 16 % 16), LowerHex(c % 16)]
  {
    hide Escape, HexDigit, LowerHex;
    EscapeAlone(c);
    HexIsLower(c / 4096);
    HexIsLower(c / 256 % 16);
    HexIsLower(c / 16 % 16);
    HexIsLower(c % 16);
  }
}
