/**
 Reading what was printed: the reader stops exactly where the printer stopped
 and returns the value that was printed, whatever text follows it.
 */
module JsonRoundTrip {
  import opened JsText
  import opened KeyOrder
  import opened JsonValue
  import opened JsonPrinter
  import opened JsonReader

  // ----- strings -----

  lemma HexDigitReads(n: int)
    requires 0 <= n < 16
    ensures IsHexDigit(HexDigit(n)) && HexValue(HexDigit(n)) == n
  {
  }

  lemma UnicodeEscapeReads(c: CodeUnit, tail: Text)
    ensures ReadString(UnicodeEscape(c) + tail) == Prepend(c, ReadString(tail))
  {
    var t := UnicodeEscape(c) + tail;
    HexDigitReads(c / 4096);
    HexDigitReads(c / 256 % 16);
    HexDigitReads(c / 16 % 16);
    HexDigitReads(c % 16);
    assert t[6..] == tail;
    HexSum(c);
  }

  lemma HexSum(c: CodeUnit)
    ensures c / 4096 * 4096 + c / 256 % 16 * 256 + c / 16 % 16 * 16 + c % 16 == c
  {
    var a := c / 16;
    var b := a / 16;
    QuotientOf256(c, b, 16 * (a % 16) + c % 16);
    QuotientOf4096(c, b / 16, 256 * (b % 16) + 16 * (a % 16) + c % 16);
  }

  lemma QuotientOf256(n: int, q: int, r: int)
    requires n == 256 * q + r && 0 <= r < 256
    ensures n / 256 == q
  {
  }

  lemma QuotientOf4096(n: int, q: int, r: int)
    requires n == 4096 * q + r && 0 <= r < 4096
    ensures n / 4096 == q
  {
  }

  lemma ShortEscapeReads(e: CodeUnit, c: CodeUnit, tail: Text)
    requires e != LETTER_U && ShortEscape(e) == [c]
    ensures ReadString([BACKSLASH, e] + tail) == Prepend(c, ReadString(tail))
  {
    assert ([BACKSLASH, e] + tail)[2..] == tail;
  }

  lemma PlainReads(c: CodeUnit, tail: Text)
    requires c >= 0x20 && c != QUOTE && c != BACKSLASH
    ensures ReadString([c] + tail) == Prepend(c, ReadString(tail))
  {
    assert ([c] + tail)[1..] == tail;
  }

  lemma EscapeUnitReads(c: CodeUnit, tail: Text)
    ensures ReadString(EscapeUnit(c) + tail) == Prepend(c, ReadString(tail))
  {
    if EscapeUnit(c) == [c] {
      PlainReads(c, tail);
    } else if EscapeUnit(c) == UnicodeEscape(c) {
      UnicodeEscapeReads(c, tail);
    } else {
      ShortEscapeReads(EscapeUnit(c)[1], c, tail);
    }
  }

  lemma PairReads(high: CodeUnit, low: CodeUnit, tail: Text)
    requires IsHighSurrogate(high) && IsLowSurrogate(low)
    ensures ReadString([high, low] + tail) == Prepend(high, Prepend(low, ReadString(tail)))
  {
    PlainReads(low, tail);
    PlainReads(high, [low] + tail);
    assert [high, low] + tail == [high] + ([low] + tail);
  }

  lemma {:induction false} EscapeReads(s: Text, rest: Text)
    ensures ReadString(Escape(s) + ([QUOTE] + rest)) == Read(s, rest)
  {
    var tail := [QUOTE] + rest;
    if s == [] {
      assert Escape(s) + tail == tail;
    } else {
      var paired := IsHighSurrogate(s[0]) && |s| > 1 && IsLowSurrogate(s[1]);
      var k := if paired then 2 else 1;
      var first := if paired then s[..2] else EscapeUnit(s[0]);
      EscapeReads(s[k..], rest);
      Regrouped(first, Escape(s[k..]), tail);
      if paired {
        PairReads(s[0], s[1], Escape(s[2..]) + tail);
        assert s == [s[0]] + ([s[1]] + s[2..]);
      } else {
        EscapeUnitReads(s[0], Escape(s[1..]) + tail);
        assert s == [s[0]] + s[1..];
      }
    }
  }

  lemma Regrouped<T>(a: seq<T>, b: seq<T>, c: seq<T>)
    ensures (a + b) + c == a + (b + c)
  {
  }

  /** A text with a leading character and two parts, followed by more text. */
  lemma Shift(c: CodeUnit, a: Text, b: Text, rest: Text)
    ensures var t := ([c] + (a + b)) + rest; t[0] == c && t[1..] == a + (b + rest)
  {
  }

  /** A quoted string reads back from just after its opening quotation mark. */
  lemma QuoteReads(s: Text, rest: Text)
    ensures (Quote(s) + rest)[0] == QUOTE && ReadString((Quote(s) + rest)[1..]) == Read(s, rest)
  {
    hide ReadString, Escape;
    EscapeReads(s, rest);
    assert (Quote(s) + rest)[1..] == Escape(s) + ([QUOTE] + rest);
  }

  // ----- numbers -----

  /** What may follow a printed value: nothing that would lengthen a number. */
  predicate EndsNumber(rest: Text) {
    rest == [] || !IsDigit(rest[0])
  }

  lemma {:induction false} DigitRunAll(t: Text, rest: Text)
    requires AllDigits(t) && EndsNumber(rest)
    ensures DigitRun(t + rest) == |t|
  {
    if t == [] {
      assert t + rest == rest;
    } else {
      DigitRunAll(t[1..], rest);
      assert (t + rest)[1..] == t[1..] + rest;
    }
  }

  lemma {:induction false} DecimalReads(n: nat)
    ensures DigitsValue(Decimal(n)) == n
    ensures IsNumeral(Decimal(n)) && (n > 0 ==> Decimal(n)[0] != ZERO)
  {
    var t := Decimal(n);
    if n < 10 {
      assert t[..0] == [];
    } else {
      DecimalReads(n / 10);
      assert t[..|t| - 1] == Decimal(n / 10);
    }
  }

  lemma NaturalReads(n: nat, rest: Text)
    requires n <= 0x1f_ffff_ffff_ffff && EndsNumber(rest)
    ensures ReadNatural(Decimal(n) + rest) == Read(n, rest)
  {
    DecimalReads(n);
    DigitRunAll(Decimal(n), rest);
    assert (Decimal(n) + rest)[..|Decimal(n)|] == Decimal(n);
    assert (Decimal(n) + rest)[|Decimal(n)|..] == rest;
  }

  lemma SignReads(t: Text, n: int, rest: Text)
    requires t != [] && 0 <= n <= 0x1f_ffff_ffff_ffff
    requires if t[0] == MINUS then ReadNatural(t[1..]) == Read(n, rest) else ReadNatural(t) == Read(n, rest)
    ensures ReadInteger(t) == Read(if t[0] == MINUS then -n else n, rest)
  {
  }

  lemma IntegerReads(n: SafeInt, rest: Text)
    requires EndsNumber(rest)
    ensures ReadInteger(IntegerText(n) + rest) == Read(n, rest)
  {
    var m: int := if n < 0 then -n else n;
    var d := Decimal(m);
    NaturalReads(m, rest);
    assert IsDigit(d[0]);
    assert (d + rest)[0] == d[0];
    assert (([MINUS] + d) + rest)[1..] == d + rest;
    SignReads(IntegerText(n) + rest, m, rest);
  }

  // ----- values -----

  predicate IsSpace(c: CodeUnit) {
    c == 0x20 || c == 0x09 || c == 0x0a || c == 0x0d
  }

  /** A printed value starts with a character that is neither space nor a closing bracket. */
  lemma PrintHead(v: Json)
    ensures Print(v) != [] && !IsSpace(Print(v)[0])
    ensures Print(v)[0] != CLOSE_BRACKET && Print(v)[0] != CLOSE_BRACE && Print(v)[0] != COMMA
    ensures v.Num? ==> IsDigit(Print(v)[0]) || Print(v)[0] == MINUS
  {
    if v.Num? && v.n < 0 {
      assert Print(v)[0] == MINUS;
    } else if v.Num? {
      assert IsDigit(Decimal(v.n)[0]);
    }
  }

  lemma SkipsNothing(t: Text)
    requires t != [] && !IsSpace(t[0])
    ensures SkipSpace(t) == t
  {
  }

  lemma LeafReads(v: Json, rest: Text)
    requires !v.Arr? && !v.Obj? && EndsNumber(rest)
    ensures ReadValue(Print(v) + rest) == Read(v, rest)
  {
    var t := Print(v) + rest;
    PrintHead(v);
    SkipsNothing(t);
    if v.Str? {
      QuoteReads(v.s, rest);
    } else if v.Num? {
      IntegerReads(v.n, rest);
    } else {
      LiteralReads(v, rest);
    }
  }

  lemma LiteralReads(v: Json, rest: Text)
    requires v.Null? || v.Bool?
    ensures ReadLiteral(Print(v) + rest) == Read(v, rest)
  {
    var t := Print(v) + rest;
    assert Print(v) <= t && t[|Print(v)|..] == rest;
    assert t[0] == Print(v)[0];
  }

  lemma {:induction false} PutNew(ms: seq<Member>, key: Text, value: Json)
    requires !HasKey(ms, key)
    ensures Put(ms, key, value) == ms + [Member(key, value)]
  {
    if ms != [] {
      assert ms[0].key != key;
      assert forall i :: 0 <= i < |ms[1..]| ==> ms[1..][i] == ms[i + 1];
      PutNew(ms[1..], key, value);
    }
  }

  lemma {:induction false} ValueReads(v: Json, rest: Text)
    requires WellFormed(v) && EndsNumber(rest)
    ensures ReadValue(Print(v) + rest) == Read(v, rest)
    decreases v, 1
  {
    match v
    case Null => LiteralReads(v, rest);
    case Bool(_) => LiteralReads(v, rest);
    case Num(_) => LeafReads(v, rest);
    case Str(_) => LeafReads(v, rest);
    case Arr(items) => ArrayReads(items, rest);
    case Obj(ms) => ObjectReads(ms, rest);
  }

  lemma EmptyReads(rest: Text)
    ensures ReadArray([CLOSE_BRACKET] + rest) == Read(Arr([]), rest)
    ensures ReadObject([CLOSE_BRACE] + rest) == Read(Obj([]), rest)
  {
    assert ([CLOSE_BRACKET] + rest)[1..] == rest && ([CLOSE_BRACE] + rest)[1..] == rest;
  }

  lemma {:induction false} ArrayReads(items: seq<Json>, rest: Text)
    requires WellFormed(Arr(items)) && EndsNumber(rest)
    ensures ReadValue(Print(Arr(items)) + rest) == Read(Arr(items), rest)
    decreases items, 1
  {
    var t := Print(Arr(items)) + rest;
    if items == [] {
      EmptyReads(rest);
      assert t[1..] == [CLOSE_BRACKET] + rest;
    } else {
      var more := items[1..];
      var tail := PrintItems(more) + rest;
      Shift(OPEN_BRACKET, Print(items[0]), PrintItems(more), rest);
      ItemsRead(more, [items[0]], rest);
      ValueReads(items[0], tail);
      PrintHead(items[0]);
      ArrayStep(Print(items[0]) + tail, items[0], tail, more, rest);
      SplitFirst(items);
    }
    SkipsNothing(t);
  }

  lemma ArrayStep(body: Text, v: Json, tail: Text, more: seq<Json>, rest: Text)
    requires body != [] && !IsSpace(body[0]) && body[0] != CLOSE_BRACKET
    requires ReadValue(body) == Read(v, tail)
    requires ReadItems(tail, [v]) == Read([v] + more, rest)
    ensures ReadArray(body) == Read(Arr([v] + more), rest)
  {
    SkipsNothing(body);
  }

  lemma {:induction false} ItemsRead(items: seq<Json>, before: seq<Json>, rest: Text)
    requires WellFormed(Arr(items)) && EndsNumber(rest)
    ensures EndsNumber(PrintItems(items) + rest)
    ensures ReadItems(PrintItems(items) + rest, before) == Read(before + items, rest)
    decreases items, 0
  {
    var t := PrintItems(items) + rest;
    if items == [] {
      SkipsNothing(t);
      assert t[1..] == rest && before + items == before;
    } else {
      var more := items[1..];
      var tail := PrintItems(more) + rest;
      Shift(COMMA, Print(items[0]), PrintItems(more), rest);
      ItemsRead(more, before + [items[0]], rest);
      ValueReads(items[0], tail);
      ItemsStep(t, before, items[0], tail);
      SplitFirst(items);
      Regrouped(before, [items[0]], more);
    }
  }

  lemma ItemsStep(t: Text, before: seq<Json>, v: Json, tail: Text)
    requires t != [] && t[0] == COMMA && ReadValue(t[1..]) == Read(v, tail)
    ensures ReadItems(t, before) == ReadItems(tail, before + [v])
  {
    SkipsNothing(t);
  }

  lemma {:induction false} MemberReads(m: Member, before: seq<Member>, rest: Text)
    requires WellFormed(m.value) && !HasKey(before, m.key) && EndsNumber(rest)
    ensures ReadMember(PrintMember(m) + rest, before) == Read(before + [m], rest)
    decreases m, 0
  {
    var t := PrintMember(m) + rest;
    SkipsNothing(t);
    var afterKey := [COLON] + (Print(m.value) + rest);
    assert t == Quote(m.key) + afterKey;
    QuoteReads(m.key, afterKey);
    SkipsNothing(afterKey);
    assert afterKey[1..] == Print(m.value) + rest;
    ValueReads(m.value, rest);
    PutNew(before, m.key, m.value);
  }

  lemma {:induction false} ObjectReads(ms: seq<Member>, rest: Text)
    requires WellFormed(Obj(ms)) && EndsNumber(rest)
    ensures ReadValue(Print(Obj(ms)) + rest) == Read(Obj(ms), rest)
    decreases ms, 1
  {
    hide ReadMembers, ReadMember, ReadObject;
    var t := Print(Obj(ms)) + rest;
    if ms == [] {
      EmptyReads(rest);
      assert t[1..] == [CLOSE_BRACE] + rest;
    } else {
      var more := ms[1..];
      var tail := PrintMembers(more) + rest;
      Shift(OPEN_BRACE, PrintMember(ms[0]), PrintMembers(more), rest);
      SplitFirst(ms);
      MembersRead(more, [ms[0]], rest);
      MemberReads(ms[0], [], tail);
      ObjectStep(PrintMember(ms[0]) + tail, ms[0], tail, more, rest);
    }
    SkipsNothing(t);
  }

  lemma SplitFirst<T>(s: seq<T>)
    requires s != []
    ensures [s[0]] + s[1..] == s
  {
  }

  lemma ObjectStep(body: Text, m: Member, tail: Text, more: seq<Member>, rest: Text)
    requires body != [] && body[0] == QUOTE
    requires ReadMember(body, []) == Read([] + [m], tail)
    requires ReadMembers(tail, [m]) == Read([m] + more, rest)
    ensures ReadObject(body) == Read(Obj([m] + more), rest)
  {
    SkipsNothing(body);
    assert [] + [m] == [m];
  }

  lemma {:induction false} MembersRead(ms: seq<Member>, before: seq<Member>, rest: Text)
    requires DistinctKeys(before + ms) && WellFormed(Obj(ms)) && EndsNumber(rest)
    ensures EndsNumber(PrintMembers(ms) + rest)
    ensures ReadMembers(PrintMembers(ms) + rest, before) == Read(before + ms, rest)
    decreases ms, 0
  {
    var t := PrintMembers(ms) + rest;
    if ms == [] {
      SkipsNothing(t);
      assert t[1..] == rest && before + ms == before;
    } else {
      var more := ms[1..];
      var tail := PrintMembers(more) + rest;
      Shift(COMMA, PrintMember(ms[0]), PrintMembers(more), rest);
      SplitFirst(ms);
      Regrouped(before, [ms[0]], more);
      MembersRead(more, before + [ms[0]], rest);
      forall i | 0 <= i < |before|
        ensures before[i].key != ms[0].key
      {
        assert (before + ms)[i] == before[i] && (before + ms)[|before|] == ms[0];
      }
      MemberReads(ms[0], before, tail);
      MembersStep(t, before, ms[0], tail);
    }
  }

  lemma MembersStep(t: Text, before: seq<Member>, m: Member, tail: Text)
    requires t != [] && t[0] == COMMA && ReadMember(t[1..], before) == Read(before + [m], tail)
    ensures ReadMembers(t, before) == ReadMembers(tail, before + [m])
  {
    SkipsNothing(t);
  }

  // ----- whatever is read has no duplicate keys -----

  lemma {:induction false} PutWellFormed(ms: seq<Member>, key: Text, value: Json)
    requires WellFormed(Obj(ms)) && WellFormed(value)
    ensures WellFormed(Obj(Put(ms, key, value)))
    ensures forall k :: HasKey(Put(ms, key, value), k) ==> k == key || HasKey(ms, k)
  {
    if ms != [] && ms[0].key != key {
      var more := ms[1..];
      assert forall i :: 0 <= i < |more| ==> more[i] == ms[i + 1];
      PutWellFormed(more, key, value);
      var r := Put(more, key, value);
      forall i | 0 <= i < |r|
        ensures r[i].key != ms[0].key
      {
        assert HasKey(r, r[i].key);
      }
      forall k | HasKey([ms[0]] + r, k)
        ensures k == key || HasKey(ms, k)
      {
        if k == ms[0].key {
          assert HasKey(ms, k);
        } else {
          assert HasKey(r, k);
        }
      }
    }
  }

  lemma {:induction false} ReadsWellFormed(text: Text)
    ensures ReadValue(text).Read? ==> WellFormed(ReadValue(text).value)
    decreases |text|, 2
  {
    var t := SkipSpace(text);
    if t != [] {
      var u := SkipSpace(t[1..]);
      if t[0] == OPEN_BRACKET && ReadValue(u).Read? {
        ReadsWellFormed(u);
        ItemsWellFormed(ReadValue(u).rest, [ReadValue(u).value]);
      } else if t[0] == OPEN_BRACE && ReadMember(u, []).Read? {
        MemberWellFormed(u, []);
        MembersWellFormed(ReadMember(u, []).rest, ReadMember(u, []).value);
      }
    }
  }

  lemma {:induction false} ItemsWellFormed(text: Text, before: seq<Json>)
    requires WellFormed(Arr(before))
    ensures ReadItems(text, before).Read? ==> WellFormed(Arr(ReadItems(text, before).value))
    decreases |text|, 0
  {
    var t := SkipSpace(text);
    if t != [] && t[0] == COMMA && ReadValue(t[1..]).Read? {
      ReadsWellFormed(t[1..]);
      ItemsWellFormed(ReadValue(t[1..]).rest, before + [ReadValue(t[1..]).value]);
    }
  }

  lemma {:induction false} MemberWellFormed(text: Text, before: seq<Member>)
    requires WellFormed(Obj(before))
    ensures ReadMember(text, before).Read? ==> WellFormed(Obj(ReadMember(text, before).value))
    decreases |text|, 0
  {
    var t := SkipSpace(text);
    if t != [] && t[0] == QUOTE && ReadString(t[1..]).Read? {
      var u := SkipSpace(ReadString(t[1..]).rest);
      if u != [] && u[0] == COLON && ReadValue(u[1..]).Read? {
        ReadsWellFormed(u[1..]);
        PutWellFormed(before, ReadString(t[1..]).value, ReadValue(u[1..]).value);
      }
    }
  }

  lemma {:induction false} MembersWellFormed(text: Text, before: seq<Member>)
    requires WellFormed(Obj(before))
    ensures ReadMembers(text, before).Read? ==> WellFormed(Obj(ReadMembers(text, before).value))
    decreases |text|, 0
  {
    var t := SkipSpace(text);
    if t != [] && t[0] == COMMA && ReadMember(t[1..], before).Read? {
      MemberWellFormed(t[1..], before);
      MembersWellFormed(ReadMember(t[1..], before).rest, ReadMember(t[1..], before).value);
    }
  }

  /** JSON.parse undoes JSON.stringify on every value without duplicate keys. */
  lemma ParsePrint(v: Json)
    requires WellFormed(v)
    ensures JsonParse(Print(v)) == Read(v, [])
  {
    ValueReads(v, []);
    assert Print(v) + [] == Print(v);
  }
}
