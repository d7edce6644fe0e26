/**
 The text JSON.stringify writes for a value (section 25.5.2 of ECMA-262), with
 no spaces and with object members in the order the value lists them.
 */
module JsonPrinter {
  import opened JsText
  import opened KeyOrder
  import opened JsonValue

  const QUOTE: CodeUnit := 0x22
  const BACKSLASH: CodeUnit := 0x5c
  const COMMA: CodeUnit := 0x2c
  const COLON: CodeUnit := 0x3a
  const MINUS: CodeUnit := 0x2d
  const ZERO: CodeUnit := 0x30
  const OPEN_BRACKET: CodeUnit := 0x5b
  const CLOSE_BRACKET: CodeUnit := 0x5d
  const OPEN_BRACE: CodeUnit := 0x7b
  const CLOSE_BRACE: CodeUnit := 0x7d
  const LETTER_U: CodeUnit := 0x75

  const NULL_TEXT: Text := [0x6e, 0x75, 0x6c, 0x6c]
  const TRUE_TEXT: Text := [0x74, 0x72, 0x75, 0x65]
  const FALSE_TEXT: Text := [0x66, 0x61, 0x6c, 0x73, 0x65]

  predicate IsHighSurrogate(c: CodeUnit) { 0xd800 <= c <= 0xdbff }

  predicate IsLowSurrogate(c: CodeUnit) { 0xdc00 <= c <= 0xdfff }

  /** Lower-case hexadecimal, as JSON.stringify writes it. */
  function HexDigit(n: int): CodeUnit
    requires 0 <= n < 16
  {
    if n < 10 then 0x30 + n else 0x57 + n
  }

  function UnicodeEscape(c: CodeUnit): (t: Text)
  {
    [BACKSLASH, LETTER_U, HexDigit(c / 4096), HexDigit(c / 256 % 16), HexDigit(c / 16 % 16), HexDigit(c % 16)]
  }

  /** One code unit that is not half of a surrogate pair. */
  function EscapeUnit(c: CodeUnit): Text {
    if c == 0x08 then [BACKSLASH, 0x62]
    else if c == 0x09 then [BACKSLASH, 0x74]
    else if c == 0x0a then [BACKSLASH, 0x6e]
    else if c == 0x0c then [BACKSLASH, 0x66]
    else if c == 0x0d then [BACKSLASH, 0x72]
    else if c == QUOTE then [BACKSLASH, QUOTE]
    else if c == BACKSLASH then [BACKSLASH, BACKSLASH]
    else if c < 0x20 || IsHighSurrogate(c) || IsLowSurrogate(c) then UnicodeEscape(c)
    else [c]
  }

  /** A surrogate pair is copied; a lone surrogate is escaped. */
  function Escape(s: Text): Text {
    if s == [] then []
    else if IsHighSurrogate(s[0]) && |s| > 1 && IsLowSurrogate(s[1]) then s[..2] + Escape(s[2..])
    else EscapeUnit(s[0]) + Escape(s[1..])
  }

  function Quote(s: Text): Text {
    [QUOTE] + (Escape(s) + [QUOTE])
  }

  function Decimal(n: nat): (t: Text)
    ensures t != [] && AllDigits(t)
  {
    if n < 10 then [ZERO + n] else Decimal(n / 10) + [ZERO + n % 10]
  }

  function IntegerText(n: int): (t: Text)
    ensures t != []
  {
    if n < 0 then [MINUS] + Decimal(-n) else Decimal(n)
  }

  function Print(v: Json): Text
    decreases v, 1
  {
    match v
    case Null => NULL_TEXT
    case Bool(b) => if b then TRUE_TEXT else FALSE_TEXT
    case Num(n) => IntegerText(n)
    case Str(s) => Quote(s)
    case Arr(items) =>
      if items == [] then [OPEN_BRACKET, CLOSE_BRACKET]
      else [OPEN_BRACKET] + (Print(items[0]) + PrintItems(items[1..]))
    case Obj(ms) =>
      if ms == [] then [OPEN_BRACE, CLOSE_BRACE]
      else [OPEN_BRACE] + (PrintMember(ms[0]) + PrintMembers(ms[1..]))
  }

  /** The elements after the first, and the closing bracket. */
  function PrintItems(items: seq<Json>): Text
    decreases items, 0
  {
    if items == [] then [CLOSE_BRACKET]
    else [COMMA] + (Print(items[0]) + PrintItems(items[1..]))
  }

  function PrintMember(m: Member): Text
    decreases m, 0
  {
    Quote(m.key) + ([COLON] + Print(m.value))
  }

  /** The members after the first, and the closing brace. */
  function PrintMembers(ms: seq<Member>): Text
    decreases ms, 0
  {
    if ms == [] then [CLOSE_BRACE]
    else [COMMA] + (PrintMember(ms[0]) + PrintMembers(ms[1..]))
  }
}

/**
 Reading JSON text the way JSON.parse does: insignificant white space, either
 case of hexadecimal, every escape of section 7 of RFC 8259, and the last of
 several members with one key.
 */
module JsonReader {
  import opened JsText
  import opened KeyOrder
  import opened JsonValue
  import opened JsonPrinter

  /** What reading a prefix of the text yields, and the text after it. */
  datatype Reading<+T> = Read(value: T, rest: Text) | Unreadable

  function SkipSpace(t: Text): (u: Text)
    ensures |u| <= |t|
  {
    if t != [] && (t[0] == 0x20 || t[0] == 0x09 || t[0] == 0x0a || t[0] == 0x0d) then SkipSpace(t[1..]) else t
  }

  function Prepend(c: CodeUnit, r: Reading<Text>): Reading<Text> {
    match r
    case Read(s, rest) => Read([c] + s, rest)
    case Unreadable => Unreadable
  }

  predicate IsHexDigit(c: CodeUnit) {
    IsDigit(c) || 0x61 <= c <= 0x66 || 0x41 <= c <= 0x46
  }

  function HexValue(c: CodeUnit): (n: int)
    requires IsHexDigit(c)
    ensures 0 <= n < 16
  {
    if IsDigit(c) then c - 0x30 else if c >= 0x61 then c - 0x57 else c - 0x37
  }

  /** The code unit a two-character escape stands for. */
  function ShortEscape(c: CodeUnit): (r: seq<CodeUnit>)
    ensures |r| <= 1
  {
    if c == QUOTE || c == BACKSLASH || c == 0x2f then [c]
    else if c == 0x62 then [0x08]
    else if c == 0x74 then [0x09]
    else if c == 0x6e then [0x0a]
    else if c == 0x66 then [0x0c]
    else if c == 0x72 then [0x0d]
    else []
  }

  /** The body of a string literal, from just after its opening quotation mark. */
  function ReadString(t: Text): (r: Reading<Text>)
    ensures r.Read? ==> |r.rest| < |t|
  {
    if t == [] then Unreadable
    else if t[0] == QUOTE then Read([], t[1..])
    else if t[0] < 0x20 then Unreadable
    else if t[0] != BACKSLASH then Prepend(t[0], ReadString(t[1..]))
    else if |t| < 2 then Unreadable
    else if t[1] == LETTER_U then
      if |t| < 6 || !IsHexDigit(t[2]) || !IsHexDigit(t[3]) || !IsHexDigit(t[4]) || !IsHexDigit(t[5]) then Unreadable
      else Prepend(HexValue(t[2]) * 4096 + HexValue(t[3]) * 256 + HexValue(t[4]) * 16 + HexValue(t[5]), ReadString(t[6..]))
    else if ShortEscape(t[1]) == [] then Unreadable
    else Prepend(ShortEscape(t[1])[0], ReadString(t[2..]))
  }

  /** How many digits the text begins with. */
  function DigitRun(t: Text): (n: nat)
    ensures n <= |t| && AllDigits(t[..n])
  {
    if t != [] && IsDigit(t[0]) then 1 + DigitRun(t[1..]) else 0
  }

  /** A numeral no larger than the largest safe integer. */
  function ReadNatural(t: Text): (r: Reading<int>)
    ensures r.Read? ==> |r.rest| < |t| && 0 <= r.value <= 0x1f_ffff_ffff_ffff
  {
    var k := DigitRun(t);
    if !IsNumeral(t[..k]) || DigitsValue(t[..k]) > 0x1f_ffff_ffff_ffff then Unreadable
    else Read(DigitsValue(t[..k]), t[k..])
  }

  function ReadInteger(t: Text): (r: Reading<SafeInt>)
    ensures r.Read? ==> |r.rest| < |t|
  {
    if t != [] && t[0] == MINUS then
      match ReadNatural(t[1..])
      case Read(n, rest) => Read(-n, rest)
      case Unreadable => Unreadable
    else
      match ReadNatural(t)
      case Read(n, rest) => Read(n, rest)
      case Unreadable => Unreadable
  }

  /** A member read later replaces the value of an earlier one with the same key. */
  function Put(ms: seq<Member>, key: Text, value: Json): seq<Member>
  {
    if ms == [] then [Member(key, value)]
    else if ms[0].key == key then [Member(key, value)] + ms[1..]
    else [ms[0]] + Put(ms[1..], key, value)
  }

  function ReadValue(text: Text): (r: Reading<Json>)
    ensures r.Read? ==> |r.rest| < |text|
    decreases |text|, 2
  {
    var t := SkipSpace(text);
    if t == [] then Unreadable
    else if t[0] == QUOTE then
      match ReadString(t[1..])
      case Read(s, rest) => Read(Str(s), rest)
      case Unreadable => Unreadable
    else if t[0] == OPEN_BRACKET then ReadArray(t[1..])
    else if t[0] == OPEN_BRACE then ReadObject(t[1..])
    else if t[0] == MINUS || IsDigit(t[0]) then
      match ReadInteger(t)
      case Read(n, rest) => Read(Num(n), rest)
      case Unreadable => Unreadable
    else ReadLiteral(t)
  }

  function ReadLiteral(t: Text): (r: Reading<Json>)
    ensures r.Read? ==> |r.rest| < |t|
  {
    if NULL_TEXT <= t then Read(Null, t[4..])
    else if TRUE_TEXT <= t then Read(Bool(true), t[4..])
    else if FALSE_TEXT <= t then Read(Bool(false), t[5..])
    else Unreadable
  }

  /** An array, from just after its opening bracket. */
  function ReadArray(text: Text): (r: Reading<Json>)
    ensures r.Read? ==> |r.rest| < |text|
    decreases |text|, 3
  {
    var t := SkipSpace(text);
    if t != [] && t[0] == CLOSE_BRACKET then Read(Arr([]), t[1..])
    else
      match ReadValue(t)
      case Unreadable => Unreadable
      case Read(v, rest) =>
        match ReadItems(rest, [v])
        case Read(items, rest') => Read(Arr(items), rest')
        case Unreadable => Unreadable
  }

  /** An object, from just after its opening brace. */
  function ReadObject(text: Text): (r: Reading<Json>)
    ensures r.Read? ==> |r.rest| < |text|
    decreases |text|, 3
  {
    var t := SkipSpace(text);
    if t != [] && t[0] == CLOSE_BRACE then Read(Obj([]), t[1..])
    else
      match ReadMember(t, [])
      case Unreadable => Unreadable
      case Read(ms, rest) =>
        match ReadMembers(rest, ms)
        case Read(ms', rest') => Read(Obj(ms'), rest')
        case Unreadable => Unreadable
  }

  /** The elements after the first, each behind a comma, up to the closing bracket. */
  function ReadItems(text: Text, before: seq<Json>): (r: Reading<seq<Json>>)
    ensures r.Read? ==> |r.rest| < |text|
    decreases |text|, 0
  {
    var t := SkipSpace(text);
    if t == [] then Unreadable
    else if t[0] == CLOSE_BRACKET then Read(before, t[1..])
    else if t[0] != COMMA then Unreadable
    else
      match ReadValue(t[1..])
      case Unreadable => Unreadable
      case Read(v, rest) => ReadItems(rest, before + [v])
  }

  function ReadMember(text: Text, before: seq<Member>): (r: Reading<seq<Member>>)
    ensures r.Read? ==> |r.rest| < |text|
    decreases |text|, 0
  {
    var t := SkipSpace(text);
    if t == [] || t[0] != QUOTE then Unreadable
    else
      match ReadString(t[1..])
      case Unreadable => Unreadable
      case Read(key, rest) =>
        var u := SkipSpace(rest);
        if u == [] || u[0] != COLON then Unreadable
        else
          match ReadValue(u[1..])
          case Unreadable => Unreadable
          case Read(v, rest') => Read(Put(before, key, v), rest')
  }

  /** The members after the first, each behind a comma, up to the closing brace. */
  function ReadMembers(text: Text, before: seq<Member>): (r: Reading<seq<Member>>)
    ensures r.Read? ==> |r.rest| < |text|
    decreases |text|, 0
  {
    var t := SkipSpace(text);
    if t == [] then Unreadable
    else if t[0] == CLOSE_BRACE then Read(before, t[1..])
    else if t[0] != COMMA then Unreadable
    else
      match ReadMember(t[1..], before)
      case Unreadable => Unreadable
      case Read(ms, rest) => ReadMembers(rest, ms)
  }

  /** A whole text: one value and nothing but white space around it. */
  function JsonParse(text: Text): Reading<Json> {
    match ReadValue(text)
    case Unreadable => Unreadable
    case Read(v, rest) => if SkipSpace(rest) == [] then Read(v, []) else Unreadable
  }
}
