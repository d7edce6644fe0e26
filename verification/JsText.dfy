/**
 JavaScript strings as the language sees them: sequences of 16-bit code units.
 Every string that ends up inside signed or stored JSON text is one of these.
 */
module JsText {
  type CodeUnit = n: int | 0 <= n < 0x1_0000
  type Text = seq<CodeUnit>

  /** One character of a source literal as code units: itself, or a surrogate pair. */
  function CodeUnits(c: char): Text {
    var n := c as int;
    if n < 0x1_0000 then [n] else [0xd800 + (n - 0x1_0000) / 0x400, 0xdc00 + (n - 0x1_0000) % 0x400]
  }

  /** A source literal as the JavaScript string it denotes. */
  function Literal(s: string): Text {
    if s == [] then [] else Literal(s[..|s| - 1]) + CodeUnits(s[|s| - 1])
  }

  lemma CodeUnitsSuffixFree(c: char, d: char, x: Text, y: Text)
    requires x + CodeUnits(c) == y + CodeUnits(d)
    ensures c == d && x == y
  {
    var t := x + CodeUnits(c);
    assert t[|t| - 1] == CodeUnits(c)[|CodeUnits(c)| - 1] && t[|t| - 1] == CodeUnits(d)[|CodeUnits(d)| - 1];
    if c as int >= 0x1_0000 && d as int >= 0x1_0000 {
      assert t[|t| - 2] == CodeUnits(c)[0] && t[|t| - 2] == CodeUnits(d)[0];
    }
    assert x == t[..|t| - |CodeUnits(c)|];
    assert y == t[..|t| - |CodeUnits(d)|];
  }

  /** Two different literals never denote the same string. */
  lemma {:induction false} LiteralInjective(a: string, b: string)
    ensures Literal(a) == Literal(b) <==> a == b
  {
    if Literal(a) == Literal(b) {
      if a == [] || b == [] {
        assert a != [] ==> Literal(a) != [];
        assert b != [] ==> Literal(b) != [];
      } else {
        CodeUnitsSuffixFree(a[|a| - 1], b[|b| - 1], Literal(a[..|a| - 1]), Literal(b[..|b| - 1]));
        LiteralInjective(a[..|a| - 1], b[..|b| - 1]);
        assert a == a[..|a| - 1] + [a[|a| - 1]] && b == b[..|b| - 1] + [b[|b| - 1]];
      }
    }
  }

  /** A literal of the basic plane is its characters, code unit by code unit. */
  lemma {:induction false} LiteralMeans(s: string)
    requires forall i :: 0 <= i < |s| ==> s[i] as int < 0x1_0000
    ensures |Literal(s)| == |s| && forall i :: 0 <= i < |s| ==> Literal(s)[i] == s[i] as int
  {
    if s != [] {
      LiteralMeans(s[..|s| - 1]);
    }
  }

  /** Code-unit order, the order `Array.prototype.sort` uses on strings. */
  predicate Less(a: Text, b: Text) {
    if b == [] then false
    else if a == [] then true
    else a[0] < b[0] || (a[0] == b[0] && Less(a[1..], b[1..]))
  }

  lemma {:induction false} LessTransitive(a: Text, b: Text, c: Text)
    requires Less(a, b) && Less(b, c)
    ensures Less(a, c)
  {
    if a != [] && a[0] == b[0] && b[0] == c[0] {
      LessTransitive(a[1..], b[1..], c[1..]);
    }
  }

  lemma {:induction false} LessTotal(a: Text, b: Text)
    ensures (Less(a, b) || a == b || Less(b, a)) && !(Less(a, b) && a == b) && !(Less(a, b) && Less(b, a))
  {
    if a != [] && b != [] && a[0] == b[0] {
      LessTotal(a[1..], b[1..]);
      assert a == [a[0]] + a[1..] && b == [b[0]] + b[1..];
    }
  }

  /** White space and line terminators of ECMA-262, which `trim` strips. */
  predicate IsSpace(c: CodeUnit) {
    || 0x09 <= c <= 0x0d || c == 0x20 || c == 0xa0 || c == 0x1680 || 0x2000 <= c <= 0x200a
    || c == 0x2028 || c == 0x2029 || c == 0x202f || c == 0x205f || c == 0x3000 || c == 0xfeff
  }

  /** The twenty-five code units of sections 12.2 and 12.3 of ECMA-262. */
  lemma SpacesOfEcma(c: CodeUnit)
    ensures IsSpace(c) <==> c in {
              0x0009, 0x000a, 0x000b, 0x000c, 0x000d, 0x0020, 0x00a0, 0x1680, 0x2000, 0x2001, 0x2002, 0x2003, 0x2004, 0x2005,
              0x2006, 0x2007, 0x2008, 0x2009, 0x200a, 0x2028, 0x2029, 0x202f, 0x205f, 0x3000, 0xfeff}
  {
  }

  function TrimStart(t: Text): Text {
    if t != [] && IsSpace(t[0]) then TrimStart(t[1..]) else t
  }

  function TrimEnd(t: Text): Text {
    if t != [] && IsSpace(t[|t| - 1]) then TrimEnd(t[..|t| - 1]) else t
  }

  /** `String.prototype.trim`. */
  function Trim(t: Text): Text {
    TrimEnd(TrimStart(t))
  }

  predicate IsBlank(t: Text) {
    forall i :: 0 <= i < |t| ==> IsSpace(t[i])
  }

  lemma {:induction false} TrimStartMeans(t: Text)
    ensures var r := TrimStart(t);
            && |r| <= |t| && r == t[|t| - |r|..] && IsBlank(t[..|t| - |r|]) && (r != [] ==> !IsSpace(r[0]))
  {
    hide IsSpace;
    if t != [] && IsSpace(t[0]) {
      TrimStartMeans(t[1..]);
    }
  }

  lemma {:induction false} TrimEndMeans(t: Text)
    ensures var r := TrimEnd(t);
            && r <= t && IsBlank(t[|r|..]) && (r != [] ==> !IsSpace(r[|r| - 1]))
  {
    hide IsSpace;
    if t != [] && IsSpace(t[|t| - 1]) {
      var front := t[..|t| - 1];
      TrimEndMeans(front);
      assert t[|TrimEnd(front)|..] == front[|TrimEnd(front)|..] + [t[|t| - 1]];
    }
  }

  /** Trimming leaves nothing exactly of a blank text, and otherwise a text with no space at either end. */
  lemma TrimMeans(t: Text)
    ensures Trim(t) == [] <==> IsBlank(t)
    ensures Trim(t) != [] ==> !IsSpace(Trim(t)[0]) && !IsSpace(Trim(t)[|Trim(t)| - 1])
  {
    hide IsSpace, TrimStart, TrimEnd;
    TrimStartMeans(t);
    TrimEndMeans(TrimStart(t));
    var start := TrimStart(t);
    assert start != [] ==> start[0] == t[|t| - |start|];
    assert start[0..] == start && t[..|t|] == t;
  }
}
