/**
 One route, one spelling: the check that decides which request paths an Edge
 proof may bind, against what routers do to paths before they match them.
 */
module EdgeRoute {
  import opened JsText
  import opened Options

  datatype Rejection =
    | TooLong | NotAbsolute | NotPrintableAscii | CarriesWhitespace | CarriesQuery | CarriesFragment
    | CarriesPercentEncoding | TrailingSlash | EmptySegment | DotSegment

  const MAX_LENGTH: nat := 512
  const SLASH: CodeUnit := 0x2f
  const DOT: CodeUnit := 0x2e
  const PERCENT: CodeUnit := 0x25
  const QUESTION: CodeUnit := 0x3f
  const HASH: CodeUnit := 0x23

  // ----- `split` and `join` -----

  /** Where the first slash stands, or the length when there is none. */
  function FirstSlash(t: Text): (k: nat)
    ensures k <= |t| && (k < |t| ==> t[k] == SLASH)
    ensures forall i :: 0 <= i < k ==> t[i] != SLASH
  {
    if t == [] || t[0] == SLASH then 0 else FirstSlash(t[1..]) + 1
  }

  /** `t.split('/')`. */
  function Split(t: Text): (segments: seq<Text>)
    ensures segments != [] && segments[0] == t[..FirstSlash(t)]
    decreases |t|
  {
    var k := FirstSlash(t);
    if k == |t| then [t] else [t[..k]] + Split(t[k + 1..])
  }

  function Join(segments: seq<Text>): Text {
    if segments == [] then []
    else if |segments| == 1 then segments[0]
    else segments[0] + [SLASH] + Join(segments[1..])
  }

  /** Splitting then rejoining gives the text back, and no segment holds a slash. */
  lemma {:induction false} JoinSplit(t: Text)
    ensures Join(Split(t)) == t
    ensures forall segment :: segment in Split(t) ==> SLASH !in segment
    decreases |t|
  {
    var k := FirstSlash(t);
    if k < |t| {
      JoinSplit(t[k + 1..]);
      assert Split(t)[1..] == Split(t[k + 1..]);
      assert t == t[..k] + [SLASH] + t[k + 1..];
    }
  }

  // ----- the check -----

  predicate PrintableAscii(t: Text) {
    forall i :: 0 <= i < |t| ==> 0x21 <= t[i] <= 0x7e
  }

  predicate IsDotSegment(segment: Text) {
    segment == [DOT] || segment == [DOT, DOT]
  }

  /** The first segment that is empty or a dot segment decides. */
  function CheckSegments(segments: seq<Text>): Option<Rejection> {
    if segments == [] then None
    else if segments[0] == [] then Some(EmptySegment)
    else if IsDotSegment(segments[0]) then Some(DotSegment)
    else CheckSegments(segments[1..])
  }

  /** What is refused before the segments are looked at. */
  function CheckText(value: Text): Option<Rejection> {
    if |value| > MAX_LENGTH then Some(TooLong)
    else if value == [] || value[0] != SLASH then Some(NotAbsolute)
    else if !PrintableAscii(value) then Some(NotPrintableAscii)
    else if exists i :: 0 <= i < |value| && IsSpace(value[i]) then Some(CarriesWhitespace)
    else if QUESTION in value then Some(CarriesQuery)
    else if HASH in value then Some(CarriesFragment)
    else if PERCENT in value then Some(CarriesPercentEncoding)
    else if value != [SLASH] && value[|value| - 1] == SLASH then Some(TrailingSlash)
    else None
  }

  function CheckRoute(value: Text): Option<Rejection> {
    if CheckText(value).Some? then CheckText(value)
    else if value == [SLASH] then None
    else CheckSegments(Split(value[1..]))
  }

  method CheckCanonicalEdgeRequestRoute(value: Text) returns (rejection: Option<Rejection>)
    ensures rejection == CheckRoute(value)
  {
    if CheckText(value).Some? {
      return CheckText(value);
    }
    if value == [SLASH] {
      return None;
    }
    var segments := Split(value[1..]);
    var i := 0;
    while i < |segments|
      invariant 0 <= i <= |segments|
      invariant CheckSegments(segments) == CheckSegments(segments[i..])
    {
      var segment := segments[i];
      if |segment| == 0 {
        return Some(EmptySegment);
      }
      if IsDotSegment(segment) {
        return Some(DotSegment);
      }
      assert segments[i..][1..] == segments[i + 1..];
      i := i + 1;
    }
    return None;
  }

  /** An absolute path of permitted length in printable ASCII: what gets as far as the four characters a path may not carry. */
  predicate Printable(value: Text) {
    0 < |value| <= 512 && value[0] == 0x2f && forall i :: 0 <= i < |value| ==> 0x21 <= value[i] <= 0x7e
  }

  /** Which refusal is reported: the first that applies, in this order. */
  lemma RefusalsInOrder(value: Text)
    ensures var r := CheckRoute(value);
            && (r == Some(TooLong) <==> |value| > 512)
            && (r == Some(NotAbsolute) <==> |value| <= 512 && (value == [] || value[0] != 0x2f))
            && (r == Some(NotPrintableAscii) <==>
                0 < |value| <= 512 && value[0] == 0x2f && exists i :: 0 <= i < |value| && !(0x21 <= value[i] <= 0x7e))
            && (r == Some(CarriesQuery) <==> Printable(value) && 0x3f in value)
            && (r == Some(CarriesFragment) <==> Printable(value) && 0x3f !in value && 0x23 in value)
            && (r == Some(CarriesPercentEncoding) <==> Printable(value) && 0x3f !in value && 0x23 !in value && 0x25 in value)
            && (r == Some(TrailingSlash) <==> Printable(value) && 0x3f !in value && 0x23 !in value && 0x25 !in value
                                              && |value| > 1 && value[|value| - 1] == 0x2f)
  {
    hide Split, IsDotSegment, IsSpace;
    NoWhitespace(value);
    if value != [] {
      SegmentRejections(Split(value[1..]));
      assert |value| == 1 && value[0] == SLASH ==> value == [SLASH];
    }
  }

  /** White space is refused as unprintable before the white-space test is reached. */
  lemma WhitespaceIsNeverReported(value: Text)
    ensures CheckRoute(value) != Some(CarriesWhitespace)
  {
    hide Split;
    if value != [] {
      SegmentRejections(Split(value[1..]));
    }
  }

  lemma {:induction false} SegmentRejections(segments: seq<Text>)
    ensures CheckSegments(segments).None? || CheckSegments(segments).value in {EmptySegment, DotSegment}
    ensures CheckSegments(segments).None? <==>
            [] !in segments && forall segment :: segment in segments ==> !IsDotSegment(segment)
  {
    if segments != [] {
      SegmentRejections(segments[1..]);
      assert segments == [segments[0]] + segments[1..];
    }
  }

  // ----- what routers do to paths -----

  predicate HasPrefix(t: Text, p: Text) {
    |p| <= |t| && forall i :: 0 <= i < |p| ==> t[i] == p[i]
  }

  /** Drops the last segment and its slash, if any. */
  function WithoutLastSegment(output: Text): (r: Text)
    ensures |r| <= |output|
  {
    if output == [] then [] else if output[|output| - 1] == SLASH then output[..|output| - 1]
    else WithoutLastSegment(output[..|output| - 1])
  }

  /** The length of the first path segment, its leading slash included. */
  function FirstSegment(input: Text): (n: nat)
    requires input != []
    ensures 0 < n <= |input|
  {
    if input[0] == SLASH then 1 + FirstSlash(input[1..]) else FirstSlash(input)
  }

  /** The loop of section 5.2.4 of RFC 3986. */
  function RemoveDotSegments(input: Text, output: Text): Text
    decreases |input|
  {
    if input == [] then output
    else if HasPrefix(input, [DOT, DOT, SLASH]) then RemoveDotSegments(input[3..], output)
    else if HasPrefix(input, [DOT, SLASH]) then RemoveDotSegments(input[2..], output)
    else if HasPrefix(input, [SLASH, DOT, SLASH]) then RemoveDotSegments(input[2..], output)
    else if input == [SLASH, DOT] then RemoveDotSegments([SLASH], output)
    else if HasPrefix(input, [SLASH, DOT, DOT, SLASH]) then RemoveDotSegments(input[3..], WithoutLastSegment(output))
    else if input == [SLASH, DOT, DOT] then RemoveDotSegments([SLASH], WithoutLastSegment(output))
    else if IsDotSegment(input) then output
    else RemoveDotSegments(input[FirstSegment(input)..], output + input[..FirstSegment(input)])
  }

  function CollapseSlashes(t: Text): Text {
    if t == [] then []
    else if |t| > 1 && t[0] == SLASH && t[1] == SLASH then CollapseSlashes(t[1..])
    else [t[0]] + CollapseSlashes(t[1..])
  }

  function StripTrailingSlash(t: Text): Text {
    if |t| > 1 && t[|t| - 1] == SLASH then t[..|t| - 1] else t
  }

  function HexValue(c: CodeUnit): Option<CodeUnit> {
    if 0x30 <= c <= 0x39 then Some(c - 0x30)
    else if 0x41 <= c <= 0x46 then Some(c - 0x41 + 10)
    else if 0x61 <= c <= 0x66 then Some(c - 0x61 + 10)
    else None
  }

  function PercentDecode(t: Text): Text {
    if t == [] then []
    else if t[0] == PERCENT && |t| > 2 && HexValue(t[1]).Some? && HexValue(t[2]).Some? then
      [HexValue(t[1]).value * 16 + HexValue(t[2]).value] + PercentDecode(t[3..])
    else [t[0]] + PercentDecode(t[1..])
  }

  function UpperHex(n: int): CodeUnit
    requires 0 <= n < 16
  {
    if n < 10 then 0x30 + n else 0x41 + n - 10
  }

  /** The decoder undoes the percent-encoding of every byte. */
  lemma DecodesEveryByte(byte: int, rest: Text)
    requires 0 <= byte < 256
    ensures PercentDecode([PERCENT, UpperHex(byte / 16), UpperHex(byte % 16)] + rest) == [byte] + PercentDecode(rest)
  {
    assert ([PERCENT, UpperHex(byte / 16), UpperHex(byte % 16)] + rest)[3..] == rest;
  }

  /** All four, in the order a router applies them. */
  function Normalise(path: Text): Text {
    StripTrailingSlash(CollapseSlashes(RemoveDotSegments(PercentDecode(path), [])))
  }

  predicate FixedPoint(path: Text) {
    && PercentDecode(path) == path && RemoveDotSegments(path, []) == path
    && CollapseSlashes(path) == path && StripTrailingSlash(path) == path
  }

  // ----- an accepted route is left alone -----

  lemma {:induction false} DecodeKeeps(t: Text)
    requires PERCENT !in t
    ensures PercentDecode(t) == t
  {
    if t != [] {
      DecodeKeeps(t[1..]);
    }
  }

  predicate DoubleSlash(t: Text) {
    exists i :: 0 <= i < |t| - 1 && t[i] == SLASH && t[i + 1] == SLASH
  }

  lemma {:induction false} CollapseShrinks(t: Text)
    ensures |CollapseSlashes(t)| <= |t|
    ensures CollapseSlashes(t) == t <==> !DoubleSlash(t)
    ensures DoubleSlash(t) ==> |CollapseSlashes(t)| < |t|
  {
    if t != [] {
      CollapseShrinks(t[1..]);
      assert forall i :: 1 <= i < |t| ==> t[i] == t[1..][i - 1];
      if DoubleSlash(t[1..]) {
        var i :| 0 <= i < |t[1..]| - 1 && t[1..][i] == SLASH && t[1..][i + 1] == SLASH;
        assert t[i + 1] == SLASH && t[i + 1 + 1] == SLASH;
      }
      if DoubleSlash(t) && !(t[0] == SLASH && t[1] == SLASH) {
        var i :| 0 <= i < |t| - 1 && t[i] == SLASH && t[i + 1] == SLASH;
        assert t[1..][i - 1] == SLASH && t[1..][i - 1 + 1] == SLASH;
      }
    }
  }

  /** A text that is empty or starts with a slash, none of whose segments is a dot segment. */
  predicate DotFree(t: Text)
    decreases |t|
  {
    t == [] || (t[0] == SLASH && !IsDotSegment(t[1..FirstSegment(t)]) && DotFree(t[FirstSegment(t)..]))
  }

  predicate Rooted(t: Text) {
    t == [] || t[0] == SLASH
  }

  /** On a rooted input a dot rule fires exactly when the first segment is a dot segment. */
  lemma FirstSegmentIsDot(t: Text)
    requires t != [] && t[0] == SLASH
    ensures IsDotSegment(t[1..FirstSegment(t)]) <==>
            || HasPrefix(t, [SLASH, DOT, SLASH]) || t == [SLASH, DOT]
            || HasPrefix(t, [SLASH, DOT, DOT, SLASH]) || t == [SLASH, DOT, DOT]
    ensures !HasPrefix(t, [DOT, DOT, SLASH]) && !HasPrefix(t, [DOT, SLASH]) && !IsDotSegment(t)
    ensures Rooted(t[FirstSegment(t)..])
  {
    var n := FirstSegment(t);
    assert n < |t| ==> t[n] == t[1..][n - 1];
    assert forall i :: 1 <= i < n ==> t[i] == t[1..][i - 1];
    assert |t| == 2 ==> t == [t[0], t[1]];
    assert |t| == 3 ==> t == [t[0], t[1], t[2]];
    if IsDotSegment(t[1..n]) {
      assert t[1..n][0] == t[1];
      assert n == 3 ==> t[1..n][1] == t[2];
    }
    if |t| > 1 && t[1] == DOT && (|t| == 2 || t[2] == SLASH) {
      assert n == 2 && t[1..2] == [DOT];
    }
    if |t| > 2 && t[1] == DOT && t[2] == DOT && (|t| == 3 || t[3] == SLASH) {
      assert n == 3 && t[1..3] == [DOT, DOT];
    }
  }

  /** One turn of the loop on a first segment that is no dot segment moves it to the output. */
  lemma RemoveMoves(input: Text, output: Text)
    requires input != [] && input[0] == SLASH && !IsDotSegment(input[1..FirstSegment(input)])
    ensures var n := FirstSegment(input);
            RemoveDotSegments(input, output) == RemoveDotSegments(input[n..], output + input[..n]) && Rooted(input[n..])
  {
    FirstSegmentIsDot(input);
  }

  /** Removing dot segments keeps the length exactly when there was none to remove. */
  lemma {:induction false} RemoveKeepsExactlyDotFree(input: Text, output: Text)
    requires Rooted(input)
    ensures |RemoveDotSegments(input, output)| <= |input| + |output|
    ensures |RemoveDotSegments(input, output)| == |input| + |output| <==> DotFree(input)
    ensures DotFree(input) ==> RemoveDotSegments(input, output) == output + input
    decreases |input|
  {
    hide FirstSegment, IsDotSegment, HasPrefix;
    if input != [] {
      var n := FirstSegment(input);
      if IsDotSegment(input[1..n]) {
        RemoveShrinks(input, output);
      } else {
        RemoveMoves(input, output);
        RemoveKeepsExactlyDotFree(input[n..], output + input[..n]);
        assert output + input == (output + input[..n]) + input[n..];
      }
    }
  }

  lemma {:induction false} RemoveShrinks(input: Text, output: Text)
    requires input != [] && input[0] == SLASH && IsDotSegment(input[1..FirstSegment(input)])
    ensures |RemoveDotSegments(input, output)| < |input| + |output|
    decreases |input|, 0
  {
    FirstSegmentIsDot(input);
    if HasPrefix(input, [SLASH, DOT, SLASH]) {
      RemoveNeverGrows(input[2..], output);
    } else if input == [SLASH, DOT] {
      RemoveNeverGrows([SLASH], output);
    } else if HasPrefix(input, [SLASH, DOT, DOT, SLASH]) {
      RemoveNeverGrows(input[3..], WithoutLastSegment(output));
    } else {
      RemoveNeverGrows([SLASH], WithoutLastSegment(output));
    }
  }

  lemma {:induction false} RemoveNeverGrows(input: Text, output: Text)
    requires Rooted(input)
    ensures |RemoveDotSegments(input, output)| <= |input| + |output|
    decreases |input|, 1
  {
    if input != [] {
      FirstSegmentIsDot(input);
      if IsDotSegment(input[1..FirstSegment(input)]) {
        RemoveShrinks(input, output);
      } else {
        RemoveNeverGrows(input[FirstSegment(input)..], output + input[..FirstSegment(input)]);
      }
    }
  }

  /** The segments of a rooted text are the pieces its slashes start. */
  lemma SplitStep(t: Text)
    requires t != [] && t[0] == SLASH
    ensures var n := FirstSegment(t);
            && (forall i :: 1 <= i < n ==> t[i] != SLASH)
            && (n == |t| ==> Split(t[1..]) == [t[1..n]])
            && (n < |t| ==> t[n] == SLASH && Split(t[1..]) == [t[1..n]] + Split(t[n..][1..]))
  {
    var n := FirstSegment(t);
    assert forall i :: 1 <= i < |t| ==> t[i] == t[1..][i - 1];
    assert t[1..n] == t[1..][..n - 1];
    if n < |t| {
      assert t[n..][1..] == t[1..][n..];
    } else {
      assert t[1..n] == t[1..];
    }
  }

  lemma {:induction false} SegmentsOfRooted(t: Text)
    requires t != [] && t[0] == SLASH
    ensures DotFree(t) <==> forall segment :: segment in Split(t[1..]) ==> !IsDotSegment(segment)
    decreases |t|
  {
    hide Split, FirstSegment, IsDotSegment;
    var n := FirstSegment(t);
    SplitStep(t);
    if n < |t| {
      SegmentsOfRooted(t[n..]);
    } else {
      assert t[n..] == [];
    }
  }

  /** Apart from the root, an empty segment is a doubled slash or a slash at the end. */
  lemma {:induction false} EmptySegments(t: Text)
    requires t != [] && t[0] == SLASH
    ensures [] in Split(t[1..]) <==> DoubleSlash(t) || t[|t| - 1] == SLASH
    decreases |t|
  {
    hide Split, FirstSegment, DoubleSlash;
    var n := FirstSegment(t);
    SplitStep(t);
    assert |t[1..n]| == n - 1;
    if n < |t| {
      EmptySegments(t[n..]);
      DoubleSlashSplits(t, n);
    } else {
      NoDoubleSlash(t);
    }
  }

  lemma NoDoubleSlash(t: Text)
    requires forall i :: 1 <= i < |t| ==> t[i] != SLASH
    ensures !DoubleSlash(t)
  {
  }

  lemma DoubleSlashSplits(t: Text, n: nat)
    requires 0 < n < |t| && t[0] == SLASH && t[n] == SLASH
    requires forall i :: 1 <= i < n ==> t[i] != SLASH
    ensures DoubleSlash(t) <==> n == 1 || DoubleSlash(t[n..])
  {
    var rest := t[n..];
    assert forall i :: n <= i < |t| ==> t[i] == rest[i - n];
    if DoubleSlash(rest) {
      var i :| 0 <= i < |rest| - 1 && rest[i] == SLASH && rest[i + 1] == SLASH;
      assert t[i + n] == SLASH && t[i + n + 1] == SLASH;
    }
    if n == 1 {
      assert t[0] == SLASH && t[0 + 1] == SLASH;
    }
    if DoubleSlash(t) && n != 1 {
      var i :| 0 <= i < |t| - 1 && t[i] == SLASH && t[i + 1] == SLASH;
      assert i >= n;
      assert rest[i - n] == SLASH && rest[i - n + 1] == SLASH;
    }
  }

  // ----- theorems -----

  /** What a router's normalisation never repairs: length, root, alphabet, query, fragment and per-cent signs. */
  predicate PlainPath(value: Text) {
    && 0 < |value| <= 512 && value[0] == 0x2f && (forall i :: 0 <= i < |value| ==> 0x21 <= value[i] <= 0x7e)
    && 0x3f !in value && 0x23 !in value && 0x25 !in value
  }

  lemma PlainText(value: Text)
    ensures CheckText(value).None? ==> PlainPath(value)
    ensures PlainPath(value) ==>
              && value != [] && value[0] == SLASH && PERCENT !in value
              && (CheckText(value).None? <==> value == [SLASH] || value[|value| - 1] != SLASH)
  {
    NoWhitespace(value);
    hide IsSpace;
  }

  /**
   The check accepts exactly the plain absolute paths that removing dot
   segments, collapsing slashes, stripping a trailing slash and decoding
   per-cent escapes all leave unchanged.
   */
  lemma AcceptedExactlyFixedPoints(value: Text)
    ensures CheckRoute(value).None? <==> PlainPath(value) && FixedPoint(value)
  {
    hide Split, CheckSegments, CollapseSlashes, PercentDecode, RemoveDotSegments, DotFree, DoubleSlash, IsDotSegment, PlainPath,
         CheckText;
    PlainText(value);
    if PlainPath(value) {
      DecodeKeeps(value);
      CollapseShrinks(value);
      RemoveKeepsExactlyDotFree(value, []);
      SegmentsOfRooted(value);
      EmptySegments(value);
      SegmentRejections(Split(value[1..]));
      RootIsNormal(value);
    }
  }

  lemma NoWhitespace(value: Text)
    ensures PrintableAscii(value) ==> !exists i :: 0 <= i < |value| && IsSpace(value[i])
  {
  }

  lemma RootIsNormal(value: Text)
    ensures value == [SLASH] ==> DotFree(value) && !DoubleSlash(value)
  {
  }

  /** No two different accepted routes normalise to the same path. */
  lemma NormalisationIsInjective(a: Text, b: Text)
    requires CheckRoute(a).None? && CheckRoute(b).None?
    ensures Normalise(a) == a && (Normalise(a) == Normalise(b) <==> a == b)
  {
    hide CheckRoute, CollapseSlashes, PercentDecode, RemoveDotSegments, StripTrailingSlash;
    AcceptedExactlyFixedPoints(a);
    AcceptedExactlyFixedPoints(b);
  }

  /** An accepted route is the slash-joined list of its segments, none empty and none a dot segment. */
  lemma AcceptedSegments(value: Text)
    requires CheckRoute(value).None? && value != [SLASH]
    ensures value == [SLASH] + Join(Split(value[1..]))
    ensures forall segment :: segment in Split(value[1..]) ==>
              segment != [] && SLASH !in segment && !IsDotSegment(segment)
  {
    hide Split, Join, CheckSegments, IsDotSegment;
    JoinSplit(value[1..]);
    SegmentRejections(Split(value[1..]));
    assert value == [SLASH] + value[1..];
  }
}
