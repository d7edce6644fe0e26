/**
 The order in which JSON.stringify lists the keys of an object whose entries
 were inserted in sorted order: array-index keys first, by number, then every
 other key in code-unit order (section 10.1.11 of ECMA-262).
 */
module KeyOrder {
  import opened JsText

  predicate IsDigit(c: CodeUnit) {
    0x30 <= c <= 0x39
  }

  predicate AllDigits(t: Text) {
    forall i :: 0 <= i < |t| ==> IsDigit(t[i])
  }

  function DigitsValue(t: Text): (n: nat)
    requires AllDigits(t)
  {
    if t == [] then 0 else DigitsValue(t[..|t| - 1]) * 10 + (t[|t| - 1] - 0x30)
  }

  /** A decimal numeral without a superfluous leading zero. */
  predicate IsNumeral(t: Text) {
    t != [] && AllDigits(t) && (t[0] != 0x30 || |t| == 1)
  }

  /** The keys ECMA-262 calls array indices: canonical numerals below 2^32 - 1. */
  predicate IsIndexKey(t: Text) {
    IsNumeral(t) && DigitsValue(t) < 0xffff_ffff
  }

  /** Comparing canonical numerals by length and then by digits; `ShortlexIsNumeric` says why that is by number. */
  predicate Shortlex(a: Text, b: Text) {
    |a| < |b| || (|a| == |b| && Less(a, b))
  }

  predicate KeyBefore(a: Text, b: Text) {
    if IsIndexKey(a) then !IsIndexKey(b) || Shortlex(a, b)
    else !IsIndexKey(b) && Less(a, b)
  }

  lemma KeyBeforeTransitive(a: Text, b: Text, c: Text)
    requires KeyBefore(a, b) && KeyBefore(b, c)
    ensures KeyBefore(a, c)
  {
    if Less(a, b) && Less(b, c) {
      LessTransitive(a, b, c);
    }
  }

  lemma KeyBeforeTotal(a: Text, b: Text)
    ensures KeyBefore(a, b) || a == b || KeyBefore(b, a)
    ensures !(KeyBefore(a, b) && a == b) && !(KeyBefore(a, b) && KeyBefore(b, a))
  {
    LessTotal(a, b);
  }

  function Pow10(k: nat): (p: nat)
    ensures p > 0
  {
    if k == 0 then 1 else 10 * Pow10(k - 1)
  }

  lemma {:induction false} DigitsBound(t: Text)
    requires AllDigits(t)
    ensures DigitsValue(t) < Pow10(|t|)
    ensures t != [] && t[0] != 0x30 ==> DigitsValue(t) >= Pow10(|t| - 1)
  {
    if |t| > 1 {
      DigitsBound(t[..|t| - 1]);
    } else if |t| == 1 {
      assert t[..0] == [];
    }
  }

  /** Splitting off the leading digit. */
  lemma {:induction false} DigitsSplit(t: Text)
    requires AllDigits(t) && t != []
    ensures DigitsValue(t) == (t[0] - 0x30) * Pow10(|t| - 1) + DigitsValue(t[1..])
  {
    var u := t[..|t| - 1];
    if |t| == 1 {
      assert u == [] && t[1..] == [];
    } else {
      DigitsSplit(u);
      assert t[1..][..|t| - 2] == u[1..];
      TimesTen(t[0] - 0x30, Pow10(|t| - 2));
    }
  }

  lemma TimesTen(d: int, p: int)
    ensures (d * p) * 10 == d * (10 * p)
  {
  }

  /** The order on canonical numerals is the order on the numbers they spell. */
  lemma {:induction false} ShortlexIsNumeric(a: Text, b: Text)
    requires IsNumeral(a) && IsNumeral(b)
    ensures Shortlex(a, b) <==> DigitsValue(a) < DigitsValue(b)
  {
    if |a| < |b| {
      LongerIsLarger(a, b);
    } else if |b| < |a| {
      LongerIsLarger(b, a);
    } else {
      SameLengthOrder(a, b);
    }
  }

  predicate AgreeUpTo(a: Text, b: Text, k: nat) {
    k <= |a| && k <= |b| && forall i :: 0 <= i < k ==> a[i] == b[i]
  }

  /** `a` ends first, or they differ first where `a` has the smaller code unit. */
  ghost predicate FirstDifferenceIsSmaller(a: Text, b: Text) {
    exists k: nat :: AgreeUpTo(a, b, k) && k < |b| && (k == |a| || a[k] < b[k])
  }

  lemma TailsAgree(a: Text, b: Text, k: nat)
    requires a != [] && b != [] && a[0] == b[0]
    ensures AgreeUpTo(a[1..], b[1..], k) <==> AgreeUpTo(a, b, k + 1)
  {
    if AgreeUpTo(a[1..], b[1..], k) {
      forall i | 0 < i < k + 1
        ensures a[i] == b[i]
      {
        assert a[i] == a[1..][i - 1] && b[i] == b[1..][i - 1];
      }
    }
  }

  lemma {:induction false} LessMeans(a: Text, b: Text)
    ensures Less(a, b) <==> FirstDifferenceIsSmaller(a, b)
  {
    assert AgreeUpTo(a, b, 0);
    if a != [] && b != [] && a[0] == b[0] {
      LessMeans(a[1..], b[1..]);
      if Less(a, b) {
        var k: nat :| AgreeUpTo(a[1..], b[1..], k) && k < |b[1..]| && (k == |a[1..]| || a[1..][k] < b[1..][k]);
        TailsAgree(a, b, k);
      }
      if FirstDifferenceIsSmaller(a, b) {
        var k: nat :| AgreeUpTo(a, b, k) && k < |b| && (k == |a| || a[k] < b[k]);
        TailsAgree(a, b, k - 1);
      }
    }
  }

  /** Array indices come first and stand in numeric order; all other keys follow in code-unit order. */
  lemma KeyOrderMeans(a: Text, b: Text)
    ensures IsNumeral(a) && DigitsValue(a) < 4_294_967_295 && IsNumeral(b) && DigitsValue(b) < 4_294_967_295 ==>
              (KeyBefore(a, b) <==> DigitsValue(a) < DigitsValue(b))
    ensures IsNumeral(a) && DigitsValue(a) < 4_294_967_295 && !(IsNumeral(b) && DigitsValue(b) < 4_294_967_295) ==>
              KeyBefore(a, b) && !KeyBefore(b, a)
    ensures !(IsNumeral(a) && DigitsValue(a) < 4_294_967_295) && !(IsNumeral(b) && DigitsValue(b) < 4_294_967_295) ==>
              (KeyBefore(a, b) <==> FirstDifferenceIsSmaller(a, b))
  {
    hide FirstDifferenceIsSmaller, Less;
    LessMeans(a, b);
    if IsIndexKey(a) && IsIndexKey(b) {
      ShortlexIsNumeric(a, b);
    }
  }

  lemma LongerIsLarger(a: Text, b: Text)
    requires IsNumeral(a) && IsNumeral(b) && |a| < |b|
    ensures DigitsValue(a) < DigitsValue(b)
  {
    DigitsBound(a);
    DigitsBound(b);
    Pow10Monotone(|a|, |b| - 1);
  }

  lemma {:induction false} Pow10Monotone(i: nat, j: nat)
    requires i <= j
    ensures Pow10(i) <= Pow10(j)
    decreases j - i
  {
    if i < j { Pow10Monotone(i + 1, j); }
  }

  lemma {:induction false} SameLengthOrder(a: Text, b: Text)
    requires AllDigits(a) && AllDigits(b) && |a| == |b|
    ensures Less(a, b) <==> DigitsValue(a) < DigitsValue(b)
  {
    if a != [] {
      DigitsSplit(a);
      DigitsSplit(b);
      DigitsBound(a[1..]);
      DigitsBound(b[1..]);
      SameLengthOrder(a[1..], b[1..]);
      LeadingDigitDecides(a[0] - 0x30, b[0] - 0x30, Pow10(|a| - 1), DigitsValue(a[1..]), DigitsValue(b[1..]));
    }
  }

  lemma LeadingDigitDecides(d: int, e: int, p: int, x: int, y: int)
    requires 0 <= x < p && 0 <= y < p
    ensures d * p + x < e * p + y <==> d < e || (d == e && x < y)
  {
    if d < e {
      assert (d + 1) * p <= e * p;
    } else if e < d {
      assert (e + 1) * p <= d * p;
    }
  }
}
