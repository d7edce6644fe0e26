/**
 The combined strength of independent weights, 1 - (1 - w1)(1 - w2)..., in double
 precision: when it reaches one, and how far rounding lets the order of the
 weights matter.
 */
module NoisyOr {
  import opened Binary64

  /** The left fold of complements. */
  function Complements(weights: seq<Unit>): Unit {
    if weights == [] then 1.0 else Times(Complements(weights[..|weights| - 1]), OneMinus(weights[|weights| - 1]))
  }

  function CombineNoisyOr(weights: seq<Unit>): Unit {
    OneMinus(Complements(weights))
  }

  lemma ComplementsAppend(weights: seq<Unit>, w: Unit)
    ensures Complements(weights + [w]) == Times(Complements(weights), OneMinus(w))
  {
    hide Times, OneMinus;
    assert (weights + [w])[..|weights|] == weights;
  }

  lemma ComplementsIsDouble(weights: seq<Unit>)
    ensures IsDouble(Complements(weights))
  {
    hide Times, OneMinus, IsDouble;
    ZeroAndOne();
    if weights != [] {
      TimesIsDouble(Complements(weights[..|weights| - 1]), OneMinus(weights[|weights| - 1]));
    }
  }

  /** One more weight never lowers the combined strength. */
  lemma NoisyOrGrows(weights: seq<Unit>, w: Unit)
    ensures Complements(weights + [w]) <= Complements(weights)
    ensures CombineNoisyOr(weights + [w]) >= CombineNoisyOr(weights)
  {
    hide Complements, Times, OneMinus, IsDouble;
    ComplementsAppend(weights, w);
    ComplementsIsDouble(weights);
    TimesShrinks(Complements(weights), OneMinus(w));
    OneMinusAntitone(Complements(weights + [w]), Complements(weights));
  }

  // ----- saturation -----

  /** The strength is one exactly when the product of complements has come down to half an ulp. */
  lemma SaturatesExactlyWhen(weights: seq<Unit>)
    ensures CombineNoisyOr(weights) == 1.0 <==> Complements(weights) <= HalfUlps(1)
  {
    hide Complements, Round;
    RoundsToOne(Complements(weights));
  }

  /** One certain weight saturates the strength, whatever comes after it. */
  lemma {:induction false} CertaintySaturates(weights: seq<Unit>, i: nat)
    requires i < |weights| && weights[i] == 1.0
    ensures Complements(weights) == 0.0 && CombineNoisyOr(weights) == 1.0
  {
    hide Round;
    ZeroAndOne();
    if i < |weights| - 1 {
      CertaintySaturates(weights[..|weights| - 1], i);
    }
  }

  function Halves(n: nat): (weights: seq<Unit>)
    ensures |weights| == n && forall i :: 0 <= i < n ==> weights[i] == 0.5
  {
    seq(n, _ => 0.5)
  }

  lemma {:induction false} HalvesMultiply(n: nat)
    requires n <= 1022
    ensures Complements(Halves(n)) == Half(n)
  {
    hide Round;
    if n > 0 {
      assert Halves(n)[..n - 1] == Halves(n - 1);
      HalvesMultiply(n - 1);
      ZeroAndOne();
      HalfIsDouble(n);
    }
  }

  function Pow2(n: nat): nat {
    if n == 0 then 1 else 2 * Pow2(n - 1)
  }

  lemma {:induction false} HalfTimesPow2(n: nat)
    ensures Half(n) * Pow2(n) as real == 1.0
  {
    if n > 0 {
      HalfTimesPow2(n - 1);
      calc {
        Half(n) * Pow2(n) as real;
        (Half(n - 1) / 2.0) * (2.0 * Pow2(n - 1) as real);
        Half(n - 1) * Pow2(n - 1) as real;
      }
    }
  }

  lemma Pow2Next(n: nat)
    ensures Pow2(n + 6) == 64 * Pow2(n)
  {
    assert Pow2(n + 2) == 2 * Pow2(n + 1) == 4 * Pow2(n);
    assert Pow2(n + 4) == 2 * Pow2(n + 3) == 4 * Pow2(n + 2);
    assert Pow2(n + 6) == 2 * Pow2(n + 5) == 4 * Pow2(n + 4);
  }

  lemma PowersOfTwo()
    ensures Pow2(54) == 18014398509481984 && Pow2(53) == 9007199254740992
  {
    PowersOfTwoAt();
    assert Pow2(54) == 2 * Pow2(53);
  }

  lemma PowersOfTwoAt()
    ensures Pow2(54) == 18014398509481984
  {
    hide Pow2;
    Pow2Zero();
    Pow2Next(0);
    Pow2Next(6);
    Pow2Next(12);
    Pow2Next(18);
    Pow2Next(24);
    Pow2Next(30);
    Pow2Next(36);
    Pow2Next(42);
    Pow2Next(48);
  }

  lemma Pow2Zero()
    ensures Pow2(0) == 1
  {
  }

  /** Fifty-four weights of one half saturate the strength, although none of them is certain; fifty-three do not. */
  lemma HalvesSaturate()
    ensures CombineNoisyOr(Halves(54)) == 1.0 && CombineNoisyOr(Halves(53)) < 1.0
  {
    hide Complements, CombineNoisyOr, Half, Pow2;
    HalvesMultiply(54);
    HalvesMultiply(53);
    HalfTimesPow2(54);
    HalfTimesPow2(53);
    PowersOfTwo();
    SaturatesExactlyWhen(Halves(54));
    SaturatesExactlyWhen(Halves(53));
  }

  // ----- the order of the weights -----

  /** The product of complements without rounding. */
  function Exact(weights: seq<Unit>): Unit {
    if weights == [] then 1.0 else Product(Exact(weights[..|weights| - 1]), 1.0 - weights[|weights| - 1])
  }

  lemma ExactAppend(weights: seq<Unit>, w: Unit)
    ensures Exact(weights + [w]) == Product(Exact(weights), 1.0 - w)
  {
    hide Product;
    assert (weights + [w])[..|weights|] == weights;
  }

  lemma Swap(a: Unit, b: Unit, c: Unit)
    ensures Product(Product(a, b), c) == Product(Product(a, c), b)
  {
  }

  /** Taking one weight out of the middle takes its factor out of the exact product. */
  lemma {:induction false} ExactWithout(weights: seq<Unit>, i: nat)
    requires i < |weights|
    ensures Exact(weights) == Product(Exact(weights[..i] + weights[i + 1..]), 1.0 - weights[i])
  {
    hide Exact, Product;
    var last := weights[|weights| - 1];
    var front := weights[..|weights| - 1];
    assert weights == front + [last];
    ExactAppend(front, last);
    if i == |weights| - 1 {
      assert weights[..i] + weights[i + 1..] == front;
    } else {
      var others := front[..i] + front[i + 1..];
      ExactWithout(front, i);
      assert weights[..i] + weights[i + 1..] == others + [last];
      ExactAppend(others, last);
      Swap(Exact(others), 1.0 - weights[i], 1.0 - last);
    }
  }

  /** A permutation holds the last element of the other somewhere; without it the rests are permutations. */
  lemma Matching<T>(a: seq<T>, b: seq<T>) returns (i: nat)
    requires multiset(a) == multiset(b) && a != []
    ensures i < |b| && b[i] == a[|a| - 1]
    ensures multiset(a[..|a| - 1]) == multiset(b[..i] + b[i + 1..])
  {
    assert a == a[..|a| - 1] + [a[|a| - 1]];
    assert a[|a| - 1] in multiset(b);
    i :| 0 <= i < |b| && b[i] == a[|a| - 1];
    assert b == b[..i] + [b[i]] + b[i + 1..];
    assert multiset(b) == multiset(b[..i]) + multiset{b[i]} + multiset(b[i + 1..]);
    assert multiset(b[..i] + b[i + 1..]) == multiset(b) - multiset{b[i]};
    assert multiset(a) == multiset(a[..|a| - 1]) + multiset{b[i]};
  }

  lemma EmptyPermutation<T>(b: seq<T>)
    requires multiset(b) == multiset{}
    ensures b == []
  {
    assert |b| == |multiset(b)|;
  }

  lemma {:induction false} ExactPermute(a: seq<Unit>, b: seq<Unit>)
    requires multiset(a) == multiset(b)
    ensures Exact(a) == Exact(b)
  {
    hide Exact, Product;
    if a == [] {
      EmptyPermutation(b);
    } else {
      var i := Matching(a, b);
      ExactPermute(a[..|a| - 1], b[..i] + b[i + 1..]);
      ExactWithout(a, |a| - 1);
      assert a[..|a| - 1] + a[|a|..] == a[..|a| - 1];
      ExactWithout(b, i);
    }
  }

  lemma ScaledDown(a: Unit, x: real, e: real)
    requires -e <= x <= e
    ensures -e <= a * x <= e
  {
    assert a * (e - x) >= 0.0 && a * (e + x) >= 0.0;
    assert a * e <= e by {
      assert (1.0 - a) * e >= 0.0;
    }
  }

  /** Errors of two factors between 0 and 1 add up at most. */
  lemma ProductError(x: Unit, y: Unit, x': Unit, y': Unit, e: real, d: real)
    requires Within(x, x', e) && Within(y, y', d)
    ensures Within(Product(x, y), Product(x', y'), e + d)
  {
    assert x * y - x' * y' == x * (y - y') + y' * (x - x');
    ScaledDown(x, y - y', d);
    ScaledDown(y', x - x', e);
  }

  lemma NoWeights()
    ensures Complements([]) == Exact([]) == 1.0
  {
  }

  /** One more factor: the error so far, the error of the factor, and the rounding of the product. */
  lemma StepError(computed: Unit, acc: Unit, c: Unit, exact: Unit, f: Unit, n: nat)
    requires Within(acc, exact, HalfUlps(2 * n)) && Within(c, f, HalfUlps(1)) && Within(computed, Product(acc, c), HalfUlps(1))
    ensures Within(computed, Product(exact, f), HalfUlps(2 * (n + 1)))
  {
    hide Product;
    ProductError(acc, c, exact, f, HalfUlps(2 * n), HalfUlps(1));
    AddErrors(computed, Product(acc, c), Product(exact, f), n);
  }

  lemma AddErrors(computed: real, product: real, exact: real, n: nat)
    requires Within(computed, product, HalfUlps(1)) && Within(product, exact, HalfUlps(2 * n) + HalfUlps(1))
    ensures Within(computed, exact, HalfUlps(2 * (n + 1)))
  {
  }

  /** Each weight costs at most one unit in the last place: half for its complement and half for the product. */
  lemma {:induction false} RoundingError(weights: seq<Unit>)
    ensures Within(Complements(weights), Exact(weights), HalfUlps(2 * |weights|))
  {
    hide Times, OneMinus, Product, Complements, Exact, Within, HalfUlps;
    if weights == [] {
      NoWeights();
      NoError(1.0);
    } else {
      var front, last := weights[..|weights| - 1], weights[|weights| - 1];
      assert weights == front + [last];
      RoundingError(front);
      ComplementsAppend(front, last);
      ExactAppend(front, last);
      OneMinusError(last);
      TimesError(Complements(front), OneMinus(last));
      StepError(Complements(weights), Complements(front), OneMinus(last), Exact(front), 1.0 - last, |front|);
    }
  }

  lemma NoError(x: real)
    ensures Within(x, x, HalfUlps(0))
  {
  }

  /** How far the order of the weights can move the combined strength. */
  lemma OrderError(a: seq<Unit>, b: seq<Unit>)
    requires multiset(a) == multiset(b)
    ensures |a| == |b|
    ensures Within(CombineNoisyOr(a), CombineNoisyOr(b), HalfUlps(4 * |a| + 2))
  {
    hide OneMinus, Complements, Exact;
    assert |a| == |multiset(a)| && |b| == |multiset(b)|;
    RoundingError(a);
    RoundingError(b);
    ExactPermute(a, b);
    OneMinusError(Complements(a));
    OneMinusError(Complements(b));
  }

  // ----- an order that matters -----

  const QUARTER: Unit := 0.25
  /** The doubles written 0.2, 0.15 and 0.4. */
  const FIFTH: Unit := 7205759403792794.0 / 36028797018963968.0
  const THREE_TWENTIETHS: Unit := 5404319552844595.0 / 36028797018963968.0
  const TWO_FIFTHS: Unit := 7205759403792794.0 / 18014398509481984.0

  lemma WrittenValues()
    ensures Round(0.2) == FIFTH && Round(0.15) == THREE_TWENTIETHS && Round(0.4) == TWO_FIFTHS
  {
    hide Round;
    RoundThird(0.2, 7205759403792794);
    RoundThird(0.15, 5404319552844595);
    RoundSecond(0.4, 7205759403792794);
  }

  lemma ThreeFactors(a: Unit, b: Unit, c: Unit)
    ensures Complements([a, b, c]) == Times(Times(Times(1.0, OneMinus(a)), OneMinus(b)), OneMinus(c))
  {
    hide Times, OneMinus;
    assert [a, b, c] == [a, b] + [c] && [a, b] == [a] + [b] && [a] == [] + [a];
    ComplementsAppend([a, b], c);
    ComplementsAppend([a], b);
    ComplementsAppend([], a);
  }

  lemma OneFactor(a: Unit)
    ensures Complements([a]) == Times(1.0, OneMinus(a))
  {
    hide Times, OneMinus;
    assert [a] == [] + [a];
    ComplementsAppend([], a);
  }

  lemma RoundedComplements()
    ensures OneMinus(QUARTER) == 0.75
    ensures OneMinus(FIFTH) == 7205759403792794.0 / TWO_53
    ensures OneMinus(THREE_TWENTIETHS) == 7656119366529843.0 / TWO_53
    ensures Times(1.0, 0.75) == 0.75
    ensures Times(1.0, 7205759403792794.0 / TWO_53) == 7205759403792794.0 / TWO_53
    ensures Times(1.0, 7656119366529843.0 / TWO_53) == 7656119366529843.0 / TWO_53
  {
    hide Round;
    RoundUpper(1.0 - QUARTER, 6755399441055744);
    RoundUpper(0.75, 6755399441055744);
    RoundUpper(1.0 - FIFTH, 7205759403792794);
    RoundUpper(7205759403792794.0 / TWO_53, 7205759403792794);
    RoundUpper(1.0 - THREE_TWENTIETHS, 7656119366529843);
    RoundUpper(7656119366529843.0 / TWO_53, 7656119366529843);
  }

  /** The small weight last: the product is rounded once. */
  lemma SmallWeightLast()
    ensures CombineNoisyOr([QUARTER, QUARTER, FIFTH]) == 4953959590107546.0 / TWO_53
  {
    hide Round, Complements;
    RoundedComplements();
    ThreeFactors(QUARTER, QUARTER, FIFTH);
    RoundUpper(0.75 * 0.75, 5066549580791808);
    RoundSecond(5066549580791808.0 / TWO_53 * (7205759403792794.0 / TWO_53), 8106479329266893);
    RoundUpper(1.0 - 8106479329266893.0 / TWO_53 / 2.0, 4953959590107546);
  }

  /** The small weight first: it is rounded twice, and the product comes out larger. */
  lemma SmallWeightFirst()
    ensures CombineNoisyOr([FIFTH, QUARTER, QUARTER]) == 4953959590107545.0 / TWO_53
  {
    hide Round, Complements;
    RoundedComplements();
    ThreeFactors(FIFTH, QUARTER, QUARTER);
    RoundUpper(7205759403792794.0 / TWO_53 * 0.75, 5404319552844596);
    RoundSecond(5404319552844596.0 / TWO_53 * 0.75, 8106479329266894);
    RoundUpper(1.0 - 8106479329266894.0 / TWO_53 / 2.0, 4953959590107545);
  }

  lemma OneContradiction()
    ensures CombineNoisyOr([THREE_TWENTIETHS]) == 5404319552844596.0 / TWO_53 / 4.0
  {
    hide Round, Complements;
    RoundedComplements();
    OneFactor(THREE_TWENTIETHS);
    RoundThird(1.0 - 7656119366529843.0 / TWO_53, 5404319552844596);
  }

  /** The same three weights against the same contradiction: in one order the difference reaches 0.4, in the other it does not. */
  lemma OrderMatters()
    ensures MinusOrZero(CombineNoisyOr([QUARTER, QUARTER, FIFTH]), CombineNoisyOr([THREE_TWENTIETHS])) == Round(0.4)
    ensures Round(0.2) < MinusOrZero(CombineNoisyOr([FIFTH, QUARTER, QUARTER]), CombineNoisyOr([THREE_TWENTIETHS])) < Round(0.4)
  {
    hide Round, CombineNoisyOr;
    WrittenValues();
    SmallWeightLast();
    SmallWeightFirst();
    OneContradiction();
    RoundSecond(4953959590107546.0 / TWO_53 - 5404319552844596.0 / TWO_53 / 4.0, 7205759403792794);
    RoundSecond(4953959590107545.0 / TWO_53 - 5404319552844596.0 / TWO_53 / 4.0, 7205759403792792);
  }
}
