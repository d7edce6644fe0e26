/**
 Double-precision arithmetic on the unit interval (IEEE 754, binary64, round to
 nearest, ties to even), subnormals included: what the language's `*` and `-`
 yield when operands and result lie between 0 and 1.
 */
module Binary64 {
  /** Any value between 0 and 1; a double among them is one that rounding leaves alone. */
  type Unit = x: real | 0.0 <= x <= 1.0 witness 0.0

  const TWO_53: real := 9007199254740992.0

  /** That many half units in the last place below one. */
  function HalfUlps(n: nat): real {
    n as real / 18014398509481984.0
  }

  predicate Within(x: real, y: real, e: real) {
    -e <= x - y <= e
  }

  /** The nearest integer, the even one of two equally near. */
  function Nearest(y: real): (n: int)
    ensures -0.5 <= n as real - y <= 0.5
    ensures y >= 4503599627370496.0 ==> n >= 4503599627370496
    ensures y <= 4503599627370496.0 ==> n <= 4503599627370496
    ensures 0.0 <= y <= TWO_53 ==> 0 <= n <= 9007199254740992
  {
    var floor := y.Floor;
    if y - floor as real < 0.5 then floor
    else if y - floor as real > 0.5 then floor + 1
    else if floor % 2 == 0 then floor
    else floor + 1
  }

  /**
   Rounding with `k` more binades below the current one: 53 significant bits from
   one half up, the same of the doubled value below it, and a fixed grid once the
   least exponent is reached.
   */
  function RoundAt(x: Unit, k: nat): (r: Unit)
    ensures x >= 0.5 ==> r >= 0.5
    ensures x <= 0.5 ==> r <= 0.5
    decreases k
  {
    if k == 0 || x >= 0.5 then Grid(x) else RoundAt(2.0 * x, k - 1) / 2.0
  }

  function Grid(x: Unit): (r: Unit)
    ensures x >= 0.5 ==> r >= 0.5
    ensures x <= 0.5 ==> r <= 0.5
    ensures Within(r, x, HalfUlps(1))
  {
    Nearest(x * TWO_53) as real / TWO_53
  }

  /** The double nearest to a value; normal numbers below one span 1021 binades under one half. */
  function Round(x: Unit): Unit {
    RoundAt(x, 1021)
  }

  predicate IsDouble(x: Unit) {
    Round(x) == x
  }

  /** A finite double, of which only the part between 0 and 1 is pinned down. */
  type Number = x: real | 0.0 < x < 1.0 ==> IsDouble(x) witness 0.0

  // ----- what rounding keeps -----

  lemma GridMonotone(x: Unit, y: Unit)
    requires x <= y
    ensures Grid(x) <= Grid(y)
  {
    assert x * TWO_53 <= y * TWO_53;
    assert (x * TWO_53).Floor <= (y * TWO_53).Floor;
  }

  lemma GridOfGrid(x: Unit)
    ensures Grid(Grid(x)) == Grid(x)
  {
    assert Grid(x) * TWO_53 == Nearest(x * TWO_53) as real;
  }

  lemma {:induction false} RoundAtMonotone(x: Unit, y: Unit, k: nat)
    requires x <= y
    ensures RoundAt(x, k) <= RoundAt(y, k)
    decreases k
  {
    hide Grid;
    if k == 0 || x >= 0.5 {
      GridMonotone(x, y);
    } else if y < 0.5 {
      RoundAtMonotone(2.0 * x, 2.0 * y, k - 1);
    }
  }

  lemma RoundMonotone(x: Unit, y: Unit)
    requires x <= y
    ensures Round(x) <= Round(y)
  {
    RoundAtMonotone(x, y, 1021);
  }

  lemma {:induction false} RoundAtIdempotent(x: Unit, k: nat)
    ensures RoundAt(RoundAt(x, k), k) == RoundAt(x, k)
    decreases k
  {
    hide Grid;
    if k == 0 || x >= 0.5 {
      GridOfGrid(x);
    } else {
      var doubled := RoundAt(2.0 * x, k - 1);
      RoundAtIdempotent(2.0 * x, k - 1);
      if doubled == 1.0 {
        GridAtHalf();
      }
    }
  }

  lemma GridAtHalf()
    ensures Grid(0.5) == 0.5 && Grid(1.0) == 1.0 && Grid(0.0) == 0.0
  {
  }

  /** What rounding yields is a double. */
  lemma RoundIsDouble(x: Unit)
    ensures IsDouble(Round(x))
  {
    RoundAtIdempotent(x, 1021);
  }

  lemma {:induction false} RoundAtError(x: Unit, k: nat)
    ensures Within(RoundAt(x, k), x, HalfUlps(1))
    decreases k
  {
    hide Grid;
    if k > 0 && x < 0.5 {
      RoundAtError(2.0 * x, k - 1);
    }
  }

  /** No rounding on the unit interval moves a value by more than half a unit in the last place below one. */
  lemma RoundError(x: Unit)
    ensures Within(Round(x), x, HalfUlps(1))
  {
    RoundAtError(x, 1021);
  }

  function Half(n: nat): Unit {
    if n == 0 then 1.0 else Half(n - 1) / 2.0
  }

  lemma {:induction false} HalfExact(n: nat, k: nat)
    requires n <= k + 1
    ensures RoundAt(Half(n), k) == Half(n)
  {
    GridAtHalf();
    if n >= 2 {
      if n == 2 {
        assert Half(2) < 0.5;
      } else {
        HalfBelow(n);
      }
      HalfExact(n - 1, k - 1);
    } else {
      assert n == 1 ==> Half(1) == 0.5;
    }
  }

  lemma {:induction false} HalfBelow(n: nat)
    requires n >= 2
    ensures Half(n) < 0.5
  {
    if n > 2 {
      HalfBelow(n - 1);
    }
  }

  lemma HalfIsDouble(n: nat)
    requires n <= 1022
    ensures IsDouble(Half(n))
  {
    HalfExact(n, 1021);
  }

  lemma ZeroAndOne()
    ensures IsDouble(0.0) && IsDouble(1.0) && IsDouble(0.5)
  {
    ZeroStays(1021);
    HalfExact(0, 1021);
    HalfExact(1, 1021);
    assert Half(1) == 0.5;
  }

  lemma {:induction false} ZeroStays(k: nat)
    ensures RoundAt(0.0, k) == 0.0
  {
    GridAtHalf();
    if k > 0 {
      ZeroStays(k - 1);
    }
  }

  /** One minus a value rounds to one exactly up to half a unit in the last place; the tie goes to one. */
  lemma RoundsToOne(c: Unit)
    ensures Round(1.0 - c) == 1.0 <==> c <= HalfUlps(1)
  {
    var y := (1.0 - c) * TWO_53;
    if 1.0 - c >= 0.5 {
      assert Nearest(y) == 9007199254740992 <==> y >= 9007199254740991.5;
    }
  }

  /** The double a decimal between 0 and 1 is read as. */
  function Written(x: Unit): (r: Number)
    ensures r == Round(x)
  {
    RoundIsDouble(x);
    Round(x)
  }

  /** Rounding in the topmost binade, and in the two below it. */
  lemma RoundUpper(x: Unit, n: int)
    requires x >= 0.5 && Nearest(x * TWO_53) == n
    ensures Round(x) == n as real / TWO_53
  {
  }

  lemma RoundSecond(x: Unit, n: int)
    requires 0.25 <= x < 0.5 && Nearest(2.0 * x * TWO_53) == n
    ensures Round(x) == n as real / TWO_53 / 2.0
  {
    hide Grid;
    assert Round(x) == RoundAt(2.0 * x, 1020) / 2.0;
    GridAt(2.0 * x);
  }

  lemma RoundThird(x: Unit, n: int)
    requires 0.125 <= x < 0.25 && Nearest(4.0 * x * TWO_53) == n
    ensures Round(x) == n as real / TWO_53 / 4.0
  {
    hide Grid;
    assert Round(x) == RoundAt(2.0 * x, 1020) / 2.0;
    assert RoundAt(2.0 * x, 1020) == RoundAt(4.0 * x, 1019) / 2.0;
    GridAt(4.0 * x);
  }

  lemma GridAt(x: Unit)
    ensures Grid(x) == Nearest(x * TWO_53) as real / TWO_53
  {
  }

  // ----- the operators -----

  lemma ProductInUnit(a: Unit, b: Unit)
    ensures 0.0 <= a * b <= a
  {
  }

  /** The product without rounding. */
  function Product(a: Unit, b: Unit): (r: Unit)
    ensures r <= a
  {
    ProductInUnit(a, b);
    a * b
  }

  /** The product of two doubles. */
  function Times(a: Unit, b: Unit): Unit {
    Round(Product(a, b))
  }

  /** One minus a double. */
  function OneMinus(a: Unit): Unit {
    Round(1.0 - a)
  }

  /** The difference of two doubles, no less than zero. */
  function MinusOrZero(a: Unit, b: Unit): Unit {
    if a <= b then 0.0 else Round(a - b)
  }

  lemma TimesIsDouble(a: Unit, b: Unit)
    ensures IsDouble(Times(a, b))
  {
    hide Round, IsDouble, Product;
    RoundIsDouble(Product(a, b));
  }

  lemma TimesError(a: Unit, b: Unit)
    ensures Within(Times(a, b), Product(a, b), HalfUlps(1))
  {
    hide Round, Product;
    RoundError(Product(a, b));
  }

  lemma OneMinusError(a: Unit)
    ensures Within(OneMinus(a), 1.0 - a, HalfUlps(1))
  {
    hide Round;
    RoundError(1.0 - a);
  }

  /** The larger the double taken from one, the smaller the rest. */
  lemma OneMinusAntitone(a: Unit, b: Unit)
    requires a <= b
    ensures OneMinus(b) <= OneMinus(a)
  {
    hide Round;
    RoundMonotone(1.0 - b, 1.0 - a);
  }

  lemma MinusError(a: Unit, b: Unit)
    ensures a >= b ==> Within(MinusOrZero(a, b), a - b, HalfUlps(1))
    ensures a <= b ==> MinusOrZero(a, b) == 0.0
  {
    hide Round;
    if a > b {
      RoundError(a - b);
    }
  }

  lemma MinusMonotone(a: Unit, b: Unit, c: Unit)
    requires a <= b
    ensures MinusOrZero(a, c) <= MinusOrZero(b, c)
  {
    hide Round;
    if a > c {
      RoundMonotone(a - c, b - c);
    }
  }

  /** Multiplying a double never raises it. */
  lemma TimesShrinks(a: Unit, b: Unit)
    requires IsDouble(a)
    ensures Times(a, b) <= a
  {
    hide Round;
    RoundMonotone(Product(a, b), a);
  }

  lemma TimesOne(c: Unit)
    requires IsDouble(c)
    ensures Times(c, 1.0) == c
  {
    hide Round;
    assert Product(c, 1.0) == c;
  }

  /** Halving a double reaches one half only from one. */
  lemma HalvesRound(c: Unit)
    requires IsDouble(c)
    ensures Times(c, 0.5) <= 0.5 && Times(c, 0.25) <= 0.25
    ensures Times(c, 0.5) == 0.5 <==> c == 1.0
  {
    hide Grid;
    assert Product(c, 0.5) == c / 2.0 && Product(c, 0.25) == c / 4.0;
    HalfIsDouble(2);
    assert Half(2) == 0.25;
    RoundMonotone(c / 4.0, 0.25);
    ZeroAndOne();
    if c < 1.0 {
      assert Round(c / 2.0) == RoundAt(c, 1020) / 2.0;
    }
  }
}
