/** Download completion of rust/src/package_progress.rs, computed in doubles as `DownloadProgress::new` does. */
module Percentage {
  import opened Float64

  lemma CountIsPositive(n: nat)
    requires n > 0
    ensures Round(n as real) >= 1.0
  {
    RoundIsMonotone(1.0, n as real);
    IntegersAreFixed(1);
  }

  lemma QuotientGrows(x: real, y: real, d: real)
    requires x <= y && d > 0.0
    ensures x / d <= y / d
    ensures x < y ==> x / d < y / d
  {
    var gap := (y - x) / d;
    assert gap * d == y - x;
    assert y / d - x / d == gap;
  }

  /** `100.0 * received as f64 / total as f64`, or 100 of nothing. */
  function Percent(received: nat, total: nat): real {
    if total == 0 then 100.0
    else
      CountIsPositive(total);
      QuotientGrows(0.0, Round(100.0 * Round(received as real)), Round(total as real));
      Round(Round(100.0 * Round(received as real)) / Round(total as real))
  }

  /** The doubles next to 100. */
  const ABOVE_HUNDRED: real := 100.0 + 1.0 / 70_368_744_177_664.0
  const BELOW_HUNDRED: real := 100.0 - 1.0 / 70_368_744_177_664.0

  /** A multiple of 2^-46 below 128 is a double. */
  lemma NearHundred(m: nat)
    requires m <= TWO_TO_THE_53
    ensures var x := m as real / 70_368_744_177_664.0;
      x >= 0.0 && Round(x) == x
  {
    Powers();
    DownIsQuotient(m as real, 46);
    RoundFixes(m, 46);
  }

  lemma HundredIsFixed()
    ensures Round(100.0) == 100.0 && Round(ABOVE_HUNDRED) == ABOVE_HUNDRED
  {
    IntegersAreFixed(100);
    NearHundred(7_036_874_417_766_401);
    assert 7_036_874_417_766_401 as real / 70_368_744_177_664.0 == ABOVE_HUNDRED;
  }

  lemma QuotientOfProduct(a: real, d: real)
    requires d > 0.0
    ensures a * d / d == a
  {
  }

  lemma QuotientIsBounded(received: nat, total: nat)
    requires received <= total && total > 0
    ensures Round(total as real) >= 1.0
    ensures 0.0 <= Round(100.0 * Round(received as real)) / Round(total as real) <= ABOVE_HUNDRED
  {
    var r, t := Round(received as real), Round(total as real);
    CountIsPositive(total);
    RoundIsMonotone(received as real, total as real);
    RoundIsMonotone(100.0 * r, 100.0 * t);
    RoundIsNear(100.0 * t);
    var above := 100.0 + 100.0 / TWO_TO_THE_53 as real;
    assert Round(100.0 * r) <= above * t;
    QuotientGrows(0.0, Round(100.0 * r), t);
    QuotientGrows(Round(100.0 * r), above * t, t);
    QuotientOfProduct(above, t);
  }

  /**
    A percentage is never negative, and when no more was received than the
    total, it is at most the double next above 100.
  */
  lemma PercentIsBounded(received: nat, total: nat)
    requires received <= total
    ensures 0.0 <= Percent(received, total) <= ABOVE_HUNDRED
  {
    HundredIsFixed();
    if total > 0 {
      QuotientIsBounded(received, total);
      RoundIsMonotone(Round(100.0 * Round(received as real)) / Round(total as real), ABOVE_HUNDRED);
    }
  }

  /** The greatest total up to which percentages are exact. */
  const EXACT: nat := 360_287_970_189_640

  lemma HundredfoldIsFixed(n: nat)
    requires n <= EXACT
    ensures Round(n as real) == n as real && Round(100.0 * n as real) == 100.0 * n as real
  {
    IntegersAreFixed(n);
    if n == EXACT {
      RoundFixesUp(4_503_599_627_370_500, 3);
      assert Up(4_503_599_627_370_500.0, 3) == 100.0 * n as real by { Eightfold(4_503_599_627_370_500.0); }
    } else {
      RoundFixesUp(25 * n, 2);
      assert Up((25 * n) as real, 2) == 100.0 * n as real by { Fourfold((25 * n) as real); }
    }
  }

  lemma Fourfold(x: real)
    ensures Up(x, 2) == 4.0 * x
  {
    assert Up(x, 1) == 2.0 * x;
  }

  lemma Eightfold(x: real)
    ensures Up(x, 3) == 8.0 * x
  {
    Fourfold(x);
  }

  /** Up to that total the percentage is at most 100, and is 100 if and only if everything has come. */
  lemma PercentIsExact(received: nat, total: nat)
    requires received <= total <= EXACT
    ensures 0.0 <= Percent(received, total) <= 100.0
    ensures Percent(received, total) == 100.0 <==> received == total
  {
    HundredIsFixed();
    if total > 0 {
      var r, t := received as real, total as real;
      HundredfoldIsFixed(received);
      HundredfoldIsFixed(total);
      QuotientGrows(0.0, 100.0 * r, t);
      if received == total {
        QuotientOfProduct(100.0, t);
      } else {
        ShortOfHundred(received, total);
        NearHundred(7_036_874_417_766_399);
        RoundIsMonotone(100.0 * r / t, BELOW_HUNDRED);
      }
    }
  }

  lemma ShortOfHundred(received: nat, total: nat)
    requires received < total <= EXACT
    ensures 100.0 * received as real / total as real <= BELOW_HUNDRED
  {
    var t := total as real;
    QuotientGrows(100.0 * received as real, 100.0 * (t - 1.0), t);
    assert 100.0 * (t - 1.0) <= BELOW_HUNDRED * t;
    QuotientGrows(100.0 * (t - 1.0), BELOW_HUNDRED * t, t);
    QuotientOfProduct(BELOW_HUNDRED, t);
  }

  // ----- beyond that -----

  /** Half way from 100 to the next double, and to the one before; ties go to 100. */
  const HALF_WAY: real := 100.0 + 0.5 / 70_368_744_177_664.0
  const HALF_WAY_BELOW: real := 100.0 - 0.5 / 70_368_744_177_664.0

  lemma RoundsUpExactly(q: real)
    requires 100.0 <= q <= ABOVE_HUNDRED
    ensures Round(q) == if q <= HALF_WAY then 100.0 else ABOVE_HUNDRED
  {
    Powers();
    UpIsProduct(q, 46);
    var y := Up(q, 46);
    assert y == q * 70_368_744_177_664.0;
    assert 7_036_874_417_766_400.0 <= y <= 7_036_874_417_766_401.0;
    RoundsAt(q, 46);
    DownIsQuotient(RoundUnits(y), 46);
    if q <= HALF_WAY {
      assert y.Floor == 7_036_874_417_766_400;
      assert NearestEven(y) == 7_036_874_417_766_400;
    } else {
      assert y > 7_036_874_417_766_400.5;
      assert NearestEven(y) == 7_036_874_417_766_401;
    }
  }

  lemma RoundsDownExactly(q: real)
    requires BELOW_HUNDRED <= q <= 100.0
    ensures Round(q) == if q < HALF_WAY_BELOW then BELOW_HUNDRED else 100.0
  {
    Powers();
    UpIsProduct(q, 46);
    var y := Up(q, 46);
    assert y == q * 70_368_744_177_664.0;
    assert 7_036_874_417_766_399.0 <= y <= 7_036_874_417_766_400.0;
    RoundsAt(q, 46);
    DownIsQuotient(RoundUnits(y), 46);
    if q < HALF_WAY_BELOW {
      assert y.Floor == 7_036_874_417_766_399;
      assert NearestEven(y) == 7_036_874_417_766_399;
    } else {
      assert y >= 7_036_874_417_766_399.5;
      assert NearestEven(y) == 7_036_874_417_766_400;
    }
  }

  /** What is rounded to 100, to more and to less. */
  lemma RoundsToHundred(q: real)
    requires q >= 0.0
    ensures Round(q) > 100.0 <==> q > HALF_WAY
    ensures Round(q) < 100.0 <==> q < HALF_WAY_BELOW
  {
    HundredIsFixed();
    NearHundred(7_036_874_417_766_399);
    if q < BELOW_HUNDRED {
      RoundIsMonotone(q, BELOW_HUNDRED);
    } else if q <= 100.0 {
      RoundsDownExactly(q);
    } else if q <= ABOVE_HUNDRED {
      RoundsUpExactly(q);
    } else {
      RoundIsMonotone(ABOVE_HUNDRED, q);
    }
  }

  lemma OverDivisor(product: real, d: real, a: real)
    requires d > 0.0
    ensures product / d > a <==> product > a * d
    ensures product / d < a <==> product < a * d
  {
    QuotientOfProduct(a, d);
    if product > a * d {
      QuotientGrows(a * d, product, d);
    } else {
      QuotientGrows(product, a * d, d);
    }
  }

  /** What the code divides, and what by. */
  function Product(received: nat): real {
    Round(100.0 * Round(received as real))
  }

  function Divisor(total: nat): real {
    Round(total as real)
  }

  /**
    For any counts, the percentage is 100 if and only if the rounded product is
    within a 2^47th of the rounded total from a hundred rounded totals; else it
    is on the side on which the product is.
  */
  lemma HundredExactly(received: nat, total: nat)
    requires total > 0
    ensures Percent(received, total) == 100.0 <==>
            HALF_WAY_BELOW * Divisor(total) <= Product(received) <= HALF_WAY * Divisor(total)
    ensures Percent(received, total) > 100.0 <==> Product(received) > HALF_WAY * Divisor(total)
  {
    CountIsPositive(total);
    QuotientGrows(0.0, Product(received), Divisor(total));
    RoundsToHundred(Product(received) / Divisor(total));
    OverDivisor(Product(received), Divisor(total), HALF_WAY);
    OverDivisor(Product(received), Divisor(total), HALF_WAY_BELOW);
  }

  lemma ProductIsNear(received: nat)
    ensures 0.0 <= Product(received) <= 100.0 * Divisor(received) + 100.0 * Divisor(received) / TWO_TO_THE_53 as real
  {
    if received == 0 {
      IntegersAreFixed(0);
    } else {
      CountIsPositive(received);
      RoundIsNear(100.0 * Divisor(received));
    }
  }

  /** When what has come is not the same double as the total, the product falls short of a hundred rounded totals. */
  lemma LessFallsShort(received: nat, total: nat)
    requires received <= total && Divisor(received) < Divisor(total)
    ensures Product(received) < 100.0 * Divisor(total)
  {
    ProductIsNear(received);
    DoublesApart(received as real, total as real);
  }

  /**
    So whether a percentage can be above 100 depends on the total alone: it is
    if and only if what has come is the same double as the total, and a hundred
    times that double is rounded up by more than its 2^47th part.
  */
  lemma AboveHundredExactly(received: nat, total: nat)
    requires received <= total && total > 0
    ensures Percent(received, total) > 100.0 <==>
            Divisor(received) == Divisor(total) && Product(total) > HALF_WAY * Divisor(total)
  {
    HundredExactly(received, total);
    CountIsPositive(total);
    RoundIsMonotone(received as real, total as real);
    if Divisor(received) < Divisor(total) { LessFallsShort(received, total); }
  }

  /** And it is 100, or more, only if what has come is the same double as the total, or the one next below. */
  lemma HundredIsNear(received: nat, total: nat, between: nat)
    requires received <= between <= total && Percent(received, total) >= 100.0
    ensures !(Divisor(received) < Divisor(between) < Divisor(total))
  {
    if Divisor(received) < Divisor(between) < Divisor(total) {
      CountIsPositive(total);
      HundredExactly(received, total);
      ProductIsNear(received);
      DoublesApart(received as real, between as real);
      DoublesApart(between as real, total as real);
      assert false;
    }
  }

  /** 360287970189643 bytes of as many are more than 100 percent. */
  lemma AllCanBeMoreThanHundred()
    ensures Percent(360_287_970_189_643, 360_287_970_189_643) == ABOVE_HUNDRED
  {
    var n := 360_287_970_189_643;
    IntegersAreFixed(n);
    HundredTimes();
    var q := 36_028_797_018_964_304.0 / n as real;
    TheQuotientRounds(q);
  }

  /** And 360287970189641 bytes of as many, the first total that is not exact, are less. */
  lemma AllCanBeLessThanHundred()
    ensures Percent(EXACT + 1, EXACT + 1) == BELOW_HUNDRED
  {
    var n := EXACT + 1;
    IntegersAreFixed(n);
    HundredTimesNext();
    var p, t := 36_028_797_018_964_096.0, n as real;
    OverDivisor(p, t, HALF_WAY_BELOW);
    OverDivisor(p, t, BELOW_HUNDRED);
    RoundsDownExactly(p / t);
  }

  lemma HundredTimesNext()
    ensures Round(36_028_797_018_964_100.0) == 36_028_797_018_964_096.0
  {
    var x := 36_028_797_018_964_100.0;
    RoundsAt(x, 0);
    assert x / 2.0 / 2.0 / 2.0 == 4_503_599_627_370_512.5;
    assert NearestEven(4_503_599_627_370_512.5) == 4_503_599_627_370_512 by {
      assert 4_503_599_627_370_512.5.Floor == 4_503_599_627_370_512;
    }
    assert RoundUnits(x / 2.0 / 2.0) == 2.0 * RoundUnits(x / 2.0 / 2.0 / 2.0);
    assert RoundUnits(x / 2.0) == 2.0 * RoundUnits(x / 2.0 / 2.0);
  }

  lemma HundredTimes()
    ensures Round(36_028_797_018_964_300.0) == 36_028_797_018_964_304.0
  {
    var x := 36_028_797_018_964_300.0;
    RoundsAt(x, 0);
    assert x / 2.0 / 2.0 / 2.0 == 4_503_599_627_370_537.5;
    assert NearestEven(4_503_599_627_370_537.5) == 4_503_599_627_370_538 by {
      assert 4_503_599_627_370_537.5.Floor == 4_503_599_627_370_537;
    }
    assert RoundUnits(x / 2.0 / 2.0) == 2.0 * RoundUnits(x / 2.0 / 2.0 / 2.0);
    assert RoundUnits(x / 2.0) == 2.0 * RoundUnits(x / 2.0 / 2.0);
  }

  lemma TheQuotientRounds(q: real)
    requires q == 36_028_797_018_964_304.0 / 360_287_970_189_643.0
    ensures Round(q) == ABOVE_HUNDRED
  {
    Powers();
    UpIsProduct(q, 46);
    var y := Up(q, 46);
    assert y * 360_287_970_189_643.0 == 36_028_797_018_964_304.0 * 70_368_744_177_664.0;
    assert 7_036_874_417_766_400.5 < y < 7_036_874_417_766_401.0;
    RoundsAt(q, 46);
    assert y.Floor == 7_036_874_417_766_400;
    assert RoundUnits(y) == 7_036_874_417_766_401.0;
    DownIsQuotient(RoundUnits(y), 46);
  }

  /** And with one byte of 2^54 + 1 missing, the percentage is 100 already. */
  lemma HundredCanBeEarly()
    ensures Percent(18_014_398_509_481_984, 18_014_398_509_481_985) == 100.0
  {
    var r, t := 18_014_398_509_481_984.0, 18_014_398_509_481_985.0;
    RoundsAt(r, 0);
    RoundsAt(t, 0);
    NearestFixes(4_503_599_627_370_496);
    assert r / 2.0 / 2.0 == 4_503_599_627_370_496.0;
    assert RoundUnits(r / 2.0) == 2.0 * RoundUnits(r / 2.0 / 2.0);
    assert (t / 2.0 / 2.0).Floor == 4_503_599_627_370_496;
    assert RoundUnits(t / 2.0) == 2.0 * RoundUnits(t / 2.0 / 2.0);
    assert Round(r) == Round(t) == r;
    Powers();
    UpIsProduct(7_036_874_417_766_400.0, 8);
    UnitsScale(7_036_874_417_766_400.0, 8);
    NearestFixes(7_036_874_417_766_400);
    RoundsAt(100.0 * r, 0);
    assert Round(100.0 * r) == 100.0 * r;
    QuotientOfProduct(100.0, r);
    HundredIsFixed();
  }
}
