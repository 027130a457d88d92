/**
  Double-precision numbers (IEEE 754 binary64), as far as they are not negative
  and do not overflow: rounding to nearest, ties to even, with gradual underflow.
*/
module Float64 {
  const TWO_TO_THE_52: nat := 0x10_0000_0000_0000
  const TWO_TO_THE_53: nat := 0x20_0000_0000_0000

  /** The place of the last bit of a subnormal number. */
  const LAST_PLACE: nat := 1074

  /** Times a power of two. */
  function Up(x: real, k: nat): real {
    if k == 0 then x else 2.0 * Up(x, k - 1)
  }

  /** Divided by a power of two. */
  function Down(x: real, k: nat): real {
    if k == 0 then x else Down(x, k - 1) / 2.0
  }

  lemma {:induction false} DownUndoesUp(x: real, k: nat)
    ensures Down(Up(x, k), k) == x
  {
    if k > 0 {
      DownHalf(Up(x, k - 1), k - 1);
      DownUndoesUp(x, k - 1);
    }
  }

  lemma {:induction false} DownHalf(x: real, k: nat)
    ensures Down(2.0 * x, k) == 2.0 * Down(x, k)
  {
    if k > 0 { DownHalf(x, k - 1); }
  }

  lemma {:induction false} UpIsMonotone(x: real, y: real, k: nat)
    requires x <= y
    ensures Up(x, k) <= Up(y, k)
    ensures 0.0 <= x ==> x <= Up(x, k)
  {
    if k > 0 { UpIsMonotone(x, y, k - 1); }
  }

  lemma {:induction false} DownIsMonotone(x: real, y: real, k: nat)
    requires x <= y
    ensures Down(x, k) <= Down(y, k)
    ensures 0.0 <= x ==> 0.0 <= Down(x, k)
  {
    if k > 0 { DownIsMonotone(x, y, k - 1); }
  }

  lemma {:induction false} UpTwice(x: real, j: nat, k: nat)
    ensures Up(Up(x, j), k) == Up(x, j + k)
  {
    if k > 0 { UpTwice(x, j, k - 1); }
  }

  lemma {:induction false} DownTwice(x: real, j: nat, k: nat)
    ensures Down(Down(x, j), k) == Down(x, j + k)
  {
    if k > 0 { DownTwice(x, j, k - 1); }
  }

  // ----- rounding -----

  /** To an integer, ties to even. */
  function NearestEven(y: real): (n: int)
    ensures y >= 0.0 ==> n >= 0
    ensures y - 0.5 <= n as real <= y + 0.5
  {
    var low := y.Floor;
    var rest := y - low as real;
    if rest < 0.5 || (rest == 0.5 && low % 2 == 0) then low else low + 1
  }

  /** In units of the last place, as many bits are kept as fit 53. */
  function RoundUnits(y: real): (r: real)
    requires y >= 0.0
    ensures r >= 0.0
    decreases y
  {
    if y < TWO_TO_THE_53 as real then NearestEven(y) as real else 2.0 * RoundUnits(y / 2.0)
  }

  /** The double nearest to a real number. */
  function Round(x: real): (r: real)
    requires x >= 0.0
    ensures r >= 0.0
  {
    UpIsMonotone(0.0, x, LAST_PLACE);
    DownIsMonotone(0.0, RoundUnits(Up(x, LAST_PLACE)), LAST_PLACE);
    Down(RoundUnits(Up(x, LAST_PLACE)), LAST_PLACE)
  }

  // ----- rounding keeps the order -----

  lemma NearestIsMonotone(x: real, y: real)
    requires x <= y
    ensures NearestEven(x) <= NearestEven(y)
  {
    if x.Floor < y.Floor {
      assert NearestEven(x) <= x.Floor + 1 <= y.Floor;
    }
  }

  lemma NearestFixes(n: int)
    ensures NearestEven(n as real) == n
  {
  }

  lemma {:induction false} UnitsReach(y: real)
    requires y >= TWO_TO_THE_53 as real
    ensures RoundUnits(y) >= TWO_TO_THE_53 as real
    decreases y
  {
    if y / 2.0 >= TWO_TO_THE_53 as real {
      UnitsReach(y / 2.0);
    } else {
      NearestIsMonotone(TWO_TO_THE_52 as real, y / 2.0);
      NearestFixes(TWO_TO_THE_52);
    }
  }

  lemma {:induction false} UnitsAreMonotone(x: real, y: real)
    requires 0.0 <= x <= y
    ensures RoundUnits(x) <= RoundUnits(y)
    decreases y
  {
    if y < TWO_TO_THE_53 as real {
      NearestIsMonotone(x, y);
    } else if x < TWO_TO_THE_53 as real {
      NearestIsMonotone(x, TWO_TO_THE_53 as real);
      NearestFixes(TWO_TO_THE_53);
      UnitsReach(y);
    } else {
      UnitsAreMonotone(x / 2.0, y / 2.0);
    }
  }

  /** Rounding keeps the order of what is rounded. */
  lemma RoundIsMonotone(x: real, y: real)
    requires 0.0 <= x <= y
    ensures 0.0 <= Round(x) <= Round(y)
  {
    UpIsMonotone(x, y, LAST_PLACE);
    UpIsMonotone(0.0, x, LAST_PLACE);
    UnitsAreMonotone(Up(x, LAST_PLACE), Up(y, LAST_PLACE));
    DownIsMonotone(RoundUnits(Up(x, LAST_PLACE)), RoundUnits(Up(y, LAST_PLACE)), LAST_PLACE);
  }

  // ----- rounding fixes what has 53 bits -----

  lemma {:induction false} UpOfAnInteger(m: nat, k: nat) returns (n: nat)
    ensures Up(m as real, k) == n as real
  {
    if k == 0 { return m; }
    var half := UpOfAnInteger(m, k - 1);
    n := 2 * half;
  }

  lemma {:induction false} UnitsAreFixed(m: nat, k: nat)
    requires m <= TWO_TO_THE_53
    ensures Up(m as real, k) >= 0.0 && RoundUnits(Up(m as real, k)) == Up(m as real, k)
    decreases k
  {
    var y := Up(m as real, k);
    UpIsMonotone(0.0, m as real, k);
    if y < TWO_TO_THE_53 as real {
      var n := UpOfAnInteger(m, k);
      NearestFixes(n);
    } else if k == 0 {
      NearestFixes(TWO_TO_THE_52);
    } else {
      UnitsAreFixed(m, k - 1);
      assert y / 2.0 == Up(m as real, k - 1);
    }
  }

  /** A number of at most 53 bits, at any place that a double has, is rounded to itself. */
  lemma RoundFixes(m: nat, j: nat)
    requires m <= TWO_TO_THE_53 && j <= LAST_PLACE
    ensures Down(m as real, j) >= 0.0 && Round(Down(m as real, j)) == Down(m as real, j)
  {
    var x := Down(m as real, j);
    DownIsMonotone(0.0, m as real, j);
    UpDown(m as real, j, LAST_PLACE);
    UnitsAreFixed(m, LAST_PLACE - j);
    DownUndoesUp(x, LAST_PLACE);
  }

  /** And so is one with zeros after it. */
  lemma RoundFixesUp(m: nat, k: nat)
    requires m <= TWO_TO_THE_53
    ensures Up(m as real, k) >= 0.0 && Round(Up(m as real, k)) == Up(m as real, k)
  {
    UpIsMonotone(0.0, m as real, k);
    UpTwice(m as real, k, LAST_PLACE);
    UnitsAreFixed(m, k + LAST_PLACE);
    DownUndoesUp(Up(m as real, k), LAST_PLACE);
  }

  /** Up again by more than down is up by the difference. */
  lemma {:induction false} UpDown(x: real, j: nat, k: nat)
    requires j <= k
    ensures Up(Down(x, j), k) == Up(x, k - j)
  {
    if j > 0 {
      UpHalf(Down(x, j - 1), k);
      UpDown(x, j - 1, k - 1);
    }
  }

  lemma {:induction false} UpHalf(x: real, k: nat)
    requires k > 0
    ensures Up(x / 2.0, k) == Up(x, k - 1)
  {
    if k > 1 { UpHalf(x, k - 1); }
  }

  // ----- how much rounding changes -----

  /** From 2^52 units on, scaling by a power of two commutes with rounding. */
  lemma {:induction false} UnitsScale(y: real, k: nat)
    requires y >= TWO_TO_THE_52 as real
    ensures Up(y, k) >= y && RoundUnits(Up(y, k)) == Up(RoundUnits(y), k)
  {
    if k > 0 { UnitsScale(y, k - 1); }
  }

  /** So a number that has its first bit at a known place can be rounded there. */
  lemma RoundsAt(x: real, j: nat)
    requires x >= 0.0 && j <= LAST_PLACE && Up(x, j) >= TWO_TO_THE_52 as real
    ensures Round(x) == Down(RoundUnits(Up(x, j)), j)
  {
    UpTwice(x, j, LAST_PLACE - j);
    UnitsScale(Up(x, j), LAST_PLACE - j);
    var r := RoundUnits(Up(x, j));
    DownTwice(Up(r, LAST_PLACE - j), LAST_PLACE - j, j);
    DownUndoesUp(r, LAST_PLACE - j);
  }

  lemma {:induction false} UnitsAreNear(y: real)
    requires y >= TWO_TO_THE_52 as real
    ensures RoundUnits(y) <= y + y / TWO_TO_THE_53 as real
    decreases y
  {
    if y >= TWO_TO_THE_53 as real { UnitsAreNear(y / 2.0); }
  }

  lemma {:induction false} DownIsLinear(x: real, y: real, k: nat)
    ensures Down(x + y, k) == Down(x, k) + Down(y, k)
  {
    if k > 0 { DownIsLinear(x, y, k - 1); }
  }

  lemma {:induction false} DownShares(x: real, s: real, k: nat)
    requires s != 0.0
    ensures Down(x / s, k) == Down(x, k) / s
  {
    if k > 0 { DownShares(x, s, k - 1); }
  }

  lemma {:induction false} UpIsProduct(x: real, k: nat)
    ensures Up(x, k) == x * Up(1.0, k)
  {
    if k > 0 { UpIsProduct(x, k - 1); }
  }

  lemma {:induction false} DownIsQuotient(x: real, k: nat)
    ensures Up(1.0, k) > 0.0 && Down(x, k) == x / Up(1.0, k)
  {
    if k > 0 {
      DownIsQuotient(x, k - 1);
      HalfQuotient(x, Up(1.0, k - 1));
    }
  }

  lemma HalfQuotient(x: real, p: real)
    requires p > 0.0
    ensures x / p / 2.0 == x / (2.0 * p)
  {
    var q := x / (2.0 * p);
    assert q * (2.0 * p) == x;
    assert (q * 2.0) * p == x;
  }

  lemma WholeGap(n: int, b: real)
    requires n < TWO_TO_THE_53 && b >= TWO_TO_THE_53 as real
    ensures b <= TWO_TO_THE_53 as real * (b - n as real)
  {
    assert n as real <= TWO_TO_THE_53 as real - 1.0;
  }

  lemma SmallUnitsApart(x: real, y: real)
    requires 0.0 <= x <= y < TWO_TO_THE_53 as real && NearestEven(x) < NearestEven(y)
    ensures NearestEven(y) as real <= TWO_TO_THE_53 as real * (NearestEven(y) as real - NearestEven(x) as real)
  {
    NearestIsMonotone(y, TWO_TO_THE_53 as real);
    NearestFixes(TWO_TO_THE_53);
    assert NearestEven(y) as real - NearestEven(x) as real >= 1.0;
  }

  /** Two different doubles are at least the 2^53rd part of the greater one apart. */
  lemma {:induction false} UnitsApart(x: real, y: real)
    requires 0.0 <= x <= y && RoundUnits(x) < RoundUnits(y)
    ensures RoundUnits(y) <= TWO_TO_THE_53 as real * (RoundUnits(y) - RoundUnits(x))
    decreases y
  {
    if y < TWO_TO_THE_53 as real {
      SmallUnitsApart(x, y);
    } else if x >= TWO_TO_THE_53 as real {
      UnitsApart(x / 2.0, y / 2.0);
    } else {
      NearestIsMonotone(x, TWO_TO_THE_53 as real);
      NearestFixes(TWO_TO_THE_53);
      UnitsReach(y);
      if NearestEven(x) < TWO_TO_THE_53 {
        WholeGap(NearestEven(x), RoundUnits(y));
      } else {
        NearestFixes(TWO_TO_THE_52);
        assert RoundUnits(TWO_TO_THE_52 as real) == TWO_TO_THE_52 as real;
        UnitsApart(TWO_TO_THE_52 as real, y / 2.0);
      }
    }
  }

  lemma DoublesApart(x: real, y: real)
    requires 0.0 <= x <= y && Round(x) < Round(y)
    ensures Round(y) <= TWO_TO_THE_53 as real * (Round(y) - Round(x))
  {
    UpIsMonotone(0.0, x, LAST_PLACE);
    UpIsMonotone(x, y, LAST_PLACE);
    var a, b := RoundUnits(Up(x, LAST_PLACE)), RoundUnits(Up(y, LAST_PLACE));
    UnitsAreMonotone(Up(x, LAST_PLACE), Up(y, LAST_PLACE));
    UnitsApart(Up(x, LAST_PLACE), Up(y, LAST_PLACE));
    DownOfGap(a, b, LAST_PLACE);
  }

  lemma {:induction false} DownOfGap(a: real, b: real, k: nat)
    requires b <= TWO_TO_THE_53 as real * (b - a)
    ensures Down(b, k) <= TWO_TO_THE_53 as real * (Down(b, k) - Down(a, k))
  {
    if k > 0 { DownOfGap(a, b, k - 1); }
  }

  lemma PowerOfSum(j: nat, k: nat)
    ensures Up(1.0, j + k) == Up(1.0, j) * Up(1.0, k)
  {
    UpTwice(1.0, j, k);
    UpIsProduct(Up(1.0, j), k);
  }

  lemma Powers()
    ensures Up(1.0, 8) == 256.0
    ensures Up(1.0, 46) == 70_368_744_177_664.0
    ensures Up(1.0, 53) == TWO_TO_THE_53 as real
  {
    assert Up(1.0, 4) == 16.0 by { assert Up(1.0, 2) == 4.0; }
    PowerOfSum(4, 3);
    assert Up(1.0, 3) == 8.0 by { assert Up(1.0, 1) == 2.0; }
    PowerOfSum(4, 4);
    PowerOfSum(8, 8);
    PowerOfSum(16, 16);
    PowerOfSum(32, 8);
    PowerOfSum(4, 2);
    PowerOfSum(40, 6);
    PowerOfSum(46, 7);
  }

  /** No number from 1 on is rounded up by more than the 2^53rd part of itself. */
  lemma RoundIsNear(x: real)
    requires x >= 1.0
    ensures Round(x) <= x + x / TWO_TO_THE_53 as real
  {
    var y := Up(x, 53);
    UpIsMonotone(1.0, x, 53);
    Powers();
    UpIsProduct(x, 53);
    RoundsAt(x, 53);
    UnitsAreNear(y);
    DownIsMonotone(RoundUnits(y), y + y / TWO_TO_THE_53 as real, 53);
    DownIsLinear(y, y / TWO_TO_THE_53 as real, 53);
    DownShares(y, TWO_TO_THE_53 as real, 53);
    DownUndoesUp(x, 53);
  }

  /** Whole numbers up to 2^53 are doubles. */
  lemma IntegersAreFixed(n: nat)
    requires n <= TWO_TO_THE_53
    ensures Round(n as real) == n as real
  {
    RoundFixes(n, 0);
    assert Down(n as real, 0) == n as real;
  }
}
