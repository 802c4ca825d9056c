/**
 The exact range of the round trip at the default commission of two percent: which prices come back out of the deposit,
 up to the very first that does not.
 */
module TwoPercent {
  import Float
  import opened Money

  /** The double nearest to 1.02, the multiplier of the default commission of two percent. */
  const TWO_PERCENT: real := 2296835809958953.0 / 2251799813685248.0

  const TWO46: real := 70368744177664.0
  const TWO47: real := 140737488355328.0

  /** The first price that is not recovered: 47 nanoton above 2^47. */
  const FIRST_LOST: int := 140737488355375

  lemma ScaledSteps(x: real)
    ensures Float.Scaled(x, 5) == 32.0 * x && Float.Scaled(x, 6) == 64.0 * x && Float.Scaled(x, 7) == 128.0 * x
  {
    assert Float.Scaled(4.0 * x, 0) == 4.0 * x;
    assert Float.Scaled(8.0 * x, 2) == Float.Scaled(16.0 * x, 1) == Float.Scaled(32.0 * x, 0);
    assert Float.Scaled(x, 5) == Float.Scaled(2.0 * x, 4) == Float.Scaled(4.0 * x, 3) == Float.Scaled(8.0 * x, 2);
    assert Float.Scaled(x, 6) == Float.Scaled(2.0 * x, 5) == Float.Scaled(4.0 * x, 4) == Float.Scaled(8.0 * x, 3)
           == Float.Scaled(16.0 * x, 2) == Float.Scaled(32.0 * x, 1) == Float.Scaled(64.0 * x, 0);
    assert Float.Scaled(x, 7) == Float.Scaled(2.0 * x, 6) == Float.Scaled(4.0 * x, 5) == Float.Scaled(8.0 * x, 4)
           == Float.Scaled(16.0 * x, 3) == Float.Scaled(32.0 * x, 2) == Float.Scaled(64.0 * x, 1)
           == Float.Scaled(128.0 * x, 0);
  }

  /** The error of rounding a number in or below one of the three binades that matter. */
  lemma Errors(x: real)
    requires x > 0.0
    ensures x <= TWO46 ==> -1.0 / 256.0 <= Float.Round(x) - x <= 1.0 / 256.0
    ensures x <= TWO47 ==> -1.0 / 128.0 <= Float.Round(x) - x <= 1.0 / 128.0
    ensures x <= 2.0 * TWO47 ==> -1.0 / 64.0 <= Float.Round(x) - x <= 1.0 / 64.0
  {
    ScaledSteps(x);
    ScaledSteps(Float.RoundPositive(x) - x);
    if x <= TWO46 {
      Float.AbsoluteError(x, 7);
    }
    if x <= TWO47 {
      Float.AbsoluteError(x, 6);
    }
    if x <= 2.0 * TWO47 {
      Float.AbsoluteError(x, 5);
    }
  }

  /** Between 2^46 and 2^47 doubles are whole multiples of 1/64, and up to 2^48 of 1/32. */
  lemma Grid(x: real) returns (n: int)
    requires TWO46 <= x < 2.0 * TWO47
    ensures Float.Round(x) == n as real / (if x < TWO47 then 64.0 else 32.0)
  {
    ScaledSteps(x);
    ScaledSteps(Float.RoundPositive(x));
    if x < TWO47 {
      Float.RoundByScale(x, 6);
      n := Float.HalfEven(64.0 * x);
    } else {
      Float.RoundByScale(x, 5);
      n := Float.HalfEven(32.0 * x);
    }
  }

  /** Price times multiplier, exactly: 51 fiftieths of the price, and 2^-50 of a fiftieth more. */
  lemma Product(p: int)
    ensures 50.0 * (p as real * TWO_PERCENT) == 51.0 * p as real + p as real / 1125899906842624.0
  {
  }

  /** Rounding a number on a grid of 1/s to a whole one: off by a step less than a half, or by exactly a half. */
  lemma WholeFromGrid(y: real, n: int, s: int)
    requires y >= 0.0 && (s == 32 || s == 64) && y == n as real / s as real
    ensures var b := RoundAway(y) as real;
      b - y == 0.5 || -0.5 + 1.0 / s as real <= b - y <= 0.5 - 1.0 / s as real
  {
    var b := RoundAway(y);
    assert -0.5 < b as real - y <= 0.5;
    assert (b as real - y) * s as real == (b * s - n) as real;
    assert -(s / 2) < b * s - n <= s / 2;
  }

  /** A half can only come from prices that are 25 modulo 50, and then it hardly overstates the product. */
  lemma HalfOnly(p: int, x: real, y: real, b: int)
    requires 0 < p < FIRST_LOST && 50.0 * x == 51.0 * p as real + p as real / 1125899906842624.0
    requires b as real - y == 0.5 && -1.0 / 64.0 <= y - x <= 1.0 / 64.0
    ensures p % 50 == 25 && 0.0 <= b as real - x <= 0.5
  {
    var n := 50 * b - 25 - 51 * p;
    var e := p as real / 1125899906842624.0;
    assert 0.0 < e < 0.126;
    assert n as real == 50.0 * (y - x) + e;
    assert n == 0;
    assert 51 * p == 50 * b - 25;
    assert p == 50 * (b - p) - 25;
  }

  /** One division back recovers the price if the errors of the deposit and of the quotient leave room. */
  lemma Recovers(p: int, b: int, z: real, d: real, e: real)
    requires p > 0 && b > 0 && z == b as real / TWO_PERCENT
    requires -d <= b as real - p as real * TWO_PERCENT <= d && -e <= Float.Round(z) - z <= e
    requires d + TWO_PERCENT * e < 0.51
    ensures RoundAway(Float.Round(z)) == p
  {
    var q := Float.Round(z);
    var v := q - p as real;
    assert TWO_PERCENT * z == b as real;
    assert TWO_PERCENT * v == (b as real - p as real * TWO_PERCENT) + TWO_PERCENT * (q - z);
    RoundsTo(q, p);
  }

  lemma QuotientSize(p: int, b: int)
    requires 0 < p <= FIRST_LOST && -0.51 < b as real - p as real * TWO_PERCENT < 0.51
    ensures b > 0 && p as real - 0.5 < b as real / TWO_PERCENT < p as real + 0.5
  {
    var z := b as real / TWO_PERCENT;
    assert TWO_PERCENT * z == b as real;
    assert TWO_PERCENT * (z - p as real) == b as real - p as real * TWO_PERCENT;
  }

  /** Products up to 2^46: the errors are small whatever the price. */
  lemma SmallProduct(p: int, b: int)
    requires 0 < p && p as real * TWO_PERCENT <= TWO46
    requires b == RoundAway(Float.Round(p as real * TWO_PERCENT))
    ensures b > 0 && RoundAway(Float.Round(b as real / TWO_PERCENT)) == p
  {
    Errors(p as real * TWO_PERCENT);
    QuotientSize(p, b);
    Errors(b as real / TWO_PERCENT);
    Recovers(p, b, b as real / TWO_PERCENT, 0.51 - 0.006, 1.0 / 256.0);
  }

  /** Larger deposits are off by at most a half, and by less from 2^47 on, except for prices that are 25 modulo 50. */
  lemma LargeDeposit(p: int, b: int)
    requires 0 < p < FIRST_LOST && p as real * TWO_PERCENT > TWO46
    requires b == RoundAway(Float.Round(p as real * TWO_PERCENT))
    ensures var x := p as real * TWO_PERCENT;
      && -0.5 <= b as real - x <= 0.5
      && (x >= TWO47 && p % 50 != 25 ==> -31.0 / 64.0 <= b as real - x <= 31.0 / 64.0)
  {
    var x := p as real * TWO_PERCENT;
    var y := Float.Round(x);
    Product(p);
    Errors(x);
    var n := Grid(x);
    WholeFromGrid(y, n, if x < TWO47 then 64 else 32);
    if b as real - y == 0.5 {
      HalfOnly(p, x, y, b);
    }
  }

  /** The error that would break the round trip falls only on prices below 2^47, where the quotient is finer. */
  lemma LargeProduct(p: int, b: int)
    requires 0 < p < FIRST_LOST && p as real * TWO_PERCENT > TWO46
    requires b == RoundAway(Float.Round(p as real * TWO_PERCENT))
    ensures b > 0 && RoundAway(Float.Round(b as real / TWO_PERCENT)) == p
  {
    LargeDeposit(p, b);
    QuotientSize(p, b);
    var z := b as real / TWO_PERCENT;
    Errors(z);
    if z <= TWO47 {
      Recovers(p, b, z, 0.5, 1.0 / 128.0);
    } else {
      Recovers(p, b, z, 31.0 / 64.0, 1.0 / 64.0);
    }
  }

  lemma Deposit(p: int)
    requires 0 < p <= FIRST_LOST
    ensures ComputeEscrowAmount(0, TWO_PERCENT, p) == RoundAway(Float.Round(p as real * TWO_PERCENT))
  {
    OneRounding(TWO_PERCENT, p);
  }

  /** Every smaller price is recovered, with whatever gas. */
  lemma SmallerPricesAreRecovered(gas: int, p: int)
    requires 0 <= p < FIRST_LOST
    ensures GetAmountWithoutGasAndCommission(gas, TWO_PERCENT, ComputeEscrowAmount(gas, TWO_PERCENT, p)) == p
  {
    var b := ComputeEscrowAmount(0, TWO_PERCENT, p);
    assert ComputeEscrowAmount(gas, TWO_PERCENT, p) - gas == b;
    if p == 0 {
      assert 0 as real * TWO_PERCENT == 0.0;
    } else {
      Deposit(p);
      if p as real * TWO_PERCENT <= TWO46 {
        SmallProduct(p, b);
      } else {
        LargeProduct(p, b);
      }
      DepositIsExact(p, b);
    }
  }

  /** The deposit without gas enters the division unrounded. */
  lemma DepositIsExact(p: int, b: int)
    requires 0 < p <= FIRST_LOST && b == RoundAway(Float.Round(p as real * TWO_PERCENT)) && b > 0
    ensures Float.Round(b as real) == b as real
  {
    Errors(p as real * TWO_PERCENT);
    Float.ExactInteger(b);
  }

  lemma RoundBy32(x: real)
    requires Float.TWO52 / 32.0 <= x < Float.TWO53 / 32.0
    ensures Float.Round(x) == Float.HalfEven(32.0 * x) as real / 32.0
  {
    assert Float.RoundPositive(16.0 * x) == Float.RoundPositive(32.0 * x) / 2.0;
    assert Float.RoundPositive(8.0 * x) == Float.RoundPositive(16.0 * x) / 2.0;
    assert Float.RoundPositive(4.0 * x) == Float.RoundPositive(8.0 * x) / 2.0;
    assert Float.RoundPositive(2.0 * x) == Float.RoundPositive(4.0 * x) / 2.0;
  }

  /** The first price that is not: one nanoton too much is paid out. */
  lemma FirstLost(gas: int)
    ensures GetAmountWithoutGasAndCommission(gas, TWO_PERCENT, ComputeEscrowAmount(gas, TWO_PERCENT, FIRST_LOST))
            == FIRST_LOST + 1
  {
    var p := FIRST_LOST;
    Float.ExactInteger(p);
    RoundBy32(p as real * TWO_PERCENT);
    assert Float.HalfEven(32.0 * (p as real * TWO_PERCENT)) == 4593671619919440;
    var b := ComputeEscrowAmount(0, TWO_PERCENT, p);
    assert b == 143552238122483;
    assert ComputeEscrowAmount(gas, TWO_PERCENT, p) - gas == b;
    Float.ExactInteger(b);
    RoundBy32(b as real / TWO_PERCENT);
    assert Float.HalfEven(32.0 * (b as real / TWO_PERCENT)) == 4503599627372016;
  }
}
