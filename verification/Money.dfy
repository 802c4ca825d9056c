/** What a deal costs, what is paid out of it, and what remains as commission. */
module Money {
  import Float

  /** `math.Round`: the nearest integer, halves away from zero. */
  function RoundAway(x: real): int {
    if x >= 0.0 then (x + 0.5).Floor else -((-x + 0.5).Floor)
  }

  /** It is the one integer that is at most one half away, and the one farther from zero if there are two. */
  lemma RoundAwayIff(x: real, n: int)
    ensures RoundAway(x) == n
            <==> if x >= 0.0 then n as real - 0.5 <= x < n as real + 0.5 else n as real - 0.5 < x <= n as real + 0.5
  {
    if x >= 0.0 {
      var f := (x + 0.5).Floor;
      assert f as real <= x + 0.5 < f as real + 1.0;
    } else {
      var f := (-x + 0.5).Floor;
      assert f as real <= -x + 0.5 < f as real + 1.0;
      assert (-f) as real == -(f as real);
    }
  }

  /** The deposit for a price: price times multiplier in floating point, rounded, plus gas. */
  function ComputeEscrowAmount(gas: int, m: real, price: int): int {
    RoundAway(Float.Round(Float.Round(price as real) * m)) + gas
  }

  /** The price back out of a deposit. */
  function GetAmountWithoutGasAndCommission(gas: int, m: real, amount: int): int
    requires m > 0.0
  {
    RoundAway(Float.Round(Float.Round((amount - gas) as real) / m))
  }

  /** The commission of one deal as the analytics query computes it, in exact decimal arithmetic. */
  function CommissionOf(gas: int, m: real, amount: int): int
    requires m > 0.0
  {
    (amount - gas) - RoundAway((amount - gas) as real / m)
  }

  /**
   Prices up to ((m - 1) * 2^53 - 2) / (4 * m), for which the floating point error stays below the gap that the
   commission leaves.
   */
  predicate InRange(m: real, price: int) {
    && 0 <= price && 1.0 <= m <= 2.0
    && (m == 1.0 ==> price <= 0x20_0000_0000_0000)
    && (m > 1.0 && price > 0 ==> Fits(m, price as real * m))
  }

  /** Four rounding errors of `x` fit into the commission on the price. */
  predicate Fits(m: real, x: real) {
    4.0 * x + 2.0 <= (m - 1.0) * Float.TWO53
  }

  lemma RoundsTo(x: real, n: int)
    requires n >= 0 && -0.5 < x - n as real < 0.5
    ensures RoundAway(x) == n
  {
  }

  lemma Scale(a: real, b: real, m: real)
    requires a <= b && m >= 0.0
    ensures a * m <= b * m
  {
  }

  lemma CancelHalf(m: real, v: real, scaled: real)
    requires m > 0.0 && scaled == m * v && -0.5 * m < scaled < 0.5 * m
    ensures -0.5 < v < 0.5
  {
    if v >= 0.5 {
      Scale(0.5, v, m);
    }
    if v <= -0.5 {
      Scale(v, -0.5, m);
    }
  }

  /** The deposit is off from price times multiplier by an error of at most 2^-53 of it, and by the final rounding. */
  predicate CloseTo(x: real, b: real) {
    var e := x / Float.TWO53;
    x - e - 0.5 <= b <= x + e + 0.5
  }

  /** What the deposit says about the price: it is close to price times multiplier, and covers the price. */
  lemma DepositBounds(m: real, price: int, b: int)
    requires price >= 1 && m > 1.0 && InRange(m, price)
    requires b == ComputeEscrowAmount(0, m, price)
    ensures CloseTo(price as real * m, b as real) && price <= b <= 0x20_0000_0000_0000
  {
    var p, x := price as real, price as real * m;
    Excess(p, m);
    Float.RelativeError(x);
    RoundedDeposit(m, p, x, Float.Round(x));
    OneRounding(m, price);
  }

  lemma Excess(p: real, m: real)
    requires p >= 1.0 && m >= 1.0
    ensures p * m - p >= m - 1.0 && p * m >= 1.0
  {
    assert (p - 1.0) * (m - 1.0) == p * m - p - m + 1.0;
  }

  /** A price of at most 53 bits enters the multiplication unrounded. */
  lemma OneRounding(m: real, price: int)
    requires 1 <= price <= 0x20_0000_0000_0000
    ensures ComputeEscrowAmount(0, m, price) == RoundAway(Float.Round(price as real * m))
  {
    Float.ExactInteger(price);
    assert Float.Round(price as real) == price as real;
  }

  lemma RoundedDeposit(m: real, p: real, x: real, y: real)
    requires 1.0 < m <= 2.0 && p >= 1.0 && x - p >= m - 1.0 && Fits(m, x)
    requires -x <= (y - x) * Float.TWO53 <= x
    ensures y >= p
    ensures CloseTo(x, RoundAway(y) as real)
    ensures p <= RoundAway(y) as real + 0.5 && RoundAway(y) <= 0x20_0000_0000_0000
  {
    var e := x / Float.TWO53;
    assert -e <= y - x <= e && e <= (m - 1.0) / 4.0;
  }

  lemma Quotient(b: real, m: real)
    requires m > 0.0 && b > 0.0
    ensures m * (b / m) == b && b / m > 0.0
  {
  }

  /** The errors of the quotient before and after rounding, scaled by the multiplier. */
  lemma ScaledErrors(m: real, p: real, b: real, z: real, q: real) returns (d: real, r: real)
    requires p >= 1.0 && 1.0 < m <= 2.0 && Fits(m, p * m) && CloseTo(p * m, b)
    requires m * z == b && -z <= (q - z) * Float.TWO53 <= z
    ensures d == m * (z - p) && -0.5 * m < d < 0.5 * m
    ensures d + r == m * (q - p) && -0.5 * m < d + r < 0.5 * m
  {
    d, r := m * (z - p), m * (q - z);
    RoundingError(m, b, z, q, r);
    Excess(p, m);
    SmallErrors(m, p * m, b, d, r);
  }

  lemma RoundingError(m: real, b: real, z: real, q: real, r: real)
    requires m > 0.0 && m * z == b && -z <= (q - z) * Float.TWO53 <= z && r == m * (q - z)
    ensures -b <= r * Float.TWO53 <= b
  {
    var t := (q - z) * Float.TWO53;
    assert r * Float.TWO53 == t * m;
    Scale(-z, t, m);
    Scale(t, z, m);
  }

  /** One division back: the error is less than one half. */
  lemma QuotientClose(m: real, p: real, b: real, z: real, q: real)
    requires p >= 1.0 && 1.0 < m <= 2.0 && Fits(m, p * m) && CloseTo(p * m, b)
    requires m * z == b && -z <= (q - z) * Float.TWO53 <= z
    ensures -0.5 < z - p < 0.5 && -0.5 < q - p < 0.5
  {
    var d, r := ScaledErrors(m, p, b, z, q);
    CancelHalf(m, z - p, d);
    CancelHalf(m, q - p, d + r);
  }

  /** The errors of the deposit and of the division, scaled by the multiplier, stay below one half of it. */
  lemma SmallErrors(m: real, x: real, b: real, d: real, r: real)
    requires 1.0 < m <= 2.0 && x >= 1.0 && Fits(m, x) && CloseTo(x, b)
    requires d == b - x && -b <= r * Float.TWO53 <= b
    ensures -0.5 * m < d < 0.5 * m && -0.5 * m < d + r < 0.5 * m
  {
    var e := x / Float.TWO53;
    assert e * Float.TWO53 == x && e < 0.25;
  }

  /** Paying out recovers exactly the agreed price from the deposit, for every price in range. */
  lemma RoundTrip(gas: int, m: real, price: int)
    requires InRange(m, price)
    ensures GetAmountWithoutGasAndCommission(gas, m, ComputeEscrowAmount(gas, m, price)) == price
  {
    var b := ComputeEscrowAmount(0, m, price);
    assert ComputeEscrowAmount(gas, m, price) - gas == b;
    if price == 0 {
      assert 0 as real * m == 0.0;
    } else if m == 1.0 {
      Float.ExactInteger(price);
      assert b == price;
    } else {
      DepositBounds(m, price, b);
      BackFromDeposit(m, price, b);
    }
  }

  lemma BackFromDeposit(m: real, price: int, b: int)
    requires price >= 1 && m > 1.0 && InRange(m, price) && 0 < b <= 0x20_0000_0000_0000
    requires CloseTo(price as real * m, b as real)
    ensures RoundAway(Float.Round(Float.Round(b as real) / m)) == price && RoundAway(b as real / m) == price
  {
    Float.ExactInteger(b);
    var z := b as real / m;
    Quotient(b as real, m);
    Float.RelativeError(z);
    QuotientClose(m, price as real, b as real, z, Float.Round(z));
    RoundsTo(Float.Round(z), price);
    RoundsTo(z, price);
  }

  /** Without floating point error the same computation recovers every price. */
  lemma ExactRoundTrip(m: real, price: int)
    requires price >= 0 && m >= 1.0
    ensures RoundAway(RoundAway(price as real * m) as real / m) == price
  {
    var x := price as real * m;
    var b := RoundAway(x) as real;
    var z := b / m;
    if m > 1.0 {
      var d := z - price as real;
      assert m * z == b;
      assert m * d == b - x;
      assert m * 0.5 > 0.5 && m * -0.5 < -0.5;
      assert d < 0.5 && d > -0.5 by {
        if d >= 0.5 {
          Scale(0.5, d, m);
          assert false;
        }
        if d <= -0.5 {
          Scale(d, -0.5, m);
          assert false;
        }
      }
      RoundsTo(z, price);
    }
  }

  /** The deposit is price times multiplier plus gas, to less than one nanoton, as long as that is below 2^52. */
  lemma DepositIsNear(gas: int, m: real, price: int)
    requires 0 <= price && m >= 1.0 && price as real * m < Float.TWO52
    ensures -1.0 < ComputeEscrowAmount(gas, m, price) as real - (price as real * m + gas as real) < 1.0
  {
    var x := price as real * m;
    if price == 0 {
      assert x == 0.0;
    } else {
      Scale(1.0, m, price as real);
      OneRounding(m, price);
      NearRounding(x);
    }
  }

  lemma NearRounding(x: real)
    requires 0.0 < x < Float.TWO52
    ensures -1.0 < RoundAway(Float.Round(x)) as real - x < 1.0
  {
    var y := Float.Round(x);
    Float.ScaledOnce(x);
    Float.ScaledOnce(y - x);
    Float.AbsoluteError(x, 1);
  }

  /** The deposit splits into the price, the gas and the commission, and the commission is never negative. */
  lemma Split(gas: int, m: real, price: int)
    requires InRange(m, price)
    ensures var amount := ComputeEscrowAmount(gas, m, price);
      amount == price + gas + CommissionOf(gas, m, amount) && CommissionOf(gas, m, amount) >= 0
  {
    var b := ComputeEscrowAmount(0, m, price);
    assert ComputeEscrowAmount(gas, m, price) - gas == b;
    if price == 0 {
      assert 0 as real * m == 0.0;
    } else if m == 1.0 {
      Float.ExactInteger(price);
    } else {
      DepositBounds(m, price, b);
      BackFromDeposit(m, price, b);
    }
  }
}
