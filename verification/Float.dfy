/**
 Binary floating point with a 53-bit mantissa, rounding to nearest with ties to even, as IEEE 754 double
 precision has it; the exponent is unbounded, so overflow and subnormal numbers are not modelled.
 */
module Float {

  const TWO52: real := 4503599627370496.0
  const TWO53: real := 9007199254740992.0

  /** The nearest integer, ties to the even one. */
  function HalfEven(x: real): (n: int)
    ensures x - 0.5 <= n as real <= x + 0.5
  {
    var f := x.Floor;
    var rest := x - f as real;
    if rest < 0.5 || (rest == 0.5 && f % 2 == 0) then f else f + 1
  }

  /** It is the one integer that is less than one half away, or the even one of two that are one half away. */
  lemma HalfEvenIff(x: real, n: int)
    ensures HalfEven(x) == n <==>
      var d := x - n as real; -0.5 < d < 0.5 || ((d == 0.5 || d == -0.5) && n % 2 == 0)
  {
    var f := x.Floor;
    assert f as real <= x < f as real + 1.0;
    if n <= f - 1 {
      assert n as real <= f as real - 1.0;
    } else if n >= f + 2 {
      assert n as real >= f as real + 2.0;
    }
  }

  /** The nearest double to a positive number: scale it into the binade of the 53-bit integers and round there. */
  function RoundPositive(x: real): real
    requires x > 0.0
    decreases if x < TWO52 then 1 else 0, if x < TWO52 then (TWO53 / x).Floor else x.Floor
  {
    if x < TWO52 then
      DoublingDescends(x);
      RoundPositive(2.0 * x) / 2.0
    else if x >= TWO53 then
      2.0 * RoundPositive(x / 2.0)
    else
      HalfEven(x) as real
  }

  /** Doubling a number below the binade brings it closer. */
  lemma HalvesFloor(y: real)
    requires y >= 1.0
    ensures (y / 2.0).Floor < y.Floor
  {
  }

  lemma DoublingDescends(x: real)
    requires 0.0 < x < TWO52
    ensures (TWO53 / (2.0 * x)).Floor < (TWO53 / x).Floor
  {
    assert TWO53 / (2.0 * x) == (TWO53 / x) / 2.0;
    assert TWO53 / x >= 1.0;
    HalvesFloor(TWO53 / x);
  }

  /** The nearest double. */
  function Round(x: real): real {
    if x == 0.0 then 0.0 else if x > 0.0 then RoundPositive(x) else -RoundPositive(-x)
  }

  /** The relative error of one operation is at most 2^-53. */
  lemma {:induction false} RelativeError(x: real)
    requires x > 0.0
    ensures -x <= (RoundPositive(x) - x) * 9007199254740992.0 <= x
    decreases if x < TWO52 then 1 else 0, if x < TWO52 then (TWO53 / x).Floor else x.Floor
  {
    if x < TWO52 {
      DoublingDescends(x);
      RelativeError(2.0 * x);
    } else if x >= TWO53 {
      RelativeError(x / 2.0);
    }
  }

  /** Integers of at most 53 bits are doubles. */
  lemma {:induction false} ExactInteger(n: nat)
    requires 0 < n <= 0x20_0000_0000_0000
    ensures RoundPositive(n as real) == n as real
    decreases TWO53.Floor - n
  {
    var x := n as real;
    if x < TWO52 {
      assert 2.0 * x == (2 * n) as real;
      ExactInteger(2 * n);
    } else if x >= TWO53 {
      assert x / 2.0 == TWO52 && TWO52.Floor as real == TWO52;
    }
  }

  /** A number doubled k times. */
  function Scaled(x: real, k: nat): real
    decreases k
  {
    if k == 0 then x else Scaled(2.0 * x, k - 1)
  }

  lemma ScaledOnce(x: real)
    ensures Scaled(x, 1) == 2.0 * x
  {
    assert Scaled(2.0 * x, 0) == 2.0 * x;
  }

  lemma {:induction false} ScaledGrows(x: real, k: nat)
    requires x > 0.0
    ensures Scaled(x, k) >= x
    decreases k
  {
    if k > 0 {
      ScaledGrows(2.0 * x, k - 1);
    }
  }

  lemma {:induction false} ScaledZero(k: nat)
    ensures Scaled(0.0, k) == 0.0
  {
    if k > 0 {
      ScaledZero(k - 1);
    }
  }

  /** Numbers below the binade are rounded one binade higher. */
  lemma RoundBelow(x: real)
    requires 0.0 < x < TWO52
    ensures RoundPositive(x) == RoundPositive(2.0 * x) / 2.0
  {
  }

  lemma SmallestExact()
    ensures RoundPositive(4503599627370496.0) == 4503599627370496.0
  {
    ExactInteger(0x10_0000_0000_0000);
  }

  /** In absolute size: a number that k doublings keep within 53 bits is rounded by at most half of 2^-k. */
  lemma {:induction false} AbsoluteError(x: real, k: nat)
    requires 0.0 < x && Scaled(x, k) <= TWO53
    ensures -0.5 <= Scaled(RoundPositive(x) - x, k) <= 0.5
    decreases k
  {
    if k == 0 {
      RelativeError(x);
    } else {
      ScaledGrows(2.0 * x, k - 1);
      if x < TWO52 {
        RoundBelow(x);
        AbsoluteError(2.0 * x, k - 1);
        assert 2.0 * (RoundPositive(x) - x) == RoundPositive(2.0 * x) - 2.0 * x;
      } else {
        SmallestExact();
        ScaledZero(k);
      }
    }
  }

  /** The double nearest to a number that k doublings bring into the binade of the 53-bit integers. */
  lemma {:induction false} RoundByScale(x: real, k: nat)
    requires TWO52 <= Scaled(x, k) < TWO53 && x > 0.0
    ensures Scaled(RoundPositive(x), k) == HalfEven(Scaled(x, k)) as real
    decreases k
  {
    if k > 0 {
      ScaledGrows(2.0 * x, k - 1);
      RoundBelow(x);
      RoundByScale(2.0 * x, k - 1);
      assert 2.0 * RoundPositive(x) == RoundPositive(2.0 * x);
    }
  }
}
