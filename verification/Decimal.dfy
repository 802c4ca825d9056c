/** Decimal printing and parsing of integers, as `%d`, `strconv.FormatInt` and `strconv.ParseInt` in base ten do it. */
module Decimal {

  datatype Option<+T> = None | Some(value: T)

  const DIGITS: string := "0123456789"

  predicate IsDigit(c: char) {
    '0' <= c <= '9'
  }

  function DigitValue(c: char): nat
    requires IsDigit(c)
  {
    c as int - '0' as int
  }

  predicate AllDigits(s: string) {
    forall i :: 0 <= i < |s| ==> IsDigit(s[i])
  }

  /** The shortest digits of a natural number. */
  function PrintNat(n: nat): (s: string)
    ensures s != [] && AllDigits(s)
  {
    if n < 10 then [DIGITS[n]] else PrintNat(n / 10) + [DIGITS[n % 10]]
  }

  function Print(n: int): string {
    if n < 0 then "-" + PrintNat(-n) else PrintNat(n)
  }

  function DigitsValue(s: string): nat
    requires AllDigits(s)
  {
    if s == [] then 0 else 10 * DigitsValue(s[..|s| - 1]) + DigitValue(s[|s| - 1])
  }

  const MAX_INT64: int := 0x7FFF_FFFF_FFFF_FFFF
  const MIN_INT64: int := -0x8000_0000_0000_0000

  predicate IsInt64(n: int) {
    MIN_INT64 <= n <= MAX_INT64
  }

  /**
   `n, _ := strconv.ParseInt(s, 10, 64)`: zero for a syntax error, the nearest bound for a value out of range.
   */
  function ParseInt64(s: string): (n: int)
    ensures IsInt64(n)
  {
    var negative := s != [] && s[0] == '-';
    var digits := if s != [] && (s[0] == '-' || s[0] == '+') then s[1..] else s;
    if digits == [] || !AllDigits(digits) then 0
    else
      var size: int := DigitsValue(digits);
      var v := if negative then -size else size;
      if v < MIN_INT64 then MIN_INT64 else if v > MAX_INT64 then MAX_INT64 else v
  }

  lemma {:induction false} DigitsOfNat(n: nat)
    ensures DigitsValue(PrintNat(n)) == n
  {
    if n >= 10 {
      DigitsOfNat(n / 10);
      var s := PrintNat(n);
      assert s[..|s| - 1] == PrintNat(n / 10);
    }
  }

  /** Parsing the printed form of a 64-bit integer gives the integer back. */
  lemma ParsePrint(n: int)
    requires IsInt64(n)
    ensures ParseInt64(Print(n)) == n
  {
    var digits := PrintNat(if n < 0 then -n else n);
    DigitsOfNat(if n < 0 then -n else n);
    assert IsDigit(digits[0]);
    if n < 0 {
      assert Print(n) == "-" + digits && Print(n)[0] == '-' && Print(n)[1..] == digits;
    } else {
      assert Print(n) == digits;
    }
  }

  /** Different numbers have different digits. */
  lemma PrintNatInjective(m: nat, n: nat)
    requires PrintNat(m) == PrintNat(n)
    ensures m == n
  {
    DigitsOfNat(m);
    DigitsOfNat(n);
  }
}
