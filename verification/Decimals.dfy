/**
 * Python's `decimal.Decimal` under its default context: a coefficient and an exponent of ten, where
 * every arithmetic result is kept to 28 significant digits, rounding half to even. `quantize` rounds
 * half away from zero instead, and refuses a result of more than 28 digits.
 */
module Decimals {
  import opened Numerals
  import opened Wrappers

  datatype Dec = Dec(coeff: int, exp: int)

  const ZERO := Dec(0, 0)
  const ONE := Dec(1, 0)
  const HUNDRED := Dec(100, 0)

  function Abs(x: int): nat {
    if x < 0 then -x else x
  }

  function WithSign(n: nat, x: int): int {
    if x < 0 then -(n as int) else n
  }

  function OfInt(n: int): Dec {
    Dec(n, 0)
  }

  /** Context rounding: keep 28 significant digits. */
  function Fix(d: Dec): Dec {
    var n := Abs(d.coeff);
    if n < LIMIT then d
    else
      LongNumber(n);
      var k := NumDigits(n) - PRECISION;
      var q := NearestEven(n, Pow10(k));
      if q == LIMIT then Dec(WithSign(LIMIT / 10, d.coeff), d.exp + k + 1)
      else Dec(WithSign(q, d.coeff), d.exp + k)
  }

  function MinExp(a: Dec, b: Dec): int {
    if a.exp <= b.exp then a.exp else b.exp
  }

  /** The coefficient of `d` when it is written with exponent `e`. */
  function Aligned(d: Dec, e: int): int
    requires e <= d.exp
  {
    d.coeff * Pow10(d.exp - e)
  }

  /** The exact product, before context rounding. */
  function RawMul(a: Dec, b: Dec): Dec {
    Dec(a.coeff * b.coeff, a.exp + b.exp)
  }

  /** The exact sum, before context rounding. */
  function RawAdd(a: Dec, b: Dec): Dec {
    var e := MinExp(a, b);
    Dec(Aligned(a, e) + Aligned(b, e), e)
  }

  function Mul(a: Dec, b: Dec): Dec {
    Fix(RawMul(a, b))
  }

  function Add(a: Dec, b: Dec): Dec {
    Fix(RawAdd(a, b))
  }

  /** Drop at most `k` trailing zeros of `c`; the second part is how many of the `k` stayed. */
  function StripZeros(c: int, k: nat): (r: (int, nat))
    ensures r.1 <= k && c == r.0 * Pow10(k - r.1)
    decreases k
  {
    if k > 0 && c % 10 == 0 then
      var r := StripZeros(c / 10, k - 1);
      assert c == 10 * (c / 10) == 10 * (r.0 * Pow10(k - 1 - r.1)) == r.0 * Pow10(k - r.1);
      r
    else (c, k)
  }

  /** Division by 10^k: exact before rounding, with the exponent brought back towards that of `d`. */
  function RawDivPow10(d: Dec, k: nat): Dec {
    var r := StripZeros(d.coeff, k);
    Dec(r.0, d.exp - r.1)
  }

  function DivPow10(d: Dec, k: nat): Dec {
    Fix(RawDivPow10(d, k))
  }

  predicate Less(a: Dec, b: Dec) {
    var e := MinExp(a, b);
    Aligned(a, e) < Aligned(b, e)
  }

  /** Equality of value, whatever the exponents. */
  predicate Same(a: Dec, b: Dec) {
    !Less(a, b) && !Less(b, a)
  }

  /** Rounding to a whole number, ties away from zero. */
  function HalfUp(d: Dec): int {
    if d.exp >= 0 then d.coeff * Pow10(d.exp)
    else
      var unit := Pow10(-d.exp);
      WithSign((Abs(d.coeff) + unit / 2) / unit, d.coeff)
  }

  /** `quantize(1)`: a whole number, refused when it has more than 28 digits. */
  function ToMinor(d: Dec): Option<int> {
    var n := HalfUp(d);
    if Abs(n) < LIMIT then Some(n) else None
  }

  /** The result is within the context's precision as it stands. */
  predicate Fits(raw: Dec) {
    Abs(raw.coeff) < LIMIT
  }

  /** Keeping 28 digits of this result drops nothing but zeros. */
  predicate Lossless(raw: Dec) {
    var n := Abs(raw.coeff);
    n < LIMIT || (LongNumber(n); n % Pow10(NumDigits(n) - PRECISION) == 0)
  }
}
