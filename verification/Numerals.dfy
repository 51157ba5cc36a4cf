/** Powers of ten, digit counts, and rounding an integer to 28 significant digits, half to even. */
module Numerals {

  /** Digits kept by Python's default decimal context. */
  const PRECISION: nat := 28

  /** The first integer with more than 28 digits. */
  const LIMIT: nat := 10_000_000_000_000_000_000_000_000_000

  function Pow10(n: nat): (p: nat)
    ensures p >= 1
  {
    if n == 0 then 1 else 10 * Pow10(n - 1)
  }

  lemma Pow10Step(n: nat)
    requires n > 0
    ensures Pow10(n) == 10 * Pow10(n - 1)
  {
  }

  lemma {:induction false} Pow10Sum(a: nat, b: nat)
    ensures Pow10(a + b) == Pow10(a) * Pow10(b)
  {
    if b > 0 {
      Pow10Sum(a, b - 1);
    }
  }

  lemma {:induction false} Pow10Mono(a: nat, b: nat)
    requires a <= b
    ensures Pow10(a) <= Pow10(b)
  {
    if a < b {
      Pow10Mono(a, b - 1);
    }
  }

  lemma Pow10Values()
    ensures Pow10(0) == 1 && Pow10(1) == 10 && Pow10(2) == 100 && Pow10(3) == 1000
    ensures Pow10(16) == 10_000_000_000_000_000
    ensures Pow10(27) == LIMIT / 10 && Pow10(28) == LIMIT
  {
    assert Pow10(4) == 10_000;
    assert Pow10(8) == 100_000_000 by { Pow10Sum(4, 4); }
    Pow10Sum(8, 8);
    assert Pow10(24) == 1_000_000_000_000_000_000_000_000 by { Pow10Sum(16, 8); }
    Pow10Sum(24, 3);
    Pow10Sum(24, 4);
  }

  /** The number of decimal digits of `n`; zero has one. */
  function NumDigits(n: nat): (d: nat)
    ensures d >= 1
  {
    if n < 10 then 1 else 1 + NumDigits(n / 10)
  }

  lemma {:induction false} NumDigitsBounds(n: nat)
    ensures n < Pow10(NumDigits(n))
    ensures n > 0 ==> Pow10(NumDigits(n) - 1) <= n
  {
    if n >= 10 {
      NumDigitsBounds(n / 10);
    }
  }

  lemma NumDigitsUnique(n: nat, d: nat)
    requires d >= 1 && Pow10(d - 1) <= n < Pow10(d)
    ensures NumDigits(n) == d
  {
    NumDigitsBounds(n);
    if NumDigits(n) < d {
      Pow10Mono(NumDigits(n), d - 1);
    } else if NumDigits(n) > d {
      Pow10Mono(d, NumDigits(n) - 1);
    }
  }

  lemma {:induction false} NumDigitsMono(a: nat, b: nat)
    requires a <= b
    ensures NumDigits(a) <= NumDigits(b)
  {
    if a >= 10 {
      NumDigitsMono(a / 10, b / 10);
    }
  }

  lemma MulMono(a: int, b: int, k: nat)
    requires a <= b
    ensures a * k <= b * k
  {
    assert (b - a) * k >= 0;
  }

  lemma DivisionUnique(n: nat, unit: nat, q: nat, r: nat)
    requires n == q * unit + r && r < unit
    ensures n / unit == q && n % unit == r
  {
    var q', r' := n / unit, n % unit;
    assert q' * unit + r' == q * unit + r;
    assert (q' - q) * unit == r - r';
    if q' > q {
      MulMono(1, q' - q, unit);
    } else if q' < q {
      MulMono(q' - q, -1, unit);
    }
  }

  /** The multiple count of `unit` nearest to `n`; a tie goes to the even count. */
  function NearestEven(n: nat, unit: nat): (q: nat)
    requires unit > 0
  {
    var q, r := n / unit, n % unit;
    if 2 * r < unit || (2 * r == unit && q % 2 == 0) then q else q + 1
  }

  lemma NearestEvenError(n: nat, unit: nat)
    requires unit > 0
    ensures -(unit as int) <= 2 * (NearestEven(n, unit) * unit - n) <= unit
  {
    var q, r := n / unit, n % unit;
    assert n == q * unit + r;
    assert (q + 1) * unit == q * unit + unit;
  }

  lemma NearestEvenTies(n: nat, unit: nat)
    requires unit > 0
    ensures var miss := NearestEven(n, unit) * unit - n;
            (2 * miss == unit || 2 * miss == -(unit as int)) ==> NearestEven(n, unit) % 2 == 0
  {
    var q, r := n / unit, n % unit;
    assert n == q * unit + r;
    assert (q + 1) * unit == q * unit + unit;
  }

  lemma NearestEvenMono(a: nat, b: nat, unit: nat)
    requires unit > 0 && a <= b
    ensures NearestEven(a, unit) <= NearestEven(b, unit)
  {
    var qa, ra, qb, rb := a / unit, a % unit, b / unit, b % unit;
    assert qa * unit + ra <= qb * unit + rb;
    assert (qa - qb) * unit <= rb - ra;
    if qa > qb {
      MulMono(1, qa - qb, unit);
    }
  }

  lemma NearestEvenOfMultiple(q: nat, unit: nat)
    requires unit > 0
    ensures NearestEven(q * unit, unit) == q
  {
    DivisionUnique(q * unit, unit, q, 0);
  }

  lemma NearestEvenScale(n: nat, unit: nat)
    requires unit > 0
    ensures NearestEven(10 * n, 10 * unit) == NearestEven(n, unit)
  {
    var q, r := n / unit, n % unit;
    assert n == q * unit + r;
    assert 10 * n == q * (10 * unit) + 10 * r;
    DivisionUnique(10 * n, 10 * unit, q, 10 * r);
  }

  /** `n` rounded to 28 significant digits. */
  function SigRound(n: nat): (r: nat)
  {
    if n < LIMIT then n
    else
      LongNumber(n);
      var unit := Pow10(NumDigits(n) - PRECISION);
      NearestEven(n, unit) * unit
  }

  lemma SigRoundShort(n: nat)
    requires n < LIMIT
    ensures SigRound(n) == n
  {
  }

  lemma LongNumber(n: nat)
    requires n >= LIMIT
    ensures NumDigits(n) > PRECISION
  {
    NumDigitsBounds(n);
    Pow10Values();
    if NumDigits(n) <= PRECISION {
      Pow10Mono(NumDigits(n), PRECISION);
    }
  }

  /** Rounding a long number keeps its count between 10^27 and 10^28, so it stays in its decade. */
  lemma SigRoundDecade(n: nat, k: nat)
    requires n >= LIMIT && NumDigits(n) == PRECISION + k
    ensures LIMIT / 10 <= NearestEven(n, Pow10(k)) <= LIMIT
    ensures SigRound(n) == NearestEven(n, Pow10(k)) * Pow10(k)
    ensures Pow10(27 + k) <= SigRound(n) <= Pow10(28 + k)
  {
    hide Pow10, NearestEven;
    LongNumber(n);
    NumDigitsBounds(n);
    Pow10Values();
    var unit := Pow10(k);
    Pow10Sum(27, k);
    Pow10Sum(28, k);
    NearestEvenMono(Pow10(27) * unit, n, unit);
    NearestEvenMono(n, Pow10(28) * unit, unit);
    NearestEvenOfMultiple(Pow10(27), unit);
    NearestEvenOfMultiple(Pow10(28), unit);
    MulMono(LIMIT / 10, NearestEven(n, unit), unit);
    MulMono(NearestEven(n, unit), LIMIT, unit);
  }

  /** Rounding never reorders two numbers. */
  lemma SigRoundMono(a: nat, b: nat)
    requires a <= b
    ensures SigRound(a) <= SigRound(b)
  {
    hide Pow10, NearestEven, SigRound, NumDigits;
    if b >= LIMIT {
      LongNumber(b);
      var k := NumDigits(b) - PRECISION;
      SigRoundDecade(b, k);
      if a < LIMIT {
        SigRoundShort(a);
        Pow10Values();
        Pow10Mono(28, 27 + k);
      } else {
        LongNumber(a);
        var j := NumDigits(a) - PRECISION;
        SigRoundDecade(a, j);
        NumDigitsMono(a, b);
        if j < k {
          Pow10Mono(28 + j, 27 + k);
        } else {
          NearestEvenMono(a, b, Pow10(k));
          MulMono(NearestEven(a, Pow10(k)), NearestEven(b, Pow10(k)), Pow10(k));
        }
      }
    } else {
      SigRoundShort(a);
      SigRoundShort(b);
    }
  }

  lemma SigRoundTimesTen(n: nat)
    ensures SigRound(10 * n) == 10 * SigRound(n)
  {
    hide Pow10, SigRound, NearestEven;
    if 10 * n < LIMIT {
      SigRoundShort(n);
      SigRoundShort(10 * n);
    } else {
      LongNumber(10 * n);
      var k := NumDigits(10 * n) - PRECISION - 1;
      assert NumDigits(10 * n) == NumDigits(n) + 1;
      SigRoundDecade(10 * n, k + 1);
      Pow10Step(k + 1);
      NearestEvenScale(n, Pow10(k));
      TimesTenLast(NearestEven(n, Pow10(k)), k + 1);
      if n < LIMIT {
        Pow10Values();
        NumDigitsUnique(n, 28);
        SigRoundShort(n);
        NearestEvenOfMultiple(n, 1);
      } else {
        LongNumber(n);
        SigRoundDecade(n, k);
      }
    }
  }

  /** Writing a number with more trailing zeros does not change where it is rounded. */
  lemma {:induction false} SigRoundScale(n: nat, k: nat)
    ensures SigRound(n * Pow10(k)) == SigRound(n) * Pow10(k)
  {
    if k > 0 {
      SigRoundScale(n, k - 1);
      SigRoundTimesTen(n * Pow10(k - 1));
      TimesTenLast(n, k);
      TimesTenLast(SigRound(n), k);
    }
  }

  lemma TimesTenLast(n: nat, k: nat)
    requires k > 0
    ensures n * Pow10(k) == 10 * (n * Pow10(k - 1))
  {
    assert Pow10(k) == 10 * Pow10(k - 1);
    assert n * (10 * Pow10(k - 1)) == 10 * (n * Pow10(k - 1));
  }

  /** The relative error of one rounding is at most one part in 2 * 10^27. */
  lemma SigRoundError(n: nat)
    ensures -(n as int) <= 2 * (SigRound(n) - n) * (LIMIT / 10) <= n
  {
    hide Pow10, SigRound, NumDigits, NearestEven;
    if n < LIMIT {
      SigRoundShort(n);
    } else {
      LongNumber(n);
      NumDigitsBounds(n);
      var k := NumDigits(n) - PRECISION;
      var unit, miss := Pow10(k), 2 * (SigRound(n) - n);
      assert unit * (LIMIT / 10) <= n by {
        Pow10Values();
        Pow10Sum(27, k);
      }
      assert -unit <= miss <= unit by {
        SigRoundDecade(n, k);
        NearestEvenError(n, unit);
      }
      MulMono(miss, unit, LIMIT / 10);
      MulMono(-unit, miss, LIMIT / 10);
    }
  }
}
