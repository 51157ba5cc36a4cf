/**
 * What a decimal means as a real number, and what context rounding does to that number: nothing when
 * it fits in 28 digits, never a reordering, and never more than one part in 2 * 10^27.
 */
module DecimalValue {
  import opened Numerals
  import opened Decimals
  import R = Reals

  /** Ten to any integer power. */
  ghost function Scale(e: int): (s: real)
    ensures s > 0.0
  {
    if e >= 0 then Pow10(e) as real else 1.0 / (Pow10(-e) as real)
  }

  lemma ScaleStep(e: int)
    ensures Scale(e) == 10.0 * Scale(e - 1)
    ensures Scale(0) == 1.0
  {
    if e <= 0 {
      var p := Pow10(-e) as real;
      assert Pow10(-e + 1) as real == 10.0 * p;
      Tenth(p);
    }
  }

  lemma Tenth(p: real)
    requires p > 0.0
    ensures 1.0 / p == 10.0 * (1.0 / (10.0 * p))
  {
  }

  lemma {:induction false} ScaleSum(a: int, b: int)
    ensures Scale(a + b) == Scale(a) * Scale(b)
    decreases Abs(b)
  {
    hide Scale;
    ScaleStep(a + b);
    ScaleStep(b);
    ScaleStep(a + b + 1);
    ScaleStep(b + 1);
    if b > 0 {
      ScaleSum(a, b - 1);
    } else if b < 0 {
      ScaleSum(a, b + 1);
    }
  }

  lemma {:induction false} ScaleNat(k: nat)
    ensures Scale(k) == Pow10(k) as real
  {
    if k > 0 {
      ScaleNat(k - 1);
    }
  }

  ghost function Value(d: Dec): real {
    d.coeff as real * Scale(d.exp)
  }

  /** Shifting digits between coefficient and exponent keeps the value. */
  lemma ValueShift(c: int, e: int, k: nat)
    ensures Value(Dec(c * Pow10(k), e)) == Value(Dec(c, e + k))
  {
    hide Scale;
    ScaleSum(e, k);
    ScaleNat(k);
    R.IntMul(c, Pow10(k));
    R.Assoc(c as real, Pow10(k) as real, Scale(e));
  }

  lemma AlignedValue(d: Dec, e: int)
    requires e <= d.exp
    ensures Value(d) == Aligned(d, e) as real * Scale(e)
  {
    hide Scale;
    ValueShift(d.coeff, e, d.exp - e);
  }

  lemma RawMulValue(a: Dec, b: Dec)
    ensures Value(RawMul(a, b)) == Value(a) * Value(b)
  {
    hide Scale;
    ScaleSum(a.exp, b.exp);
    R.IntMul(a.coeff, b.coeff);
    R.Shuffle(a.coeff as real, b.coeff as real, Scale(a.exp), Scale(b.exp));
  }

  lemma RawAddValue(a: Dec, b: Dec)
    ensures Value(RawAdd(a, b)) == Value(a) + Value(b)
  {
    hide Scale;
    var e := MinExp(a, b);
    AlignedValue(a, e);
    AlignedValue(b, e);
    R.Distribute(Aligned(a, e) as real, Aligned(b, e) as real, Scale(e));
  }

  lemma ValueTimes(c: int, e: int, p: int)
    ensures Value(Dec(c * p, e)) == Value(Dec(c, e)) * p as real
  {
    hide Scale;
    R.IntMul(c, p);
    R.Shuffle(c as real, p as real, Scale(e), 1.0);
  }

  lemma RawDivValue(d: Dec, k: nat)
    ensures Value(RawDivPow10(d, k)) * Pow10(k) as real == Value(d)
  {
    hide Scale, Pow10, StripZeros, Value, RawDivPow10;
    var r := StripZeros(d.coeff, k);
    RawDivParts(d, k);
    StrippedValue(d, r.0, r.1, k);
  }

  lemma RawDivParts(d: Dec, k: nat)
    ensures var r := StripZeros(d.coeff, k);
            RawDivPow10(d, k) == Dec(r.0, d.exp - r.1)
  {
  }

  lemma StrippedValue(d: Dec, c: int, left: nat, k: nat)
    requires left <= k && d.coeff == c * Pow10(k - left)
    ensures Value(Dec(c, d.exp - left)) * Pow10(k) as real == Value(d)
  {
    hide Scale, Pow10, Value;
    ValueShift(c, d.exp, k - left);
    ValueShift(c, d.exp - left, k);
    ValueTimes(c, d.exp - left, Pow10(k));
    assert d.exp - left + k == d.exp + (k - left);
  }

  lemma LessValue(a: Dec, b: Dec)
    ensures Less(a, b) <==> Value(a) < Value(b)
  {
    hide Scale, Pow10, Aligned, Value;
    var e := MinExp(a, b);
    AlignedValue(a, e);
    AlignedValue(b, e);
    AlignedOrder(Aligned(b, e), Aligned(a, e), e);
  }

  lemma AlignedOrder(x: int, y: int, e: int)
    ensures x <= y <==> x as real * Scale(e) <= y as real * Scale(e)
  {
    hide Scale;
    if x <= y {
      R.MulMono(x as real, y as real, Scale(e));
    } else {
      R.MulStrict(y as real, x as real, Scale(e));
    }
  }

  lemma NonNegative(d: Dec)
    ensures Value(d) >= 0.0 <==> d.coeff >= 0
  {
    hide Scale;
    AlignedOrder(0, d.coeff, d.exp);
  }

  /** Context rounding, seen on the coefficient. */
  lemma FixValue(d: Dec)
    ensures Value(Fix(d)) == WithSign(SigRound(Abs(d.coeff)), d.coeff) as real * Scale(d.exp)
    ensures Fits(Fix(d))
  {
    hide Scale, Pow10, SigRound, NearestEven;
    var n := Abs(d.coeff);
    if n < LIMIT {
      SigRoundShort(n);
    } else {
      LongNumber(n);
      var k := NumDigits(n) - PRECISION;
      SigRoundDecade(n, k);
      var q := NearestEven(n, Pow10(k));
      WithSignMul(q, Pow10(k), d.coeff);
      if q == LIMIT {
        CarryUp(k);
        WithSignMul(LIMIT / 10, Pow10(k + 1), d.coeff);
        ValueShift(WithSign(LIMIT / 10, d.coeff), d.exp, k + 1);
      } else {
        ValueShift(WithSign(q, d.coeff), d.exp, k);
      }
    }
  }

  lemma CarryUp(k: nat)
    ensures LIMIT / 10 * Pow10(k + 1) == LIMIT * Pow10(k)
  {
  }

  lemma WithSignMul(n: nat, p: nat, x: int)
    ensures n * p >= 0 && WithSign(n, x) * p == WithSign(n * p, x)
  {
  }

  lemma FixExact(d: Dec)
    requires Fits(d)
    ensures Fix(d) == d
  {
  }

  lemma FixNonNegative(d: Dec)
    requires d.coeff >= 0
    ensures Fix(d).coeff >= 0
  {
  }

  /** Rounding an integer of either sign to 28 digits. */
  function Rounded(x: int): int {
    WithSign(SigRound(Abs(x)), x)
  }

  lemma RoundedMono(x: int, y: int)
    requires x <= y
    ensures Rounded(x) <= Rounded(y)
  {
    hide SigRound;
    if x >= 0 {
      SigRoundMono(x, y);
    } else if y < 0 {
      SigRoundMono(-y, -x);
    }
  }

  lemma RoundedScale(x: int, k: nat)
    ensures Rounded(x * Pow10(k)) == Rounded(x) * Pow10(k)
  {
    hide SigRound, Pow10;
    SigRoundScale(Abs(x), k);
    WithSignMul(Abs(x), Pow10(k), x);
    WithSignMul(SigRound(Abs(x)), Pow10(k), x);
    SignOfProduct(x, Pow10(k));
  }

  lemma SignOfProduct(x: int, p: nat)
    requires p >= 1
    ensures Abs(x * p) == Abs(x) * p && (x * p < 0 <==> x < 0)
  {
    if x < 0 {
      MulMono(x, -1, p);
    } else {
      MulMono(0, x, p);
    }
  }

  lemma FixAligned(d: Dec, e: int)
    requires e <= d.exp
    ensures Value(Fix(d)) == Rounded(Aligned(d, e)) as real * Scale(e)
  {
    hide Scale, Pow10, Fix, Rounded;
    FixRounds(d);
    RoundedScale(d.coeff, d.exp - e);
    ValueShift(Rounded(d.coeff), e, d.exp - e);
  }

  lemma FixRounds(d: Dec)
    ensures Value(Fix(d)) == Value(Dec(Rounded(d.coeff), d.exp))
  {
    hide Fix, SigRound;
    FixValue(d);
  }

  /** Context rounding never reorders two amounts. */
  lemma FixMono(a: Dec, b: Dec)
    requires Value(a) <= Value(b)
    ensures Value(Fix(a)) <= Value(Fix(b))
  {
    hide Scale, Pow10, Aligned, Value, Rounded, Fix;
    var e := MinExp(a, b);
    FixAligned(a, e);
    FixAligned(b, e);
    AlignedValue(a, e);
    AlignedValue(b, e);
    AlignedOrder(Aligned(a, e), Aligned(b, e), e);
    RoundedMono(Aligned(a, e), Aligned(b, e));
    AlignedOrder(Rounded(Aligned(a, e)), Rounded(Aligned(b, e)), e);
  }

  /** Rounding to the context sees the value of a result, not how it is written. */
  lemma FixSame(a: Dec, b: Dec)
    requires Value(a) == Value(b)
    ensures Value(Fix(a)) == Value(Fix(b))
  {
    hide Value, Fix;
    FixMono(a, b);
    FixMono(b, a);
  }

  lemma SigRoundKeeps(n: nat)
    ensures SigRound(n) == n <==> Lossless(Dec(n, 0))
  {
    hide Pow10, NumDigits;
    if n >= LIMIT {
      LongNumber(n);
      var unit := Pow10(NumDigits(n) - PRECISION);
      if n % unit == 0 {
        NearestEvenOfMultiple(n / unit, unit);
      } else if NearestEven(n, unit) * unit == n {
        DivisionUnique(n, unit, NearestEven(n, unit), 0);
      }
    }
  }

  /** Context rounding keeps a result's value exactly when it drops nothing but zeros. */
  lemma FixLossless(d: Dec)
    ensures Value(Fix(d)) == Value(d) <==> Lossless(d)
  {
    hide Scale, Fix, SigRound, Pow10, NumDigits;
    FixValue(d);
    SigRoundKeeps(Abs(d.coeff));
    AlignedOrder(Rounded(d.coeff), d.coeff, d.exp);
    AlignedOrder(d.coeff, Rounded(d.coeff), d.exp);
  }

  /**
   * `r` keeps exactly 28 digits of `d`, the nearest ones: the part dropped is at most half a unit of the
   * last digit kept, and when it is exactly half, that digit is even.
   */
  predicate KeepsNearest(d: Dec, r: Dec)
    requires !Fits(d)
  {
    LongNumber(Abs(d.coeff));
    var unit := Pow10(NumDigits(Abs(d.coeff)) - PRECISION);
    && LIMIT / 10 <= Abs(r.coeff) < LIMIT && r.exp > d.exp
    && (r.coeff < 0 <==> d.coeff < 0)
    && var miss := Abs(r.coeff) * Pow10(r.exp - d.exp) - Abs(d.coeff);
    && -(unit as int) <= 2 * miss <= unit
    && (2 * Abs(miss) == unit ==> r.coeff % 2 == 0)
  }

  lemma FixParts(d: Dec, k: nat, q: nat)
    requires !Fits(d) && NumDigits(Abs(d.coeff)) == PRECISION + k && q == NearestEven(Abs(d.coeff), Pow10(k))
    ensures Fix(d) == if q == LIMIT then Dec(WithSign(LIMIT / 10, d.coeff), d.exp + k + 1)
                      else Dec(WithSign(q, d.coeff), d.exp + k)
  {
    hide Pow10, NumDigits, NearestEven;
  }

  lemma PartsKeepNearest(d: Dec, r: Dec, unit: nat, product: int)
    requires !Fits(d) && (LongNumber(Abs(d.coeff)); unit == Pow10(NumDigits(Abs(d.coeff)) - PRECISION))
    requires LIMIT / 10 <= Abs(r.coeff) < LIMIT && r.exp > d.exp && (r.coeff < 0 <==> d.coeff < 0)
    requires product == Abs(r.coeff) * Pow10(r.exp - d.exp)
    requires -(unit as int) <= 2 * (product - Abs(d.coeff)) <= unit
    requires 2 * Abs(product - Abs(d.coeff)) == unit ==> r.coeff % 2 == 0
    ensures KeepsNearest(d, r)
  {
    hide Pow10, NumDigits;
  }

  lemma KeptParts(d: Dec, k: nat, q: nat)
    requires !Fits(d) && NumDigits(Abs(d.coeff)) == PRECISION + k && q == NearestEven(Abs(d.coeff), Pow10(k))
    requires LIMIT / 10 <= q <= LIMIT && k > 0
    ensures var r := Fix(d);
            && LIMIT / 10 <= Abs(r.coeff) < LIMIT && r.exp > d.exp && (r.coeff < 0 <==> d.coeff < 0)
            && Abs(r.coeff) * Pow10(r.exp - d.exp) == q * Pow10(k)
            && (q % 2 == 0 ==> r.coeff % 2 == 0)
  {
    hide Pow10, NumDigits, NearestEven, Fix;
    FixParts(d, k, q);
    if q == LIMIT {
      CarryUp(k);
    }
  }

  /** Context rounding is to the nearest, and to the even one of two that are equally near. */
  lemma FixNearestEven(d: Dec)
    requires !Fits(d)
    ensures KeepsNearest(d, Fix(d))
  {
    hide Pow10, NumDigits, NearestEven, SigRound, Fix, KeepsNearest;
    var n := Abs(d.coeff);
    LongNumber(n);
    var k := NumDigits(n) - PRECISION;
    var unit, q := Pow10(k), NearestEven(n, Pow10(k));
    SigRoundDecade(n, k);
    KeptParts(d, k, q);
    NearestMiss(n, unit, q, q * unit);
    PartsKeepNearest(d, Fix(d), unit, q * unit);
  }

  lemma NearestMiss(n: nat, unit: nat, q: nat, product: int)
    requires unit > 0 && q == NearestEven(n, unit) && product == q * unit
    ensures -(unit as int) <= 2 * (product - n) <= unit
    ensures 2 * Abs(product - n) == unit ==> q % 2 == 0
  {
    hide NearestEven;
    NearestEvenError(n, unit);
    NearestEvenTies(n, unit);
  }

  /** 2 * 10^27: the inverse of the relative error of one rounding. */
  const ROUNDINGS: real := 2_000_000_000_000_000_000_000_000_000.0

  lemma FixError(d: Dec)
    ensures R.AbsReal(Value(Fix(d)) - Value(d)) * ROUNDINGS <= R.AbsReal(Value(d))
  {
    hide Scale, SigRound, Fix;
    FixRounds(d);
    RoundedError(d.coeff);
    MissScaled(d.coeff as real, Rounded(d.coeff) as real, Scale(d.exp));
  }

  lemma AbsOfInt(x: int)
    ensures R.AbsReal(x as real) == Abs(x) as real
  {
  }

  /** An integer miss, twice and in units of 10^27, as a real number. */
  lemma MissOfInt(m: int)
    ensures (2 * m * (LIMIT / 10)) as real == m as real * ROUNDINGS
  {
    assert 2 * (LIMIT / 10) == 2_000_000_000_000_000_000_000_000_000;
    R.IntMul(m, 2 * (LIMIT / 10));
  }

  lemma RoundedMiss(x: int)
    ensures Abs(Rounded(x) - x) == Abs(SigRound(Abs(x)) - Abs(x))
  {
    hide SigRound;
  }

  lemma RoundedError(x: int)
    ensures R.AbsReal(Rounded(x) as real - x as real) * ROUNDINGS <= R.AbsReal(x as real)
  {
    hide SigRound, Rounded, LIMIT;
    SigRoundError(Abs(x));
    RoundedMiss(x);
    AbsOfInt(Rounded(x) - x);
    AbsOfInt(x);
    MissOfInt(SigRound(Abs(x)) - Abs(x));
    MissOfInt(-(SigRound(Abs(x)) - Abs(x)));
    assert (Rounded(x) - x) as real == Rounded(x) as real - x as real;
  }

  lemma MissScaled(n: real, r: real, s: real)
    requires s > 0.0 && R.AbsReal(r - n) * ROUNDINGS <= R.AbsReal(n)
    ensures R.AbsReal(r * s - n * s) * ROUNDINGS <= R.AbsReal(n * s)
  {
    R.Distribute(r, n, s);
    R.AbsTimes(r - n, s);
    R.AbsTimes(n, s);
    R.MulMono(R.AbsReal(r - n) * ROUNDINGS, R.AbsReal(n), s);
    R.Assoc(R.AbsReal(r - n), ROUNDINGS, s);
    R.Assoc(R.AbsReal(r - n), s, ROUNDINGS);
  }

  /** Rounding a real number to a whole number, ties away from zero. */
  ghost function HalfUpReal(x: real): int {
    if x >= 0.0 then (x + 0.5).Floor else -(-x + 0.5).Floor
  }

  /** `HalfUp` is the half-up of the decimal's value. */
  lemma HalfUpValue(d: Dec)
    ensures HalfUp(d) == HalfUpReal(Value(d))
  {
    hide Scale, Pow10;
    NonNegative(d);
    if d.exp >= 0 {
      ValueShift(d.coeff, 0, d.exp);
      ScaleStep(0);
    } else {
      Pow10Step(-d.exp);
      Inverse(d.exp);
      var unit, n, s := Pow10(-d.exp), Abs(d.coeff), Scale(d.exp);
      R.Assoc(n as real, s, unit as real);
      FloorOfQuotient(n as real * s, n, unit);
    }
  }

  lemma Inverse(e: int)
    requires e < 0
    ensures Scale(e) * Pow10(-e) as real == 1.0
  {
    hide Scale, Pow10;
    ScaleSum(e, -e);
    ScaleNat(-e);
    ScaleStep(0);
  }

  lemma FloorOfQuotient(x: real, n: nat, unit: nat)
    requires unit > 0 && unit % 2 == 0 && x * unit as real == n as real
    ensures (x + 0.5).Floor == (n + unit / 2) / unit
  {
    var top := n + unit / 2;
    R.Distribute(x, -0.5, unit as real);
    FloorBetween(x + 0.5, top, top / unit, top % unit, unit);
  }

  lemma FloorBetween(x: real, top: nat, m: int, r: int, unit: nat)
    requires x * unit as real == top as real && top == m * unit + r && 0 <= r < unit
    ensures x.Floor == m
  {
    var u := unit as real;
    R.IntMul(m, unit);
    R.Distribute(m as real, -1.0, u);
    if x < m as real {
      R.MulStrict(x, m as real, u);
    } else if x >= m as real + 1.0 {
      R.MulMono(m as real + 1.0, x, u);
    }
  }

  lemma HalfUpMono(a: Dec, b: Dec)
    requires Value(a) <= Value(b)
    ensures HalfUp(a) <= HalfUp(b)
  {
    HalfUpValue(a);
    HalfUpValue(b);
  }
}
