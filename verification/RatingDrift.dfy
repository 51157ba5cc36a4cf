/**
 * How far context rounding can move a price. Every step adds at most two roundings of one part in
 * 2 * 10^27, so the premium stays within (2 + 2n) parts in 10^27 of the exact one after n steps: at
 * most one cent for any premium that is not astronomically large.
 */
module RatingDrift {
  import opened Numerals
  import opened Decimals
  import opened DecimalValue
  import opened RatingEngine
  import opened RatingValue
  import R = Reals

  /** 10^27. */
  const PARTS: real := 1_000_000_000_000_000_000_000_000_000.0

  /** `x` is within `k` parts in 10^27 of `e`. */
  ghost predicate Close(x: real, e: real, k: real) {
    -(k * e) <= (x - e) * PARTS <= k * e
  }

  lemma CloseMul(x: real, e: real, f: real, k: real)
    requires Close(x, e, k) && f >= 0.0
    ensures Close(x * f, e * f, k)
  {
    var gap := (x - e) * PARTS;
    R.MulMono(gap, k * e, f);
    R.MulMono(-(k * e), gap, f);
    R.Assoc(k, e, f);
    R.Shuffle(x - e, PARTS, f, 1.0);
    R.Distribute(x, e, f);
  }

  lemma CloseAdd(x: real, e: real, y: real, d: real, k: real)
    requires Close(x, e, k) && Close(y, d, k)
    ensures Close(x + y, e + d, k)
  {
    R.Distribute(e, d, k);
  }

  lemma CloseWeaken(x: real, e: real, j: real, k: real)
    requires Close(x, e, j) && e >= 0.0 && j <= k
    ensures Close(x, e, k)
  {
    R.MulMono(j, k, e);
  }

  /** One more rounding of `x` costs one more part. */
  lemma CloseFix(x': real, x: real, e: real, k: real)
    requires R.AbsReal(x' - x) * ROUNDINGS <= x && Close(x, e, k)
    requires e >= 0.0 && k <= PARTS
    ensures Close(x', e, k + 1.0)
  {
    R.MulMono(k, PARTS, e);
    assert (x - e) * PARTS <= e * PARTS;
    R.Cancel(x - e, e, PARTS);
    R.Distribute(k, -1.0, e);
  }

  /** The decimal run is within `k` parts of the real run, and nothing is negative. */
  ghost predicate Near(acc: Acc, real_: RealAcc, k: real) {
    && acc.subtotal.coeff >= 0 && acc.commercial.coeff >= 0
    && real_.subtotal >= 0.0 && real_.commercial >= 0.0
    && Close(Value(acc.subtotal), real_.subtotal, k)
    && Close(Value(acc.commercial), real_.commercial, k)
  }

  predicate NonNegativeOp(op: Op) {
    match op
    case Times(f) => f.coeff >= 0
    case Plus(a) => a.coeff >= 0
    case PlusShare(r) => r.coeff >= 0
  }

  predicate NonNegativeSteps(steps: seq<Step>) {
    forall i :: 0 <= i < |steps| ==> NonNegativeOp(steps[i].op)
  }

  lemma MulNear(a: Dec, f: Dec, e: real, product: real, k: real)
    requires a.coeff >= 0 && f.coeff >= 0 && e >= 0.0 && 0.0 <= k <= PARTS && Close(Value(a), e, k)
    requires product == e * Value(f)
    ensures Mul(a, f).coeff >= 0 && product >= 0.0
    ensures Close(Value(Mul(a, f)), product, k + 1.0)
  {
    hide Value, Scale, Close, Fix, LIMIT;
    NonNegative(f);
    R.MulMono(0.0, e, Value(f));
    RawMulValue(a, f);
    assert RawMul(a, f).coeff >= 0 by {
      assert a.coeff * f.coeff >= 0;
    }
    NonNegative(RawMul(a, f));
    FixError(RawMul(a, f));
    FixNonNegative(RawMul(a, f));
    CloseMul(Value(a), e, Value(f), k);
    CloseFix(Value(Mul(a, f)), Value(RawMul(a, f)), e * Value(f), k);
  }

  lemma AddNear(a: Dec, b: Dec, e: real, d: real, k: real)
    requires a.coeff >= 0 && b.coeff >= 0 && e >= 0.0 && d >= 0.0 && k <= PARTS
    requires Close(Value(a), e, k) && Close(Value(b), d, k)
    ensures Add(a, b).coeff >= 0
    ensures Close(Value(Add(a, b)), e + d, k + 1.0)
  {
    hide Value, Scale, Close, Fix, LIMIT, RawAdd;
    RawAddValue(a, b);
    NonNegative(a);
    NonNegative(b);
    NonNegative(RawAdd(a, b));
    FixError(RawAdd(a, b));
    FixNonNegative(RawAdd(a, b));
    CloseAdd(Value(a), e, Value(b), d, k);
    CloseFix(Value(Add(a, b)), Value(RawAdd(a, b)), e + d, k);
  }

  lemma CloseSelf(x: real, k: real)
    requires x >= 0.0 && k >= 0.0
    ensures Close(x, x, k)
  {
    R.MulMono(0.0, k, x);
  }

  /** A factor `f` moved to `g` by one rounding costs one part of the product. */
  lemma RoundedFactor(x: real, g: real, f: real, e: real, moved: real, product: real, k: real)
    requires x >= 0.0 && e >= 0.0 && f >= 0.0 && 0.0 <= k <= PARTS && Close(x, e, k)
    requires R.AbsReal(g - f) * ROUNDINGS <= f && moved == x * g && product == e * f
    ensures product >= 0.0 && Close(moved, product, k + 1.0)
  {
    hide Close;
    R.MulMono(0.0, e, f);
    FactorMoved(x, g, f);
    CloseMul(x, e, f, k);
    CloseFix(moved, x * f, product, k);
  }

  lemma FactorMoved(x: real, g: real, f: real)
    requires x >= 0.0 && f >= 0.0 && R.AbsReal(g - f) * ROUNDINGS <= f
    ensures R.AbsReal(x * g - x * f) * ROUNDINGS <= x * f
  {
    if x > 0.0 {
      MissScaled(f, g, x);
      R.AbsTimes(f, x);
    }
  }

  /** A product with a factor that may have been rounded to the context before. */
  lemma RoundedMulNear(a: Dec, f: Dec, e: real, product: real, k: real)
    requires a.coeff >= 0 && f.coeff >= 0 && e >= 0.0 && 0.0 <= k <= PARTS - 1.0 && Close(Value(a), e, k)
    requires product == e * Value(f)
    ensures Mul(a, Fix(f)).coeff >= 0 && product >= 0.0
    ensures Close(Value(Mul(a, Fix(f))), product, k + 2.0)
  {
    hide Value, Scale, Close, Fix, LIMIT, RawMul;
    var raw := RawMul(a, Fix(f));
    NonNegative(a);
    FixNonNegative(f);
    NonNegative(Fix(f));
    NonNegative(f);
    FixError(f);
    RawMulValue(a, Fix(f));
    RoundedFactor(Value(a), Value(Fix(f)), Value(f), e, Value(raw), product, k);
    R.MulMono(0.0, Value(a), Value(Fix(f)));
    NonNegative(raw);
    FixError(raw);
    FixNonNegative(raw);
    CloseFix(Value(Fix(raw)), Value(raw), product, k + 1.0);
    assert k + 1.0 + 1.0 == k + 2.0;
  }

  lemma TimesNear(acc: Acc, real_: RealAcc, op: Op, exact: Op, k: real)
    requires Near(acc, real_, k) && op.Times? && Rounds(op, exact) && NonNegativeOp(exact) && 0.0 <= k <= PARTS - 1.0
    ensures Near(Advance(acc, op), RealAdvance(real_, exact), k + 2.0)
  {
    hide Value, Scale, Close, Fix, LIMIT, RawMul, Mul;
    var next := RealAdvance(real_, exact).subtotal;
    if op == exact {
      MulNear(acc.subtotal, op.factor, real_.subtotal, next, k);
      CloseWeaken(Value(Mul(acc.subtotal, op.factor)), next, k + 1.0, k + 2.0);
    } else {
      RoundedMulNear(acc.subtotal, exact.factor, real_.subtotal, next, k);
    }
  }

  lemma NearAdvance(acc: Acc, real_: RealAcc, op: Op, exact: Op, k: real)
    requires Near(acc, real_, k) && Rounds(op, exact) && NonNegativeOp(exact) && 0.0 <= k <= PARTS - 1.0
    ensures Near(Advance(acc, op), RealAdvance(real_, exact), k + 2.0)
  {
    hide Value, Scale, Close, Fix, LIMIT, RawAdd, RawMul, Mul, Add;
    match op
    case Times(f) => TimesNear(acc, real_, op, exact, k);
    case Plus(a) =>
      NonNegative(a);
      CloseSelf(Value(a), k);
      AddNear(acc.subtotal, a, real_.subtotal, Value(a), k);
      CloseWeaken(Value(Add(acc.subtotal, a)), real_.subtotal + Value(a), k + 1.0, k + 2.0);
      CloseWeaken(Value(acc.commercial), real_.commercial, k, k + 2.0);
    case PlusShare(r) =>
      var share := real_.commercial * Value(r);
      MulNear(acc.commercial, r, real_.commercial, share, k);
      CloseWeaken(Value(acc.subtotal), real_.subtotal, k, k + 1.0);
      AddNear(acc.subtotal, Mul(acc.commercial, r), real_.subtotal, share, k + 1.0);
      assert k + 1.0 + 1.0 == k + 2.0 && RealAdvance(real_, op).subtotal == real_.subtotal + share;
      CloseWeaken(Value(acc.commercial), real_.commercial, k, k + 2.0);
  }

  lemma {:induction false} NearRun(acc: Acc, real_: RealAcc, steps: seq<Step>, exact: seq<Step>, k: real)
    requires Near(acc, real_, k) && Beside(steps, exact) && NonNegativeSteps(exact)
    requires 0.0 <= k && k + 2.0 * |steps| as real <= PARTS
    ensures Near(Run(acc, steps), RealRun(real_, exact), k + 2.0 * |steps| as real)
  {
    hide Near, Advance, RealAdvance, NonNegativeOp, Rounds;
    if steps != [] {
      var n := |steps| - 1;
      NearRun(acc, real_, steps[..n], exact[..n], k);
      NearAdvance(Run(acc, steps[..n]), RealRun(real_, exact[..n]), steps[n].op, exact[n].op, k + 2.0 * n as real);
    }
  }

  /** No factor, loading, fee, tax rate, adjustment or insured value of this pricing is negative. */
  predicate NonNegativePricing(facts: Facts, table: RateTable)
    requires facts.occupancy in table.occupancyFactors
  {
    && facts.tivEur >= 0 && facts.commercialAdjustment.coeff >= 0
    && table.baseRatePermille.coeff >= 0
    && table.occupancyFactors[facts.occupancy].coeff >= 0
    && forall i :: 0 <= i < |table.adjustments| ==> table.adjustments[i].factor.coeff >= 0
  }

  lemma {:induction false} RiskNonNegative(adjustments: seq<Adjustment>, flags: set<string>)
    requires forall i :: 0 <= i < |adjustments| ==> adjustments[i].factor.coeff >= 0
    ensures NonNegativeSteps(RiskSteps(adjustments, flags))
  {
    if adjustments != [] {
      RiskNonNegative(adjustments[..|adjustments| - 1], flags);
    }
  }

  lemma {:induction false} LoadingNonNegative(loadings: seq<(string, Dec)>)
    ensures NonNegativeSteps(LoadingSteps(loadings)) && NonNegativeSteps(ExactLoadingSteps(loadings))
  {
    hide Add, RawAdd, Less;
    if loadings != [] {
      LoadingNonNegative(loadings[..|loadings| - 1]);
      PositiveLoading(loadings[|loadings| - 1].1);
    }
  }

  lemma PositiveLoading(pct: Dec)
    ensures Less(ZERO, pct) ==> pct.coeff >= 0 && Add(ONE, pct).coeff >= 0 && RawAdd(ONE, pct).coeff >= 0
  {
    hide Value, Scale, RawAdd, Less;
    LessValue(ZERO, pct);
    UnitValue();
    NonNegative(pct);
    RawAddValue(ONE, pct);
    NonNegative(RawAdd(ONE, pct));
  }

  lemma LossNonNegative(facts: Facts, table: RateTable)
    requires facts.occupancy in table.occupancyFactors && NonNegativePricing(facts, table)
    ensures NonNegativeSteps(LossSteps(facts, table))
  {
    hide RiskSteps;
    RiskNonNegative(table.adjustments, facts.flags);
  }

  lemma CommercialNonNegative(facts: Facts)
    requires facts.commercialAdjustment.coeff >= 0
    ensures NonNegativeSteps(CommercialSteps(facts))
  {
    hide Less, Same;
  }

  lemma TaxesNonNegative(table: RateTable)
    ensures NonNegativeSteps(TaxSteps(table))
  {
    hide Less, Mul;
    PositiveLoading(table.iptRate);
  }

  lemma PathNonNegative(facts: Facts, table: RateTable)
    requires facts.occupancy in table.occupancyFactors && NonNegativePricing(facts, table)
    ensures NonNegativeSteps(FullPath(facts, table)) && NonNegativeSteps(ExactPath(facts, table))
  {
    hide LossSteps, LoadingSteps, ExactLoadingSteps, CommercialSteps, TaxSteps, Loadings, NonNegativeOp;
    LossNonNegative(facts, table);
    LoadingNonNegative(Loadings(table));
    CommercialNonNegative(facts);
    TaxesNonNegative(table);
  }

  lemma RateNear(permille: Dec)
    requires permille.coeff >= 0
    ensures DivPow10(permille, 3).coeff >= 0 && Value(permille) / 1000.0 >= 0.0
    ensures Close(Value(DivPow10(permille, 3)), Value(permille) / 1000.0, 1.0)
  {
    hide Value, Scale, Close, LIMIT, RawDivPow10, Fix;
    var raw, exact := RawDivPow10(permille, 3), Value(permille) / 1000.0;
    RawDivValue(permille, 3);
    Pow10Values();
    Thousandth(Value(raw), Value(permille));
    NonNegative(permille);
    NonNegative(raw);
    FixError(raw);
    FixNonNegative(raw);
    CloseSelf(exact, 0.0);
    CloseFix(Value(DivPow10(permille, 3)), Value(raw), exact, 0.0);
  }

  lemma BaseNear(facts: Facts, table: RateTable)
    requires facts.occupancy in table.occupancyFactors && NonNegativePricing(facts, table)
    ensures Near(Base(facts, table), RealBase(facts, table), 2.0)
  {
    hide Value, Scale, Close, Mul, DivPow10;
    var rate, exact := DivPow10(table.baseRatePermille, 3), Value(table.baseRatePermille) / 1000.0;
    RateNear(table.baseRatePermille);
    IntValue(facts.tivEur);
    MulNear(rate, OfInt(facts.tivEur), exact, ExactBase(facts, table), 1.0);
  }

  /** How many parts in 10^27 a run of `n` steps can lose. */
  ghost function Drift(n: nat): real {
    2.0 + 2.0 * n as real
  }

  /** Every subtotal on the way to a premium is within its drift of the exact one. */
  lemma SubtotalDrift(facts: Facts, table: RateTable, k: nat)
    requires facts.occupancy in table.occupancyFactors && NonNegativePricing(facts, table)
    requires k <= |FullPath(facts, table)| == |ExactPath(facts, table)| && Drift(k) <= PARTS
    ensures var exact := RealRun(RealBase(facts, table), ExactPath(facts, table)[..k]).subtotal;
            var subtotal := Run(Base(facts, table), FullPath(facts, table)[..k]).subtotal;
            exact >= 0.0 && subtotal.coeff >= 0 && Close(Value(subtotal), exact, Drift(k))
  {
    hide Close, Value, Base, RealBase, FullPath, ExactPath, Run, RealRun;
    BaseNear(facts, table);
    PathNonNegative(facts, table);
    PathsBeside(facts, table);
    NearRun(Base(facts, table), RealBase(facts, table), FullPath(facts, table)[..k], ExactPath(facts, table)[..k], 2.0);
  }

  /** The unrounded decimal premium. */
  ghost function PremiumValue(facts: Facts, table: RateTable): real
    requires facts.occupancy in table.occupancyFactors
  {
    Value(Run(Base(facts, table), FullPath(facts, table)).subtotal)
  }

  lemma PremiumShown(facts: Facts, table: RateTable)
    requires facts.occupancy in table.occupancyFactors
    ensures PriceOf(facts, table).premiumMinor == HalfUpReal(PremiumValue(facts, table))
    ensures PremiumValue(facts, table) >= 0.0 <==> Run(Base(facts, table), FullPath(facts, table)).subtotal.coeff >= 0
  {
    hide Value, Base, FullPath, Run, HalfUp, HalfUpReal;
    HalfUpValue(Run(Base(facts, table), FullPath(facts, table)).subtotal);
    NonNegative(Run(Base(facts, table), FullPath(facts, table)).subtotal);
  }

  /**
   * `minor` is the half-up of `exact`, or one cent off it; and it is off only when `exact` lies within
   * `k` parts in 10^27 of the half cent between the two.
   */
  ghost predicate WithinACent(minor: int, exact: real, k: real) {
    var nearest := HalfUpReal(exact);
    var upper := if minor > nearest then minor else nearest;
    && -1 <= minor - nearest <= 1
    && (minor != nearest ==> R.AbsReal(exact - (upper as real - 0.5)) * PARTS <= k * exact)
  }

  lemma HalfUpNear(x: real, e: real, k: real)
    requires Close(x, e, k) && k * e <= PARTS && x >= 0.0 && e >= 0.0
    ensures WithinACent(HalfUpReal(x), e, k)
  {
  }

  /** For any table with non-negative parameters, rounding to the context moves the premium by at most a cent. */
  lemma PremiumWithinACent(facts: Facts, table: RateTable)
    requires facts.occupancy in table.occupancyFactors && NonNegativePricing(facts, table)
    requires var k := Drift(|FullPath(facts, table)|);
             k <= PARTS && k * ExactPremium(facts, table) <= PARTS
    ensures WithinACent(PriceOf(facts, table).premiumMinor, ExactPremium(facts, table), Drift(|FullPath(facts, table)|))
  {
    hide Value, Run, RealRun, HalfUpReal, ExactPremium, Base, RealBase, NonNegativePricing;
    hide Close, WithinACent, FullPath, ExactPath, PriceOf, Drift, Loadings;
    var path, exact := FullPath(facts, table), ExactPath(facts, table);
    PathsBeside(facts, table);
    PremiumClosed(facts, table);
    SubtotalDrift(facts, table, |path|);
    assert path[..|path|] == path && exact[..|path|] == exact;
    PremiumShown(facts, table);
    HalfUpNear(PremiumValue(facts, table), ExactPremium(facts, table), Drift(|path|));
  }
}
