/**
 * When the cents a price reports are right although digits were lost: a total is the half-up of its exact
 * amount unless a half cent lies in between, and the taxes, the difference of two totals, are strictly
 * within a cent of the exact fee and tax unless both totals come close to a half cent on opposite sides.
 */
module RatingCents {
  import opened Wrappers
  import opened Numerals
  import opened Decimals
  import opened DecimalValue
  import opened RatingEngine
  import opened RatingTables
  import opened RatingValue
  import opened RatingDrift
  import opened RatingV2
  import opened RatingLaws
  import R = Reals

  // ----- half cents

  /** The half cent below `m` cents. */
  ghost function HalfCent(m: int): real {
    m as real - 0.5
  }

  /** A half cent above the smaller of two amounts and not above the larger. */
  ghost predicate HalfCentBetween(a: real, b: real) {
    exists m :: (if a <= b then a else b) < HalfCent(m) <= (if a <= b then b else a)
  }

  /** Two amounts round to the same cents exactly when no half cent lies between them. */
  lemma SameCentsIff(a: real, b: real)
    requires a >= 0.0 && b >= 0.0
    ensures HalfUpReal(a) == HalfUpReal(b) <==> !HalfCentBetween(a, b)
  {
    hide HalfUpReal;
    Nearest(a);
    Nearest(b);
    var low, high := if a <= b then a else b, if a <= b then b else a;
    if HalfUpReal(a) != HalfUpReal(b) {
      RoundsInOrder(low, high);
      assert low < HalfCent(HalfUpReal(high)) <= high;
    }
    if m :| low < HalfCent(m) <= high {
      Nearest(low);
      Nearest(high);
      assert HalfUpReal(low) < m <= HalfUpReal(high);
    }
  }

  lemma RoundsInOrder(low: real, high: real)
    requires 0.0 <= low <= high
    ensures HalfUpReal(low) <= HalfUpReal(high)
  {
  }

  // ----- every printed amount

  lemma AdvanceNonNegative(acc: Acc, op: Op)
    requires acc.subtotal.coeff >= 0 && acc.commercial.coeff >= 0 && NonNegativeOp(op)
    ensures Advance(acc, op).subtotal.coeff >= 0 && Advance(acc, op).commercial.coeff >= 0
  {
    hide Fix, Value, RawAdd;
    match op
    case Times(f) => ProductNonNegative(acc.subtotal, f);
    case Plus(a) => SumNonNegative(acc.subtotal, a);
    case PlusShare(r) =>
      ProductNonNegative(acc.commercial, r);
      SumNonNegative(acc.subtotal, Mul(acc.commercial, r));
  }

  lemma ProductNonNegative(a: Dec, f: Dec)
    requires a.coeff >= 0 && f.coeff >= 0
    ensures Mul(a, f).coeff >= 0
  {
    hide Fix;
    assert a.coeff * f.coeff >= 0;
    FixNonNegative(RawMul(a, f));
  }

  lemma SumNonNegative(a: Dec, b: Dec)
    requires a.coeff >= 0 && b.coeff >= 0
    ensures RawAdd(a, b).coeff >= 0 && Add(a, b).coeff >= 0
  {
    hide Fix, Value, RawAdd;
    RawAddValue(a, b);
    NonNegative(a);
    NonNegative(b);
    NonNegative(RawAdd(a, b));
    FixNonNegative(RawAdd(a, b));
  }

  lemma {:induction false} RunNonNegative(acc: Acc, steps: seq<Step>)
    requires acc.subtotal.coeff >= 0 && acc.commercial.coeff >= 0 && NonNegativeSteps(steps)
    ensures Run(acc, steps).subtotal.coeff >= 0 && Run(acc, steps).commercial.coeff >= 0
  {
    hide Advance, NonNegativeOp;
    if steps != [] {
      RunNonNegative(acc, steps[..|steps| - 1]);
      AdvanceNonNegative(Run(acc, steps[..|steps| - 1]), steps[|steps| - 1].op);
    }
  }

  lemma AmountsNonNegative(facts: Facts, table: RateTable, k: nat)
    requires facts.occupancy in table.occupancyFactors && NonNegativePricing(facts, table)
    requires k <= |FullPath(facts, table)| == |ExactPath(facts, table)|
    ensures Value(Run(Base(facts, table), FullPath(facts, table)[..k]).subtotal) >= 0.0
    ensures RealRun(RealBase(facts, table), ExactPath(facts, table)[..k]).subtotal >= 0.0
  {
    hide Value, Close, Run, RealRun, FullPath, ExactPath, Base, RealBase, NonNegativePricing;
    var path, exact := FullPath(facts, table)[..k], ExactPath(facts, table)[..k];
    PathNonNegative(facts, table);
    NonNegativePrefix(path, FullPath(facts, table));
    NonNegativePrefix(exact, ExactPath(facts, table));
    BaseNear(facts, table);
    RunNonNegative(Base(facts, table), path);
    NonNegative(Run(Base(facts, table), path).subtotal);
    RealBaseNonNegative(facts, table);
    RealRunNonNegative(RealBase(facts, table), exact);
  }

  /**
   * Whatever was lost on the way, the amount shown after `k` steps is the half-up of the exact one if and
   * only if no half cent lies between the unrounded subtotal and the exact amount.
   */
  lemma ShownExactlyIff(facts: Facts, table: RateTable, k: nat)
    requires facts.occupancy in table.occupancyFactors && NonNegativePricing(facts, table)
    requires k <= |FullPath(facts, table)| == |ExactPath(facts, table)|
    ensures var subtotal := Run(Base(facts, table), FullPath(facts, table)[..k]).subtotal;
            var exact := RealRun(RealBase(facts, table), ExactPath(facts, table)[..k]).subtotal;
            HalfUp(subtotal) == HalfUpReal(exact) <==> !HalfCentBetween(Value(subtotal), exact)
  {
    hide Value, HalfUp, HalfUpReal, Run, RealRun, FullPath, ExactPath, Base, RealBase, NonNegativePricing;
    hide HalfCentBetween;
    AmountsNonNegative(facts, table, k);
    HalfUpValue(Run(Base(facts, table), FullPath(facts, table)[..k]).subtotal);
    SameCentsIff(Value(Run(Base(facts, table), FullPath(facts, table)[..k]).subtotal),
                 RealRun(RealBase(facts, table), ExactPath(facts, table)[..k]).subtotal);
  }

  /** The premium is the half-up of the exact one if and only if no half cent lies between its two values. */
  lemma PremiumExactIff(facts: Facts, table: RateTable)
    requires facts.occupancy in table.occupancyFactors && NonNegativePricing(facts, table)
    ensures PriceOf(facts, table).premiumMinor == HalfUpReal(ExactPremium(facts, table))
            <==> !HalfCentBetween(PremiumValue(facts, table), ExactPremium(facts, table))
  {
    hide Value, HalfUp, HalfUpReal, Run, RealRun, FullPath, ExactPath, Base, RealBase, NonNegativePricing;
    hide HalfCentBetween;
    hide ExactPremium;
    var n := |FullPath(facts, table)|;
    PathsBeside(facts, table);
    PremiumClosed(facts, table);
    ShownExactlyIff(facts, table, n);
    assert FullPath(facts, table)[..n] == FullPath(facts, table);
    assert ExactPath(facts, table)[..n] == ExactPath(facts, table);
  }

  // ----- the difference of two totals

  /** By how many cents a reported total is off the half-up of its exact amount. */
  ghost function CentsOff(minor: int, exact: real): int {
    minor - HalfUpReal(exact)
  }

  /** What rounding an exact amount to cents adds to it. */
  ghost function Excess(exact: real): real {
    HalfUpReal(exact) as real - exact
  }

  ghost predicate StrictlyWithinACent(minor: int, exact: real) {
    R.AbsReal(minor as real - exact) < 1.0
  }

  /**
   * A difference of two reported totals is strictly within a cent of the exact difference if and only if
   * both are off by the same number of cents, or by one more on the side whose rounding added less.
   */
  lemma DifferenceIff(p: int, c: int, y: real, x: real)
    requires y >= 0.0 && x >= 0.0
    ensures StrictlyWithinACent(p - c, y - x) <==>
            || CentsOff(p, y) == CentsOff(c, x)
            || (CentsOff(p, y) == CentsOff(c, x) + 1 && Excess(y) < Excess(x))
            || (CentsOff(c, x) == CentsOff(p, y) + 1 && Excess(x) < Excess(y))
  {
    hide HalfUpReal;
    Nearest(y);
    Nearest(x);
    var d := CentsOff(p, y) - CentsOff(c, x);
    assert (p - c) as real - (y - x) == d as real + (Excess(y) - Excess(x));
  }

  /** The exact condition under which the reported taxes are strictly within a cent of the exact fee and tax. */
  lemma TaxesWithinACentIff(facts: Facts, table: RateTable)
    requires facts.occupancy in table.occupancyFactors && NonNegativePricing(facts, table)
    ensures var p, y, x := PriceOf(facts, table), ExactPremium(facts, table), ExactCommercial(facts, table);
            var premiumOff, commercialOff := CentsOff(p.premiumMinor, y), CentsOff(p.commercialPremiumMinor, x);
            StrictlyWithinACent(p.taxesMinor, ExactTaxes(facts, table)) <==>
            || premiumOff == commercialOff
            || (premiumOff == commercialOff + 1 && Excess(y) < Excess(x))
            || (commercialOff == premiumOff + 1 && Excess(x) < Excess(y))
  {
    hide ExactCommercial, ExactTaxes, HalfUpReal, HalfUp, Trail, FullPath, CommercialPath, Run, Base;
    hide NonNegativePricing;
    hide CentsOff, Excess, StrictlyWithinACent;
    ExactNonNegative(facts, table);
    var p := PriceOf(facts, table);
    DifferenceIff(p.premiumMinor, p.commercialPremiumMinor, ExactPremium(facts, table), ExactCommercial(facts, table));
    assert ExactPremium(facts, table) - ExactCommercial(facts, table) == ExactTaxes(facts, table);
  }

  // ----- what a miss needs

  /** The amount is within `slack` parts of the half cent below `m`. */
  ghost predicate NearHalfCent(x: real, m: int, slack: real) {
    R.AbsReal(x - HalfCent(m)) * PARTS <= slack
  }

  ghost predicate ClearOfHalfCents(x: real, slack: real) {
    forall m :: !NearHalfCent(x, m, slack)
  }

  /** The slack of two totals that drift by `k` parts. */
  ghost function Slack(y: real, x: real, k: real): real {
    k * y + k * x
  }

  /** Half a cent of rounding and the drift. */
  ghost predicate Off(gap: real, drift: real) {
    -(0.5 * PARTS + drift) <= gap * PARTS <= 0.5 * PARTS + drift
  }

  /** Two gaps that differ by a cent are each half a cent, up to the drifts. */
  lemma GapsApart(u: real, v: real, a: real, b: real)
    requires Off(u, a) && Off(v, b) && a >= 0.0 && b >= 0.0 && u - v >= 1.0
    ensures R.AbsReal(u - 0.5) * PARTS <= a + b && R.AbsReal(v + 0.5) * PARTS <= a + b
  {
    R.AbsTimes(u - 0.5, PARTS);
    R.AbsTimes(v + 0.5, PARTS);
  }

  lemma ShowsOff(minor: int, exact: real, k: real)
    requires Shows(minor, exact, k) && k >= 0.0
    ensures Off(minor as real - exact, k * exact) && k * exact >= 0.0
  {
    R.MulMono(0.0, k, exact);
  }

  /** A miss of a cent or more needs both exact totals next to a half cent, on opposite sides. */
  lemma MissNeedsHalfCents(p: int, c: int, y: real, x: real, k: real)
    requires Shows(p, y, k) && Shows(c, x, k) && k >= 0.0 && !StrictlyWithinACent(p - c, y - x)
    ensures (NearHalfCent(y, p, Slack(y, x, k)) && NearHalfCent(x, c + 1, Slack(y, x, k)))
            || (NearHalfCent(y, p + 1, Slack(y, x, k)) && NearHalfCent(x, c, Slack(y, x, k)))
  {
    hide Shows, Off;
    ShowsOff(p, y, k);
    ShowsOff(c, x, k);
    var u, v := p as real - y, c as real - x;
    assert (p - c) as real - (y - x) == u - v;
    if u - v >= 1.0 {
      GapsApart(u, v, k * y, k * x);
      assert y - HalfCent(p) == -(u - 0.5) && x - HalfCent(c + 1) == -(v + 0.5);
    } else {
      GapsApart(v, u, k * x, k * y);
      assert y - HalfCent(p + 1) == -(u + 0.5) && x - HalfCent(c) == -(v - 0.5);
    }
  }

  lemma DriftPositive(n: nat)
    ensures Drift(n) >= 0.0
  {
  }

  lemma TotalsShow(facts: Facts, table: RateTable)
    requires facts.occupancy in table.occupancyFactors && NonNegativePricing(facts, table)
    requires Drift(|FullPath(facts, table)|) <= PARTS
    ensures var p, k := PriceOf(facts, table), Drift(|FullPath(facts, table)|);
            Shows(p.premiumMinor, ExactPremium(facts, table), k)
                && Shows(p.commercialPremiumMinor, ExactCommercial(facts, table), k)
  {
    hide ExactCommercial, ExactPremium, HalfUp, Trail, FullPath, ExactPath, CommercialPath, ExactCommercialPath, Run;
    hide RealRun;
    hide RealBase, Base, Shows, NonNegativePricing, Drift, LossSteps, TechnicalPath, ExactTechnicalPath;
    var n, m := |FullPath(facts, table)|, |CommercialPath(facts, table)|;
    CommercialClosed(facts, table);
    PremiumClosed(facts, table);
    PathsBeside(facts, table);
    DriftGrows(m, n);
    StageDrift(facts, table, m);
    StageDrift(facts, table, n);
    assert FullPath(facts, table)[..n] == FullPath(facts, table);
    assert ExactPath(facts, table)[..n] == ExactPath(facts, table);
    ShowsMore(PriceOf(facts, table).commercialPremiumMinor, ExactCommercial(facts, table), Drift(m), Drift(n));
  }

  /**
   * For every non-negative table: if the exact premium or the exact commercial premium is clear of half
   * cents by the drift, which the closed formulas tell before the price is computed, the reported taxes
   * are strictly within a cent.
   */
  lemma TaxesWithinACentIfClear(facts: Facts, table: RateTable)
    requires facts.occupancy in table.occupancyFactors && NonNegativePricing(facts, table)
    requires Drift(|FullPath(facts, table)|) <= PARTS
    requires var y, x := ExactPremium(facts, table), ExactCommercial(facts, table);
             var slack := Slack(y, x, Drift(|FullPath(facts, table)|));
             ClearOfHalfCents(y, slack) || ClearOfHalfCents(x, slack)
    ensures StrictlyWithinACent(PriceOf(facts, table).taxesMinor, ExactTaxes(facts, table))
  {
    hide ExactCommercial, ExactTaxes, HalfUp, Trail, FullPath, CommercialPath, Run, Base, NonNegativePricing, Drift;
    hide Shows;
    hide StrictlyWithinACent, NearHalfCent, Slack;
    TotalsShow(facts, table);
    DriftPositive(|FullPath(facts, table)|);
    var p, y, x := PriceOf(facts, table), ExactPremium(facts, table), ExactCommercial(facts, table);
    assert y - x == ExactTaxes(facts, table);
    if !StrictlyWithinACent(p.premiumMinor - p.commercialPremiumMinor, y - x) {
      MissNeedsHalfCents(p.premiumMinor, p.commercialPremiumMinor, y, x, Drift(|FullPath(facts, table)|));
    }
  }

  // ----- tables that charge only a fee

  lemma WholeShift(a: real, n: int)
    requires a >= 0.0 && n >= 0
    ensures HalfUpReal(a + n as real) == HalfUpReal(a) + n
  {
    assert (a + n as real + 0.5).Floor == (a + 0.5).Floor + n;
  }

  /** The commercial subtotal with the fee added, before it is rounded to the context. */
  function FeeSum(facts: Facts, table: RateTable): Dec
    requires facts.occupancy in table.occupancyFactors
  {
    RawAdd(Run(Base(facts, table), CommercialPath(facts, table)).subtotal, OfInt(table.fixedFeesMinor))
  }

  lemma FeeOnly(facts: Facts, table: RateTable)
    requires facts.occupancy in table.occupancyFactors && !Less(ZERO, table.iptRate) && table.fixedFeesMinor > 0
    ensures Run(Base(facts, table), FullPath(facts, table)).subtotal == Fix(FeeSum(facts, table))
    ensures ExactTaxes(facts, table) == table.fixedFeesMinor as real
  {
    hide Run, Base, CommercialPath, Less, Fix, RawAdd, ExactCommercial, Value;
    LessValue(ZERO, table.iptRate);
    UnitValue();
    RunStep(Base(facts, table), CommercialPath(facts, table), FeeSteps(table)[0]);
    assert FullPath(facts, table) == CommercialPath(facts, table) + [FeeSteps(table)[0]];
  }

  lemma CommercialShown(facts: Facts, table: RateTable)
    requires facts.occupancy in table.occupancyFactors && NonNegativePricing(facts, table)
    ensures var s := Run(Base(facts, table), CommercialPath(facts, table)).subtotal;
            s.coeff >= 0 && Value(s) >= 0.0 && HalfUp(s) == HalfUpReal(Value(s))
  {
    hide Value, HalfUp, HalfUpReal, Run, Base, NonNegativePricing, Close;
    PathNonNegative(facts, table);
    CommercialPrefix(facts, table);
    BaseNear(facts, table);
    RunNonNegative(Base(facts, table), CommercialPath(facts, table));
    var s := Run(Base(facts, table), CommercialPath(facts, table)).subtotal;
    NonNegative(s);
    HalfUpValue(s);
  }

  lemma CommercialPrefix(facts: Facts, table: RateTable)
    requires facts.occupancy in table.occupancyFactors && NonNegativeSteps(FullPath(facts, table))
    ensures NonNegativeSteps(CommercialPath(facts, table))
  {
    hide CommercialPath, TaxSteps;
    NonNegativePrefix(CommercialPath(facts, table), FullPath(facts, table));
  }

  /**
   * A table that charges a fee and no tax reports exactly its fee, and otherwise misses it by a cent or
   * more; it reports it if and only if no half cent lies between the sum and what the context makes of it.
   */
  lemma FeeIsReportedIff(facts: Facts, table: RateTable)
    requires facts.occupancy in table.occupancyFactors && NonNegativePricing(facts, table)
    requires !Less(ZERO, table.iptRate) && table.fixedFeesMinor > 0
    ensures var taxes, raw := PriceOf(facts, table).taxesMinor, FeeSum(facts, table);
            && (StrictlyWithinACent(taxes, ExactTaxes(facts, table)) <==> taxes == table.fixedFeesMinor)
            && (taxes == table.fixedFeesMinor <==> !HalfCentBetween(Value(raw), Value(Fix(raw))))
  {
    hide Value, HalfUp, HalfUpReal, Run, Base, NonNegativePricing, Less, Fix, RawAdd, FullPath, CommercialPath, Trail;
    hide HalfCentBetween, ExactTaxes;
    var s, fee, raw := Run(Base(facts, table), CommercialPath(facts, table)).subtotal, table.fixedFeesMinor,
        FeeSum(facts, table);
    FeeOnly(facts, table);
    CommercialShown(facts, table);
    IntValue(fee);
    RawAddValue(s, OfInt(fee));
    WholeShift(Value(s), fee);
    SumNonNegative(s, OfInt(fee));
    NonNegative(Fix(raw));
    HalfUpValue(Fix(raw));
    SameCentsIff(Value(raw), Value(Fix(raw)));
  }

  // ----- the second table

  lemma SmallOff(minor: int, exact: real)
    requires Shows(minor, exact, 18.0) && exact <= MODERATE
    ensures -0.5000001 <= minor as real - exact <= 0.5000001
  {
  }

  lemma NoIntegerBetween(n: int)
    ensures !(104.0 < n as real < 105.0) && !(-105.0 < n as real < -104.0)
  {
  }

  /** With a tax of nine percent and a whole fee no two such totals miss by a cent. */
  lemma NinePercent(p: int, c: int, y: real, x: real)
    requires -0.5000001 <= p as real - y <= 0.5000001 && -0.5000001 <= c as real - x <= 0.5000001
    requires 100.0 * y == 109.0 * x + 500_000.0
    ensures StrictlyWithinACent(p - c, y - x)
  {
    var n := 100 * p - 109 * c - 500_000;
    var u, v := p as real - y, c as real - x;
    assert n as real == 100.0 * u - 109.0 * v;
    assert (p - c) as real - (y - x) == u - v;
    NoIntegerBetween(n);
  }

  lemma V2Premium(facts: Facts)
    requires Listed(facts)
    ensures 100.0 * ExactPremium(facts, V2_TABLE) == 109.0 * ExactCommercial(facts, V2_TABLE) + 500_000.0
  {
    hide Value, ExactCommercial, Pow10;
    SmallValue(9, -2);
    assert Value(Dec(9, -2)) == 0.09;
    NinePart(ExactCommercial(facts, V2_TABLE), Value(Dec(9, -2)));
  }

  lemma NinePart(x: real, rate: real)
    requires rate == 0.09
    ensures 100.0 * (x * rate) == 9.0 * x
  {
  }

  lemma TaxesAreTheDifference(facts: Facts, table: RateTable)
    requires facts.occupancy in table.occupancyFactors
    ensures ExactPremium(facts, table) - ExactCommercial(facts, table) == ExactTaxes(facts, table)
  {
    hide ExactCommercial, ExactTaxes;
  }

  lemma CommercialBelowPremium(y: real, x: real)
    requires 100.0 * y == 109.0 * x + 500_000.0 && x >= 0.0
    ensures x <= y
  {
  }

  lemma V2TotalsOff(facts: Facts)
    requires Listed(facts) && 0 <= facts.tivEur < INT64_LIMIT
    ensures var p := PriceOf(facts, V2_TABLE);
            && -0.5000001 <= p.premiumMinor as real - ExactPremium(facts, V2_TABLE) <= 0.5000001
            && -0.5000001 <= p.commercialPremiumMinor as real - ExactCommercial(facts, V2_TABLE) <= 0.5000001
  {
    hide ExactCommercial, ExactPremium, PriceOf, FullPath, NonNegativePricing, Drift, Shows;
    V2NonNegative(facts);
    ExactV2Bound(facts);
    ExactNonNegative(facts, V2_TABLE);
    EightSteps(|FullPath(facts, V2_TABLE)|);
    TotalsShow(facts, V2_TABLE);
    V2Premium(facts);
    var p, y, x := PriceOf(facts, V2_TABLE), ExactPremium(facts, V2_TABLE), ExactCommercial(facts, V2_TABLE);
    var k := Drift(|FullPath(facts, V2_TABLE)|);
    CommercialBelowPremium(y, x);
    ShowsMore(p.premiumMinor, y, k, 18.0);
    ShowsMore(p.commercialPremiumMinor, x, k, 18.0);
    SmallOff(p.premiumMinor, y);
    SmallOff(p.commercialPremiumMinor, x);
  }

  lemma TaxesReported(facts: Facts, table: RateTable)
    requires facts.occupancy in table.occupancyFactors
    ensures PriceOf(facts, table).taxesMinor
            == PriceOf(facts, table).premiumMinor - PriceOf(facts, table).commercialPremiumMinor
  {
    hide HalfUp, Trail, FullPath, CommercialPath, Run, Base;
  }

  /**
   * Over every 64-bit insured value the taxes the second table reports are strictly within a cent of the
   * exact fee and tax, whether or not digits were lost on the way.
   */
  lemma V2TaxesWithinACent(facts: Facts)
    requires Listed(facts) && 0 <= facts.tivEur < INT64_LIMIT
    ensures Price(facts, V2_TABLE).Ok?
    ensures StrictlyWithinACent(Price(facts, V2_TABLE).value.taxesMinor, ExactTaxes(facts, V2_TABLE))
  {
    hide ExactCommercial, ExactPremium, ExactTaxes, PriceOf, StrictlyWithinACent, Price;
    V2Prices(facts);
    V2TotalsOff(facts);
    V2Premium(facts);
    TaxesAreTheDifference(facts, V2_TABLE);
    TaxesReported(facts, V2_TABLE);
    var p := PriceOf(facts, V2_TABLE);
    NinePercent(p.premiumMinor, p.commercialPremiumMinor, ExactPremium(facts, V2_TABLE),
        ExactCommercial(facts, V2_TABLE));
  }
}
