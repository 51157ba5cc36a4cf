/**
 * The seeded second table, priced at the neutral commercial adjustment: exactly, up to a hundred
 * billion euros of insured value; within a cent, and inside a signed 64-bit column, for every insured
 * value such a column can hold.
 */
module RatingV2 {
  import opened Wrappers
  import opened Numerals
  import opened Decimals
  import opened DecimalText
  import opened DecimalValue
  import opened RatingEngine
  import opened RatingTables
  import opened RatingValue
  import opened RatingDrift
  import R = Reals

  // ----- the steps of the second table

  function RiskPath(flags: set<string>): seq<Step> {
    (if "high_tiv" in flags then [TimesStep(HIGH_TIV.name, HIGH_TIV.kind, LossCost, HIGH_TIV.factor)] else [])
    + (if "sprinklered" in flags then
         [TimesStep(SPRINKLERED.name, SPRINKLERED.kind, LossCost, SPRINKLERED.factor)]
       else [])
  }

  const TECHNICAL_PATH := [
    TimesStep("expense_loading", "loading", Technical, Dec(115, -2)),
    TimesStep("risk_margin", "loading", Technical, Dec(106, -2)),
    TimesStep("cat_provision", "loading", Technical, Dec(104, -2))]

  lemma RiskStepsAre(flags: set<string>)
    ensures RiskSteps(V2_TABLE.adjustments, flags) == RiskPath(flags)
  {
    hide Str;
    var adjustments := V2_TABLE.adjustments;
    assert adjustments[..1] == [HIGH_TIV] && adjustments[..0] == [] && adjustments[..2] == adjustments;
    NextRisk(adjustments, flags, 0);
    NextRisk(adjustments, flags, 1);
    NoSteps(flags);
  }

  lemma PercentOnOne(percent: int)
    requires 0 < percent < 100
    ensures RawAdd(ONE, Dec(percent, -2)) == Dec(100 + percent, -2)
            && Add(ONE, Dec(percent, -2)) == Dec(100 + percent, -2)
    ensures Fits(RawAdd(ONE, Dec(percent, -2))) && Less(ZERO, Dec(percent, -2))
  {
    Pow10Values();
  }

  lemma LoadingSums()
    ensures Add(ONE, Dec(15, -2)) == Dec(115, -2) && Add(ONE, Dec(6, -2)) == Dec(106, -2)
            && Add(ONE, Dec(4, -2)) == Dec(104, -2)
    ensures Less(ZERO, Dec(15, -2)) && Less(ZERO, Dec(6, -2)) && Less(ZERO, Dec(4, -2)) && Less(ZERO, Dec(9, -2))
    ensures LoadingsKeep(Fits, Loadings(V2_TABLE))
  {
    hide Add, RawAdd, Less, Fits;
    PercentOnOne(15);
    PercentOnOne(6);
    PercentOnOne(4);
    PercentOnOne(9);
  }

  lemma TechnicalStepsAre()
    ensures TechnicalSteps(V2_TABLE) == TECHNICAL_PATH
  {
    hide Str, Add, RawAdd, Less, LoadingsKeep, Fits;
    LoadingSums();
    var loadings := Loadings(V2_TABLE);
    assert loadings[..0] == [] && loadings[..3] == loadings;
    NextLoading(loadings, 0);
    NextLoading(loadings, 1);
    NextLoading(loadings, 2);
    NoSteps({});
  }

  /** A pricing of the second table: a listed occupancy and the neutral commercial adjustment. */
  predicate Listed(facts: Facts) {
    facts.occupancy in OCCUPANCIES && facts.commercialAdjustment == ONE
  }

  const FEE_STEP := Step("policy_fee", "fee", Taxes, "+" + IntStr(5000) + " minor", Plus(OfInt(5000)))
  const IPT_STEP :=
      Step("ipt", "tax", Taxes, "+" + Str(Mul(Dec(9, -2), HUNDRED)) + "% of commercial premium", PlusShare(Dec(9, -2)))

  lemma FullPathIs(facts: Facts)
    requires Listed(facts)
    ensures FullPath(facts, V2_TABLE)
            == [OccupancyStep(facts, V2_TABLE)] + RiskPath(facts.flags) + TECHNICAL_PATH + [FEE_STEP, IPT_STEP]
  {
    hide Str, IntStr, RiskSteps, LoadingSteps, Less, Mul;
    RiskStepsAre(facts.flags);
    TechnicalStepsAre();
    LoadingSums();
    assert TaxSteps(V2_TABLE) == [FEE_STEP, IPT_STEP];
    assert CommercialSteps(facts) == [] by { SameOne(ONE); UnitValue(); }
  }

  // ----- no coefficient reaches 29 digits

  /** After these steps nothing was rounded, and the coefficient and exponent are still this small. */
  predicate Sized(acc: Acc, steps: seq<Step>, bound: int, low: int) {
    var run := Run(acc, steps);
    RunKeeps(Fits, acc, steps) && 0 <= run.subtotal.coeff <= bound && low <= run.subtotal.exp <= 0
        && run.commercial == run.subtotal
  }

  lemma ProductSized(c: Dec, f: Dec, bound: int, most: int)
    requires 0 <= c.coeff <= bound && 0 <= f.coeff <= most && bound * most < LIMIT
    ensures 0 <= Mul(c, f).coeff <= bound * most && Mul(c, f).exp == c.exp + f.exp && Fits(RawMul(c, f))
  {
    MulMono(c.coeff, bound, f.coeff);
    MulMono(f.coeff, most, bound);
  }

  lemma TimesSized(acc: Acc, steps: seq<Step>, bound: int, low: int, step: Step, most: int)
    requires Sized(acc, steps, bound, low) && step.op.Times? && 0 <= step.op.factor.coeff <= most
    requires -2 <= step.op.factor.exp <= 0
    requires bound * most < LIMIT
    ensures Sized(acc, steps + [step], bound * most, low - 2)
  {
    hide Mul, RawMul, Fits, Run;
    assert (steps + [step])[..|steps|] == steps;
    RunStep(acc, steps, step);
    ProductSized(Run(acc, steps).subtotal, step.op.factor, bound, most);
  }

  lemma SizedWeaken(acc: Acc, steps: seq<Step>, bound: int, low: int, bound': int, low': int)
    requires Sized(acc, steps, bound, low) && bound <= bound' && low' <= low
    ensures Sized(acc, steps, bound', low')
  {
  }

  lemma OccupancyFactor(occupancy: string)
    requires occupancy in OCCUPANCIES
    ensures var f := OCCUPANCIES[occupancy];
            10 <= f.coeff <= 125 && -2 <= f.exp <= -1 && (f.exp == -1 ==> f.coeff <= 30)
  {
  }

  lemma BaseSized(facts: Facts)
    requires Listed(facts) && 0 <= facts.tivEur <= 10_000_000_000_000
    ensures BaseKeeps(Fits, facts, V2_TABLE) && Sized(Base(facts, V2_TABLE), [], 50_000_000_000_000, -4)
  {
    assert RawDivPow10(Dec(5, -1), 3) == Dec(5, -4);
    assert Base(facts, V2_TABLE).subtotal == Dec(5 * facts.tivEur, -4);
  }

  lemma RiskSized(acc: Acc, steps: seq<Step>, flags: set<string>)
    requires Sized(acc, steps, 6_250_000_000_000_000, -6)
    ensures Sized(acc, steps + RiskPath(flags), 65_312_500_000_000_000_000, -10)
  {
    hide Sized, Str;
    var once := steps + if "high_tiv" in flags
        then [TimesStep(HIGH_TIV.name, HIGH_TIV.kind, LossCost, HIGH_TIV.factor)] else [];
    if "high_tiv" in flags {
      TimesSized(acc, steps, 6_250_000_000_000_000, -6, once[|steps|], 110);
    } else {
      assert once == steps;
      SizedWeaken(acc, steps, 6_250_000_000_000_000, -6, 687_500_000_000_000_000, -8);
    }
    if "sprinklered" in flags {
      var step := TimesStep(SPRINKLERED.name, SPRINKLERED.kind, LossCost, SPRINKLERED.factor);
      TimesSized(acc, once, 687_500_000_000_000_000, -8, step, 95);
      assert steps + RiskPath(flags) == once + [step];
    } else {
      assert steps + RiskPath(flags) == once;
      SizedWeaken(acc, once, 687_500_000_000_000_000, -8, 65_312_500_000_000_000_000, -10);
    }
  }

  lemma TechnicalSized(acc: Acc, steps: seq<Step>)
    requires Sized(acc, steps, 65_312_500_000_000_000_000, -10)
    ensures Sized(acc, steps + TECHNICAL_PATH, 82_800_575_000_000_000_000_000_000, -16)
  {
    hide Sized, Str;
    var t := TECHNICAL_PATH;
    TimesSized(acc, steps, 65_312_500_000_000_000_000, -10, t[0], 115);
    TimesSized(acc, steps + [t[0]], 7_510_937_500_000_000_000_000, -12, t[1], 106);
    TimesSized(acc, steps + [t[0]] + [t[1]], 796_159_375_000_000_000_000_000, -14, t[2], 104);
    assert steps + t == steps + [t[0]] + [t[1]] + [t[2]];
  }

  lemma FeeSum(s: Dec)
    requires 0 <= s.coeff <= 82_800_575_000_000_000_000_000_000 && -16 <= s.exp <= 0
    ensures RawAdd(s, OfInt(5000)).exp == s.exp
    ensures 0 <= RawAdd(s, OfInt(5000)).coeff <= 82_800_625_000_000_000_000_000_000
  {
    hide Pow10;
    Pow10Values();
    Pow10Mono(-s.exp, 16);
  }

  lemma ShareSum(s: Dec, t: Dec)
    requires 0 <= s.coeff <= 82_800_575_000_000_000_000_000_000 && t.exp == s.exp
    requires 0 <= t.coeff <= 82_800_625_000_000_000_000_000_000
    ensures Fits(RawMul(s, Dec(9, -2))) && Fits(RawAdd(t, Mul(s, Dec(9, -2))))
  {
    hide Pow10;
    Pow10Values();
    var share := RawMul(s, Dec(9, -2));
    assert share == Dec(9 * s.coeff, s.exp - 2) == Mul(s, Dec(9, -2));
    assert RawAdd(t, share) == Dec(t.coeff * Pow10(2) + share.coeff * Pow10(0), s.exp - 2);
  }

  lemma FeeFits(acc: Acc, steps: seq<Step>)
    requires Sized(acc, steps, 82_800_575_000_000_000_000_000_000, -16)
    ensures RunKeeps(Fits, acc, steps + [FEE_STEP])
    ensures var s := Run(acc, steps).subtotal; Run(acc, steps + [FEE_STEP]) == Acc(RawAdd(s, OfInt(5000)), s)
  {
    hide RawAdd, Str, IntStr, Run;
    FeeSum(Run(acc, steps).subtotal);
    RunStep(acc, steps, FEE_STEP);
    assert (steps + [FEE_STEP])[..|steps|] == steps;
  }

  /** Adding the fee and the premium tax still leaves at most 28 digits. */
  lemma TaxesFit(acc: Acc, steps: seq<Step>)
    requires Sized(acc, steps, 82_800_575_000_000_000_000_000_000, -16)
    ensures RunKeeps(Fits, acc, steps + [FEE_STEP, IPT_STEP])
  {
    hide RawAdd, RawMul, Mul, Str, IntStr, Run, Fits;
    var s, fee := Run(acc, steps).subtotal, steps + [FEE_STEP];
    FeeSum(s);
    FeeFits(acc, steps);
    ShareSum(s, RawAdd(s, OfInt(5000)));
    assert steps + [FEE_STEP, IPT_STEP] == fee + [IPT_STEP];
    assert (fee + [IPT_STEP])[..|fee|] == fee;
  }

  /** Up to 10^13 cents of insured value, no step of the second table rounds. */
  lemma V2NeverRounds(facts: Facts)
    requires Listed(facts) && 0 <= facts.tivEur <= 10_000_000_000_000
    ensures PricedWithoutRounding(facts, V2_TABLE)
  {
    hide Sized, RunKeeps, Str, Run, Fix, FullPath, BaseKeeps, LoadingsKeep, Base, RiskPath, TimesStep;
    FullPathIs(facts);
    LoadingSums();
    BaseSized(facts);
    var base, first := Base(facts, V2_TABLE), OccupancyStep(facts, V2_TABLE);
    OccupancySized(facts, base);
    RiskSized(base, [first], facts.flags);
    TechnicalSized(base, [first] + RiskPath(facts.flags));
    TaxesFit(base, [first] + RiskPath(facts.flags) + TECHNICAL_PATH);
  }

  lemma OccupancySized(facts: Facts, base: Acc)
    requires Listed(facts) && Sized(base, [], 50_000_000_000_000, -4)
    ensures Sized(base, [OccupancyStep(facts, V2_TABLE)], 6_250_000_000_000_000, -6)
  {
    hide Sized, Str;
    OccupancyFactor(facts.occupancy);
    TimesSized(base, [], 50_000_000_000_000, -4, OccupancyStep(facts, V2_TABLE), 125);
    assert [] + [OccupancyStep(facts, V2_TABLE)] == [OccupancyStep(facts, V2_TABLE)];
  }

  // ----- every insured value a 64-bit column can hold

  const INT64_LIMIT: int := 9_223_372_036_854_775_808

  ghost function Doubled(most: real, n: nat): real {
    if n == 0 then most else 2.0 * Doubled(most, n - 1)
  }

  /** A step that cannot more than double a running subtotal of at least 50 euros. */
  ghost predicate Tame(op: Op) {
    match op
    case Times(f) => 0.0 <= Value(f) <= 2.0
    case Plus(a) => 0.0 <= Value(a) <= 5000.0
    case PlusShare(r) => 0.0 <= Value(r) <= 1.0
  }

  ghost predicate Grown(acc: RealAcc, most: real) {
    0.0 <= acc.commercial <= acc.subtotal && acc.subtotal + 5000.0 <= most
  }

  lemma TameAdvance(acc: RealAcc, op: Op, most: real)
    requires Grown(acc, most) && Tame(op)
    ensures Grown(RealAdvance(acc, op), 2.0 * most)
  {
    hide Value;
    var next := RealAdvance(acc, op).subtotal;
    match op
    case Times(f) => R.Between(acc.subtotal, Value(f), 2.0, next);
    case Plus(a) =>
    case PlusShare(r) => R.Between(acc.commercial, Value(r), 1.0, next - acc.subtotal);
  }

  ghost predicate TameSteps(steps: seq<Step>) {
    forall i :: 0 <= i < |steps| ==> Tame(steps[i].op)
  }

  lemma {:induction false} TameRun(acc: RealAcc, steps: seq<Step>, most: real)
    requires Grown(acc, most) && TameSteps(steps)
    ensures Grown(RealRun(acc, steps), Doubled(most, |steps|))
  {
    hide Grown, Tame, RealAdvance;
    if steps != [] {
      var init := steps[..|steps| - 1];
      TameRun(acc, init, most);
      TameAdvance(RealRun(acc, init), steps[|steps| - 1].op, Doubled(most, |init|));
    }
  }

  lemma SmallValue(c: int, e: int)
    requires -2 <= e <= 0
    ensures Value(Dec(c, e)) * 100.0 == (c * Pow10(e + 2)) as real
    ensures Pow10(0) == 1 && Pow10(1) == 10 && Pow10(2) == 100
  {
    hide Scale, Pow10;
    Pow10Values();
    ValueShift(c, -2, e + 2);
    Inverse(-2);
    R.Assoc((c * Pow10(e + 2)) as real, Scale(-2), 100.0);
  }

  /** After the occupancy factor every step of the second table is tame. */
  lemma V2Tame(facts: Facts)
    requires Listed(facts)
    ensures TameSteps(RiskPath(facts.flags) + TECHNICAL_PATH + [FEE_STEP, IPT_STEP])
    ensures 0.0 <= Value(OCCUPANCIES[facts.occupancy]) <= 3.0
    ensures Value(V2_TABLE.baseRatePermille) == 0.5
  {
    hide Str, IntStr, Value, Pow10, Mul;
    SmallValue(110, -2);
    SmallValue(95, -2);
    SmallValue(115, -2);
    SmallValue(106, -2);
    SmallValue(104, -2);
    SmallValue(9, -2);
    SmallValue(5, -1);
    IntValue(5000);
    OccupancyFactor(facts.occupancy);
    var f := OCCUPANCIES[facts.occupancy];
    SmallValue(f.coeff, f.exp);
  }

  lemma ExactBaseBound(facts: Facts)
    requires Listed(facts) && 0 <= facts.tivEur < INT64_LIMIT
    ensures Grown(RealRun(RealBase(facts, V2_TABLE), [OccupancyStep(facts, V2_TABLE)]), 14_000_000_000_000_000.0)
    ensures 0.0 <= ExactBase(facts, V2_TABLE) <= MODERATE
  {
    hide Value, Str;
    V2Tame(facts);
    var first, f := OccupancyStep(facts, V2_TABLE), Value(OCCUPANCIES[facts.occupancy]);
    var base := ExactBase(facts, V2_TABLE);
    assert base == 0.0005 * facts.tivEur as real;
    RealRunStep(RealBase(facts, V2_TABLE), [], first);
    assert [] + [first] == [first];
    R.Between(base, f, 3.0, base * f);
  }

  /** What one occupancy step and up to seven tame ones can reach. */
  const MODERATE: real := 2_000_000_000_000_000_000.0

  lemma {:induction false} DoubledMono(most: real, n: nat, m: nat)
    requires most >= 0.0 && n <= m
    ensures 0.0 <= Doubled(most, n) <= Doubled(most, m)
  {
    if n < m {
      DoubledMono(most, n, m - 1);
    } else if n > 0 {
      DoubledMono(most, n - 1, m - 1);
    }
  }

  lemma SevenDoublings(n: nat)
    requires n <= 7
    ensures Doubled(14_000_000_000_000_000.0, n) <= MODERATE
  {
    var most := 14_000_000_000_000_000.0;
    DoubledMono(most, n, 7);
    assert Doubled(most, 3) == 8.0 * most;
    assert Doubled(most, 6) == 64.0 * most;
  }

  lemma PathLength(facts: Facts)
    requires Listed(facts)
    ensures |FullPath(facts, V2_TABLE)| <= 8
    ensures FullPath(facts, V2_TABLE) ==
            [OccupancyStep(facts, V2_TABLE)] + (RiskPath(facts.flags) + TECHNICAL_PATH + [FEE_STEP, IPT_STEP])
  {
    hide Str, IntStr, FullPath, TimesStep;
    FullPathIs(facts);
  }

  /** The loadings of the second table are exact, so its path is the exact one. */
  lemma SamePath(facts: Facts)
    requires Listed(facts)
    ensures ExactPath(facts, V2_TABLE) == FullPath(facts, V2_TABLE)
  {
    hide LossSteps, CommercialSteps, TaxSteps, LoadingSteps, ExactLoadingSteps, Loadings, LoadingsKeep;
    LoadingSums();
    ShortLoadings(Loadings(V2_TABLE));
  }

  /** Every subtotal on the way to a second-table premium stays below 2 * 10^18 cents. */
  lemma SubtotalBound(facts: Facts, steps: seq<Step>)
    requires Listed(facts) && 0 <= facts.tivEur < INT64_LIMIT && steps <= FullPath(facts, V2_TABLE)
    ensures |steps| <= 8 && RealRun(RealBase(facts, V2_TABLE), steps).subtotal <= MODERATE
  {
    hide Value, RealRun, Tame, FullPath, Doubled, RiskPath, TECHNICAL_PATH, FEE_STEP, IPT_STEP, OccupancyStep;
    PathLength(facts);
    ExactBaseBound(facts);
    if steps == [] {
      RealRunStep(RealBase(facts, V2_TABLE), [], OccupancyStep(facts, V2_TABLE));
    } else {
      V2Tame(facts);
      var first, more := [OccupancyStep(facts, V2_TABLE)], steps[1..];
      assert steps == first + more;
      RealRunSplit(RealBase(facts, V2_TABLE), first, more);
      TameRun(RealRun(RealBase(facts, V2_TABLE), first), more, 14_000_000_000_000_000.0);
      SevenDoublings(|more|);
    }
  }

  lemma {:induction false} PrintableIf(acc: Acc, path: seq<Step>)
    requires forall k :: 0 <= k <= |path| ==> ToMinor(Run(acc, path[..k]).subtotal).Some?
    ensures Printable(acc, path)
  {
    hide ToMinor, Run;
    assert path[..|path|] == path;
    if path != [] {
      var init := path[..|path| - 1];
      forall k | 0 <= k <= |init|
        ensures ToMinor(Run(acc, init[..k]).subtotal).Some?
      {
        assert init[..k] == path[..k];
      }
      PrintableIf(acc, init);
    }
  }

  lemma V2NonNegative(facts: Facts)
    requires Listed(facts) && 0 <= facts.tivEur
    ensures NonNegativePricing(facts, V2_TABLE)
  {
    OccupancyFactor(facts.occupancy);
  }

  /** A subtotal that drifts from a moderate exact one can be shown, and is moderate itself. */
  lemma ShownSmall(d: Dec, exact: real, k: real)
    requires d.coeff >= 0 && Close(Value(d), exact, k) && 0.0 <= exact <= MODERATE && 0.0 <= k <= 1000.0
    ensures ToMinor(d).Some? && 0 <= HalfUp(d) <= 3_000_000_000_000_000_000
  {
    hide Value, HalfUp;
    HalfUpValue(d);
    NonNegative(d);
    R.Between(exact, k, 1000.0, exact * k);
  }

  lemma PrefixShown(facts: Facts, steps: seq<Step>)
    requires Listed(facts) && 0 <= facts.tivEur < INT64_LIMIT && steps <= FullPath(facts, V2_TABLE)
    ensures var s := Run(Base(facts, V2_TABLE), steps).subtotal;
            ToMinor(s).Some? && 0 <= HalfUp(s) <= 3_000_000_000_000_000_000
  {
    hide Value, Run, RealRun, Base, RealBase, Close, HalfUp, ToMinor, FullPath, ExactPath, NonNegativePricing;
    SubtotalBound(facts, steps);
    V2NonNegative(facts);
    SamePath(facts);
    SubtotalDrift(facts, V2_TABLE, |steps|);
    assert FullPath(facts, V2_TABLE)[..|steps|] == steps;
    ShownSmall(Run(Base(facts, V2_TABLE), steps).subtotal, RealRun(RealBase(facts, V2_TABLE), steps).subtotal,
        Drift(|steps|));
  }

  lemma NeutralInBand(facts: Facts)
    requires Listed(facts)
    ensures InBand(facts, V2_TABLE)
  {
    SameOne(ONE);
    UnitValue();
  }

  /** The second table prices every insured value of a 64-bit column. */
  lemma V2Prices(facts: Facts)
    requires Listed(facts) && 0 <= facts.tivEur < INT64_LIMIT
    ensures Price(facts, V2_TABLE) == Ok(PriceOf(facts, V2_TABLE))
  {
    hide Run, Base, HalfUp, ToMinor, FullPath, TechnicalPath, Printable, PriceOf, InBand;
    var path := FullPath(facts, V2_TABLE);
    forall k | 0 <= k <= |path|
      ensures ToMinor(Run(Base(facts, V2_TABLE), path[..k]).subtotal).Some?
    {
      PrefixShown(facts, path[..k]);
    }
    PrintableIf(Base(facts, V2_TABLE), path);
    TechnicalIsPrefix(facts, V2_TABLE);
    PrintablePrefix(Base(facts, V2_TABLE), TechnicalPath(facts, V2_TABLE), path);
    NeutralInBand(facts);
  }

  lemma TechnicalIsPrefix(facts: Facts, table: RateTable)
    requires facts.occupancy in table.occupancyFactors
    ensures LossSteps(facts, table) <= TechnicalPath(facts, table) <= CommercialPath(facts, table) <= FullPath(facts,
            table)
  {
  }

  /**
   * Up to 10^13 cents of insured value the second table prices exactly: the premium, the stage totals
   * and every printed line are half-ups of the exact rational amounts.
   */
  lemma V2PricedExactly(facts: Facts)
    requires Listed(facts) && 0 <= facts.tivEur <= 10_000_000_000_000
    ensures Price(facts, V2_TABLE).Ok?
    ensures var p := Price(facts, V2_TABLE).value;
            && p.purePremiumMinor == HalfUpReal(ExactPure(facts, V2_TABLE))
            && p.technicalPremiumMinor == HalfUpReal(ExactTechnical(facts, V2_TABLE))
            && p.commercialPremiumMinor == HalfUpReal(ExactCommercial(facts, V2_TABLE))
            && p.premiumMinor == HalfUpReal(ExactPremium(facts, V2_TABLE))
            && |p.lineItems| == 1 + |ExactPath(facts, V2_TABLE)|
            && forall k :: 0 <= k < |p.lineItems| ==>
                 p.lineItems[k].runningSubtotalMinor
                 == HalfUpReal(RealRun(RealBase(facts, V2_TABLE), ExactPath(facts, V2_TABLE)[..k]).subtotal)
  {
    hide Price, PriceOf, HalfUpReal, ExactPure, ExactTechnical, ExactCommercial, ExactPremium, RealRun, ExactPath;
    hide RealBase, PricedWithoutRounding, PricedWithoutLoss;
    V2Prices(facts);
    V2NeverRounds(facts);
    ShortIsLossless(facts, V2_TABLE);
    PricedExactly(facts, V2_TABLE);
  }

  /**
   * For every insured value of a 64-bit column, the premium fits such a column too and is within one
   * cent of the half-up of the exact premium, off only next to a half cent.
   */
  lemma V2WithinACent(facts: Facts)
    requires Listed(facts) && 0 <= facts.tivEur < INT64_LIMIT
    ensures Price(facts, V2_TABLE).Ok?
    ensures var p := Price(facts, V2_TABLE).value;
            0 <= p.premiumMinor < INT64_LIMIT && WithinACent(p.premiumMinor, ExactPremium(facts, V2_TABLE), 18.0)
  {
    hide Price, HalfUp, PriceOf, ExactPremium, FullPath, Run, Base, WithinACent;
    V2Prices(facts);
    PremiumIsShown(facts);
    V2DriftSmall(facts);
    Wider(PriceOf(facts, V2_TABLE).premiumMinor, ExactPremium(facts, V2_TABLE), Drift(|FullPath(facts, V2_TABLE)|),
        18.0);
  }

  lemma PremiumIsShown(facts: Facts)
    requires Listed(facts) && 0 <= facts.tivEur < INT64_LIMIT
    ensures 0 <= PriceOf(facts, V2_TABLE).premiumMinor <= 3_000_000_000_000_000_000
  {
    hide HalfUp, FullPath, Run, Base, ToMinor;
    PrefixShown(facts, FullPath(facts, V2_TABLE));
  }

  lemma EightSteps(n: nat)
    requires n <= 8
    ensures 0.0 <= Drift(n) <= 18.0 <= PARTS
  {
  }

  lemma V2DriftSmall(facts: Facts)
    requires Listed(facts) && 0 <= facts.tivEur < INT64_LIMIT
    ensures Drift(|FullPath(facts, V2_TABLE)|) <= 18.0 && ExactPremium(facts, V2_TABLE) >= 0.0
    ensures WithinACent(PriceOf(facts, V2_TABLE).premiumMinor, ExactPremium(facts, V2_TABLE),
            Drift(|FullPath(facts, V2_TABLE)|))
  {
    hide ExactPremium, FullPath, WithinACent, NonNegativePricing, PriceOf, Drift;
    ExactV2Bound(facts);
    EightSteps(|FullPath(facts, V2_TABLE)|);
    V2NonNegative(facts);
    SmallDrift(ExactPremium(facts, V2_TABLE), Drift(|FullPath(facts, V2_TABLE)|));
    PremiumWithinACent(facts, V2_TABLE);
  }

  lemma ExactV2Bound(facts: Facts)
    requires Listed(facts) && 0 <= facts.tivEur < INT64_LIMIT
    ensures |FullPath(facts, V2_TABLE)| <= 8 && 0.0 <= ExactPremium(facts, V2_TABLE) <= MODERATE
  {
    hide ExactPremium, RealRun, FullPath, ExactPath, Run, Base, RealBase, NonNegativePricing, Close, Value;
    var path := FullPath(facts, V2_TABLE);
    SubtotalBound(facts, path);
    V2NonNegative(facts);
    SamePath(facts);
    PremiumClosed(facts, V2_TABLE);
    SubtotalDrift(facts, V2_TABLE, |path|);
    assert path[..|path|] == path;
  }

  lemma SmallDrift(exact: real, k: real)
    requires 0.0 <= exact <= MODERATE && 0.0 <= k <= 18.0
    ensures k * exact <= PARTS
  {
    R.Between(exact, k, 18.0, k * exact);
    assert 18.0 * exact <= 36_000_000_000_000_000_000.0;
  }

  lemma Wider(minor: int, exact: real, j: real, k: real)
    requires WithinACent(minor, exact, j) && exact >= 0.0 && j <= k
    ensures WithinACent(minor, exact, k)
  {
    hide HalfUpReal;
    R.MulMono(j, k, exact);
  }
}
