/** The seeded first table: exact for every insured value a signed 64-bit column can hold. */
module RatingV1 {
  import opened Wrappers
  import opened Numerals
  import opened Decimals
  import opened DecimalText
  import opened DecimalValue
  import opened RatingEngine
  import opened RatingTables
  import opened RatingValue
  import opened RatingV2
  import opened RatingLaws

  // ----- its steps

  lemma NeutralV1(facts: Facts)
    requires Listed(facts)
    ensures Neutral(V1_TABLE) && Same(facts.commercialAdjustment, ONE) && InBand(facts, V1_TABLE)
  {
    hide Value, Less;
    SeededTablesLoad();
    SameOne(ONE);
    UnitValue();
  }

  lemma V1PathIs(facts: Facts)
    requires Listed(facts)
    ensures FullPath(facts, V1_TABLE) == [OccupancyStep(facts, V1_TABLE)] + RiskPath(facts.flags)
    ensures TechnicalPath(facts, V1_TABLE) == FullPath(facts, V1_TABLE)
  {
    hide RiskPath, RiskSteps, FullPath, TechnicalPath, CommercialPath, Neutral, Same, InBand, OccupancyStep;
    NeutralV1(facts);
    NeutralPath(facts, V1_TABLE);
    RiskStepsAre(facts.flags);
  }

  // ----- nothing has more than 28 digits

  lemma ShortIsShown(d: Dec)
    requires 0 <= d.coeff < LIMIT - 1 && d.exp <= 0
    ensures ToMinor(d).Some?
  {
    hide Pow10;
    if d.exp == 0 {
      Pow10Values();
    } else {
      RoundedQuotient(d.coeff, Pow10(-d.exp));
    }
  }

  lemma QuotientBelow(top: nat, unit: nat, m: nat)
    requires unit > 0 && top < m * unit
    ensures top / unit < m
  {
    var q, r := top / unit, top % unit;
    assert top == q * unit + r;
    if q >= m {
      MulMono(m, q, unit);
    }
  }

  lemma RoundedQuotient(n: nat, unit: nat)
    requires unit > 0
    ensures 0 <= (n + unit / 2) / unit <= n + 1
  {
    MulMono(1, unit, n);
    assert (n + 2) * unit == n * unit + 2 * unit;
    QuotientBelow(n + unit / 2, unit, n + 2);
  }

  lemma SmallStep(acc: Acc, steps: seq<Step>, step: Step, bound: int, most: int, low: int)
    requires Sized(acc, steps, bound, low) && Printable(acc, steps)
    requires step.op.Times? && 0 <= step.op.factor.coeff <= most && -2 <= step.op.factor.exp <= 0
    requires bound * most < LIMIT - 1
    ensures Sized(acc, steps + [step], bound * most, low - 2) && Printable(acc, steps + [step])
  {
    hide Run, ToMinor, RunKeeps;
    TimesSized(acc, steps, bound, low, step, most);
    assert (steps + [step])[..|steps|] == steps;
    ShortIsShown(Run(acc, steps + [step]).subtotal);
  }

  lemma V1Base(facts: Facts)
    requires Listed(facts) && 0 <= facts.tivEur < INT64_LIMIT
    ensures BaseKeeps(Fits, facts, V1_TABLE)
    ensures Sized(Base(facts, V1_TABLE), [], 46_116_860_184_273_879_040, -4) && Printable(Base(facts, V1_TABLE), [])
  {
    hide ToMinor;
    assert RawDivPow10(Dec(5, -1), 3) == Dec(5, -4);
    assert Base(facts, V1_TABLE).subtotal == Dec(5 * facts.tivEur, -4);
    ShortIsShown(Base(facts, V1_TABLE).subtotal);
  }

  lemma V1Occupancy(facts: Facts)
    requires Listed(facts) && 0 <= facts.tivEur < INT64_LIMIT
    ensures var first := [OccupancyStep(facts, V1_TABLE)];
            Sized(Base(facts, V1_TABLE), first, 5_764_607_523_034_234_880_000, -6)
                && Printable(Base(facts, V1_TABLE), first)
  {
    hide Sized, Printable, Base, Str;
    V1Base(facts);
    OccupancyFactor(facts.occupancy);
    SmallStep(Base(facts, V1_TABLE), [], OccupancyStep(facts, V1_TABLE), 46_116_860_184_273_879_040, 125, -4);
    assert [] + [OccupancyStep(facts, V1_TABLE)] == [OccupancyStep(facts, V1_TABLE)];
  }

  lemma V1Risk(acc: Acc, steps: seq<Step>, flags: set<string>)
    requires Sized(acc, steps, 5_764_607_523_034_234_880_000, -6) && Printable(acc, steps)
    ensures RunKeeps(Fits, acc, steps + RiskPath(flags)) && Printable(acc, steps + RiskPath(flags))
  {
    hide Sized, Str, Printable, RunKeeps;
    var high := TimesStep(HIGH_TIV.name, HIGH_TIV.kind, LossCost, HIGH_TIV.factor);
    var sprinklered := TimesStep(SPRINKLERED.name, SPRINKLERED.kind, LossCost, SPRINKLERED.factor);
    var once := steps + if "high_tiv" in flags then [high] else [];
    if "high_tiv" in flags {
      SmallStep(acc, steps, high, 5_764_607_523_034_234_880_000, 110, -6);
    } else {
      assert once == steps;
      SizedWeaken(acc, steps, 5_764_607_523_034_234_880_000, -6, 634_106_827_533_765_836_800_000, -8);
    }
    if "sprinklered" in flags {
      SmallStep(acc, once, sprinklered, 634_106_827_533_765_836_800_000, 95, -8);
      SizedKeeps(acc, once + [sprinklered], 60_240_148_615_707_754_496_000_000, -10);
      assert steps + RiskPath(flags) == once + [sprinklered];
    } else {
      SizedKeeps(acc, once, 634_106_827_533_765_836_800_000, -8);
      assert steps + RiskPath(flags) == once;
    }
  }

  lemma SizedKeeps(acc: Acc, steps: seq<Step>, bound: int, low: int)
    requires Sized(acc, steps, bound, low)
    ensures RunKeeps(Fits, acc, steps)
  {
  }

  lemma V1LoadingsKeep()
    ensures LoadingsKeep(Fits, Loadings(V1_TABLE))
  {
    hide Value, Fits, RawAdd, Less;
    UnitValue();
    LessValue(ZERO, ZERO);
  }

  /** For no insured value of a 64-bit column does a result of the first table have more than 28 digits. */
  lemma V1NeverRounds(facts: Facts)
    requires Listed(facts) && 0 <= facts.tivEur < INT64_LIMIT
    ensures PricedWithoutRounding(facts, V1_TABLE)
    ensures Price(facts, V1_TABLE) == Ok(PriceOf(facts, V1_TABLE))
  {
    hide Sized, Printable, RunKeeps, Base, BaseKeeps, LoadingsKeep, FullPath, TechnicalPath, RiskPath, OccupancyStep;
    hide PriceOf;
    hide InBand, Neutral, Same, Loadings;
    V1PathIs(facts);
    V1Base(facts);
    V1Occupancy(facts);
    V1Risk(Base(facts, V1_TABLE), [OccupancyStep(facts, V1_TABLE)], facts.flags);
    V1LoadingsKeep();
    NeutralV1(facts);
  }

  /** The first table prices every such value at the half-up of the exact loss cost, and charges no taxes. */
  lemma V1PricedExactly(facts: Facts)
    requires Listed(facts) && 0 <= facts.tivEur < INT64_LIMIT
    ensures Price(facts, V1_TABLE).Ok?
    ensures var p := Price(facts, V1_TABLE).value;
            && p.premiumMinor == HalfUpReal(ExactPure(facts, V1_TABLE))
            && p.purePremiumMinor == p.technicalPremiumMinor == p.commercialPremiumMinor == p.premiumMinor
            && p.taxesMinor == 0
            && forall i :: 0 <= i < |p.lineItems| ==> p.lineItems[i].stage == LossCost
  {
    hide Price, PricedWithoutRounding, PricedWithoutLoss, HalfUpReal, ExactPure, Neutral, Same, InBand;
    V1NeverRounds(facts);
    ShortIsLossless(facts, V1_TABLE);
    NeutralV1(facts);
    NeutralIsLossCost(facts, V1_TABLE);
  }
}
