/**
 * The reported taxes can be a whole cent off: a fee of one cent on a commercial premium a hair below a
 * half cent is reported as two.
 */
module RatingFullCent {
  import opened Wrappers
  import opened Numerals
  import opened Decimals
  import opened DecimalText
  import opened DecimalValue
  import opened RatingEngine
  import opened RatingValue
  import opened RatingDrift
  import opened RatingLaws
  import opened RatingHalfCent

  /** Twenty-eight digits, just below a half. */
  const NEAR_HALF := Dec(4_999_999_999_999_999_999_999_999_999, -28)

  const FEE_TABLE := RateTable(1, Dec(1000, 0), map["office" := NEAR_HALF], [], ZERO, ZERO, ZERO, ONE, ONE, ZERO, 1)

  const ONE_CENT := Facts(1, "office", {}, ONE)

  const OCCUPANCY := OccupancyStep(ONE_CENT, FEE_TABLE)
  const FEE := Step("policy_fee", "fee", Taxes, "+" + IntStr(1) + " minor", Plus(OfInt(1)))

  lemma StripThousand()
    ensures StripZeros(1000, 3) == (1, 0)
  {
    hide Pow10;
    assert StripZeros(1, 0) == (1, 0);
    assert StripZeros(10, 1) == (1, 0);
    assert StripZeros(100, 2) == (1, 0);
  }

  lemma UnitQuotient()
    ensures RawDivPow10(Dec(1000, 0), 3) == ONE && RawMul(ONE, OfInt(1)) == ONE
  {
    hide Pow10, StripZeros, Fix;
    StripThousand();
    RawDivParts(Dec(1000, 0), 3);
  }

  lemma UnitBase()
    ensures Base(ONE_CENT, FEE_TABLE) == Acc(ONE, ONE)
  {
    hide RawDivPow10, RawMul, Fix;
    UnitQuotient();
    FixExact(ONE);
  }

  lemma PathOfCent()
    ensures FullPath(ONE_CENT, FEE_TABLE) == [OCCUPANCY, FEE]
    ensures LossSteps(ONE_CENT, FEE_TABLE) == [OCCUPANCY]
    ensures TechnicalPath(ONE_CENT, FEE_TABLE) == [OCCUPANCY] && CommercialPath(ONE_CENT, FEE_TABLE) == [OCCUPANCY]
    ensures InBand(ONE_CENT, FEE_TABLE)
  {
    hide Str, IntStr, Value, Less, LoadingSteps;
    UnitValue();
    SameOne(ONE);
    LessValue(ZERO, ZERO);
    NoSteps({});
    NoLoadings();
    assert TaxSteps(FEE_TABLE) == [FEE];
  }

  lemma NoLoadings()
    ensures TechnicalSteps(FEE_TABLE) == []
  {
    hide Str, Value, Less;
    UnitValue();
    LessValue(ZERO, ZERO);
    var loadings := Loadings(FEE_TABLE);
    assert loadings[..0] == [] && loadings[..3] == loadings;
    NextLoading(loadings, 0);
    NextLoading(loadings, 1);
    NextLoading(loadings, 2);
    NoSteps({});
  }

  const FEE_SUM := Dec(14_999_999_999_999_999_999_999_999_999, -28)

  lemma FeeRounds()
    ensures RawAdd(NEAR_HALF, OfInt(1)) == FEE_SUM && !Lossless(FEE_SUM)
    ensures Fix(FEE_SUM) == Dec(1_500_000_000_000_000_000_000_000_000, -27)
    ensures HalfUp(NEAR_HALF) == 0 && HalfUp(Dec(1_500_000_000_000_000_000_000_000_000, -27)) == 2
  {
    hide Pow10, Fix, HalfUp, Lossless;
    Pow10Values();
    LongFix(FEE_SUM, 1, 1_499_999_999_999_999_999_999_999_999, 9);
    HalfUpIs(NEAR_HALF, LIMIT, 0, LIMIT - 1);
    HalfUpIs(Dec(1_500_000_000_000_000_000_000_000_000, -27), LIMIT / 10, 2, 0);
  }

  lemma Subtotals()
    ensures Run(Base(ONE_CENT, FEE_TABLE), []) == Acc(ONE, ONE)
    ensures Run(Base(ONE_CENT, FEE_TABLE), [OCCUPANCY]) == Acc(NEAR_HALF, NEAR_HALF)
    ensures Run(Base(ONE_CENT, FEE_TABLE), [OCCUPANCY, FEE])
            == Acc(Dec(1_500_000_000_000_000_000_000_000_000, -27), NEAR_HALF)
  {
    hide Base, Fix, RawAdd, Str, IntStr;
    UnitBase();
    FeeRounds();
    ShortLoses(NEAR_HALF);
    assert RawMul(ONE, NEAR_HALF) == NEAR_HALF;
    RunStep(Base(ONE_CENT, FEE_TABLE), [], OCCUPANCY);
    assert [] + [OCCUPANCY] == [OCCUPANCY];
    RunStep(Base(ONE_CENT, FEE_TABLE), [OCCUPANCY], FEE);
    assert [OCCUPANCY] + [FEE] == [OCCUPANCY, FEE];
  }

  lemma OneMoreLine(acc: Acc, steps: seq<Step>, step: Step)
    requires Printable(acc, steps) && Abs(HalfUp(Run(acc, steps + [step]).subtotal)) < LIMIT
    ensures Printable(acc, steps + [step])
  {
    hide Run, HalfUp;
    assert (steps + [step])[..|steps|] == steps;
  }

  lemma FirstLine(acc: Acc)
    requires Abs(HalfUp(acc.subtotal)) < LIMIT
    ensures Printable(acc, [])
  {
    hide HalfUp;
  }

  lemma CanBeShown()
    ensures Printable(Base(ONE_CENT, FEE_TABLE), [OCCUPANCY, FEE]) && Printable(Base(ONE_CENT, FEE_TABLE), [OCCUPANCY])
  {
    hide Run, Base, HalfUp, Printable, OCCUPANCY, FEE, RawAdd, Fix, Lossless;
    var base := Base(ONE_CENT, FEE_TABLE);
    Subtotals();
    FeeRounds();
    UnitBase();
    UnitHalfUp();
    FirstLine(base);
    assert [] + [OCCUPANCY] == [OCCUPANCY] && [OCCUPANCY] + [FEE] == [OCCUPANCY, FEE];
    OneMoreLine(base, [], OCCUPANCY);
    OneMoreLine(base, [OCCUPANCY], FEE);
  }

  lemma UnitHalfUp()
    ensures HalfUp(ONE) == 1
  {
  }

  /**
   * A table of non-negative parameters and 28-digit factors on which the reported taxes are exactly one
   * cent over the exact ones; the sum that carries them over is not lossless.
   */
  lemma TaxesOffByACent()
    ensures NonNegativePricing(ONE_CENT, FEE_TABLE)
    ensures Price(ONE_CENT, FEE_TABLE).Ok? && Price(ONE_CENT, FEE_TABLE).value.taxesMinor == 2
    ensures ExactTaxes(ONE_CENT, FEE_TABLE) == 1.0
    ensures !PricedWithoutLoss(ONE_CENT, FEE_TABLE)
  {
    hide Run, Base, HalfUp, Value, ExactCommercial, Trail, Printable, InBand, RawAdd, Lossless, Str, IntStr;
    hide FullPath, TechnicalPath, CommercialPath, LossSteps;
    PathOfCent();
    Subtotals();
    FeeRounds();
    CanBeShown();
    UnitValue();
    assert [OCCUPANCY, FEE][..1] == [OCCUPANCY];
  }
}
