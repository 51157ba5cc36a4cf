/**
 * "Rounded once" does not hold of every price of the second table: a risk of twelve quadrillion euros
 * whose exact premium lies a hair below a half cent is carried over it by the context, and then up.
 */
module RatingHalfCent {
  import opened Wrappers
  import opened Numerals
  import opened Decimals
  import opened DecimalText
  import opened DecimalValue
  import opened RatingEngine
  import opened RatingTables
  import opened RatingValue
  import opened RatingV2
  import opened Text

  const RISK := Facts(1_274_467_188_324_564_974, "retail", {"high_tiv", "sprinklered"}, ONE)

  const RETAIL_STEP := OccupancyStep(RISK, V2_TABLE)
  const HIGH_TIV_STEP := TimesStep(HIGH_TIV.name, HIGH_TIV.kind, LossCost, HIGH_TIV.factor)
  const SPRINKLERED_STEP := TimesStep(SPRINKLERED.name, SPRINKLERED.kind, LossCost, SPRINKLERED.factor)

  /** Everything before the premium tax. */
  const BEFORE_TAX := [RETAIL_STEP, HIGH_TIV_STEP, SPRINKLERED_STEP] + TECHNICAL_PATH + [FEE_STEP]

  // ----- rounding by one or two digits

  /** A coefficient of 29 or 30 digits keeps its first 28, one more when the rest is over a half. */
  lemma LongFix(d: Dec, k: nat, q: int, rest: int)
    requires 1 <= k <= 2 && LIMIT / 10 <= q < LIMIT - 1
    requires d.coeff == q * (if k == 1 then 10 else 100) + rest
    requires 0 <= rest < (if k == 1 then 10 else 100) && 2 * rest != (if k == 1 then 10 else 100)
    ensures Fix(d) == Dec(if 2 * rest < (if k == 1 then 10 else 100) then q else q + 1, d.exp + k)
    ensures Lossless(d) <==> rest == 0
  {
    hide Pow10, NumDigits;
    Pow10Values();
    Pow10Step(29);
    Pow10Step(30);
    NumDigitsUnique(d.coeff, 28 + k);
    DivisionUnique(d.coeff, Pow10(k), q, rest);
  }

  // ----- the subtotals

  /** After these steps nothing was lost, and the subtotal is this decimal. */
  predicate At(steps: seq<Step>, subtotal: Dec, commercial: Dec) {
    RunKeeps(Lossless, Base(RISK, V2_TABLE), steps) && Run(Base(RISK, V2_TABLE), steps) == Acc(subtotal, commercial)
  }

  lemma Started()
    ensures At([], Dec(6_372_335_941_622_824_870, -4), Dec(6_372_335_941_622_824_870, -4))
    ensures BaseKeeps(Lossless, RISK, V2_TABLE)
  {
    assert RawDivPow10(Dec(5, -1), 3) == Dec(5, -4);
  }

  /** One factor whose product is short. */
  lemma Multiplied(steps: seq<Step>, s: Dec, step: Step, product: int)
    requires At(steps, s, s) && step.op.Times? && product == s.coeff * step.op.factor.coeff && 0 <= product < LIMIT
    ensures var next := Dec(product, s.exp + step.op.factor.exp); At(steps + [step], next, next)
  {
    hide Run, Lossless;
    assert (steps + [step])[..|steps|] == steps;
    RunStep(Base(RISK, V2_TABLE), steps, step);
    ShortLoses(RawMul(s, step.op.factor));
  }

  lemma ShortLoses(d: Dec)
    requires Fits(d)
    ensures Lossless(d) && Fix(d) == d
  {
  }

  lemma UpToRiskMargin()
    ensures var s := Dec(8_929_175_201_007_537_932_251_235_000, -13);
            At([RETAIL_STEP, HIGH_TIV_STEP, SPRINKLERED_STEP, TECHNICAL_PATH[0], TECHNICAL_PATH[1]], s, s)
  {
    hide At, Str;
    var r, h, w, x, m := RETAIL_STEP, HIGH_TIV_STEP, SPRINKLERED_STEP, TECHNICAL_PATH[0], TECHNICAL_PATH[1];
    Started();
    Multiplied([], Dec(6_372_335_941_622_824_870, -4), r, 70_095_695_357_851_073_570);
    assert [] + [r] == [r];
    Multiplied([r], Dec(70_095_695_357_851_073_570, -5), h, 7_710_526_489_363_618_092_700);
    assert [r] + [h] == [r, h];
    Multiplied([r, h], Dec(7_710_526_489_363_618_092_700, -7), w, 732_500_016_489_543_718_806_500);
    assert [r, h] + [w] == [r, h, w];
    Multiplied([r, h, w], Dec(732_500_016_489_543_718_806_500, -9), x, 84_237_501_896_297_527_662_747_500);
    assert [r, h, w] + [x] == [r, h, w, x];
    Multiplied([r, h, w, x], Dec(84_237_501_896_297_527_662_747_500, -11), m, 8_929_175_201_007_537_932_251_235_000);
    assert [r, h, w, x] + [m] == [r, h, w, x, m];
  }

  /** The commercial subtotal: thirty digits, the last two of them zeros. */
  const COMMERCIAL := Dec(9_286_342_209_047_839_449_541_284_400, -13)

  lemma UpToCatProvision()
    ensures At([RETAIL_STEP, HIGH_TIV_STEP, SPRINKLERED_STEP] + TECHNICAL_PATH, COMMERCIAL, COMMERCIAL)
  {
    hide Run, Lossless, Fix, Str;
    var steps := [RETAIL_STEP, HIGH_TIV_STEP, SPRINKLERED_STEP, TECHNICAL_PATH[0], TECHNICAL_PATH[1]];
    var step := TECHNICAL_PATH[2];
    UpToRiskMargin();
    var raw := Dec(928_634_220_904_783_944_954_128_440_000, -15);
    assert raw == RawMul(Dec(8_929_175_201_007_537_932_251_235_000, -13), step.op.factor);
    LongFix(raw, 2, COMMERCIAL.coeff, 0);
    assert (steps + [step])[..|steps|] == steps;
    RunStep(Base(RISK, V2_TABLE), steps, step);
    assert [RETAIL_STEP, HIGH_TIV_STEP, SPRINKLERED_STEP] + TECHNICAL_PATH == steps + [step];
  }

  const WITH_FEE := Dec(9_286_342_209_097_839_449_541_284_400, -13)

  lemma UpToFee()
    ensures At(BEFORE_TAX, WITH_FEE, COMMERCIAL)
  {
    hide Run, Lossless, Fix, Str, IntStr;
    var steps := [RETAIL_STEP, HIGH_TIV_STEP, SPRINKLERED_STEP] + TECHNICAL_PATH;
    UpToCatProvision();
    FeeAdded();
    assert BEFORE_TAX[..|steps|] == steps;
    RunStep(Base(RISK, V2_TABLE), steps, FEE_STEP);
  }

  lemma FeeAdded()
    ensures RawAdd(COMMERCIAL, OfInt(5000)) == WITH_FEE && Lossless(WITH_FEE) && Fix(WITH_FEE) == WITH_FEE
  {
    hide Pow10;
    assert Pow10(0) == 1 && Pow10(13) == 10_000_000_000_000 by {
      Pow10Values();
      Pow10Sum(13, 3);
    }
  }

  /** The exact premium: 0.4999999999996 of a cent past a whole one. */
  const EXACT := Dec(101_221_130_079_121_449_999_999_999_960, -14)
  const SHARE := Dec(83_577_079_881_430_555_045_871_559_600, -15)

  lemma TaxAdded()
    ensures Mul(COMMERCIAL, Dec(9, -2)) == Dec(8_357_707_988_143_055_504_587_155_960, -14)
    ensures RawAdd(WITH_FEE, Mul(COMMERCIAL, Dec(9, -2))) == EXACT && !Lossless(EXACT)
    ensures Fix(EXACT) == Dec(1_012_211_300_791_214_500_000_000_000, -12)
    ensures Value(Mul(COMMERCIAL, Dec(9, -2))) == Value(COMMERCIAL) * Value(Dec(9, -2))
  {
    hide Pow10, Fix, Lossless, Value;
    Pow10Values();
    assert RawMul(COMMERCIAL, Dec(9, -2)) == SHARE;
    LongFix(SHARE, 1, 8_357_707_988_143_055_504_587_155_960, 0);
    LongFix(EXACT, 2, 1_012_211_300_791_214_499_999_999_999, 60);
    MulIff(COMMERCIAL, Dec(9, -2));
  }

  lemma HalfUpIs(d: Dec, unit: nat, q: nat, rest: nat)
    requires d.coeff >= 0 && d.exp < 0 && Pow10(-d.exp) == unit && rest < unit
    requires d.coeff + unit / 2 == q * unit + rest
    ensures HalfUp(d) == q
  {
    hide Pow10;
    DivisionUnique(d.coeff + unit / 2, unit, q, rest);
  }

  lemma HalfUps()
    ensures HalfUp(Dec(1_012_211_300_791_214_500_000_000_000, -12)) == 1_012_211_300_791_215
    ensures HalfUp(EXACT) == 1_012_211_300_791_214
  {
    hide Pow10, HalfUp;
    assert Pow10(12) == 1_000_000_000_000 && Pow10(14) == 100_000_000_000_000 by {
      Pow10Values();
      Pow10Step(4);
      Pow10Sum(12, 4);
      Pow10Sum(14, 2);
    }
    HalfUpIs(Dec(1_012_211_300_791_214_500_000_000_000, -12), 1_000_000_000_000, 1_012_211_300_791_215, 0);
    HalfUpIs(EXACT, 100_000_000_000_000, 1_012_211_300_791_214, 99_999_999_999_960);
  }

  // ----- the price

  lemma BothFlags()
    ensures RiskPath(RISK.flags) == [HIGH_TIV_STEP, SPRINKLERED_STEP]
  {
    hide TimesStep;
  }

  lemma PathOfRisk()
    ensures FullPath(RISK, V2_TABLE) == BEFORE_TAX + [IPT_STEP]
  {
    hide FullPath, RiskPath, TECHNICAL_PATH, FEE_STEP, IPT_STEP, TimesStep, OccupancyStep;
    FullPathIs(RISK);
    BothFlags();
  }

  lemma ExactBeforeTax()
    ensures RealRun(RealBase(RISK, V2_TABLE), BEFORE_TAX) == RealAcc(Value(WITH_FEE), Value(COMMERCIAL))
  {
    hide Value, Run, RealRun, Base, RealBase, BEFORE_TAX, RunKeeps, Lossless, FactorsExact;
    UpToFee();
    Started();
    BaseIff(RISK, V2_TABLE);
    SameFactors(BEFORE_TAX);
    RunIff(Base(RISK, V2_TABLE), BEFORE_TAX, BEFORE_TAX);
  }

  lemma SameFactors(steps: seq<Step>)
    ensures FactorsExact(steps, steps)
  {
  }

  lemma ExactSum()
    ensures Value(EXACT) == Value(WITH_FEE) + Value(COMMERCIAL) * Value(Dec(9, -2))
  {
    hide Value, RawAdd, Lossless, Fix, Mul;
    TaxAdded();
    RawAddValue(WITH_FEE, Mul(COMMERCIAL, Dec(9, -2)));
  }

  lemma ExactIsExact()
    ensures ExactPremium(RISK, V2_TABLE) == Value(EXACT)
  {
    hide Value, RealRun, Str, IntStr, RealBase, FullPath, ExactPath, ExactPremium, BEFORE_TAX;
    hide EXACT, WITH_FEE, COMMERCIAL;
    PathOfRisk();
    SamePath(RISK);
    PremiumClosed(RISK, V2_TABLE);
    ExactBeforeTax();
    RealRunStep(RealBase(RISK, V2_TABLE), BEFORE_TAX, IPT_STEP);
    ExactSum();
  }

  /** A submission of that value whose cover mentions a sprinkler is priced on these facts. */
  lemma RiskIsDerived()
    ensures FactsOf(1_274_467_188_324_564_974, "retail", "sprinkler") == RISK
  {
    assert Lower("sprinkler") == "sprinkler";
    assert StandsAt("sprinkler", 0, "sprinkler");
  }

  /**
   * The second table prices this risk one cent over the half-up of its exact premium: the context takes
   * the last sum from just below a half cent to the half cent, and the final rounding takes it up.
   */
  lemma RoundedTwice()
    ensures FactsOf(1_274_467_188_324_564_974, "retail", "sprinkler") == RISK
    ensures Price(RISK, V2_TABLE).Ok? && Price(RISK, V2_TABLE).value.premiumMinor == 1_012_211_300_791_215
    ensures HalfUpReal(ExactPremium(RISK, V2_TABLE)) == 1_012_211_300_791_214
    ensures !PricedWithoutLoss(RISK, V2_TABLE)
  {
    hide Value, Run, Base, FullPath, BEFORE_TAX, HalfUp, HalfUpReal, Fix, RawAdd, Lossless, ExactPremium, Str, IntStr;
    hide Price;
    hide FactsOf;
    var base := Base(RISK, V2_TABLE);
    RiskIsDerived();
    V2Prices(RISK);
    PathOfRisk();
    UpToFee();
    TaxAdded();
    HalfUps();
    RunStep(base, BEFORE_TAX, IPT_STEP);
    ExactIsExact();
    HalfUpValue(EXACT);
    assert FullPath(RISK, V2_TABLE)[..|BEFORE_TAX|] == BEFORE_TAX;
  }
}
