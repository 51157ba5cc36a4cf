/**
 * The engine's answers in plain terms: when it refuses a price, the amounts of the stored tables written
 * out as numbers, and the lines a price of the second table prints.
 */
module RatingPlain {
  import opened Wrappers
  import opened Numerals
  import opened Decimals
  import opened DecimalText
  import opened DecimalValue
  import opened RatingEngine
  import opened RatingTables
  import opened RatingValue
  import opened RatingV2
  import R = Reals

  // ----- when there is a price

  /** The subtotal after `k` steps, rounded to cents, has at most 28 digits. */
  ghost predicate Shown(facts: Facts, table: RateTable, k: nat)
    requires facts.occupancy in table.occupancyFactors && k <= |FullPath(facts, table)|
  {
    Abs(HalfUpReal(Value(Run(Base(facts, table), FullPath(facts, table)[..k]).subtotal))) < LIMIT
  }

  ghost predicate ShownUpTo(facts: Facts, table: RateTable, n: nat)
    requires facts.occupancy in table.occupancyFactors && n <= |FullPath(facts, table)|
  {
    forall k :: 0 <= k <= n ==> Shown(facts, table, k)
  }

  /** The commercial adjustment is not one, and is below the least or above the greatest the table allows. */
  ghost predicate OutsideAuthority(facts: Facts, table: RateTable) {
    var adj := Value(facts.commercialAdjustment);
    adj != 1.0 && (adj < Value(table.commercialMin) || adj > Value(table.commercialMax))
  }

  lemma BandMeans(facts: Facts, table: RateTable)
    ensures InBand(facts, table) <==> !OutsideAuthority(facts, table)
  {
    hide Less, Value;
    SameOne(facts.commercialAdjustment);
    LessValue(facts.commercialAdjustment, table.commercialMin);
    LessValue(table.commercialMax, facts.commercialAdjustment);
  }

  lemma PrintableIff(acc: Acc, path: seq<Step>)
    ensures Printable(acc, path) <==>
            forall k :: 0 <= k <= |path| ==> Abs(HalfUpReal(Value(Run(acc, path[..k]).subtotal))) < LIMIT
  {
    hide Run, HalfUp, HalfUpReal, Value, Printable;
    forall k | 0 <= k <= |path|
      ensures ToMinor(Run(acc, path[..k]).subtotal).Some?
              <==> Abs(HalfUpReal(Value(Run(acc, path[..k]).subtotal))) < LIMIT
    {
      HalfUpValue(Run(acc, path[..k]).subtotal);
    }
    if Printable(acc, path) {
      forall k | 0 <= k <= |path| ensures ToMinor(Run(acc, path[..k]).subtotal).Some? {
        PrintablePrefix(acc, path[..k], path);
        PrintableShows(acc, path[..k]);
      }
    } else if forall k :: 0 <= k <= |path| ==> ToMinor(Run(acc, path[..k]).subtotal).Some? {
      PrintableIf(acc, path);
    }
  }

  lemma PrintableShows(acc: Acc, steps: seq<Step>)
    requires Printable(acc, steps)
    ensures ToMinor(Run(acc, steps).subtotal).Some?
  {
  }

  lemma PrintableIsShown(facts: Facts, table: RateTable, n: nat)
    requires facts.occupancy in table.occupancyFactors && n <= |FullPath(facts, table)|
    ensures Printable(Base(facts, table), FullPath(facts, table)[..n]) <==> ShownUpTo(facts, table, n)
  {
    hide Run, HalfUpReal, Value, Printable, FullPath, Base;
    var path := FullPath(facts, table);
    PrintableIff(Base(facts, table), path[..n]);
    forall k | 0 <= k <= n
      ensures Shown(facts, table, k)
              <==> Abs(HalfUpReal(Value(Run(Base(facts, table), path[..n][..k]).subtotal))) < LIMIT
    {
      assert path[..n][..k] == path[..k];
    }
  }

  /**
   * There is a price exactly when the table lists the occupancy, every subtotal can be shown in 28 digits and
   * the commercial adjustment is one or within the table's limits, which are themselves allowed. Otherwise the
   * error is the first the engine meets.
   */
  lemma PriceMeans(facts: Facts, table: RateTable)
    ensures facts.occupancy !in table.occupancyFactors ==> Price(facts, table) == Err(UnknownOccupancy)
    ensures facts.occupancy in table.occupancyFactors ==>
              && |TechnicalPath(facts, table)| <= |FullPath(facts, table)|
              && Price(facts, table)
              == if !ShownUpTo(facts, table, |TechnicalPath(facts, table)|) then Err(TooManyDigits)
                 else if OutsideAuthority(facts, table) then Err(OutsideBand)
                 else if !ShownUpTo(facts, table, |FullPath(facts, table)|) then Err(TooManyDigits)
                 else Ok(PriceOf(facts, table))
    ensures Price(facts, table).Ok? ==>
              Price(facts, table).value.rateTableVersion == table.version && Price(facts, table).value.currency == "EUR"
  {
    hide Printable, FullPath, TechnicalPath, ShownUpTo, OutsideAuthority, InBand, Base;
    if facts.occupancy in table.occupancyFactors {
      TechnicalIsPrefix(facts, table);
      BandMeans(facts, table);
      var path, n := FullPath(facts, table), |TechnicalPath(facts, table)|;
      assert path[..|path|] == path && path[..n] == TechnicalPath(facts, table);
      PrintableIsShown(facts, table, n);
      PrintableIsShown(facts, table, |path|);
    }
  }

  // ----- which adjustments count

  /** The value a flag set is multiplied by for one adjustment: its factor unless it has a gate that is not set. */
  lemma GateMeans(adj: Adjustment, flags: set<string>)
    ensures GatedFactor(adj, flags) == match adj.appliesWhen
                                       case None => Value(adj.factor)
                                       case Some(flag) => if flag in flags then Value(adj.factor) else 1.0
  {
    hide Value;
  }

  /** A gated adjustment adds its step exactly when its flag is set, one without a gate always. */
  lemma StepCounts(adj: Adjustment, flags: set<string>)
    ensures |RiskSteps([adj], flags)| == match adj.appliesWhen
                                         case None => 1
                                         case Some(flag) => if flag in flags then 1 else 0
  {
    assert [adj][..0] == [];
  }

  // ----- the amounts of the stored tables

  ghost function PlainFactor(occupancy: string): real {
    if occupancy == "office" then 1.0
    else if occupancy == "retail" then 1.1
    else if occupancy == "warehouse" then 1.25
    else if occupancy == "light_manufacturing" then 1.5
    else 3.0
  }

  /** Half a per mille of the insured value, times the factors of its occupancy and its flags. */
  ghost function PlainLossCost(tivEur: int, occupancy: string, high: bool, sprinklered: bool): real {
    0.0005 * tivEur as real * PlainFactor(occupancy) * (if high then 1.1 else 1.0) * (if sprinklered then 0.95 else 1.0)
  }

  ghost function PlainCommercial(tivEur: int, occupancy: string, high: bool, sprinklered: bool): real {
    PlainLossCost(tivEur, occupancy, high, sprinklered) * 1.15 * 1.06 * 1.04
  }

  /** With nine per cent tax, and a fee of fifty euros. */
  ghost function PlainPremium(tivEur: int, occupancy: string, high: bool, sprinklered: bool): real {
    PlainCommercial(tivEur, occupancy, high, sprinklered) * 1.09 + 5000.0
  }

  lemma Hundredths(c: int, e: int)
    requires -2 <= e <= 0
    ensures Value(Dec(c, e)) == (if e == -2 then c as real / 100.0 else if e == -1 then c as real / 10.0 else c as real)
  {
    hide Value, Pow10;
    SmallValue(c, e);
  }

  lemma FactorIs(occupancy: string)
    requires occupancy in OCCUPANCIES
    ensures Value(OCCUPANCIES[occupancy]) == PlainFactor(occupancy)
  {
    hide Value;
    Hundredths(10, -1);
    Hundredths(11, -1);
    Hundredths(125, -2);
    Hundredths(15, -1);
    Hundredths(30, -1);
  }

  lemma RiskProductIs(flags: set<string>)
    ensures RiskProduct(V2_TABLE.adjustments, flags)
            == (if "high_tiv" in flags then 1.1 else 1.0) * (if "sprinklered" in flags then 0.95 else 1.0)
  {
    hide Value;
    Hundredths(110, -2);
    Hundredths(95, -2);
    var all := V2_TABLE.adjustments;
    assert all[..1] == [HIGH_TIV] && [HIGH_TIV][..0] == [];
    assert RiskProduct([HIGH_TIV], flags) == 1.0 * GatedFactor(HIGH_TIV, flags);
  }

  lemma PureIs(facts: Facts, table: RateTable)
    requires Listed(facts) && (table == V1_TABLE || table == V2_TABLE)
    ensures ExactPure(facts, table)
            == PlainLossCost(facts.tivEur, facts.occupancy, "high_tiv" in facts.flags, "sprinklered" in facts.flags)
  {
    hide Value, RiskProduct;
    FactorIs(facts.occupancy);
    RiskProductIs(facts.flags);
    Hundredths(5, -1);
    var x := 0.0005 * facts.tivEur as real * PlainFactor(facts.occupancy);
    assert ExactBase(facts, table) == 0.0005 * facts.tivEur as real;
  }

  lemma LoadingProductIs()
    ensures LoadingProduct(Loadings(V2_TABLE)) == 1.15 * 1.06 * 1.04
  {
    hide Value;
    Hundredths(15, -2);
    Hundredths(6, -2);
    Hundredths(4, -2);
    var all := Loadings(V2_TABLE);
    assert all[..2] == [all[0], all[1]] && all[..2][..1] == [all[0]] && [all[0]][..0] == [];
    assert LoadingProduct([]) == 1.0;
    assert LoadingProduct([all[0]]) == 1.15;
    assert LoadingProduct(all[..2]) == 1.15 * 1.06;
  }

  /** The closed formulas of the stored tables, as numbers. */
  lemma PlainAmounts(facts: Facts)
    requires Listed(facts)
    ensures var high, sprinklered := "high_tiv" in facts.flags, "sprinklered" in facts.flags;
            && ExactPure(facts, V1_TABLE) == PlainLossCost(facts.tivEur, facts.occupancy, high, sprinklered)
            && ExactPure(facts, V2_TABLE) == PlainLossCost(facts.tivEur, facts.occupancy, high, sprinklered)
            && ExactCommercial(facts, V2_TABLE) == PlainCommercial(facts.tivEur, facts.occupancy, high, sprinklered)
            && ExactPremium(facts, V2_TABLE) == PlainPremium(facts.tivEur, facts.occupancy, high, sprinklered)
  {
    hide Value, ExactPure, PlainLossCost, LoadingProduct, Loadings;
    PureIs(facts, V1_TABLE);
    PureIs(facts, V2_TABLE);
    LoadingProductIs();
    Hundredths(9, -2);
    UnitValue();
    var x :=
      PlainLossCost(facts.tivEur, facts.occupancy, "high_tiv" in facts.flags, "sprinklered" in facts.flags);
    assert ExactTechnical(facts, V2_TABLE) == x * (1.15 * 1.06 * 1.04);
    assert ExactCommercial(facts, V2_TABLE) == ExactTechnical(facts, V2_TABLE) * 1.0;
  }

  // ----- the lines of the second table

  datatype Caption = Caption(title: string, kind: string, value: string, stage: Stage)

  function CaptionOf(item: LineItem): Caption {
    Caption(item.title, item.kind, item.value, item.stage)
  }

  function Captions(items: seq<LineItem>): (captions: seq<Caption>)
    ensures |captions| == |items|
  {
    seq(|items|, i requires 0 <= i < |items| => CaptionOf(items[i]))
  }

  function StepCaptions(steps: seq<Step>): (captions: seq<Caption>)
    ensures |captions| == |steps|
  {
    seq(|steps|, i requires 0 <= i < |steps| => Caption(steps[i].title, steps[i].kind, steps[i].value, steps[i].stage))
  }

  lemma {:induction false} TrailCaptions(acc: Acc, steps: seq<Step>)
    ensures Captions(Trail(acc, steps)) == StepCaptions(steps)
  {
    hide HalfUp, Run;
    if steps != [] {
      TrailCaptions(acc, steps[..|steps| - 1]);
      var init := Trail(acc, steps[..|steps| - 1]);
      assert forall i :: 0 <= i < |init| ==> Captions(Trail(acc, steps))[i] == Captions(init)[i];
    }
  }

  /** A price prints a line for its base and then one for each step of its path, under the step's caption. */
  lemma LinesFollowSteps(facts: Facts, table: RateTable)
    requires facts.occupancy in table.occupancyFactors
    ensures Captions(PriceOf(facts, table).lineItems)
            == [Caption("base_rate", "base", Str(table.baseRatePermille) + "‰ of TIV", LossCost)]
               + StepCaptions(FullPath(facts, table))
  {
    hide FullPath, Trail, HalfUp, Run, Str, Base;
    TrailCaptions(Base(facts, table), FullPath(facts, table));
    var first, later := [BaseItem(table, Base(facts, table))], Trail(Base(facts, table), FullPath(facts, table));
    assert Captions(first + later) == Captions(first) + Captions(later);
  }

  /** The factor of an occupancy is printed as it is stored. */
  lemma OccupancyPrints(occupancy: string)
    requires occupancy in OCCUPANCIES
    ensures occupancy in V1_RULES.occupancyFactors
    ensures Str(OCCUPANCIES[occupancy]) == V1_RULES.occupancyFactors[occupancy]
  {
    hide Str;
    TenthsPrint(1, 0);
    TenthsPrint(1, 1);
    HundredthsPrint(1, 2, 5);
    TenthsPrint(1, 5);
    TenthsPrint(3, 0);
  }

  lemma AdjustmentsPrint()
    ensures Str(Dec(5, -1)) == "0.5" && Str(Dec(110, -2)) == "1.10" && Str(Dec(95, -2)) == "0.95"
  {
    hide Str;
    BelowOnePrint(5, 0);
    HundredthsPrint(1, 1, 0);
    BelowOnePrint(9, 5);
  }

  lemma LoadingsPrint()
    ensures Str(Dec(115, -2)) == "1.15" && Str(Dec(106, -2)) == "1.06" && Str(Dec(104, -2)) == "1.04"
  {
    hide Str;
    HundredthsPrint(1, 1, 5);
    HundredthsPrint(1, 0, 6);
    HundredthsPrint(1, 0, 4);
  }

  lemma TaxesPrint()
    ensures IntStr(5000) == "5000" && Str(Mul(Dec(9, -2), HUNDRED)) == "9.00"
  {
    hide Str;
    assert Mul(Dec(9, -2), HUNDRED) == Dec(900, -2);
    HundredthsPrint(9, 0, 0);
    ThreeDigits(5, 0, 0);
    assert Digits(5000) == Digits(500) + [Digit(0)];
  }

  /** What a price of the second table prints, line by line. */
  function V2Captions(facts: Facts): seq<Caption>
    requires facts.occupancy in V1_RULES.occupancyFactors
  {
    [Caption("base_rate", "base", "0.5‰ of TIV", LossCost),
     Caption("occupancy_factor:" + facts.occupancy, "factor", "×" + V1_RULES.occupancyFactors[facts.occupancy],
         LossCost)]
    + (if "high_tiv" in facts.flags then [Caption("high_tiv_loading", "loading", "×1.10", LossCost)] else [])
    + (if "sprinklered" in facts.flags then [Caption("sprinklered_discount", "discount", "×0.95", LossCost)] else [])
    + [Caption("expense_loading", "loading", "×1.15", Technical),
       Caption("risk_margin", "loading", "×1.06", Technical),
       Caption("cat_provision", "loading", "×1.04", Technical), Caption("policy_fee", "fee", "+5000 minor", Taxes),
       Caption("ipt", "tax", "+9.00" + "% of commercial premium", Taxes)]
  }

  lemma CaptionsConcat(a: seq<Step>, b: seq<Step>)
    ensures StepCaptions(a + b) == StepCaptions(a) + StepCaptions(b)
  {
  }

  lemma RiskCaptions(flags: set<string>)
    ensures StepCaptions(RiskPath(flags))
            == (if "high_tiv" in flags then [Caption("high_tiv_loading", "loading", "×1.10", LossCost)] else [])
               + (if "sprinklered" in flags then [Caption("sprinklered_discount", "discount", "×0.95", LossCost)]
                  else [])
  {
    hide Str;
    AdjustmentsPrint();
    assert "×" + "1.10" == "×1.10" && "×" + "0.95" == "×0.95";
  }

  lemma LaterCaptions()
    ensures StepCaptions(TECHNICAL_PATH)
            == [Caption("expense_loading", "loading", "×1.15", Technical),
                Caption("risk_margin", "loading", "×1.06", Technical),
                Caption("cat_provision", "loading", "×1.04", Technical)]
    ensures StepCaptions([FEE_STEP, IPT_STEP])
            == [Caption("policy_fee", "fee", "+5000 minor", Taxes),
                Caption("ipt", "tax", "+9.00" + "% of commercial premium", Taxes)]
  {
    hide Str, IntStr, Mul;
    LoadingsPrint();
    TaxesPrint();
    assert "×" + "1.15" == "×1.15" && "×" + "1.06" == "×1.06" && "×" + "1.04" == "×1.04";
    TaxTexts();
  }

  lemma TaxTexts()
    ensures "+" + "5000" + " minor" == "+5000 minor"
    ensures "+" + "9.00" + "% of commercial premium" == "+9.00" + "% of commercial premium"
  {
    assert "+" + "9.00" == "+9.00";
  }

  lemma OccupancyCaption(facts: Facts)
    requires Listed(facts)
    ensures facts.occupancy in V1_RULES.occupancyFactors
    ensures StepCaptions([OccupancyStep(facts, V2_TABLE)])
            == [Caption("occupancy_factor:" + facts.occupancy, "factor",
                "×" + V1_RULES.occupancyFactors[facts.occupancy], LossCost)]
  {
    hide Str;
    OccupancyPrints(facts.occupancy);
  }

  /** Line by line, what a price of the second table prints beside the amounts. */
  lemma V2Lines(facts: Facts)
    requires Listed(facts)
    ensures facts.occupancy in V1_RULES.occupancyFactors
    ensures Captions(PriceOf(facts, V2_TABLE).lineItems) == V2Captions(facts)
  {
    hide Str, IntStr, FullPath, PriceOf, Mul, StepCaptions, RiskPath, Captions, OccupancyStep;
    LinesFollowSteps(facts, V2_TABLE);
    FullPathIs(facts);
    AdjustmentsPrint();
    assert "0.5" + "‰ of TIV" == "0.5‰ of TIV";
    OccupancyCaption(facts);
    RiskCaptions(facts.flags);
    LaterCaptions();
    var first, risk := [OccupancyStep(facts, V2_TABLE)], RiskPath(facts.flags);
    CaptionsConcat(first, risk);
    CaptionsConcat(first + risk, TECHNICAL_PATH);
    CaptionsConcat(first + risk + TECHNICAL_PATH, [FEE_STEP, IPT_STEP]);
  }

  /** An adjustment other than one prints one line of the commercial stage, a discount exactly when it is below one. */
  lemma CommercialLine(facts: Facts, table: RateTable)
    requires facts.occupancy in table.occupancyFactors && Value(facts.commercialAdjustment) != 1.0
    ensures var p, n := PriceOf(facts, table), 1 + |TechnicalPath(facts, table)|;
            && n < |p.lineItems|
            && CaptionOf(p.lineItems[n])
               == Caption("commercial_adjustment",
                   if Value(facts.commercialAdjustment) < 1.0 then "discount" else "loading",
                   "×" + Str(facts.commercialAdjustment), Commercial)
  {
    hide Str, TechnicalPath, TaxSteps, PriceOf, Value, Less;
    LinesFollowSteps(facts, table);
    SameOne(facts.commercialAdjustment);
    LessValue(facts.commercialAdjustment, ONE);
    UnitValue();
    var n, items := 1 + |TechnicalPath(facts, table)|, PriceOf(facts, table).lineItems;
    assert Captions(items)[n] == CaptionOf(items[n]);
  }
}
