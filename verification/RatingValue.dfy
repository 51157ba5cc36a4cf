/**
 * What a price is worth as a real number. The exact premium is a closed formula over the table and the
 * facts, with no order of evaluation and no rounding. Every intermediate result of the engine is exact
 * if and only if context rounding drops nothing but zeros from any of them, and then every total and
 * every line is the half-up of the exact amount.
 */
module RatingValue {
  import opened Numerals
  import opened Decimals
  import opened DecimalValue
  import opened RatingEngine
  import R = Reals

  // ----- the exact premium

  ghost function GatedFactor(adj: Adjustment, flags: set<string>): real {
    if Applies(adj, flags) then Value(adj.factor) else 1.0
  }

  ghost function RiskProduct(adjustments: seq<Adjustment>, flags: set<string>): real {
    if adjustments == [] then 1.0
    else
      var last := adjustments[|adjustments| - 1];
      RiskProduct(adjustments[..|adjustments| - 1], flags) * GatedFactor(last, flags)
  }

  ghost function LoadingFactor(pct: Dec): real {
    if Value(pct) > 0.0 then 1.0 + Value(pct) else 1.0
  }

  ghost function LoadingProduct(loadings: seq<(string, Dec)>): real {
    if loadings == [] then 1.0
    else
      LoadingProduct(loadings[..|loadings| - 1]) * LoadingFactor(loadings[|loadings| - 1].1)
  }

  ghost function ExactBase(facts: Facts, table: RateTable): real {
    Value(table.baseRatePermille) / 1000.0 * facts.tivEur as real
  }

  ghost function ExactPure(facts: Facts, table: RateTable): real
    requires facts.occupancy in table.occupancyFactors
  {
    ExactBase(facts, table) * Value(table.occupancyFactors[facts.occupancy]) * RiskProduct(table.adjustments,
        facts.flags)
  }

  ghost function ExactTechnical(facts: Facts, table: RateTable): real
    requires facts.occupancy in table.occupancyFactors
  {
    ExactPure(facts, table) * LoadingProduct(Loadings(table))
  }

  ghost function ExactCommercial(facts: Facts, table: RateTable): real
    requires facts.occupancy in table.occupancyFactors
  {
    ExactTechnical(facts, table) * Value(facts.commercialAdjustment)
  }

  /** The fee and the premium tax, each only when positive; the tax is on the commercial premium before the fee. */
  ghost function ExactTaxes(facts: Facts, table: RateTable): real
    requires facts.occupancy in table.occupancyFactors
  {
    (if table.fixedFeesMinor > 0 then table.fixedFeesMinor as real else 0.0)
    + (if Value(table.iptRate) > 0.0 then ExactCommercial(facts, table) * Value(table.iptRate) else 0.0)
  }

  ghost function ExactPremium(facts: Facts, table: RateTable): real
    requires facts.occupancy in table.occupancyFactors
  {
    ExactCommercial(facts, table) + ExactTaxes(facts, table)
  }

  // ----- running the steps on real numbers

  datatype RealAcc = RealAcc(subtotal: real, commercial: real)

  ghost function RealAdvance(acc: RealAcc, op: Op): RealAcc {
    match op
    case Times(f) => var s := acc.subtotal * Value(f); RealAcc(s, s)
    case Plus(a) => RealAcc(acc.subtotal + Value(a), acc.commercial)
    case PlusShare(r) => RealAcc(acc.subtotal + acc.commercial * Value(r), acc.commercial)
  }

  ghost function RealRun(acc: RealAcc, steps: seq<Step>): RealAcc {
    if steps == [] then acc else RealAdvance(RealRun(acc, steps[..|steps| - 1]), steps[|steps| - 1].op)
  }

  ghost function RealOf(acc: Acc): RealAcc {
    RealAcc(Value(acc.subtotal), Value(acc.commercial))
  }

  ghost function RealBase(facts: Facts, table: RateTable): RealAcc {
    RealAcc(ExactBase(facts, table), ExactBase(facts, table))
  }

  lemma RealRunStep(acc: RealAcc, steps: seq<Step>, step: Step)
    ensures RealRun(acc, steps + [step]) == RealAdvance(RealRun(acc, steps), step.op)
    ensures RealRun(acc, []) == acc
  {
    assert (steps + [step])[..|steps|] == steps;
  }

  lemma {:induction false} RealRunSplit(acc: RealAcc, steps: seq<Step>, more: seq<Step>)
    ensures RealRun(acc, steps + more) == RealRun(RealRun(acc, steps), more)
  {
    if more == [] {
      assert steps + more == steps;
    } else {
      var init := more[..|more| - 1];
      assert (steps + more)[..|steps + more| - 1] == steps + init;
      RealRunSplit(acc, steps, init);
    }
  }

  /** The base amount times one accumulated product. */
  ghost function Scaled(acc: RealAcc, product: real): RealAcc {
    RealAcc(acc.subtotal * product, acc.subtotal * product)
  }

  ghost predicate IsProduct(next: real, product: real, f: Dec) {
    next == product * Value(f)
  }

  /** One more factor in the steps is one more factor in the accumulated product. */
  lemma ScaledStep(acc: RealAcc, steps: seq<Step>, step: Step, f: Dec, product: real, next: real)
    requires RealRun(acc, steps) == Scaled(acc, product) && step.op == Times(f) && IsProduct(next, product, f)
    ensures RealRun(acc, steps + [step]) == Scaled(acc, next)
  {
    hide Value, RealRun;
    RealRunStep(acc, steps, step);
    R.Assoc(acc.subtotal, product, Value(f));
  }

  lemma ScaledOne(acc: RealAcc)
    ensures acc.subtotal == acc.commercial ==> acc == Scaled(acc, 1.0)
  {
  }

  lemma RiskProductNext(adjustments: seq<Adjustment>, flags: set<string>)
    requires adjustments != []
    ensures var init, last := adjustments[..|adjustments| - 1], adjustments[|adjustments| - 1];
            if Applies(last, flags)
                then IsProduct(RiskProduct(adjustments, flags), RiskProduct(init, flags), last.factor)
            else RiskProduct(adjustments, flags) == RiskProduct(init, flags)
  {
    hide Value;
  }

  lemma RiskStepsNext(adjustments: seq<Adjustment>, flags: set<string>)
    requires adjustments != []
    ensures var init, last := adjustments[..|adjustments| - 1], adjustments[|adjustments| - 1];
            RiskSteps(adjustments, flags)
            == if Applies(last, flags)
               then RiskSteps(init, flags) + [TimesStep(last.name, last.kind, LossCost, last.factor)]
               else RiskSteps(init, flags)
  {
  }

  /** Whatever the steps, real arithmetic meets the closed formula of each stage. */
  lemma {:induction false} RiskClosed(acc: RealAcc, adjustments: seq<Adjustment>, flags: set<string>)
    requires acc.subtotal == acc.commercial
    ensures RealRun(acc, RiskSteps(adjustments, flags)) == Scaled(acc, RiskProduct(adjustments, flags))
  {
    hide Value, RealRun, Scaled, RealAdvance;
    if adjustments == [] {
      RealRunStep(acc, [], TimesStep("", "", LossCost, ONE));
      ScaledOne(acc);
    } else {
      hide RiskProduct, RiskSteps, TimesStep, Applies, IsProduct;
      var init, last := adjustments[..|adjustments| - 1], adjustments[|adjustments| - 1];
      var step := TimesStep(last.name, last.kind, LossCost, last.factor);
      RiskClosed(acc, init, flags);
      RiskProductNext(adjustments, flags);
      RiskStepsNext(adjustments, flags);
      if Applies(last, flags) {
        TimesOp(last.name, last.kind, LossCost, last.factor);
        ScaledStep(acc, RiskSteps(init, flags), step, last.factor, RiskProduct(init, flags),
            RiskProduct(adjustments, flags));
      }
    }
  }

  lemma UnitValue()
    ensures Value(ONE) == 1.0 && Value(ZERO) == 0.0
  {
    ScaleStep(0);
  }

  lemma IntValue(n: int)
    ensures Value(OfInt(n)) == n as real
  {
    ScaleStep(0);
  }

  // ----- the exact path

  /** The loading steps with `1 + pct` as it is before context rounding. */
  function ExactLoadingSteps(loadings: seq<(string, Dec)>): seq<Step> {
    if loadings == [] then []
    else
      var last := loadings[|loadings| - 1];
      ExactLoadingSteps(loadings[..|loadings| - 1])
      + if Less(ZERO, last.1) then [TimesStep(last.0, "loading", Technical, RawAdd(ONE, last.1))] else []
  }

  function ExactTechnicalPath(facts: Facts, table: RateTable): seq<Step>
    requires facts.occupancy in table.occupancyFactors
  {
    LossSteps(facts, table) + ExactLoadingSteps(Loadings(table))
  }

  function ExactCommercialPath(facts: Facts, table: RateTable): seq<Step>
    requires facts.occupancy in table.occupancyFactors
  {
    ExactTechnicalPath(facts, table) + CommercialSteps(facts)
  }

  /** The steps of the engine with nothing rounded in them. */
  function ExactPath(facts: Facts, table: RateTable): seq<Step>
    requires facts.occupancy in table.occupancyFactors
  {
    ExactCommercialPath(facts, table) + TaxSteps(table)
  }

  lemma OnePlus(pct: Dec)
    ensures Value(RawAdd(ONE, pct)) == 1.0 + Value(pct)
  {
    hide Value, Scale, RawAdd;
    RawAddValue(ONE, pct);
    UnitValue();
  }

  lemma LoadingProductNext(loadings: seq<(string, Dec)>)
    requires loadings != []
    ensures var init, pct := loadings[..|loadings| - 1], loadings[|loadings| - 1].1;
            if Less(ZERO, pct) then IsProduct(LoadingProduct(loadings), LoadingProduct(init), RawAdd(ONE, pct))
            else LoadingProduct(loadings) == LoadingProduct(init)
  {
    hide Value, Less, RawAdd;
    var pct := loadings[|loadings| - 1].1;
    LessValue(ZERO, pct);
    UnitValue();
    OnePlus(pct);
  }

  lemma TimesOp(title: string, kind: string, stage: Stage, factor: Dec)
    ensures TimesStep(title, kind, stage, factor).op == Times(factor)
  {
  }

  lemma ExactLoadingNext(loadings: seq<(string, Dec)>)
    requires loadings != []
    ensures var init, last := loadings[..|loadings| - 1], loadings[|loadings| - 1];
            ExactLoadingSteps(loadings)
            == if Less(ZERO, last.1) then
                 ExactLoadingSteps(init) + [TimesStep(last.0, "loading", Technical, RawAdd(ONE, last.1))]
               else ExactLoadingSteps(init)
  {
  }

  lemma {:induction false} LoadingsClosed(acc: RealAcc, loadings: seq<(string, Dec)>)
    requires acc.subtotal == acc.commercial
    ensures RealRun(acc, ExactLoadingSteps(loadings)) == Scaled(acc, LoadingProduct(loadings))
  {
    hide Value, Less, RawAdd, RealRun, Scaled, RealAdvance;
    if loadings == [] {
      RealRunStep(acc, [], TimesStep("", "", Technical, ONE));
      ScaledOne(acc);
    } else {
      hide LoadingProduct, ExactLoadingSteps, TimesStep, IsProduct;
      var init, last := loadings[..|loadings| - 1], loadings[|loadings| - 1];
      var step := TimesStep(last.0, "loading", Technical, RawAdd(ONE, last.1));
      LoadingsClosed(acc, init);
      LoadingProductNext(loadings);
      ExactLoadingNext(loadings);
      if Less(ZERO, last.1) {
        TimesOp(last.0, "loading", Technical, RawAdd(ONE, last.1));
        ScaledStep(acc, ExactLoadingSteps(init), step, RawAdd(ONE, last.1), LoadingProduct(init),
            LoadingProduct(loadings));
      }
    }
  }

  lemma SameOne(d: Dec)
    ensures Same(d, ONE) <==> Value(d) == 1.0
  {
    hide Value, Less;
    LessValue(d, ONE);
    LessValue(ONE, d);
    UnitValue();
  }

  lemma PureClosed(facts: Facts, table: RateTable)
    requires facts.occupancy in table.occupancyFactors
    ensures var s := ExactPure(facts, table);
            RealRun(RealBase(facts, table), LossSteps(facts, table)) == RealAcc(s, s)
  {
    hide Value, RealRun, RiskSteps, RiskProduct, ExactBase;
    var base, occupancy := RealBase(facts, table), OccupancyStep(facts, table);
    RealRunSplit(base, [occupancy], RiskSteps(table.adjustments, facts.flags));
    assert [] + [occupancy] == [occupancy];
    RealRunStep(base, [], occupancy);
    RiskClosed(RealRun(base, [occupancy]), table.adjustments, facts.flags);
  }

  lemma TechnicalClosed(facts: Facts, table: RateTable)
    requires facts.occupancy in table.occupancyFactors
    ensures var s := ExactTechnical(facts, table);
            RealRun(RealBase(facts, table), ExactTechnicalPath(facts, table)) == RealAcc(s, s)
  {
    hide RealRun, ExactPure, RealBase, LossSteps, Loadings, ExactLoadingSteps;
    PureClosed(facts, table);
    RealRunSplit(RealBase(facts, table), LossSteps(facts, table), ExactLoadingSteps(Loadings(table)));
    LoadingsClosed(RealRun(RealBase(facts, table), LossSteps(facts, table)), Loadings(table));
  }

  lemma CommercialClosed(facts: Facts, table: RateTable)
    requires facts.occupancy in table.occupancyFactors
    ensures var s := ExactCommercial(facts, table);
            RealRun(RealBase(facts, table), ExactCommercialPath(facts, table)) == RealAcc(s, s)
  {
    hide RealRun, ExactTechnical, RealBase, ExactTechnicalPath, Value, Same, Less, Loadings;
    var base, path := RealBase(facts, table), ExactTechnicalPath(facts, table);
    TechnicalClosed(facts, table);
    SameOne(facts.commercialAdjustment);
    var steps := CommercialSteps(facts);
    if steps == [] {
      assert path + steps == path;
    } else {
      RealRunStep(base, path, steps[0]);
    }
  }

  lemma FeeClosed(base: RealAcc, path: seq<Step>, table: RateTable)
    ensures var fee := if table.fixedFeesMinor > 0 then table.fixedFeesMinor as real else 0.0;
            RealRun(base, path + FeeSteps(table))
                == RealRun(base, path).(subtotal := RealRun(base, path).subtotal + fee)
  {
    hide RealRun, Value;
    IntValue(table.fixedFeesMinor);
    var fees := FeeSteps(table);
    if fees != [] {
      RealRunStep(base, path, fees[0]);
    } else {
      assert path + fees == path;
    }
  }

  lemma TaxClosed(base: RealAcc, path: seq<Step>, table: RateTable)
    ensures var acc := RealRun(base, path + FeeSteps(table));
            RealRun(base, path + TaxSteps(table)).subtotal
            == acc.subtotal + if Value(table.iptRate) > 0.0 then acc.commercial * Value(table.iptRate) else 0.0
  {
    hide RealRun, Value, Less, FeeSteps;
    LessValue(ZERO, table.iptRate);
    UnitValue();
    var fees, taxes := FeeSteps(table), TaxSteps(table);
    if Less(ZERO, table.iptRate) {
      var ipt := taxes[|taxes| - 1];
      assert path + taxes == (path + fees) + [ipt];
      RealRunStep(base, path + fees, ipt);
    } else {
      assert taxes == fees;
    }
  }

  lemma PremiumClosed(facts: Facts, table: RateTable)
    requires facts.occupancy in table.occupancyFactors
    ensures RealRun(RealBase(facts, table), ExactPath(facts, table)).subtotal == ExactPremium(facts, table)
  {
    hide RealRun, ExactCommercial, RealBase, ExactCommercialPath, Value, Less, Loadings, FeeSteps, TaxSteps;
    CommercialClosed(facts, table);
    FeeClosed(RealBase(facts, table), ExactCommercialPath(facts, table), table);
    TaxClosed(RealBase(facts, table), ExactCommercialPath(facts, table), table);
  }

  // ----- the engine's path beside the exact one

  /** The engine's step is the exact one, or has its factor rounded to the context. */
  predicate Rounds(op: Op, exact: Op) {
    op == exact || (op.Times? && exact.Times? && op.factor == Fix(exact.factor))
  }

  predicate Beside(steps: seq<Step>, exact: seq<Step>) {
    |steps| == |exact| && forall i :: 0 <= i < |steps| ==> Rounds(steps[i].op, exact[i].op)
  }

  lemma {:induction false} LoadingsBeside(loadings: seq<(string, Dec)>)
    ensures Beside(LoadingSteps(loadings), ExactLoadingSteps(loadings))
  {
    hide Less, RawAdd, Fix;
    if loadings != [] {
      LoadingsBeside(loadings[..|loadings| - 1]);
    }
  }

  lemma {:induction false} ShortLoadings(loadings: seq<(string, Dec)>)
    requires LoadingsKeep(Fits, loadings)
    ensures ExactLoadingSteps(loadings) == LoadingSteps(loadings)
  {
    hide Less, RawAdd;
    if loadings != [] {
      ShortLoadings(loadings[..|loadings| - 1]);
    }
  }

  lemma PathsBeside(facts: Facts, table: RateTable)
    requires facts.occupancy in table.occupancyFactors
    ensures Beside(FullPath(facts, table), ExactPath(facts, table))
    ensures |LossSteps(facts, table)| <= |TechnicalPath(facts, table)| <= |CommercialPath(facts, table)|
            <= |FullPath(facts, table)|
    ensures var path, exact := FullPath(facts, table), ExactPath(facts, table);
            var loss, technical, commercial :=
              |LossSteps(facts, table)|, |TechnicalPath(facts, table)|, |CommercialPath(facts, table)|;
            && path[..loss] == exact[..loss] == LossSteps(facts, table)
            && path[..technical] == TechnicalPath(facts, table)
            && exact[..technical] == ExactTechnicalPath(facts, table)
            && path[..commercial] == CommercialPath(facts, table)
            && exact[..commercial] == ExactCommercialPath(facts, table)
  {
    hide LossSteps, LoadingSteps, ExactLoadingSteps, CommercialSteps, TaxSteps, Loadings, Fix;
    LoadingsBeside(Loadings(table));
  }

  // ----- what every raw result satisfies

  /** Every result of this step satisfies `keeps` before it is rounded to the context. */
  predicate StepKeeps(keeps: Dec -> bool, acc: Acc, op: Op) {
    match op
    case Times(f) => keeps(RawMul(acc.subtotal, f))
    case Plus(a) => keeps(RawAdd(acc.subtotal, a))
    case PlusShare(r) => keeps(RawMul(acc.commercial, r)) && keeps(RawAdd(acc.subtotal, Mul(acc.commercial, r)))
  }

  predicate RunKeeps(keeps: Dec -> bool, acc: Acc, steps: seq<Step>) {
    steps == []
    || (RunKeeps(keeps, acc, steps[..|steps| - 1])
       && StepKeeps(keeps, Run(acc, steps[..|steps| - 1]), steps[|steps| - 1].op))
  }

  predicate BaseKeeps(keeps: Dec -> bool, facts: Facts, table: RateTable) {
    && keeps(RawDivPow10(table.baseRatePermille, 3))
    && keeps(RawMul(DivPow10(table.baseRatePermille, 3), OfInt(facts.tivEur)))
  }

  predicate LoadingsKeep(keeps: Dec -> bool, loadings: seq<(string, Dec)>) {
    forall i :: 0 <= i < |loadings| && Less(ZERO, loadings[i].1) ==> keeps(RawAdd(ONE, loadings[i].1))
  }

  predicate PriceKeeps(keeps: Dec -> bool, facts: Facts, table: RateTable)
    requires facts.occupancy in table.occupancyFactors
  {
    && BaseKeeps(keeps, facts, table) && LoadingsKeep(keeps, Loadings(table))
    && RunKeeps(keeps, Base(facts, table), FullPath(facts, table))
  }

  /** No result on the way to this premium has more than 28 digits. */
  predicate PricedWithoutRounding(facts: Facts, table: RateTable)
    requires facts.occupancy in table.occupancyFactors
  {
    PriceKeeps(Fits, facts, table)
  }

  /** Context rounding drops nothing but zeros from any result on the way to this premium. */
  predicate PricedWithoutLoss(facts: Facts, table: RateTable)
    requires facts.occupancy in table.occupancyFactors
  {
    PriceKeeps(Lossless, facts, table)
  }

  lemma {:induction false} ShortRunKeeps(acc: Acc, steps: seq<Step>)
    requires RunKeeps(Fits, acc, steps)
    ensures RunKeeps(Lossless, acc, steps)
  {
    hide Run, RawMul, RawAdd, Mul;
    if steps != [] {
      ShortRunKeeps(acc, steps[..|steps| - 1]);
    }
  }

  /** Short results lose nothing. */
  lemma ShortIsLossless(facts: Facts, table: RateTable)
    requires facts.occupancy in table.occupancyFactors && PricedWithoutRounding(facts, table)
    ensures PricedWithoutLoss(facts, table)
  {
    hide FullPath, Base, RawAdd, RawMul, RawDivPow10, DivPow10, Less, Loadings, RunKeeps;
    ShortRunKeeps(Base(facts, table), FullPath(facts, table));
  }

  // ----- when the decimal run is the real run

  /** The results of step `k` are exact: the subtotal it leaves, and the share it adds. */
  ghost predicate ExactAt(acc: Acc, real_: RealAcc, steps: seq<Step>, exact: seq<Step>, k: nat)
    requires k < |steps| == |exact|
  {
    && RealOf(Run(acc, steps[..k + 1])) == RealRun(real_, exact[..k + 1])
    && (steps[k].op.PlusShare? ==>
          Value(Mul(Run(acc, steps[..k]).commercial, steps[k].op.rate))
          == RealRun(real_, exact[..k]).commercial * Value(steps[k].op.rate))
  }

  ghost predicate RunsExactly(acc: Acc, real_: RealAcc, steps: seq<Step>, exact: seq<Step>)
    requires |steps| == |exact|
  {
    forall k :: 0 <= k < |steps| ==> ExactAt(acc, real_, steps, exact, k)
  }

  /** The base rate per unit and the base amount are exact. */
  ghost predicate BaseExact(facts: Facts, table: RateTable) {
    && Value(DivPow10(table.baseRatePermille, 3)) == Value(table.baseRatePermille) / 1000.0
    && RealOf(Base(facts, table)) == RealBase(facts, table)
  }

  /** Each `1 + pct` that is applied is exact. */
  ghost predicate LoadingsExact(loadings: seq<(string, Dec)>) {
    forall i :: 0 <= i < |loadings| && Less(ZERO, loadings[i].1) ==>
      Value(Add(ONE, loadings[i].1)) == 1.0 + Value(loadings[i].1)
  }

  /** Every intermediate result is the exact one: rate, base, loading factors, products, share and sums. */
  ghost predicate ComputedExactly(facts: Facts, table: RateTable)
    requires facts.occupancy in table.occupancyFactors
  {
    PathsBeside(facts, table);
    && BaseExact(facts, table) && LoadingsExact(Loadings(table))
    && RunsExactly(Base(facts, table), RealBase(facts, table), FullPath(facts, table), ExactPath(facts, table))
  }

  lemma MulIff(a: Dec, f: Dec)
    ensures Value(Mul(a, f)) == Value(a) * Value(f) <==> Lossless(RawMul(a, f))
  {
    hide Value, Fix, RawMul, Lossless;
    RawMulValue(a, f);
    FixLossless(RawMul(a, f));
  }

  lemma AddIff(a: Dec, b: Dec)
    ensures Value(Add(a, b)) == Value(a) + Value(b) <==> Lossless(RawAdd(a, b))
  {
    hide Value, Fix, RawAdd, Lossless;
    RawAddValue(a, b);
    FixLossless(RawAdd(a, b));
  }

  lemma StepIff(acc: Acc, op: Op, exact: Op)
    requires op == exact || (op.Times? && exact.Times? && Value(op.factor) == Value(exact.factor))
    ensures StepKeeps(Lossless, acc, op) <==>
            && RealOf(Advance(acc, op)) == RealAdvance(RealOf(acc), exact)
            && (op.PlusShare? ==> Value(Mul(acc.commercial, op.rate)) == Value(acc.commercial) * Value(op.rate))
  {
    hide Value, Mul, Add, RawMul, RawAdd, Lossless;
    match op
    case Times(f) => MulIff(acc.subtotal, f);
    case Plus(a) => AddIff(acc.subtotal, a);
    case PlusShare(r) =>
      MulIff(acc.commercial, r);
      AddIff(acc.subtotal, Mul(acc.commercial, r));
  }

  /** Each factor of the engine's steps is worth its exact counterpart. */
  ghost predicate FactorsExact(steps: seq<Step>, exact: seq<Step>) {
    && |steps| == |exact|
    && forall i :: 0 <= i < |steps| ==>
         || steps[i].op == exact[i].op
         || (steps[i].op.Times? && exact[i].op.Times? && Value(steps[i].op.factor) == Value(exact[i].op.factor))
  }

  lemma {:induction false} RunIff(acc: Acc, steps: seq<Step>, exact: seq<Step>)
    requires FactorsExact(steps, exact)
    ensures RunKeeps(Lossless, acc, steps) <==> RunsExactly(acc, RealOf(acc), steps, exact)
    ensures RunKeeps(Lossless, acc, steps) ==> RealOf(Run(acc, steps)) == RealRun(RealOf(acc), exact)
  {
    hide RealOf, StepKeeps, Advance, RealAdvance, Value, Mul, ExactAt;
    if steps != [] {
      var n := |steps| - 1;
      RunIff(acc, steps[..n], exact[..n]);
      PrefixRunsExactly(acc, RealOf(acc), steps, exact);
      assert steps[..n + 1] == steps && exact[..n + 1] == exact;
      if RunKeeps(Lossless, acc, steps[..n]) {
        LastIff(acc, steps, exact);
      }
    }
  }

  lemma PrefixRunsExactly(acc: Acc, real_: RealAcc, steps: seq<Step>, exact: seq<Step>)
    requires |steps| == |exact| > 0
    ensures var n := |steps| - 1;
            RunsExactly(acc, real_, steps, exact)
            <==> RunsExactly(acc, real_, steps[..n], exact[..n]) && ExactAt(acc, real_, steps, exact, n)
  {
    hide Run, RealRun, Value, Mul;
    var n := |steps| - 1;
    forall k | 0 <= k < n
      ensures ExactAt(acc, real_, steps[..n], exact[..n], k) <==> ExactAt(acc, real_, steps, exact, k)
    {
      assert steps[..n][..k + 1] == steps[..k + 1] && exact[..n][..k + 1] == exact[..k + 1];
      assert steps[..n][..k] == steps[..k] && exact[..n][..k] == exact[..k];
    }
  }

  lemma LastIff(acc: Acc, steps: seq<Step>, exact: seq<Step>)
    requires FactorsExact(steps, exact) && steps != []
    requires RealOf(Run(acc, steps[..|steps| - 1])) == RealRun(RealOf(acc), exact[..|steps| - 1])
    ensures var n := |steps| - 1;
            StepKeeps(Lossless, Run(acc, steps[..n]), steps[n].op) <==> ExactAt(acc, RealOf(acc), steps, exact, n)
    ensures ExactAt(acc, RealOf(acc), steps, exact, |steps| - 1)
            ==> RealOf(Run(acc, steps)) == RealRun(RealOf(acc), exact)
  {
    hide StepKeeps, Advance, RealAdvance, Value, Mul;
    var n := |steps| - 1;
    assert steps[..n + 1] == steps && exact[..n + 1] == exact;
    StepIff(Run(acc, steps[..n]), steps[n].op, exact[n].op);
  }

  lemma BaseIff(facts: Facts, table: RateTable)
    ensures BaseKeeps(Lossless, facts, table) <==> BaseExact(facts, table)
  {
    hide Value, RawMul, RawDivPow10, Mul, Fix, Lossless;
    var raw, rate := RawDivPow10(table.baseRatePermille, 3), DivPow10(table.baseRatePermille, 3);
    RawDivValue(table.baseRatePermille, 3);
    Pow10Values();
    Thousandth(Value(raw), Value(table.baseRatePermille));
    FixLossless(raw);
    IntValue(facts.tivEur);
    MulIff(rate, OfInt(facts.tivEur));
  }

  lemma Thousandth(x: real, y: real)
    requires x * 1000.0 == y
    ensures x == y / 1000.0
  {
  }

  lemma LoadingsIff(loadings: seq<(string, Dec)>)
    ensures LoadingsKeep(Lossless, loadings) <==> LoadingsExact(loadings)
  {
    hide Value, Less, Add, RawAdd, Lossless;
    UnitValue();
    forall i | 0 <= i < |loadings|
      ensures Lossless(RawAdd(ONE, loadings[i].1)) <==> Value(Add(ONE, loadings[i].1)) == 1.0 + Value(loadings[i].1)
    {
      AddIff(ONE, loadings[i].1);
    }
  }

  lemma {:induction false} LoadingFactorsExact(loadings: seq<(string, Dec)>)
    requires LoadingsExact(loadings)
    ensures FactorsExact(LoadingSteps(loadings), ExactLoadingSteps(loadings))
  {
    hide Value, Less, Add, RawAdd;
    if loadings != [] {
      LoadingFactorsExact(loadings[..|loadings| - 1]);
      OnePlus(loadings[|loadings| - 1].1);
    }
  }

  lemma PathFactorsExact(facts: Facts, table: RateTable)
    requires facts.occupancy in table.occupancyFactors && LoadingsExact(Loadings(table))
    ensures FactorsExact(FullPath(facts, table), ExactPath(facts, table))
  {
    hide LossSteps, LoadingSteps, ExactLoadingSteps, CommercialSteps, TaxSteps, Loadings, Value, LoadingsExact;
    LoadingFactorsExact(Loadings(table));
  }

  /**
   * Every intermediate result of a price is the exact one if and only if context rounding drops nothing
   * but zeros from any of them: this is exactly when the subtotal is rounded once, at the end.
   */
  lemma ExactIffLossless(facts: Facts, table: RateTable)
    requires facts.occupancy in table.occupancyFactors
    ensures ComputedExactly(facts, table) <==> PricedWithoutLoss(facts, table)
  {
    hide FullPath, ExactPath, Base, RealBase, Loadings, BaseKeeps, LoadingsKeep, RunKeeps, RunsExactly, Value, Lossless;
    hide RealOf, Run, RealRun, LoadingsExact, DivPow10;
    BaseIff(facts, table);
    LoadingsIff(Loadings(table));
    PathsBeside(facts, table);
    if LoadingsExact(Loadings(table)) {
      PathFactorsExact(facts, table);
      RunIff(Base(facts, table), FullPath(facts, table), ExactPath(facts, table));
    }
  }

  /** A prefix of a price computed exactly is worth exactly what real arithmetic says. */
  lemma ExactPrefix(facts: Facts, table: RateTable, k: nat)
    requires facts.occupancy in table.occupancyFactors && PricedWithoutLoss(facts, table)
    requires k <= |FullPath(facts, table)| == |ExactPath(facts, table)|
    ensures var exact := RealRun(RealBase(facts, table), ExactPath(facts, table)[..k]).subtotal;
            && Value(Run(Base(facts, table), FullPath(facts, table)[..k]).subtotal) == exact
            && HalfUp(Run(Base(facts, table), FullPath(facts, table)[..k]).subtotal) == HalfUpReal(exact)
  {
    hide Value, Run, RealRun, Base, RealBase, FullPath, ExactPath, HalfUp, HalfUpReal, PriceKeeps, LoadingsExact;
    hide DivPow10;
    ExactIffLossless(facts, table);
    var path, exact := FullPath(facts, table), ExactPath(facts, table);
    HalfUpValue(Run(Base(facts, table), path[..k]).subtotal);
    if k == 0 {
      NothingRun(Base(facts, table), RealBase(facts, table), path, exact);
    } else {
      assert ExactAt(Base(facts, table), RealBase(facts, table), path, exact, k - 1);
    }
  }

  lemma NothingRun(acc: Acc, real_: RealAcc, steps: seq<Step>, exact: seq<Step>)
    ensures Run(acc, steps[..0]) == acc && RealRun(real_, exact[..0]) == real_
  {
  }

  /**
   * A price from which no result loses anything is the exact one: each stage total is the half-up of its
   * closed formula, and each printed line the half-up of the exact subtotal it stands for.
   */
  lemma PricedExactly(facts: Facts, table: RateTable)
    requires facts.occupancy in table.occupancyFactors && PricedWithoutLoss(facts, table)
    ensures var p := PriceOf(facts, table);
            && p.purePremiumMinor == HalfUpReal(ExactPure(facts, table))
            && p.technicalPremiumMinor == HalfUpReal(ExactTechnical(facts, table))
            && p.commercialPremiumMinor == HalfUpReal(ExactCommercial(facts, table))
            && p.premiumMinor == HalfUpReal(ExactPremium(facts, table))
            && |p.lineItems| == 1 + |ExactPath(facts, table)|
            && forall k :: 0 <= k < |p.lineItems| ==>
                 p.lineItems[k].runningSubtotalMinor
                 == HalfUpReal(RealRun(RealBase(facts, table), ExactPath(facts, table)[..k]).subtotal)
  {
    hide Value, Run, RealRun, HalfUp, HalfUpReal, ExactPure, ExactTechnical, ExactCommercial, ExactPremium;
    hide PricedWithoutLoss, LossSteps, TechnicalPath, CommercialPath, FullPath, ExactPath, Trail, BaseItem, RealBase;
    hide Base;
    hide ExactTechnicalPath, ExactCommercialPath;
    var path, exact, base := FullPath(facts, table), ExactPath(facts, table), Base(facts, table);
    PathsBeside(facts, table);
    PureClosed(facts, table);
    TechnicalClosed(facts, table);
    CommercialClosed(facts, table);
    PremiumClosed(facts, table);
    ExactPrefix(facts, table, |LossSteps(facts, table)|);
    ExactPrefix(facts, table, |TechnicalPath(facts, table)|);
    ExactPrefix(facts, table, |CommercialPath(facts, table)|);
    ExactPrefix(facts, table, |path|);
    assert path[..|path|] == path && exact[..|path|] == exact;
    forall k | 0 <= k <= |path|
      ensures PriceOf(facts, table).lineItems[k].runningSubtotalMinor
              == HalfUpReal(RealRun(RealBase(facts, table), exact[..k]).subtotal)
    {
      ExactPrefix(facts, table, k);
      LineShows(table, base, path, k);
    }
  }

  /** Line `k` of a trail shows the subtotal reached after `k` steps. */
  lemma {:induction false} LineShows(table: RateTable, base: Acc, path: seq<Step>, k: nat)
    requires k <= |path|
    ensures var items := [BaseItem(table, base)] + Trail(base, path);
            items[k].runningSubtotalMinor == HalfUp(Run(base, path[..k]).subtotal)
  {
    hide HalfUp, Advance;
    if path == [] {
    } else if k == |path| {
      assert path[..k] == path;
    } else {
      var init := path[..|path| - 1];
      assert init[..k] == path[..k];
      LineShows(table, base, init, k);
    }
  }
}
