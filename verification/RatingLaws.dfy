/**
 * Laws of the staged price: the trail reconciles with the stage totals, loadings and taxes only add,
 * neutral tables price at loss cost, and neither the order of the adjustments nor a flag they do not
 * name matters.
 */
module RatingLaws {
  import opened Wrappers
  import opened Numerals
  import opened Decimals
  import opened DecimalText
  import opened DecimalValue
  import opened RatingEngine
  import opened RatingTables
  import opened RatingValue
  import opened RatingDrift
  import opened RatingMonotone
  import opened RatingV2
  import R = Reals

  // ----- the trail and the stage totals

  function Rank(stage: Stage): nat {
    match stage
    case LossCost => 0
    case Technical => 1
    case Commercial => 2
    case Taxes => 3
  }

  /** What the last line at or before a stage shows. */
  function ShownBy(items: seq<LineItem>, stage: Stage): Option<int> {
    if items == [] then None
    else
      var last := items[|items| - 1];
      if Rank(last.stage) <= Rank(stage) then Some(last.runningSubtotalMinor)
      else ShownBy(items[..|items| - 1], stage)
  }

  predicate InOrder(items: seq<LineItem>) {
    forall i, j :: 0 <= i < j < |items| ==> Rank(items[i].stage) <= Rank(items[j].stage)
  }

  predicate AllAt(steps: seq<Step>, stage: Stage) {
    forall i :: 0 <= i < |steps| ==> steps[i].stage == stage
  }

  lemma {:induction false} TrailSplit(acc: Acc, steps: seq<Step>, more: seq<Step>)
    ensures Trail(acc, steps + more) == Trail(acc, steps) + Trail(Run(acc, steps), more)
  {
    hide HalfUp, Advance;
    if more == [] {
      assert steps + more == steps;
    } else {
      var init := more[..|more| - 1];
      assert (steps + more)[..|steps + more| - 1] == steps + init;
      TrailSplit(acc, steps, init);
      RunSplit(acc, steps, more);
    }
  }

  lemma {:induction false} TrailStages(acc: Acc, steps: seq<Step>)
    ensures forall i :: 0 <= i < |steps| ==> Trail(acc, steps)[i].stage == steps[i].stage
    ensures steps != [] ==> Trail(acc, steps)[|steps| - 1].runningSubtotalMinor == HalfUp(Run(acc, steps).subtotal)
  {
    hide HalfUp, Advance;
    if steps != [] {
      TrailStages(acc, steps[..|steps| - 1]);
    }
  }

  lemma {:induction false} ShownBefore(items: seq<LineItem>, later: seq<LineItem>, stage: Stage)
    requires forall i :: 0 <= i < |later| ==> Rank(later[i].stage) > Rank(stage)
    ensures ShownBy(items + later, stage) == ShownBy(items, stage)
  {
    if later == [] {
      assert items + later == items;
    } else {
      assert (items + later)[..|items + later| - 1] == items + later[..|later| - 1];
      ShownBefore(items, later[..|later| - 1], stage);
    }
  }

  lemma {:induction false} RiskAtLossCost(adjustments: seq<Adjustment>, flags: set<string>)
    ensures AllAt(RiskSteps(adjustments, flags), LossCost)
  {
    if adjustments != [] {
      RiskAtLossCost(adjustments[..|adjustments| - 1], flags);
    }
  }

  lemma {:induction false} LoadingsAtTechnical(loadings: seq<(string, Dec)>)
    ensures AllAt(LoadingSteps(loadings), Technical)
  {
    hide Less, Add;
    if loadings != [] {
      LoadingsAtTechnical(loadings[..|loadings| - 1]);
    }
  }

  lemma StagesOfPath(facts: Facts, table: RateTable)
    requires facts.occupancy in table.occupancyFactors
    ensures AllAt(LossSteps(facts, table), LossCost) && AllAt(TechnicalSteps(table), Technical)
    ensures AllAt(CommercialSteps(facts), Commercial) && AllAt(TaxSteps(table), Taxes)
  {
    hide Same, Less, Mul, RiskSteps, LoadingSteps;
    RiskAtLossCost(table.adjustments, facts.flags);
    LoadingsAtTechnical(Loadings(table));
  }

  /** Steps up to a stage, then only later ones: the stage shows the subtotal the first part leaves. */
  lemma StageShows(table: RateTable, base: Acc, steps: seq<Step>, later: seq<Step>, stage: Stage)
    requires forall i :: 0 <= i < |steps| ==> Rank(steps[i].stage) <= Rank(stage)
    requires forall i :: 0 <= i < |later| ==> Rank(later[i].stage) > Rank(stage)
    ensures ShownBy([BaseItem(table, base)] + Trail(base, steps + later), stage)
            == Some(HalfUp(Run(base, steps).subtotal))
  {
    hide HalfUp, Trail, Advance;
    TrailSplit(base, steps, later);
    TrailStages(base, steps);
    TrailStages(Run(base, steps), later);
    var items := [BaseItem(table, base)] + Trail(base, steps);
    assert [BaseItem(table, base)] + Trail(base, steps + later) == items + Trail(Run(base, steps), later);
    ShownBefore(items, Trail(Run(base, steps), later), stage);
    if steps == [] {
      assert items[|items| - 1] == BaseItem(table, base);
    } else {
      assert items[|items| - 1] == Trail(base, steps)[|steps| - 1];
    }
  }

  /**
   * The trail reconciles: its stages are in order, each stage total is what the last line at or before
   * that stage shows, and the last line is the premium.
   */
  lemma TrailReconciles(facts: Facts, table: RateTable)
    requires Price(facts, table).Ok?
    ensures var p := Price(facts, table).value;
            && InOrder(p.lineItems)
            && ShownBy(p.lineItems, LossCost) == Some(p.purePremiumMinor)
            && ShownBy(p.lineItems, Technical) == Some(p.technicalPremiumMinor)
            && ShownBy(p.lineItems, Commercial) == Some(p.commercialPremiumMinor)
            && p.lineItems[|p.lineItems| - 1].runningSubtotalMinor == p.premiumMinor
            && p.premiumMinor == p.commercialPremiumMinor + p.taxesMinor
  {
    hide HalfUp, Trail, Run, Printable, LossSteps, TechnicalSteps, CommercialSteps, TaxSteps, ShownBy, InBand, Base;
    var base, loss, technical, commercial, tax := Base(facts, table), LossSteps(facts, table), TechnicalSteps(table),
        CommercialSteps(facts), TaxSteps(table);
    StagesOfPath(facts, table);
    assert FullPath(facts, table) == loss + (technical + commercial + tax);
    StageShows(table, base, loss, technical + commercial + tax, LossCost);
    assert FullPath(facts, table) == (loss + technical) + (commercial + tax);
    StageShows(table, base, loss + technical, commercial + tax, Technical);
    StageShows(table, base, CommercialPath(facts, table), tax, Commercial);
    TrailStages(base, FullPath(facts, table));
    FirstIsOccupancy(facts, table);
  }

  lemma FirstIsOccupancy(facts: Facts, table: RateTable)
    requires facts.occupancy in table.occupancyFactors
    ensures LossSteps(facts, table) != []
  {
  }

  // ----- loadings and taxes only add

  lemma OnePlusRaises(pct: Dec)
    requires Less(ZERO, pct)
    ensures Add(ONE, pct).coeff >= 0 && Value(Add(ONE, pct)) >= 1.0
  {
    hide Value, Scale, RawAdd, Less, Add;
    LessValue(ZERO, pct);
    UnitValue();
    NonNegative(pct);
    AddMonotone(ONE, ONE, pct, pct);
  }

  lemma {:induction false} BelowLoadings(a: Acc, p: seq<Step>, loadings: seq<(string, Dec)>)
    requires Below(a, p, a, p)
    ensures Below(a, p, a, p + LoadingSteps(loadings))
  {
    hide Below, Value, Less, Add;
    if loadings == [] {
      assert p + [] == p;
    } else {
      var init, last := loadings[..|loadings| - 1], loadings[|loadings| - 1];
      BelowLoadings(a, p, init);
      if Less(ZERO, last.1) {
        var step := TimesStep(last.0, "loading", Technical, Add(ONE, last.1));
        OnePlusRaises(last.1);
        BelowLoaded(a, p, a, p + LoadingSteps(init), step);
        assert p + LoadingSteps(loadings) == (p + LoadingSteps(init)) + [step];
      } else {
        assert p + LoadingSteps(loadings) == p + LoadingSteps(init);
      }
    }
  }

  lemma AddingRaises(a: Acc, op: Op)
    requires Ordered(a) && NonNegativeOp(op) && !op.Times?
    ensures AtMost(a, Advance(a, op))
  {
    hide Value, Mul, Add, Fits;
    match op
    case Plus(x) => AddMonotone(a.subtotal, a.subtotal, x, x);
    case PlusShare(r) =>
      MulMonotone(a.commercial, a.commercial, r);
      AddMonotone(a.subtotal, a.subtotal, Mul(a.commercial, r), Mul(a.commercial, r));
  }

  lemma {:induction false} TaxesRaise(a: Acc, steps: seq<Step>)
    requires Ordered(a) && NonNegativeSteps(steps)
    requires forall i :: 0 <= i < |steps| ==> !steps[i].op.Times?
    ensures AtMost(a, Run(a, steps))
  {
    hide Value, Advance, NonNegativeOp;
    if steps != [] {
      TaxesRaise(a, steps[..|steps| - 1]);
      AddingRaises(Run(a, steps[..|steps| - 1]), steps[|steps| - 1].op);
    }
  }

  lemma TaxStepsAdd(table: RateTable)
    ensures forall i :: 0 <= i < |TaxSteps(table)| ==> !TaxSteps(table)[i].op.Times?
  {
    hide Less, Mul;
  }

  /** With non-negative parameters the pure premium is at most the technical one, and taxes are not negative. */
  lemma StagesGrow(facts: Facts, table: RateTable)
    requires Price(facts, table).Ok? && NonNegativePricing(facts, table)
    ensures var p := Price(facts, table).value;
            p.purePremiumMinor <= p.technicalPremiumMinor && p.taxesMinor >= 0
  {
    hide HalfUp, Trail, Run, Printable, LossSteps, LoadingSteps, CommercialPath, TaxSteps, Below, AtMost, Base;
    hide InBand, Loadings;
    hide NonNegativePricing, NonNegativeSteps, Value, HighTivLoads, Ordered;
    var base, loss, commercial := Base(facts, table), LossSteps(facts, table), CommercialPath(facts, table);
    LossBelowItself(facts, table);
    BelowLoadings(base, loss, Loadings(table));
    StageBelow(base, loss, base, TechnicalPath(facts, table));
    TaxNonNegative(facts, table);
    TaxStepsAdd(table);
    TaxesRaise(Run(base, commercial), TaxSteps(table));
    RunSplit(base, commercial, TaxSteps(table));
    AtMostShown(Run(base, commercial), Run(base, FullPath(facts, table)));
  }

  lemma AtMostShown(a: Acc, b: Acc)
    requires AtMost(a, b)
    ensures HalfUp(a.subtotal) <= HalfUp(b.subtotal)
  {
    hide Value, HalfUp;
    HalfUpMono(a.subtotal, b.subtotal);
  }

  lemma LossBelowItself(facts: Facts, table: RateTable)
    requires facts.occupancy in table.occupancyFactors && NonNegativePricing(facts, table)
    ensures var base, loss, commercial := Base(facts, table), LossSteps(facts, table), CommercialPath(facts, table);
            Below(base, loss, base, loss) && Ordered(Run(base, commercial))
  {
    hide Value, Run, Base, RiskSteps, LoadingSteps, Printable, CommercialSteps, Fits;
    var base, commercial := Base(facts, table), CommercialPath(facts, table);
    BelowBase(facts, facts, table);
    PathNonNegative(facts, table);
    TechnicalIsPrefix(facts, table);
    NonNegativePrefix(LossSteps(facts, table), FullPath(facts, table));
    NonNegativePrefix(commercial, FullPath(facts, table));
    assert [] + LossSteps(facts, table) == LossSteps(facts, table) && [] + commercial == commercial;
    BelowSteps(base, [], base, [], LossSteps(facts, table));
    BelowSteps(base, [], base, [], commercial);
  }

  lemma NonNegativePrefix(steps: seq<Step>, path: seq<Step>)
    requires steps <= path && NonNegativeSteps(path)
    ensures NonNegativeSteps(steps)
  {
    assert forall i :: 0 <= i < |steps| ==> steps[i] == path[i];
  }

  /** What is charged beyond the commercial premium is within a cent of the exact fee and tax. */
  lemma TaxesWithinACent(facts: Facts, table: RateTable)
    requires facts.occupancy in table.occupancyFactors && NonNegativePricing(facts, table)
    requires PricedWithoutLoss(facts, table)
    ensures R.AbsReal(PriceOf(facts, table).taxesMinor as real - ExactTaxes(facts, table)) < 1.0
  {
    hide PricedWithoutLoss, NonNegativePricing, ExactCommercial, ExactTaxes, HalfUpReal, Trail, FullPath, Run;
    hide RealRun, RealBase, Base;
    PricedExactly(facts, table);
    ExactNonNegative(facts, table);
    Nearest(ExactPremium(facts, table));
    Nearest(ExactCommercial(facts, table));
  }

  /** A stage total is within half a cent, and its drift, of the exact amount of its stage. */
  ghost predicate Shows(minor: int, exact: real, k: real) {
    exact >= 0.0 && -(0.5 * PARTS + k * exact) <= (minor as real - exact) * PARTS <= 0.5 * PARTS + k * exact
  }

  lemma ShownNear(x: real, exact: real, k: real)
    requires Close(x, exact, k) && x >= 0.0 && exact >= 0.0
    ensures Shows(HalfUpReal(x), exact, k)
  {
    hide HalfUpReal;
    Nearest(x);
    R.Distribute(HalfUpReal(x) as real - x, exact - x, PARTS);
  }

  lemma StageDrift(facts: Facts, table: RateTable, k: nat)
    requires facts.occupancy in table.occupancyFactors && NonNegativePricing(facts, table)
    requires k <= |FullPath(facts, table)| == |ExactPath(facts, table)| && Drift(k) <= PARTS
    ensures Shows(HalfUp(Run(Base(facts, table), FullPath(facts, table)[..k]).subtotal),
                  RealRun(RealBase(facts, table), ExactPath(facts, table)[..k]).subtotal, Drift(k))
  {
    hide Close, Value, Base, RealBase, FullPath, ExactPath, Run, RealRun, HalfUp, HalfUpReal, Drift, Shows;
    hide NonNegativePricing;
    var path, exact := FullPath(facts, table)[..k], ExactPath(facts, table)[..k];
    SubtotalDrift(facts, table, k);
    NonNegative(Run(Base(facts, table), path).subtotal);
    HalfUpValue(Run(Base(facts, table), path).subtotal);
    ShownNear(Value(Run(Base(facts, table), path).subtotal), RealRun(RealBase(facts, table), exact).subtotal, Drift(k));
  }

  /** `minor` is within a cent, and `k` parts in 10^27 of `total`, of `exact`. */
  ghost predicate WithinACentAnd(minor: int, exact: real, k: real, total: real) {
    R.AbsReal(minor as real - exact) * PARTS <= PARTS + k * total
  }

  lemma ShowsMore(minor: int, exact: real, j: real, k: real)
    requires Shows(minor, exact, j) && j <= k
    ensures Shows(minor, exact, k)
  {
    R.MulMono(j, k, exact);
    Loosened((minor as real - exact) * PARTS, 0.5 * PARTS, j * exact, k * exact);
  }

  lemma Loosened(z: real, half: real, a: real, b: real)
    requires -(half + a) <= z <= half + a && a <= b
    ensures -(half + b) <= z <= half + b
  {
  }

  lemma ShownDifference(p: int, q: int, x: real, y: real, k: real)
    requires Shows(p, x, k) && Shows(q, y, k)
    ensures WithinACentAnd(p - q, x - y, k, x + y)
  {
    var u, v, z := p as real - x, q as real - y, (p - q) as real - (x - y);
    assert z == u - v;
    SumTimes(x, y, k);
    R.Distribute(u, v, PARTS);
    R.AbsTimes(z, PARTS);
    Apart(u * PARTS, v * PARTS, PARTS, k * x, k * y);
    assert z * PARTS == u * PARTS - v * PARTS;
    Concludes(p - q, x - y, k, x + y, k * x + k * y);
  }

  lemma Concludes(minor: int, exact: real, k: real, total: real, product: real)
    requires product == k * total && R.AbsReal(minor as real - exact) * PARTS <= PARTS + product
    ensures WithinACentAnd(minor, exact, k, total)
  {
  }

  lemma SumTimes(x: real, y: real, k: real)
    ensures k * (x + y) == k * x + k * y
  {
  }

  lemma Apart(a: real, b: real, unit: real, c: real, d: real)
    requires -(0.5 * unit + c) <= a <= 0.5 * unit + c && -(0.5 * unit + d) <= b <= 0.5 * unit + d
    ensures R.AbsReal(a - b) <= unit + c + d
  {
  }

  /**
   * Rounding to the context included, the taxes of any non-negative table are within a cent, and the
   * drift of the two totals they are the difference of, of the exact fee and tax.
   */
  lemma TaxesNearExact(facts: Facts, table: RateTable)
    requires facts.occupancy in table.occupancyFactors && NonNegativePricing(facts, table)
    requires Drift(|FullPath(facts, table)|) <= PARTS
    ensures WithinACentAnd(PriceOf(facts, table).taxesMinor, ExactTaxes(facts, table), Drift(|FullPath(facts, table)|),
                           ExactPremium(facts, table) + ExactCommercial(facts, table))
  {
    hide ExactCommercial, ExactTaxes, HalfUp, Trail, FullPath, ExactPath, CommercialPath, ExactCommercialPath, Run;
    hide RealRun;
    hide RealBase, Base, Shows, NonNegativePricing, WithinACentAnd, Drift, LossSteps, TechnicalPath, ExactTechnicalPath;
    var n, m := |FullPath(facts, table)|, |CommercialPath(facts, table)|;
    CommercialClosed(facts, table);
    PremiumClosed(facts, table);
    PathsBeside(facts, table);
    DriftGrows(m, n);
    StageDrift(facts, table, m);
    StageDrift(facts, table, n);
    assert FullPath(facts, table)[..n] == FullPath(facts, table);
    assert ExactPath(facts, table)[..n] == ExactPath(facts, table);
    var p := PriceOf(facts, table);
    ShowsMore(p.commercialPremiumMinor, ExactCommercial(facts, table), Drift(m), Drift(n));
    ShownDifference(p.premiumMinor, p.commercialPremiumMinor, ExactPremium(facts, table), ExactCommercial(facts, table),
                    Drift(n));
  }

  lemma DriftGrows(n: nat, m: nat)
    requires n <= m
    ensures Drift(n) <= Drift(m)
  {
  }

  lemma Nearest(x: real)
    requires x >= 0.0
    ensures -0.5 < HalfUpReal(x) as real - x <= 0.5
  {
  }

  lemma ExactNonNegative(facts: Facts, table: RateTable)
    requires facts.occupancy in table.occupancyFactors && NonNegativePricing(facts, table)
    ensures ExactCommercial(facts, table) >= 0.0 && ExactPremium(facts, table) >= 0.0
  {
    hide ExactCommercial, ExactPremium, ExactPath, ExactCommercialPath, RealRun, RealBase, NonNegativePricing;
    CommercialClosed(facts, table);
    PremiumClosed(facts, table);
    PathNonNegative(facts, table);
    ExactCommercialIsPrefix(facts, table);
    RealBaseNonNegative(facts, table);
    RealRunNonNegative(RealBase(facts, table), ExactCommercialPath(facts, table));
    RealRunNonNegative(RealBase(facts, table), ExactPath(facts, table));
  }

  lemma ExactCommercialIsPrefix(facts: Facts, table: RateTable)
    requires facts.occupancy in table.occupancyFactors && NonNegativeSteps(ExactPath(facts, table))
    ensures NonNegativeSteps(ExactCommercialPath(facts, table))
  {
    hide ExactCommercialPath, TaxSteps;
    NonNegativePrefix(ExactCommercialPath(facts, table), ExactPath(facts, table));
  }

  ghost predicate RealNonNegative(acc: RealAcc) {
    acc.subtotal >= 0.0 && acc.commercial >= 0.0
  }

  lemma RealBaseNonNegative(facts: Facts, table: RateTable)
    requires facts.occupancy in table.occupancyFactors && NonNegativePricing(facts, table)
    ensures RealNonNegative(RealBase(facts, table))
  {
    hide Close, Value, Base;
    BaseNear(facts, table);
  }

  lemma {:induction false} RealRunNonNegative(acc: RealAcc, steps: seq<Step>)
    requires RealNonNegative(acc) && NonNegativeSteps(steps)
    ensures RealNonNegative(RealRun(acc, steps))
  {
    hide Value;
    if steps != [] {
      var before, op := RealRun(acc, steps[..|steps| - 1]), steps[|steps| - 1].op;
      RealRunNonNegative(acc, steps[..|steps| - 1]);
      match op
      case Times(f) => NonNegative(f); R.MulMono(0.0, before.subtotal, Value(f));
      case Plus(a) => NonNegative(a);
      case PlusShare(r) => NonNegative(r); R.MulMono(0.0, before.commercial, Value(r));
    }
  }

  // ----- neutral tables

  /** No loading, fee or tax is positive, as in a table that omits them. */
  predicate Neutral(table: RateTable) {
    && !Less(ZERO, table.expenseLoading) && !Less(ZERO, table.riskMargin) && !Less(ZERO, table.catProvision)
    && !Less(ZERO, table.iptRate) && table.fixedFeesMinor <= 0
  }

  lemma NeutralPath(facts: Facts, table: RateTable)
    requires facts.occupancy in table.occupancyFactors && Neutral(table) && Same(facts.commercialAdjustment, ONE)
    ensures FullPath(facts, table) == LossSteps(facts, table)
    ensures TechnicalPath(facts, table) == LossSteps(facts, table)
            && CommercialPath(facts, table) == LossSteps(facts, table)
  {
    hide Less, Same, LossSteps, Add, LoadingSteps;
    var loadings := Loadings(table);
    assert loadings[..0] == [] && loadings[..3] == loadings;
    NextLoading(loadings, 0);
    NextLoading(loadings, 1);
    NextLoading(loadings, 2);
    NoSteps({});
    assert TechnicalSteps(table) == [];
  }

  /** A neutral table prices at loss cost: no later line, no taxes, one premium in every stage. */
  lemma NeutralIsLossCost(facts: Facts, table: RateTable)
    requires Neutral(table) && Same(facts.commercialAdjustment, ONE) && Price(facts, table).Ok?
    ensures var p := Price(facts, table).value;
            && p.premiumMinor == p.purePremiumMinor == p.technicalPremiumMinor == p.commercialPremiumMinor
            && p.taxesMinor == 0
            && (forall i :: 0 <= i < |p.lineItems| ==> p.lineItems[i].stage == LossCost)
            && (PricedWithoutLoss(facts, table) ==> p.premiumMinor == HalfUpReal(ExactPure(facts, table)))
  {
    hide HalfUp, HalfUpReal, Run, RealRun, Printable, Base, RealBase, Neutral, Same, ExactPure, LossSteps, FullPath;
    hide TechnicalPath, CommercialPath, InBand, PricedWithoutLoss, Trail, ExactTechnical, ExactCommercial, ExactPremium;
    NeutralPath(facts, table);
    StagesOfPath(facts, table);
    TrailStages(Base(facts, table), FullPath(facts, table));
    if PricedWithoutLoss(facts, table) {
      PricedExactly(facts, table);
    }
  }

  // ----- the order of the adjustments, and flags nobody names

  function Without(adjustments: seq<Adjustment>, i: nat): seq<Adjustment>
    requires i < |adjustments|
  {
    adjustments[..i] + adjustments[i + 1..]
  }

  lemma {:induction false} ProductWithout(adjustments: seq<Adjustment>, flags: set<string>, i: nat)
    requires i < |adjustments|
    ensures RiskProduct(adjustments, flags)
            == RiskProduct(Without(adjustments, i), flags) * GatedFactor(adjustments[i], flags)
  {
    hide GatedFactor;
    var n := |adjustments| - 1;
    var init, last := adjustments[..n], adjustments[n];
    if i == n {
      assert Without(adjustments, i) == init;
    } else {
      var rest := Without(adjustments, i);
      assert rest[..n - 1] == Without(init, i) && rest[n - 1] == last && init[i] == adjustments[i];
      ProductWithout(init, flags, i);
      SwapLast(RiskProduct(Without(init, i), flags), GatedFactor(adjustments[i], flags), GatedFactor(last, flags));
    }
  }

  lemma SwapLast(p: real, f: real, g: real)
    ensures (p * f) * g == (p * g) * f
  {
  }

  /** Real products do not see the order of the adjustments. */
  lemma {:induction false} ProductPermutes(a: seq<Adjustment>, b: seq<Adjustment>, flags: set<string>)
    requires multiset(a) == multiset(b)
    ensures RiskProduct(a, flags) == RiskProduct(b, flags)
    decreases |a|
  {
    hide GatedFactor, RiskProduct;
    if a == [] {
      assert |multiset(b)| == 0;
    } else {
      var n := |a| - 1;
      var i := FindSame(a, b);
      assert Without(a, n) == a[..n];
      ProductPermutes(a[..n], Without(b, i), flags);
      ProductWithout(a, flags, n);
      ProductWithout(b, flags, i);
    }
  }

  lemma TakenOut(b: seq<Adjustment>, i: nat)
    requires i < |b|
    ensures multiset(Without(b, i)) == multiset(b) - multiset{b[i]}
  {
    assert b == b[..i] + ([b[i]] + b[i + 1..]);
  }

  /** Where the last element of `a` stands in a permutation of `a`. */
  lemma FindSame(a: seq<Adjustment>, b: seq<Adjustment>) returns (i: nat)
    requires multiset(a) == multiset(b) && a != []
    ensures i < |b| && b[i] == a[|a| - 1]
    ensures multiset(Without(b, i)) == multiset(a[..|a| - 1])
  {
    var n := |a| - 1;
    assert a[n] in multiset(a);
    i :| 0 <= i < |b| && b[i] == a[n];
    TakenOut(a, n);
    TakenOut(b, i);
    assert Without(a, n) == a[..n];
  }

  /** While no step loses anything, permuting a table's adjustments changes the trail but none of the four totals. */
  lemma OrderDoesNotMatter(facts: Facts, table: RateTable, adjustments: seq<Adjustment>)
    requires facts.occupancy in table.occupancyFactors && multiset(adjustments) == multiset(table.adjustments)
    requires PricedWithoutLoss(facts, table) && PricedWithoutLoss(facts, table.(adjustments := adjustments))
    ensures var p, q := PriceOf(facts, table), PriceOf(facts, table.(adjustments := adjustments));
            && p.purePremiumMinor == q.purePremiumMinor && p.technicalPremiumMinor == q.technicalPremiumMinor
            && p.commercialPremiumMinor == q.commercialPremiumMinor && p.premiumMinor == q.premiumMinor
            && p.taxesMinor == q.taxesMinor
  {
    hide PricedWithoutLoss, HalfUp, HalfUpReal, Run, RealRun, Base, RealBase, Trail, FullPath, LossSteps, ExactPath;
    hide TechnicalPath, CommercialPath, RiskProduct, LoadingProduct, Value, ExactBase;
    var other := table.(adjustments := adjustments);
    ProductPermutes(table.adjustments, adjustments, facts.flags);
    SameExact(facts, table, other);
    PricedExactly(facts, table);
    PricedExactly(facts, other);
  }

  lemma SameExact(facts: Facts, table: RateTable, other: RateTable)
    requires facts.occupancy in table.occupancyFactors && other == table.(adjustments := other.adjustments)
    requires RiskProduct(table.adjustments, facts.flags) == RiskProduct(other.adjustments, facts.flags)
    ensures ExactPure(facts, table) == ExactPure(facts, other)
    ensures ExactTechnical(facts, table) == ExactTechnical(facts, other)
    ensures ExactCommercial(facts, table) == ExactCommercial(facts, other)
    ensures ExactPremium(facts, table) == ExactPremium(facts, other)
  {
    hide RiskProduct, LoadingProduct, Value;
  }

  lemma {:induction false} SameGates(adjustments: seq<Adjustment>, flags: set<string>, others: set<string>)
    requires forall i :: 0 <= i < |adjustments| ==>
               (Applies(adjustments[i], flags) <==> Applies(adjustments[i], others))
    ensures RiskSteps(adjustments, flags) == RiskSteps(adjustments, others)
  {
    if adjustments != [] {
      SameGates(adjustments[..|adjustments| - 1], flags, others);
    }
  }

  /** Flags that no adjustment names have no effect at all. */
  lemma UnnamedFlagsIgnored(facts: Facts, table: RateTable, others: set<string>)
    requires forall i :: 0 <= i < |table.adjustments| && table.adjustments[i].appliesWhen.Some? ==>
               var flag := table.adjustments[i].appliesWhen.value; (flag in facts.flags <==> flag in others)
    ensures Price(facts.(flags := others), table) == Price(facts, table)
  {
    hide RiskSteps, LoadingSteps, Run, Printable, HalfUp, Same, Less, Trail;
    SameGates(table.adjustments, facts.flags, others);
  }

  // ----- the two seeded tables

  lemma SeededTablesLoad()
    ensures HighTivLoads(V1_TABLE.adjustments) && HighTivLoads(V2_TABLE.adjustments)
    ensures Neutral(V1_TABLE)
  {
    hide Value;
    SmallValue(110, -2);
  }

  /** On the second table a larger 64-bit insured value always has a price, and never a lower one. */
  lemma V2NeverCheaper(small: int, large: int, occupancy: string, cover: string)
    requires 0 <= small <= large < INT64_LIMIT && occupancy in OCCUPANCIES
    ensures var p, q := Price(FactsOf(small, occupancy, cover), V2_TABLE),
            Price(FactsOf(large, occupancy, cover), V2_TABLE);
            p.Ok? && q.Ok? && p.value.premiumMinor <= q.value.premiumMinor
  {
    hide Price, Flags, NonNegativePricing, HighTivLoads;
    SeededTablesLoad();
    V2Prices(FactsOf(large, occupancy, cover));
    V2NonNegative(FactsOf(small, occupancy, cover));
    LargerTivNeverCheaper(small, large, occupancy, cover, V2_TABLE);
  }
}
