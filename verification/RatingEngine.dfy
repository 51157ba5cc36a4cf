/**
 * The rating engine: staged pricing with a printed trail.
 *
 * A price is specified as a list of steps (loss cost, technical, commercial, taxes) run over a base
 * amount; `Rate` computes it the way the engine does, with a running subtotal and a growing list.
 */
module RatingEngine {
  import opened Wrappers
  import opened Decimals
  import opened DecimalText

  datatype Adjustment = Adjustment(name: string, kind: string, factor: Dec, appliesWhen: Option<string>)

  datatype RateTable = RateTable(
    version: int,
    baseRatePermille: Dec,
    occupancyFactors: map<string, Dec>,
    adjustments: seq<Adjustment>,
    expenseLoading: Dec,
    riskMargin: Dec,
    catProvision: Dec,
    commercialMin: Dec,
    commercialMax: Dec,
    iptRate: Dec,
    fixedFeesMinor: int)

  datatype Facts = Facts(tivEur: int, occupancy: string, flags: set<string>, commercialAdjustment: Dec)

  datatype Stage = LossCost | Technical | Commercial | Taxes

  datatype LineItem = LineItem(title: string, kind: string, value: string, runningSubtotalMinor: int, stage: Stage)

  datatype Breakdown = Breakdown(
    rateTableVersion: int,
    premiumMinor: int,
    currency: string,
    lineItems: seq<LineItem>,
    purePremiumMinor: int,
    technicalPremiumMinor: int,
    commercialPremiumMinor: int,
    taxesMinor: int)

  /** `TooManyDigits` is the decimal library's refusal to quantize past 28 digits. */
  datatype RatingError = UnknownOccupancy | OutsideBand | TooManyDigits

  // ----- the steps of a price

  /** What a step does to the running subtotal; a share is taken of the commercial premium. */
  datatype Op = Times(factor: Dec) | Plus(amount: Dec) | PlusShare(rate: Dec)

  datatype Step = Step(title: string, kind: string, stage: Stage, value: string, op: Op)

  function TimesStep(title: string, kind: string, stage: Stage, factor: Dec): Step {
    Step(title, kind, stage, "×" + Str(factor), Times(factor))
  }

  predicate Applies(adj: Adjustment, flags: set<string>) {
    adj.appliesWhen.None? || adj.appliesWhen.value in flags
  }

  function RiskSteps(adjustments: seq<Adjustment>, flags: set<string>): seq<Step> {
    if adjustments == [] then []
    else
      var last := adjustments[|adjustments| - 1];
      RiskSteps(adjustments[..|adjustments| - 1], flags)
      + if Applies(last, flags) then [TimesStep(last.name, last.kind, LossCost, last.factor)] else []
  }

  function OccupancyStep(facts: Facts, table: RateTable): Step
    requires facts.occupancy in table.occupancyFactors
  {
    TimesStep("occupancy_factor:" + facts.occupancy, "factor", LossCost, table.occupancyFactors[facts.occupancy])
  }

  function LossSteps(facts: Facts, table: RateTable): seq<Step>
    requires facts.occupancy in table.occupancyFactors
  {
    [OccupancyStep(facts, table)] + RiskSteps(table.adjustments, facts.flags)
  }

  function LoadingSteps(loadings: seq<(string, Dec)>): seq<Step> {
    if loadings == [] then []
    else
      var last := loadings[|loadings| - 1];
      LoadingSteps(loadings[..|loadings| - 1])
      + if Less(ZERO, last.1) then [TimesStep(last.0, "loading", Technical, Add(ONE, last.1))] else []
  }

  function Loadings(table: RateTable): seq<(string, Dec)> {
    [("expense_loading", table.expenseLoading), ("risk_margin", table.riskMargin),
        ("cat_provision", table.catProvision)]
  }

  function TechnicalSteps(table: RateTable): seq<Step> {
    LoadingSteps(Loadings(table))
  }

  function CommercialSteps(facts: Facts): seq<Step> {
    var adj := facts.commercialAdjustment;
    if Same(adj, ONE) then []
    else [TimesStep("commercial_adjustment", if Less(adj, ONE) then "discount" else "loading", Commercial, adj)]
  }

  function FeeSteps(table: RateTable): seq<Step> {
    if table.fixedFeesMinor > 0 then
      [Step("policy_fee", "fee", Taxes, "+" + IntStr(table.fixedFeesMinor) + " minor",
          Plus(OfInt(table.fixedFeesMinor)))]
    else []
  }

  function TaxSteps(table: RateTable): seq<Step> {
    FeeSteps(table)
    + if Less(ZERO, table.iptRate) then
        [Step("ipt", "tax", Taxes, "+" + Str(Mul(table.iptRate, HUNDRED)) + "% of commercial premium",
            PlusShare(table.iptRate))]
      else []
  }

  /** The commercial adjustment is neutral or inside the table's authorised band. */
  predicate InBand(facts: Facts, table: RateTable) {
    var adj := facts.commercialAdjustment;
    Same(adj, ONE) || (!Less(adj, table.commercialMin) && !Less(table.commercialMax, adj))
  }

  // ----- running the steps

  /** The running subtotal, and the commercial premium reached before any fee or tax. */
  datatype Acc = Acc(subtotal: Dec, commercial: Dec)

  function BaseAcc(tivEur: int, baseRatePermille: Dec): Acc {
    var s := Mul(DivPow10(baseRatePermille, 3), OfInt(tivEur));
    Acc(s, s)
  }

  function Advance(acc: Acc, op: Op): Acc {
    match op
    case Times(f) => var s := Mul(acc.subtotal, f); Acc(s, s)
    case Plus(a) => Acc(Add(acc.subtotal, a), acc.commercial)
    case PlusShare(r) => Acc(Add(acc.subtotal, Mul(acc.commercial, r)), acc.commercial)
  }

  function Run(acc: Acc, steps: seq<Step>): Acc {
    if steps == [] then acc else Advance(Run(acc, steps[..|steps| - 1]), steps[|steps| - 1].op)
  }

  /** Every subtotal on the way can be shown as a whole number of cents. */
  predicate Printable(acc: Acc, steps: seq<Step>) {
    ToMinor(Run(acc, steps).subtotal).Some? && (steps == [] || Printable(acc, steps[..|steps| - 1]))
  }

  function Item(step: Step, subtotal: Dec): LineItem {
    LineItem(step.title, step.kind, step.value, HalfUp(subtotal), step.stage)
  }

  /** One printed line per step, each showing the subtotal it leaves. */
  function Trail(acc: Acc, steps: seq<Step>): (items: seq<LineItem>)
    ensures |items| == |steps|
  {
    if steps == [] then []
    else Trail(acc, steps[..|steps| - 1]) + [Item(steps[|steps| - 1], Run(acc, steps).subtotal)]
  }

  function BaseItem(table: RateTable, acc: Acc): LineItem {
    LineItem("base_rate", "base", Str(table.baseRatePermille) + "‰ of TIV", HalfUp(acc.subtotal), LossCost)
  }

  // ----- the price

  function TechnicalPath(facts: Facts, table: RateTable): seq<Step>
    requires facts.occupancy in table.occupancyFactors
  {
    LossSteps(facts, table) + TechnicalSteps(table)
  }

  function CommercialPath(facts: Facts, table: RateTable): seq<Step>
    requires facts.occupancy in table.occupancyFactors
  {
    TechnicalPath(facts, table) + CommercialSteps(facts)
  }

  function FullPath(facts: Facts, table: RateTable): seq<Step>
    requires facts.occupancy in table.occupancyFactors
  {
    CommercialPath(facts, table) + TaxSteps(table)
  }

  function Base(facts: Facts, table: RateTable): Acc {
    BaseAcc(facts.tivEur, table.baseRatePermille)
  }

  function PriceOf(facts: Facts, table: RateTable): Breakdown
    requires facts.occupancy in table.occupancyFactors
  {
    var base := Base(facts, table);
    var commercial := HalfUp(Run(base, CommercialPath(facts, table)).subtotal);
    var premium := HalfUp(Run(base, FullPath(facts, table)).subtotal);
    Breakdown(
      table.version, premium, "EUR",
      [BaseItem(table, base)] + Trail(base, FullPath(facts, table)),
      HalfUp(Run(base, LossSteps(facts, table)).subtotal),
      HalfUp(Run(base, TechnicalPath(facts, table)).subtotal),
      commercial, premium - commercial)
  }

  /** The price of a risk, or the first reason there is none. */
  function Price(facts: Facts, table: RateTable): Result<Breakdown, RatingError> {
    if facts.occupancy !in table.occupancyFactors then Err(UnknownOccupancy)
    else if !Printable(Base(facts, table), TechnicalPath(facts, table)) then Err(TooManyDigits)
    else if !InBand(facts, table) then Err(OutsideBand)
    else if !Printable(Base(facts, table), FullPath(facts, table)) then Err(TooManyDigits)
    else Ok(PriceOf(facts, table))
  }

  // ----- lists of steps, one step at a time

  lemma RunStep(acc: Acc, steps: seq<Step>, step: Step)
    ensures Run(acc, steps + [step]) == Advance(Run(acc, steps), step.op)
    ensures Trail(acc, steps + [step]) == Trail(acc, steps) + [Item(step, Run(acc, steps + [step]).subtotal)]
    ensures Printable(acc, steps + [step]) <==>
            Printable(acc, steps) && ToMinor(Run(acc, steps + [step]).subtotal).Some?
  {
    assert (steps + [step])[..|steps|] == steps;
  }

  lemma {:induction false} PrintablePrefix(acc: Acc, steps: seq<Step>, path: seq<Step>)
    requires steps <= path && Printable(acc, path)
    ensures Printable(acc, steps)
  {
    if steps < path {
      PrintablePrefix(acc, steps, path[..|path| - 1]);
    } else {
      assert steps == path;
    }
  }

  lemma {:induction false} RunSplit(acc: Acc, steps: seq<Step>, more: seq<Step>)
    ensures Run(acc, steps + more) == Run(Run(acc, steps), more)
  {
    if more == [] {
      assert steps + more == steps;
    } else {
      var init := more[..|more| - 1];
      assert (steps + more)[..|steps + more| - 1] == steps + init;
      RunSplit(acc, steps, init);
    }
  }

  lemma {:induction false} RiskStepsPrefix(adjustments: seq<Adjustment>, flags: set<string>, n: nat)
    requires n <= |adjustments|
    ensures RiskSteps(adjustments[..n], flags) <= RiskSteps(adjustments, flags)
  {
    if n < |adjustments| {
      var init := adjustments[..|adjustments| - 1];
      assert init[..n] == adjustments[..n];
      RiskStepsPrefix(init, flags, n);
    } else {
      assert adjustments[..n] == adjustments;
    }
  }

  lemma {:induction false} LoadingStepsPrefix(loadings: seq<(string, Dec)>, n: nat)
    requires n <= |loadings|
    ensures LoadingSteps(loadings[..n]) <= LoadingSteps(loadings)
  {
    if n < |loadings| {
      var init := loadings[..|loadings| - 1];
      assert init[..n] == loadings[..n];
      LoadingStepsPrefix(init, n);
    } else {
      assert loadings[..n] == loadings;
    }
  }

  // ----- the engine

  function Minor(amount: Dec): (r: Result<int, RatingError>)
    ensures r.Ok? <==> ToMinor(amount).Some?
    ensures r == Ok(HalfUp(amount)) || r == Err(TooManyDigits)
  {
    match ToMinor(amount)
    case Some(n) => Ok(n)
    case None => Err(TooManyDigits)
  }

  lemma NextRisk(adjustments: seq<Adjustment>, flags: set<string>, i: nat)
    requires i < |adjustments|
    ensures RiskSteps(adjustments[..i + 1], flags) ==
            RiskSteps(adjustments[..i], flags) + RiskSteps([adjustments[i]], flags)
    ensures RiskSteps([adjustments[i]], flags) ==
            if Applies(adjustments[i], flags) then
              [TimesStep(adjustments[i].name, adjustments[i].kind, LossCost, adjustments[i].factor)]
            else []
  {
    assert adjustments[..i + 1][..i] == adjustments[..i];
    assert [adjustments[i]][..0] == [];
  }

  lemma NextLoading(loadings: seq<(string, Dec)>, i: nat)
    requires i < |loadings|
    ensures LoadingSteps(loadings[..i + 1]) ==
            LoadingSteps(loadings[..i])
            + if Less(ZERO, loadings[i].1) then
                [TimesStep(loadings[i].0, "loading", Technical, Add(ONE, loadings[i].1))]
              else []
  {
    assert loadings[..i + 1][..i] == loadings[..i];
  }

  /** The engine has taken the steps `done`: its subtotal and its printed lines are those of that path. */
  ghost predicate Reached(table: RateTable, base: Acc, done: seq<Step>, acc: Acc, items: seq<LineItem>) {
    && Run(base, done) == acc
    && Printable(base, done)
    && items == [BaseItem(table, base)] + Trail(base, done)
  }

  lemma Started(table: RateTable, base: Acc, path: seq<Step>)
    ensures Minor(base.subtotal).Ok? ==> Reached(table, base, [], base, [BaseItem(table, base)])
    ensures Minor(base.subtotal).Err? ==> !Printable(base, path)
  {
    if Printable(base, path) {
      PrintablePrefix(base, [], path);
    }
  }

  /** One more step of a path; a subtotal that cannot be shown makes the whole path unprintable. */
  lemma Taken(table: RateTable, base: Acc, done: seq<Step>, acc: Acc, items: seq<LineItem>, step: Step, path: seq<Step>)
    requires Reached(table, base, done, acc, items) && done + [step] <= path
    ensures var next := Advance(acc, step.op);
            && (Minor(next.subtotal).Ok? ==>
                  Reached(table, base, done + [step], next, items + [Item(step, next.subtotal)]))
            && (Minor(next.subtotal).Err? ==> !Printable(base, path))
  {
    RunStep(base, done, step);
    if Printable(base, path) {
      PrintablePrefix(base, done + [step], path);
    }
  }

  lemma ReachedMinor(table: RateTable, base: Acc, done: seq<Step>, acc: Acc, items: seq<LineItem>)
    requires Reached(table, base, done, acc, items)
    ensures Minor(acc.subtotal) == Ok(HalfUp(Run(base, done).subtotal)) && Printable(base, done)
    ensures acc == Run(base, done) && items == [BaseItem(table, base)] + Trail(base, done)
  {
  }

  lemma NoSteps(flags: set<string>)
    ensures RiskSteps([], flags) == [] && LoadingSteps([]) == []
  {
  }

  lemma LossPath(facts: Facts, table: RateTable, n: nat)
    requires facts.occupancy in table.occupancyFactors && n <= |table.adjustments|
    ensures [OccupancyStep(facts, table)] + RiskSteps(table.adjustments[..n], facts.flags) <= TechnicalPath(facts,
            table)
  {
    RiskStepsPrefix(table.adjustments, facts.flags, n);
  }

  /** The loss-cost stage: base rate, occupancy factor and the gated risk adjustments. */
  method RateLossCost(facts: Facts, table: RateTable) returns (r: Result<(Dec, seq<LineItem>), RatingError>)
    requires facts.occupancy in table.occupancyFactors
    ensures r.Err? ==> r.error == TooManyDigits && !Printable(Base(facts, table), TechnicalPath(facts, table))
    ensures r.Ok? ==>
              Reached(table, Base(facts, table), LossSteps(facts, table), Acc(r.value.0, r.value.0), r.value.1)
  {
    hide Run, Printable, Trail, RiskSteps, Str, Mul, DivPow10, HalfUp, ToMinor, Reached, Minor, TechnicalPath;
    LossPath(facts, table, 0);
    var factor := table.occupancyFactors[facts.occupancy];
    ghost var base, technical := Base(facts, table), TechnicalPath(facts, table);
    NoSteps(facts.flags);
    var subtotal := Mul(DivPow10(table.baseRatePermille, 3), OfInt(facts.tivEur));
    Started(table, base, technical);
    var minor :- Minor(subtotal);
    var items := [LineItem("base_rate", "base", Str(table.baseRatePermille) + "‰ of TIV", minor, LossCost)];

    ghost var step := OccupancyStep(facts, table);
    assert [] + [step] == [step] == [step] + [];
    Taken(table, base, [], base, items, step, technical);
    subtotal := Mul(subtotal, factor);
    minor :- Minor(subtotal);
    items := items + [LineItem("occupancy_factor:" + facts.occupancy, "factor", "×" + Str(factor), minor, LossCost)];
    ghost var done := [step];

    assert table.adjustments[..0] == [];
    for i := 0 to |table.adjustments|
      invariant done == [OccupancyStep(facts, table)] + RiskSteps(table.adjustments[..i], facts.flags)
      invariant Reached(table, base, done, Acc(subtotal, subtotal), items)
    {
      var adj := table.adjustments[i];
      LossPath(facts, table, i + 1);
      NextRisk(table.adjustments, facts.flags, i);
      if adj.appliesWhen.Some? && adj.appliesWhen.value !in facts.flags {
        continue;
      }
      step := TimesStep(adj.name, adj.kind, LossCost, adj.factor);
      Taken(table, base, done, Acc(subtotal, subtotal), items, step, technical);
      subtotal := Mul(subtotal, adj.factor);
      minor :- Minor(subtotal);
      items := items + [LineItem(adj.name, adj.kind, "×" + Str(adj.factor), minor, LossCost)];
      done := done + [step];
    }
    assert table.adjustments[..|table.adjustments|] == table.adjustments;
    r := Ok((subtotal, items));
  }

  /** The technical stage: expense loading, risk margin and catastrophe provision, where they are positive. */
  method RateTechnical(facts: Facts, table: RateTable, pure: Dec, trail: seq<LineItem>)
    returns (r: Result<(Dec, seq<LineItem>), RatingError>)
    requires facts.occupancy in table.occupancyFactors
    requires Reached(table, Base(facts, table), LossSteps(facts, table), Acc(pure, pure), trail)
    ensures r.Err? ==> r.error == TooManyDigits && !Printable(Base(facts, table), TechnicalPath(facts, table))
    ensures r.Ok? ==>
              Reached(table, Base(facts, table), TechnicalPath(facts, table), Acc(r.value.0, r.value.0), r.value.1)
  {
    hide Run, Printable, Trail, RiskSteps, LoadingSteps, LossSteps, Str, Mul, Add, Less, HalfUp, ToMinor, Reached;
    hide Minor;
    var subtotal, items := pure, trail;
    ghost var base, done := Base(facts, table), LossSteps(facts, table);
    NoSteps(facts.flags);
    var loadings := Loadings(table);
    assert loadings[..0] == [];
    for i := 0 to |loadings|
      invariant done == LossSteps(facts, table) + LoadingSteps(loadings[..i])
      invariant Reached(table, base, done, Acc(subtotal, subtotal), items)
    {
      var (name, pct) := loadings[i];
      LoadingStepsPrefix(loadings, i + 1);
      NextLoading(loadings, i);
      if Less(ZERO, pct) {
        ghost var step := TimesStep(name, "loading", Technical, Add(ONE, pct));
        Taken(table, base, done, Acc(subtotal, subtotal), items, step, TechnicalPath(facts, table));
        subtotal := Mul(subtotal, Add(ONE, pct));
        var minor :- Minor(subtotal);
        items := items + [LineItem(name, "loading", "×" + Str(Add(ONE, pct)), minor, Technical)];
        done := done + [step];
      }
    }
    assert loadings[..|loadings|] == loadings;
    r := Ok((subtotal, items));
  }

  /** The commercial stage: the underwriter's adjustment, refused outside the authorised band. */
  method RateCommercial(facts: Facts, table: RateTable, technical: Dec, trail: seq<LineItem>)
    returns (r: Result<(Dec, seq<LineItem>), RatingError>)
    requires facts.occupancy in table.occupancyFactors
    requires Reached(table, Base(facts, table), TechnicalPath(facts, table), Acc(technical, technical), trail)
    ensures !InBand(facts, table) ==> r == Err(OutsideBand)
    ensures InBand(facts, table) && r.Err? ==>
              r.error == TooManyDigits && !Printable(Base(facts, table), FullPath(facts, table))
    ensures r.Ok? ==>
              Reached(table, Base(facts, table), CommercialPath(facts, table), Acc(r.value.0, r.value.0), r.value.1)
  {
    hide Run, Printable, Trail, TechnicalPath, TaxSteps, Str, Mul, Less, HalfUp, ToMinor, Same, Reached, Minor, Base;
    var cadj := facts.commercialAdjustment;
    if Same(cadj, ONE) {
      assert CommercialPath(facts, table) == TechnicalPath(facts, table);
      return Ok((technical, trail));
    }
    if Less(cadj, table.commercialMin) || Less(table.commercialMax, cadj) {
      return Err(OutsideBand);
    }
    var kind := if Less(cadj, ONE) then "discount" else "loading";
    ghost var step := TimesStep("commercial_adjustment", kind, Commercial, cadj);
    Taken(table, Base(facts, table), TechnicalPath(facts, table), Acc(technical, technical), trail, step,
        FullPath(facts, table));
    var subtotal := Mul(technical, cadj);
    var minor :- Minor(subtotal);
    r := Ok((subtotal, trail + [LineItem("commercial_adjustment", kind, "×" + Str(cadj), minor, Commercial)]));
  }

  /** The tax stage: the policy fee, then premium tax on the commercial premium before the fee. */
  method RateTaxes(facts: Facts, table: RateTable, commercial: Dec, trail: seq<LineItem>)
    returns (r: Result<(Dec, seq<LineItem>), RatingError>)
    requires facts.occupancy in table.occupancyFactors
    requires Reached(table, Base(facts, table), CommercialPath(facts, table), Acc(commercial, commercial), trail)
    ensures r.Err? ==> r.error == TooManyDigits && !Printable(Base(facts, table), FullPath(facts, table))
    ensures r.Ok? ==>
              Reached(table, Base(facts, table), FullPath(facts, table), Acc(r.value.0, commercial), r.value.1)
  {
    hide Run, Printable, Trail, CommercialPath, Str, Mul, Add, Less, HalfUp, ToMinor, IntStr, Reached, Minor, Base;
    var subtotal, items := commercial, trail;
    ghost var base, done, full := Base(facts, table), CommercialPath(facts, table), FullPath(facts, table);
    if table.fixedFeesMinor > 0 {
      ghost var step := FeeSteps(table)[0];
      Taken(table, base, done, Acc(subtotal, commercial), items, step, full);
      subtotal := Add(subtotal, OfInt(table.fixedFeesMinor));
      var minor :- Minor(subtotal);
      items := items + [LineItem("policy_fee", "fee", "+" + IntStr(table.fixedFeesMinor) + " minor", minor, Taxes)];
      done := done + [step];
    }
    if Less(ZERO, table.iptRate) {
      var ipt := Mul(commercial, table.iptRate);
      ghost var step := TaxSteps(table)[|TaxSteps(table)| - 1];
      Taken(table, base, done, Acc(subtotal, commercial), items, step, full);
      subtotal := Add(subtotal, ipt);
      var minor :- Minor(subtotal);
      items := items + [
        LineItem("ipt", "tax", "+" + Str(Mul(table.iptRate, HUNDRED)) + "% of commercial premium", minor, Taxes)];
      done := done + [step];
    }
    assert done == full;
    r := Ok((subtotal, items));
  }

  /**
   * `rate`: the staged price of a risk, with its printed trail. Each stage ends on a subtotal its last
   * line has already shown, so quantizing it again for the stage total cannot be refused.
   */
  method Rate(facts: Facts, table: RateTable) returns (r: Result<Breakdown, RatingError>)
    ensures r == Price(facts, table)
  {
    hide Run, Printable, Trail, LossSteps, TechnicalPath, CommercialPath, FullPath, HalfUp, ToMinor, Reached, Minor;
    hide Base;
    if facts.occupancy !in table.occupancyFactors {
      return Err(UnknownOccupancy);
    }
    ghost var base := Base(facts, table);
    var lossCost :- RateLossCost(facts, table);
    ReachedMinor(table, base, LossSteps(facts, table), Acc(lossCost.0, lossCost.0), lossCost.1);
    var purePremium := HalfUp(lossCost.0);

    var technical :- RateTechnical(facts, table, lossCost.0, lossCost.1);
    ReachedMinor(table, base, TechnicalPath(facts, table), Acc(technical.0, technical.0), technical.1);
    var technicalPremium := HalfUp(technical.0);

    var commercial :- RateCommercial(facts, table, technical.0, technical.1);
    ReachedMinor(table, base, CommercialPath(facts, table), Acc(commercial.0, commercial.0), commercial.1);
    var commercialPremium := HalfUp(commercial.0);

    var taxed :- RateTaxes(facts, table, commercial.0, commercial.1);
    ReachedMinor(table, base, FullPath(facts, table), Acc(taxed.0, commercial.0), taxed.1);
    var premium := HalfUp(taxed.0);
    r := Ok(Breakdown(
      table.version, premium, "EUR", taxed.1,
      purePremium, technicalPremium, commercialPremium, premium - commercialPremium));
  }
}
