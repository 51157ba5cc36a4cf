/**
 * A larger insured value never lowers a price: not across the high-value flag, not in any stage, and
 * not through context rounding.
 */
module RatingMonotone {
  import opened Wrappers
  import opened Numerals
  import opened Decimals
  import opened DecimalValue
  import opened RatingEngine
  import opened RatingTables
  import opened RatingValue
  import opened RatingDrift
  import opened Text
  import R = Reals

  ghost predicate Ordered(acc: Acc) {
    && acc.subtotal.coeff >= 0 && acc.commercial.coeff >= 0
    && Fits(acc.subtotal) && Fits(acc.commercial)
    && Value(acc.commercial) <= Value(acc.subtotal)
  }

  ghost predicate AtMost(a: Acc, b: Acc) {
    Ordered(a) && Ordered(b) && Value(a.subtotal) <= Value(b.subtotal) && Value(a.commercial) <= Value(b.commercial)
  }

  lemma MulMonotone(a: Dec, b: Dec, f: Dec)
    requires a.coeff >= 0 && f.coeff >= 0 && Value(a) <= Value(b)
    ensures Mul(a, f).coeff >= 0 && Value(Mul(a, f)) <= Value(Mul(b, f)) && Fits(Mul(a, f))
  {
    hide Value, Scale, Fix, LIMIT;
    NonNegative(f);
    RawMulValue(a, f);
    RawMulValue(b, f);
    R.MulMono(Value(a), Value(b), Value(f));
    assert RawMul(a, f).coeff >= 0 by {
      assert a.coeff * f.coeff >= 0;
    }
    FixNonNegative(RawMul(a, f));
    FixMono(RawMul(a, f), RawMul(b, f));
    FixValue(RawMul(a, f));
  }

  lemma AddMonotone(a: Dec, b: Dec, x: Dec, y: Dec)
    requires a.coeff >= 0 && x.coeff >= 0 && Value(a) <= Value(b) && Value(x) <= Value(y)
    ensures Add(a, x).coeff >= 0 && Value(Add(a, x)) <= Value(Add(b, y)) && Fits(Add(a, x))
    ensures Fits(a) ==> Value(a) <= Value(Add(a, x))
  {
    hide Value, Scale, Fix, LIMIT, RawAdd;
    NonNegative(a);
    NonNegative(x);
    RawAddValue(a, x);
    RawAddValue(b, y);
    NonNegative(RawAdd(a, x));
    FixNonNegative(RawAdd(a, x));
    FixMono(RawAdd(a, x), RawAdd(b, y));
    FixValue(RawAdd(a, x));
    if Fits(a) {
      FixMono(a, RawAdd(a, x));
      FixExact(a);
    }
  }

  /** A factor of at least one never lowers an amount that needs no rounding. */
  lemma LoadingRaises(a: Dec, f: Dec)
    requires a.coeff >= 0 && f.coeff >= 0 && Fits(a) && Value(f) >= 1.0
    ensures Value(a) <= Value(Mul(a, f))
  {
    hide Value, Scale, Fix, LIMIT;
    NonNegative(a);
    RawMulValue(a, f);
    R.MulMono(1.0, Value(f), Value(a));
    FixMono(a, RawMul(a, f));
    FixExact(a);
  }

  lemma AdvanceMonotone(a: Acc, b: Acc, op: Op)
    requires AtMost(a, b) && NonNegativeOp(op)
    ensures AtMost(Advance(a, op), Advance(b, op))
  {
    hide Value, Mul, Add, Fits;
    match op
    case Times(f) =>
      MulMonotone(a.subtotal, b.subtotal, f);
      MulMonotone(b.subtotal, b.subtotal, f);
    case Plus(x) =>
      AddMonotone(a.subtotal, b.subtotal, x, x);
      AddMonotone(b.subtotal, b.subtotal, x, x);
    case PlusShare(r) =>
      MulMonotone(a.commercial, b.commercial, r);
      MulMonotone(b.commercial, b.commercial, r);
      AddMonotone(a.subtotal, b.subtotal, Mul(a.commercial, r), Mul(b.commercial, r));
      AddMonotone(b.subtotal, b.subtotal, Mul(b.commercial, r), Mul(b.commercial, r));
  }

  lemma AdvanceLoaded(a: Acc, b: Acc, f: Dec)
    requires AtMost(a, b) && f.coeff >= 0 && Value(f) >= 1.0
    ensures AtMost(a, Advance(b, Times(f)))
  {
    hide Value, Mul, Add, Fits;
    MulMonotone(b.subtotal, b.subtotal, f);
    LoadingRaises(b.subtotal, f);
  }

  /** The first path stays at or below the second, and can be printed whenever the second can. */
  ghost predicate Below(a: Acc, p: seq<Step>, b: Acc, q: seq<Step>) {
    AtMost(Run(a, p), Run(b, q)) && (Printable(b, q) ==> Printable(a, p))
  }

  lemma MinorMonotone(a: Dec, b: Dec)
    requires a.coeff >= 0 && Value(a) <= Value(b) && ToMinor(b).Some?
    ensures ToMinor(a).Some?
  {
    hide Value;
    HalfUpMono(a, b);
    HalfUpValue(a);
    NonNegative(a);
    FloorNonNegative(Value(a));
  }

  lemma FloorNonNegative(x: real)
    requires x >= 0.0
    ensures HalfUpReal(x) >= 0
  {
  }

  lemma BelowStep(a: Acc, p: seq<Step>, b: Acc, q: seq<Step>, step: Step)
    requires Below(a, p, b, q) && NonNegativeOp(step.op)
    ensures Below(a, p + [step], b, q + [step])
  {
    hide Value, Run, Printable, ToMinor, Advance, NonNegativeOp;
    RunStep(a, p, step);
    RunStep(b, q, step);
    AdvanceMonotone(Run(a, p), Run(b, q), step.op);
    if Printable(b, q + [step]) {
      MinorMonotone(Run(a, p + [step]).subtotal, Run(b, q + [step]).subtotal);
    }
  }

  lemma BelowLoaded(a: Acc, p: seq<Step>, b: Acc, q: seq<Step>, step: Step)
    requires Below(a, p, b, q) && step.op.Times? && step.op.factor.coeff >= 0 && Value(step.op.factor) >= 1.0
    ensures Below(a, p, b, q + [step])
  {
    hide Value, Run, Printable, ToMinor, Advance;
    RunStep(b, q, step);
    AdvanceLoaded(Run(a, p), Run(b, q), step.op.factor);
  }

  lemma {:induction false} BelowSteps(a: Acc, p: seq<Step>, b: Acc, q: seq<Step>, steps: seq<Step>)
    requires Below(a, p, b, q) && NonNegativeSteps(steps)
    ensures Below(a, p + steps, b, q + steps)
  {
    hide Below, NonNegativeOp;
    if steps == [] {
      assert p + steps == p && q + steps == q;
    } else {
      var init, last := steps[..|steps| - 1], steps[|steps| - 1];
      BelowSteps(a, p, b, q, init);
      BelowStep(a, p + init, b, q + init, last);
      assert p + steps == (p + init) + [last] && q + steps == (q + init) + [last];
    }
  }

  /** Every adjustment gated by the high-value flag is a loading. */
  ghost predicate HighTivLoads(adjustments: seq<Adjustment>) {
    forall i :: 0 <= i < |adjustments| && adjustments[i].appliesWhen == Some("high_tiv") ==>
                  Value(adjustments[i].factor) >= 1.0
  }

  /** `more` has the flags of `flags`, and possibly the high-value one. */
  predicate OnlyHigher(flags: set<string>, more: set<string>) {
    flags <= more <= flags + {"high_tiv"}
  }

  lemma {:induction false} BelowRisk(a: Acc, p: seq<Step>, b: Acc, q: seq<Step>, adjustments: seq<Adjustment>,
                                     flags: set<string>, more: set<string>)
    requires Below(a, p, b, q) && OnlyHigher(flags, more) && HighTivLoads(adjustments)
    requires forall i :: 0 <= i < |adjustments| ==> adjustments[i].factor.coeff >= 0
    ensures Below(a, p + RiskSteps(adjustments, flags), b, q + RiskSteps(adjustments, more))
  {
    hide Below, Value;
    if adjustments == [] {
      assert p + [] == p && q + [] == q;
    } else {
      var init, last := adjustments[..|adjustments| - 1], adjustments[|adjustments| - 1];
      BelowRisk(a, p, b, q, init, flags, more);
      var p', q' := p + RiskSteps(init, flags), q + RiskSteps(init, more);
      var step := TimesStep(last.name, last.kind, LossCost, last.factor);
      if Applies(last, flags) {
        BelowStep(a, p', b, q', step);
        assert p + RiskSteps(adjustments, flags) == p' + [step] && q + RiskSteps(adjustments, more) == q' + [step];
      } else if Applies(last, more) {
        BelowLoaded(a, p', b, q', step);
        assert p + RiskSteps(adjustments, flags) == p' && q + RiskSteps(adjustments, more) == q' + [step];
      } else {
        assert p + RiskSteps(adjustments, flags) == p' && q + RiskSteps(adjustments, more) == q';
      }
    }
  }

  lemma BelowBase(small: Facts, large: Facts, table: RateTable)
    requires 0 <= small.tivEur <= large.tivEur && table.baseRatePermille.coeff >= 0
    ensures Below(Base(small, table), [], Base(large, table), [])
  {
    hide Value, Scale, Fix, LIMIT, Mul, RawDivPow10, ToMinor;
    var raw, rate, x, y := RawDivPow10(table.baseRatePermille, 3), DivPow10(table.baseRatePermille, 3),
        OfInt(small.tivEur), OfInt(large.tivEur);
    RawDivValue(table.baseRatePermille, 3);
    Pow10Values();
    NonNegative(table.baseRatePermille);
    NonNegative(raw);
    FixNonNegative(raw);
    IntValue(small.tivEur);
    IntValue(large.tivEur);
    MulMonotone(x, y, rate);
    MulMonotone(y, y, rate);
    MulCommutes(x, rate);
    MulCommutes(y, rate);
    var a, b := Base(small, table).subtotal, Base(large, table).subtotal;
    if ToMinor(b).Some? {
      MinorMonotone(a, b);
    }
  }

  lemma MulCommutes(a: Dec, b: Dec)
    ensures Mul(a, b) == Mul(b, a)
  {
    hide Fix;
    assert RawMul(a, b) == RawMul(b, a);
  }

  /** Two pricings of the same risk, the second for at least the same insured value. */
  predicate OnlyTivGrows(small: Facts, large: Facts) {
    && 0 <= small.tivEur <= large.tivEur
    && small.occupancy == large.occupancy
    && OnlyHigher(small.flags, large.flags)
    && small.commercialAdjustment == large.commercialAdjustment
  }

  lemma BelowPaths(small: Facts, large: Facts, table: RateTable)
    requires small.occupancy in table.occupancyFactors && OnlyTivGrows(small, large)
    requires NonNegativePricing(small, table) && HighTivLoads(table.adjustments)
    ensures var a, b := Base(small, table), Base(large, table);
            && Below(a, LossSteps(small, table), b, LossSteps(large, table))
            && Below(a, TechnicalPath(small, table), b, TechnicalPath(large, table))
            && Below(a, CommercialPath(small, table), b, CommercialPath(large, table))
            && Below(a, FullPath(small, table), b, FullPath(large, table))
  {
    hide Below, Base, RiskSteps, LoadingSteps, TaxSteps, Less, Same, HighTivLoads, Value, OnlyHigher;
    var a, b, occupancy := Base(small, table), Base(large, table), OccupancyStep(small, table);
    BelowBase(small, large, table);
    BelowStep(a, [], b, [], occupancy);
    assert [] + [occupancy] == [occupancy];
    BelowRisk(a, [occupancy], b, [occupancy], table.adjustments, small.flags, large.flags);
    PathNonNegative(small, table);
    LoadingNonNegative(Loadings(table));
    BelowSteps(a, LossSteps(small, table), b, LossSteps(large, table), TechnicalSteps(table));
    BelowSteps(a, TechnicalPath(small, table), b, TechnicalPath(large, table), CommercialSteps(small));
    TaxNonNegative(small, table);
    BelowSteps(a, CommercialPath(small, table), b, CommercialPath(large, table), TaxSteps(table));
  }

  lemma TaxNonNegative(facts: Facts, table: RateTable)
    requires facts.occupancy in table.occupancyFactors && NonNegativePricing(facts, table)
    ensures NonNegativeSteps(TaxSteps(table))
  {
    hide Less, Mul;
    PositiveLoading(table.iptRate);
  }

  lemma StageBelow(a: Acc, p: seq<Step>, b: Acc, q: seq<Step>)
    requires Below(a, p, b, q)
    ensures HalfUp(Run(a, p).subtotal) <= HalfUp(Run(b, q).subtotal)
    ensures Printable(b, q) ==> Printable(a, p)
  {
    hide Value, HalfUp, Run, Printable;
    HalfUpMono(Run(a, p).subtotal, Run(b, q).subtotal);
  }

  /** When the larger insured value has a price, the smaller one has one too, and no stage of it is dearer. */
  lemma PriceMonotone(small: Facts, large: Facts, table: RateTable)
    requires OnlyTivGrows(small, large)
    requires small.occupancy in table.occupancyFactors ==> NonNegativePricing(small, table)
    requires HighTivLoads(table.adjustments)
    requires Price(large, table).Ok?
    ensures Price(small, table).Ok?
    ensures var p, q := Price(small, table).value, Price(large, table).value;
            && p.premiumMinor <= q.premiumMinor
            && p.commercialPremiumMinor <= q.commercialPremiumMinor
            && p.technicalPremiumMinor <= q.technicalPremiumMinor
            && p.purePremiumMinor <= q.purePremiumMinor
  {
    hide Below, Base, LossSteps, TechnicalPath, CommercialPath, FullPath, Printable, Run, HalfUp, HighTivLoads;
    hide NonNegativePricing, Trail, BaseItem, Same, Less;
    var a, b := Base(small, table), Base(large, table);
    BelowPaths(small, large, table);
    StageBelow(a, LossSteps(small, table), b, LossSteps(large, table));
    StageBelow(a, TechnicalPath(small, table), b, TechnicalPath(large, table));
    StageBelow(a, CommercialPath(small, table), b, CommercialPath(large, table));
    StageBelow(a, FullPath(small, table), b, FullPath(large, table));
  }

  lemma FlagsGrow(small: int, large: int, cover: string)
    requires small <= large
    ensures OnlyHigher(Flags(small, cover), Flags(large, cover))
  {
    hide Contains, Lower;
  }

  /**
   * From the submission to the premium: the same occupancy and cover with a larger insured value is never
   * cheaper, in any stage, on either side of the high-value threshold.
   */
  lemma LargerTivNeverCheaper(small: int, large: int, occupancy: string, cover: string, table: RateTable)
    requires 0 <= small <= large && HighTivLoads(table.adjustments)
    requires occupancy in table.occupancyFactors ==> NonNegativePricing(FactsOf(small, occupancy, cover), table)
    requires Price(FactsOf(large, occupancy, cover), table).Ok?
    ensures Price(FactsOf(small, occupancy, cover), table).Ok?
    ensures var p := Price(FactsOf(small, occupancy, cover), table).value;
            var q := Price(FactsOf(large, occupancy, cover), table).value;
            && p.premiumMinor <= q.premiumMinor
            && p.commercialPremiumMinor <= q.commercialPremiumMinor
            && p.technicalPremiumMinor <= q.technicalPremiumMinor
            && p.purePremiumMinor <= q.purePremiumMinor
  {
    hide Price, Flags, HighTivLoads, NonNegativePricing;
    FlagsGrow(small, large, cover);
    PriceMonotone(FactsOf(small, occupancy, cover), FactsOf(large, occupancy, cover), table);
  }
}
