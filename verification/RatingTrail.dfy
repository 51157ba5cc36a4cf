/**
 * The printed trail is enough: reading the text of its lines, together with the insured value, rebuilds
 * the unrounded premium, whether or not the context rounded on the way. Only a tax rate that itself has
 * more digits than the context is not printed in full.
 */
module RatingTrail {
  import opened Wrappers
  import opened Numerals
  import opened Decimals
  import opened DecimalText
  import opened DecimalValue
  import opened RatingEngine
  import opened RatingValue

  const BASE_SUFFIX := "‰ of TIV"
  const FEE_SUFFIX := " minor"
  const TAX_SUFFIX := "% of commercial premium"

  /** The text before a given ending. */
  function Before(s: string, ending: string): Option<string> {
    if |ending| <= |s| && s[|s| - |ending|..] == ending then Some(s[..|s| - |ending|]) else None
  }

  /** What a printed line says was done to the subtotal. */
  function ReadOp(value: string): Option<Op> {
    if value == "" then None
    else if value[0] == '×' then
      var f := Parse(value[1..]);
      if f.Some? then Some(Times(f.value)) else None
    else if value[0] == '+' then
      var fee, tax := Before(value[1..], FEE_SUFFIX), Before(value[1..], TAX_SUFFIX);
      if fee.Some? then
        var n := ParseInt(fee.value);
        if n.Some? then Some(Plus(OfInt(n.value))) else None
      else if tax.Some? then
        var p := Parse(tax.value);
        if p.Some? then Some(PlusShare(DivPow10(p.value, 2))) else None
      else None
    else None
  }

  function ReadBase(value: string, tivEur: int): Option<Acc> {
    var text := Before(value, BASE_SUFFIX);
    if text.None? then None
    else
      var rate := Parse(text.value);
      if rate.Some? then Some(BaseAcc(tivEur, rate.value)) else None
  }

  /** Replaying the text of a trail. */
  function Replay(values: seq<string>, tivEur: int): Option<Acc> {
    if values == [] then None
    else if |values| == 1 then ReadBase(values[0], tivEur)
    else
      var acc, op := Replay(values[..|values| - 1], tivEur), ReadOp(values[|values| - 1]);
      if acc.Some? && op.Some? then Some(Advance(acc.value, op.value)) else None
  }

  /** The texts of a trail's lines. */
  function Texts(items: seq<LineItem>): (values: seq<string>)
    ensures |values| == |items|
  {
    seq(|items|, i requires 0 <= i < |items| => items[i].value)
  }

  lemma BeforeJoined(s: string, ending: string)
    ensures Before(s + ending, ending) == Some(s)
  {
    assert (s + ending)[|s|..] == ending && (s + ending)[..|s|] == s;
  }

  lemma FactorReads(factor: Dec)
    ensures ReadOp("×" + Str(factor)) == Some(Times(factor))
  {
    hide Parse, Str;
    ParseStr(factor);
    assert ("×" + Str(factor))[1..] == Str(factor);
  }

  lemma FeeReads(n: int)
    ensures ReadOp("+" + IntStr(n) + FEE_SUFFIX) == Some(Plus(OfInt(n)))
  {
    hide ParseInt, IntStr, Parse;
    var value := "+" + IntStr(n) + FEE_SUFFIX;
    IntParses(n);
    assert value[1..] == IntStr(n) + FEE_SUFFIX;
    BeforeJoined(IntStr(n), FEE_SUFFIX);
  }

  lemma StripHundred(c: int)
    ensures StripZeros(c * 100, 2) == (c, 0)
  {
    hide Pow10;
    StripTen(c);
    assert c * 100 % 10 == 0 && c * 100 / 10 == c * 10;
  }

  lemma StripTen(c: int)
    ensures StripZeros(c * 10, 1) == (c, 0)
  {
    hide Pow10;
    assert c * 10 % 10 == 0 && c * 10 / 10 == c;
    assert StripZeros(c, 0) == (c, 0);
  }

  lemma PercentBack(rate: Dec)
    requires Fits(RawMul(rate, HUNDRED))
    ensures DivPow10(Mul(rate, HUNDRED), 2) == rate
  {
    hide Pow10, StripZeros, Fix, LIMIT;
    var percent := RawMul(rate, HUNDRED);
    FixExact(percent);
    StripHundred(rate.coeff);
    RawDivParts(percent, 2);
    FitsBelow(rate);
    FixExact(rate);
  }

  lemma FitsBelow(rate: Dec)
    requires Fits(RawMul(rate, HUNDRED))
    ensures Fits(rate)
  {
  }

  lemma TaxReads(rate: Dec)
    requires Fits(RawMul(rate, HUNDRED))
    ensures ReadOp("+" + Str(Mul(rate, HUNDRED)) + TAX_SUFFIX) == Some(PlusShare(rate))
  {
    hide Parse, Str, Mul, DivPow10, ParseInt;
    var text := Str(Mul(rate, HUNDRED));
    var value := "+" + text + TAX_SUFFIX;
    assert value[1..] == text + TAX_SUFFIX;
    BeforeJoined(text, TAX_SUFFIX);
    NotAFee(text);
    ParseStr(Mul(rate, HUNDRED));
    PercentBack(rate);
  }

  lemma NotAFee(text: string)
    ensures Before(text + TAX_SUFFIX, FEE_SUFFIX) == None
  {
    var s := text + TAX_SUFFIX;
    assert s[|s| - 1] == 'm' && s[|s| - |FEE_SUFFIX|..][|FEE_SUFFIX| - 1] == 'm';
  }

  predicate Readable(steps: seq<Step>) {
    forall i :: 0 <= i < |steps| ==> ReadOp(steps[i].value) == Some(steps[i].op)
  }

  lemma {:induction false} RiskReadable(adjustments: seq<Adjustment>, flags: set<string>)
    ensures Readable(RiskSteps(adjustments, flags))
  {
    hide ReadOp, Str;
    if adjustments != [] {
      RiskReadable(adjustments[..|adjustments| - 1], flags);
      FactorReads(adjustments[|adjustments| - 1].factor);
    }
  }

  lemma {:induction false} LoadingsReadable(loadings: seq<(string, Dec)>)
    ensures Readable(LoadingSteps(loadings))
  {
    hide ReadOp, Str, Add, Less;
    if loadings != [] {
      LoadingsReadable(loadings[..|loadings| - 1]);
      FactorReads(Add(ONE, loadings[|loadings| - 1].1));
    }
  }

  lemma PathReadable(facts: Facts, table: RateTable)
    requires facts.occupancy in table.occupancyFactors && Fits(RawMul(table.iptRate, HUNDRED))
    ensures Readable(FullPath(facts, table))
  {
    hide ReadOp, Str, IntStr, Add, Less, Same, Mul, RiskSteps, LoadingSteps;
    FactorReads(table.occupancyFactors[facts.occupancy]);
    RiskReadable(table.adjustments, facts.flags);
    LoadingsReadable(Loadings(table));
    FactorReads(facts.commercialAdjustment);
    FeeReads(table.fixedFeesMinor);
    TaxReads(table.iptRate);
  }

  lemma {:induction false} ReplayRuns(table: RateTable, tivEur: int, base: Acc, steps: seq<Step>)
    requires base == BaseAcc(tivEur, table.baseRatePermille) && Readable(steps)
    ensures Replay(Texts([BaseItem(table, base)] + Trail(base, steps)), tivEur) == Some(Run(base, steps))
  {
    hide ReadOp, Str, Parse, HalfUp, Advance, BaseAcc;
    var items := [BaseItem(table, base)] + Trail(base, steps);
    if steps == [] {
      BeforeJoined(Str(table.baseRatePermille), BASE_SUFFIX);
      ParseStr(table.baseRatePermille);
    } else {
      var init := steps[..|steps| - 1];
      ReplayRuns(table, tivEur, base, init);
      var before := [BaseItem(table, base)] + Trail(base, init);
      assert Texts(items)[..|items| - 1] == Texts(before);
      assert Texts(items)[|items| - 1] == steps[|steps| - 1].value;
    }
  }

  // ----- what a printed percentage says of its rate

  /** The rate a printed percentage reads back to. */
  function ReadRate(rate: Dec): Dec {
    DivPow10(Mul(rate, HUNDRED), 2)
  }

  lemma TaxReadsRate(rate: Dec)
    ensures ReadOp("+" + Str(Mul(rate, HUNDRED)) + TAX_SUFFIX) == Some(PlusShare(ReadRate(rate)))
  {
    hide Parse, Str, Mul, DivPow10, ParseInt;
    var text := Str(Mul(rate, HUNDRED));
    var value := "+" + text + TAX_SUFFIX;
    assert value[1..] == text + TAX_SUFFIX;
    BeforeJoined(text, TAX_SUFFIX);
    NotAFee(text);
    ParseStr(Mul(rate, HUNDRED));
  }

  lemma {:induction false} StrippedIsSmaller(c: int, k: nat)
    ensures Abs(StripZeros(c, k).0) <= Abs(c)
    decreases k
  {
    if k > 0 && c % 10 == 0 {
      StrippedIsSmaller(c / 10, k - 1);
    }
  }

  /** Taking two decimal places off a context result never rounds again. */
  lemma DivisionFits(d: Dec)
    requires Fits(d)
    ensures Value(DivPow10(d, 2)) * 100.0 == Value(d)
  {
    hide Value, Pow10, StripZeros, Fix;
    Pow10Values();
    RawDivParts(d, 2);
    StrippedIsSmaller(d.coeff, 2);
    FixExact(RawDivPow10(d, 2));
    RawDivValue(d, 2);
  }

  lemma HundredfoldRounds(rate: Dec)
    ensures Value(Mul(rate, HUNDRED)) == Value(Fix(rate)) * 100.0
  {
    hide Value, Fix, Pow10, Scale, Rounded;
    Pow10Values();
    FixRounds(rate);
    FixRounds(RawMul(rate, HUNDRED));
    RoundedScale(rate.coeff, 2);
    ValueTimes(Rounded(rate.coeff), rate.exp, 100);
  }

  /**
   * A printed percentage reads back to the rate rounded to the context: to the rate itself exactly when
   * that loses nothing.
   */
  lemma RateReadsBackIff(rate: Dec)
    ensures Value(ReadRate(rate)) == Value(Fix(rate))
    ensures Value(ReadRate(rate)) == Value(rate) <==> Lossless(rate)
  {
    hide Value, Fix, DivPow10, Lossless;
    FixValue(RawMul(rate, HUNDRED));
    DivisionFits(Mul(rate, HUNDRED));
    HundredfoldRounds(rate);
    FixLossless(rate);
  }

  /** A rate of 29 digits of which the printed percentage loses the last. */
  lemma LongRateIsLost()
    ensures var rate := Dec(10_000_000_000_000_000_000_000_000_001, -29);
            && ReadOp("+" + Str(Mul(rate, HUNDRED)) + TAX_SUFFIX) == Some(PlusShare(ReadRate(rate)))
            && Value(ReadRate(rate)) != Value(rate)
  {
    hide ReadOp, Str, Value, ReadRate, Pow10, NumDigits;
    var rate := Dec(10_000_000_000_000_000_000_000_000_001, -29);
    TaxReadsRate(rate);
    RateReadsBackIff(rate);
    Pow10Values();
    Pow10Step(29);
    NumDigitsUnique(rate.coeff, 29);
  }

  // ----- replaying by value

  ghost predicate SameAcc(a: Acc, b: Acc) {
    Value(a.subtotal) == Value(b.subtotal) && Value(a.commercial) == Value(b.commercial)
  }

  /** The same operation, with a share that is worth the same. */
  ghost predicate SameOp(op: Op, other: Op) {
    op == other || (op.PlusShare? && other.PlusShare? && Value(op.rate) == Value(other.rate))
  }

  lemma MulSame(a: Dec, b: Dec, f: Dec, g: Dec)
    requires Value(a) == Value(b) && Value(f) == Value(g)
    ensures Value(Mul(a, f)) == Value(Mul(b, g))
  {
    hide Value, Fix, RawMul;
    RawMulValue(a, f);
    RawMulValue(b, g);
    FixSame(RawMul(a, f), RawMul(b, g));
  }

  lemma AddSame(a: Dec, b: Dec, x: Dec, y: Dec)
    requires Value(a) == Value(b) && Value(x) == Value(y)
    ensures Value(Add(a, x)) == Value(Add(b, y))
  {
    hide Value, Fix, RawAdd;
    RawAddValue(a, x);
    RawAddValue(b, y);
    FixSame(RawAdd(a, x), RawAdd(b, y));
  }

  lemma AdvanceSame(a: Acc, b: Acc, op: Op, other: Op)
    requires SameAcc(a, b) && SameOp(op, other)
    ensures SameAcc(Advance(a, op), Advance(b, other))
  {
    hide Value, Mul, Add;
    match op
    case Times(f) => MulSame(a.subtotal, b.subtotal, f, f);
    case Plus(x) => AddSame(a.subtotal, b.subtotal, x, x);
    case PlusShare(r) =>
      MulSame(a.commercial, b.commercial, r, other.rate);
      AddSame(a.subtotal, b.subtotal, Mul(a.commercial, r), Mul(b.commercial, other.rate));
  }

  /** Every printed value reads as its step, up to how a tax rate is written. */
  ghost predicate ReadableByValue(steps: seq<Step>) {
    forall i :: 0 <= i < |steps| ==> ReadOp(steps[i].value).Some? && SameOp(ReadOp(steps[i].value).value, steps[i].op)
  }

  lemma {:induction false} ReplayRunsByValue(table: RateTable, tivEur: int, base: Acc, steps: seq<Step>)
    requires base == BaseAcc(tivEur, table.baseRatePermille) && ReadableByValue(steps)
    ensures var replayed := Replay(Texts([BaseItem(table, base)] + Trail(base, steps)), tivEur);
            replayed.Some? && SameAcc(replayed.value, Run(base, steps))
  {
    hide ReadOp, Str, Parse, HalfUp, Advance, BaseAcc, SameOp, Value;
    var items := [BaseItem(table, base)] + Trail(base, steps);
    if steps == [] {
      BeforeJoined(Str(table.baseRatePermille), BASE_SUFFIX);
      ParseStr(table.baseRatePermille);
    } else {
      var init, last := steps[..|steps| - 1], steps[|steps| - 1];
      ReplayRunsByValue(table, tivEur, base, init);
      var before := [BaseItem(table, base)] + Trail(base, init);
      assert Texts(items)[..|items| - 1] == Texts(before);
      assert Texts(items)[|items| - 1] == last.value;
      AdvanceSame(Replay(Texts(before), tivEur).value, Run(base, init), ReadOp(last.value).value, last.op);
    }
  }

  /** The tax rate, where it is charged, loses nothing in 28 digits. */
  predicate RatePrinted(table: RateTable) {
    Less(ZERO, table.iptRate) ==> Lossless(table.iptRate)
  }

  lemma TaxReadable(table: RateTable)
    requires RatePrinted(table)
    ensures ReadableByValue(TaxSteps(table))
  {
    hide ReadOp, Str, IntStr, Less, Mul, Value, Lossless, ReadRate;
    FeeReads(table.fixedFeesMinor);
    TaxReadsRate(table.iptRate);
    RateReadsBackIff(table.iptRate);
  }

  lemma PathReadableByValue(facts: Facts, table: RateTable)
    requires facts.occupancy in table.occupancyFactors && RatePrinted(table)
    ensures ReadableByValue(FullPath(facts, table))
  {
    hide ReadOp, Str, Less, Same, RiskSteps, LoadingSteps, TaxSteps, RatePrinted, Value, Loadings;
    FactorReads(table.occupancyFactors[facts.occupancy]);
    RiskReadable(table.adjustments, facts.flags);
    LoadingsReadable(Loadings(table));
    FactorReads(facts.commercialAdjustment);
    TaxReadable(table);
  }

  lemma SameShown(a: Dec, b: Dec)
    requires Value(a) == Value(b)
    ensures ToMinor(a) == ToMinor(b)
  {
    hide Value, HalfUp;
    HalfUpValue(a);
    HalfUpValue(b);
  }

  /**
   * The trail and the insured value rebuild the unrounded premium, for every table whose charged tax rate
   * loses nothing in 28 digits; digit for digit when its percentage has no more than 28 either.
   */
  lemma TrailReplays(facts: Facts, table: RateTable)
    requires Price(facts, table).Ok? && RatePrinted(table)
    ensures var p := Price(facts, table).value;
            var replayed, run := Replay(Texts(p.lineItems), facts.tivEur),
                Run(Base(facts, table), FullPath(facts, table));
            && replayed.Some? && SameAcc(replayed.value, run)
            && ToMinor(replayed.value.subtotal) == Some(p.premiumMinor)
            && (Fits(RawMul(table.iptRate, HUNDRED)) ==> replayed.value == run)
  {
    hide Replay, Texts, Run, HalfUp, ToMinor, Readable, ReadableByValue, FullPath, TechnicalPath, InBand, Trail;
    hide RatePrinted, Value;
    var base, path := Base(facts, table), FullPath(facts, table);
    PathReadableByValue(facts, table);
    ReplayRunsByValue(table, facts.tivEur, base, path);
    LastPrintable(base, path);
    SameShown(Replay(Texts([BaseItem(table, base)] + Trail(base, path)), facts.tivEur).value.subtotal,
        Run(base, path).subtotal);
    if Fits(RawMul(table.iptRate, HUNDRED)) {
      PathReadable(facts, table);
      ReplayRuns(table, facts.tivEur, base, path);
    }
  }

  lemma LastPrintable(acc: Acc, steps: seq<Step>)
    requires Printable(acc, steps)
    ensures ToMinor(Run(acc, steps).subtotal) == Some(HalfUp(Run(acc, steps).subtotal))
  {
    hide HalfUp, Run;
  }

  /** Two prices of the same insured value that print the same lines are the same premium. */
  lemma TrailDeterminesPremium(facts: Facts, table: RateTable, facts': Facts, table': RateTable)
    requires Price(facts, table).Ok? && Price(facts', table').Ok? && facts.tivEur == facts'.tivEur
    requires RatePrinted(table) && RatePrinted(table')
    requires Texts(Price(facts, table).value.lineItems) == Texts(Price(facts', table').value.lineItems)
    ensures Price(facts, table).value.premiumMinor == Price(facts', table').value.premiumMinor
  {
    hide Price, Replay, Run, ToMinor, FullPath, RatePrinted, SameAcc;
    TrailReplays(facts, table);
    TrailReplays(facts', table');
  }
}
