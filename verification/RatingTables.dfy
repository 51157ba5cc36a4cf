/**
 * The rate tables as they are stored (decimals as text, optional loading parameters) and the facts a
 * submission is priced on.
 */
module RatingTables {
  import opened Wrappers
  import opened Decimals
  import opened DecimalText
  import opened RatingEngine
  import opened Text

  datatype RuleAdjustment = RuleAdjustment(name: string, kind: string, factor: string, appliesWhen: Option<string>)

  /** The stored rule payload; a loading parameter a table omits is neutral. */
  datatype RateRules = RateRules(
    baseRatePermille: string,
    occupancyFactors: map<string, string>,
    adjustments: seq<RuleAdjustment>,
    expenseLoading: Option<string>,
    riskMargin: Option<string>,
    catProvision: Option<string>,
    commercialMin: Option<string>,
    commercialMax: Option<string>,
    iptRate: Option<string>,
    fixedFeesMinor: Option<int>)

  function Or(text: Option<string>, default: string): Option<Dec> {
    Parse(if text.Some? then text.value else default)
  }

  function ParseAdjustments(rules: seq<RuleAdjustment>): Option<seq<Adjustment>> {
    if rules == [] then Some([])
    else
      var factor, rest := Parse(rules[0].factor), ParseAdjustments(rules[1..]);
      if factor.Some? && rest.Some? then
        Some([Adjustment(rules[0].name, rules[0].kind, factor.value, rules[0].appliesWhen)] + rest.value)
      else None
  }

  function ParseFactors(rules: map<string, string>): Option<map<string, Dec>> {
    if forall k :: k in rules ==> Parse(rules[k]).Some?
    then Some(map k | k in rules :: Parse(rules[k]).value)
    else None
  }

  /** `RateTableSpec.from_rules`: the typed table, or nothing when some text is not a decimal. */
  function FromRules(version: int, rules: RateRules): Option<RateTable> {
    var base, factors, adjustments :=
      Parse(rules.baseRatePermille), ParseFactors(rules.occupancyFactors), ParseAdjustments(rules.adjustments);
    var expense, margin, cat := Or(rules.expenseLoading, "0"), Or(rules.riskMargin, "0"), Or(rules.catProvision, "0");
    var low, high, ipt := Or(rules.commercialMin, "1"), Or(rules.commercialMax, "1"), Or(rules.iptRate, "0");
    if base.Some? && factors.Some? && adjustments.Some? && expense.Some? && margin.Some? && cat.Some?
       && low.Some? && high.Some? && ipt.Some?
    then
      Some(RateTable(version, base.value, factors.value, adjustments.value, expense.value, margin.value, cat.value,
                     low.value, high.value, ipt.value,
                     if rules.fixedFeesMinor.Some? then rules.fixedFeesMinor.value else 0))
    else None
  }

  // ----- the seeded tables

  const V1_RULES := RateRules(
    "0.5",
    map["office" := "1.0", "retail" := "1.1", "warehouse" := "1.25",
        "light_manufacturing" := "1.5", "fireworks_manufacturing" := "3.0"],
    [RuleAdjustment("high_tiv_loading", "loading", "1.10", Some("high_tiv")),
     RuleAdjustment("sprinklered_discount", "discount", "0.95", Some("sprinklered"))],
    None, None, None, None, None, None, None)

  const V2_RULES := V1_RULES.(
    expenseLoading := Some("0.15"), riskMargin := Some("0.06"), catProvision := Some("0.04"),
    commercialMin := Some("0.85"), commercialMax := Some("1.15"), iptRate := Some("0.09"),
    fixedFeesMinor := Some(5000))

  const OCCUPANCIES: map<string, Dec> := map[
    "office" := Dec(10, -1), "retail" := Dec(11, -1), "warehouse" := Dec(125, -2),
    "light_manufacturing" := Dec(15, -1), "fireworks_manufacturing" := Dec(30, -1)]

  const HIGH_TIV := Adjustment("high_tiv_loading", "loading", Dec(110, -2), Some("high_tiv"))
  const SPRINKLERED := Adjustment("sprinklered_discount", "discount", Dec(95, -2), Some("sprinklered"))

  const V1_TABLE := RateTable(
    1, Dec(5, -1), OCCUPANCIES, [HIGH_TIV, SPRINKLERED], ZERO, ZERO, ZERO, ONE, ONE, ZERO, 0)

  const V2_TABLE := RateTable(
    2, Dec(5, -1), OCCUPANCIES, [HIGH_TIV, SPRINKLERED],
    Dec(15, -2), Dec(6, -2), Dec(4, -2), Dec(85, -2), Dec(115, -2), Dec(9, -2), 5000)

  lemma Reads(text: string, d: Dec)
    requires Str(d) == text
    ensures Parse(text) == Some(d)
  {
    ParseStr(d);
  }

  lemma FactorsRead()
    ensures ParseFactors(V1_RULES.occupancyFactors) == Some(OCCUPANCIES)
  {
    hide Parse, Str;
    assert Parse("1.0") == Some(Dec(10, -1)) by { TenthsPrint(1, 0); Reads("1.0", Dec(10, -1)); }
    assert Parse("1.1") == Some(Dec(11, -1)) by { TenthsPrint(1, 1); Reads("1.1", Dec(11, -1)); }
    assert Parse("1.25") == Some(Dec(125, -2)) by { HundredthsPrint(1, 2, 5); Reads("1.25", Dec(125, -2)); }
    assert Parse("1.5") == Some(Dec(15, -1)) by { TenthsPrint(1, 5); Reads("1.5", Dec(15, -1)); }
    assert Parse("3.0") == Some(Dec(30, -1)) by { TenthsPrint(3, 0); Reads("3.0", Dec(30, -1)); }
    var rules := V1_RULES.occupancyFactors;
    assert forall k :: k in rules ==> Parse(rules[k]) == Some(OCCUPANCIES[k]);
    assert ParseFactors(rules).value == OCCUPANCIES;
  }

  lemma AdjustmentsRead()
    ensures ParseAdjustments(V1_RULES.adjustments) == Some([HIGH_TIV, SPRINKLERED])
  {
    hide Parse;
    assert Parse("1.10") == Some(Dec(110, -2)) by { HundredthsPrint(1, 1, 0); Reads("1.10", Dec(110, -2)); }
    assert Parse("0.95") == Some(Dec(95, -2)) by { BelowOnePrint(9, 5); Reads("0.95", Dec(95, -2)); }
    PairReads(V1_RULES.adjustments[0], V1_RULES.adjustments[1], Dec(110, -2), Dec(95, -2));
  }

  lemma PairReads(first: RuleAdjustment, second: RuleAdjustment, f: Dec, g: Dec)
    requires Parse(first.factor) == Some(f) && Parse(second.factor) == Some(g)
    ensures ParseAdjustments([first, second]) ==
            Some([Adjustment(first.name, first.kind, f, first.appliesWhen),
                  Adjustment(second.name, second.kind, g, second.appliesWhen)])
  {
    hide Parse;
    assert [first, second][1..] == [second] && [second][1..] == [];
    var last := [Adjustment(second.name, second.kind, g, second.appliesWhen)];
    assert last + [] == last;
    assert ParseAdjustments([second]) == Some(last);
    var head := Adjustment(first.name, first.kind, f, first.appliesWhen);
    assert [head] + last == [head, last[0]];
    assert [first, second][0] == first;
  }

  /** The first table reads as the loss-cost rules with every later loading neutral. */
  lemma V1Reads()
    ensures FromRules(1, V1_RULES) == Some(V1_TABLE)
  {
    hide Parse, ParseFactors, ParseAdjustments, Str;
    FactorsRead();
    AdjustmentsRead();
    LoadingTextsRead();
  }

  /** The second table is the first with the technical, commercial and tax parameters added. */
  lemma V2Reads()
    ensures FromRules(2, V2_RULES) == Some(V2_TABLE)
  {
    hide Parse, ParseFactors, ParseAdjustments, Str;
    FactorsRead();
    AdjustmentsRead();
    LoadingTextsRead();
  }

  lemma LoadingTextsRead()
    ensures Parse("0.5") == Some(Dec(5, -1)) && Parse("0") == Some(ZERO) && Parse("1") == Some(ONE)
    ensures Parse("0.15") == Some(Dec(15, -2)) && Parse("0.06") == Some(Dec(6, -2)) && Parse("0.04") == Some(Dec(4, -2))
    ensures Parse("0.85") == Some(Dec(85, -2)) && Parse("1.15") == Some(Dec(115, -2))
            && Parse("0.09") == Some(Dec(9, -2))
  {
    hide Parse;
    assert Parse("0.5") == Some(Dec(5, -1)) by { BelowOnePrint(5, 0); Reads("0.5", Dec(5, -1)); }
    assert Parse("0") == Some(ZERO) by { Reads("0", ZERO); }
    assert Parse("1") == Some(ONE) by { Reads("1", ONE); }
    assert Parse("0.15") == Some(Dec(15, -2)) by { BelowOnePrint(1, 5); Reads("0.15", Dec(15, -2)); }
    assert Parse("0.06") == Some(Dec(6, -2)) by { Reads("0.06", Dec(6, -2)); }
    assert Parse("0.04") == Some(Dec(4, -2)) by { Reads("0.04", Dec(4, -2)); }
    assert Parse("0.85") == Some(Dec(85, -2)) by { BelowOnePrint(8, 5); Reads("0.85", Dec(85, -2)); }
    assert Parse("1.15") == Some(Dec(115, -2)) by { HundredthsPrint(1, 1, 5); Reads("1.15", Dec(115, -2)); }
    assert Parse("0.09") == Some(Dec(9, -2)) by { Reads("0.09", Dec(9, -2)); }
  }

  // ----- the priced facts

  /** Five million euros, in cents; only a higher value is loaded. */
  const HIGH_TIV_THRESHOLD: int := 500_000_000

  function Flags(tivEur: int, requestedCover: string): set<string> {
    (if tivEur > HIGH_TIV_THRESHOLD then {"high_tiv"} else {})
    + (if Contains(Lower(requestedCover), "sprinkler") then {"sprinklered"} else {})
  }

  /** The facts a submission is priced on; a quote never adjusts the price commercially. */
  function FactsOf(tivEur: int, occupancy: string, requestedCover: string): Facts {
    Facts(tivEur, occupancy, Flags(tivEur, requestedCover), ONE)
  }

  /**
   * The flags a submission is priced with: the loading above five million euros and not at it, the discount
   * when the cover mentions a sprinkler in whatever letter case, and nothing else.
   */
  lemma FlagsMean(tivEur: int, requestedCover: string)
    ensures var flags := Flags(tivEur, requestedCover);
            && ("high_tiv" in flags <==> tivEur > 500_000_000)
            && ("sprinklered" in flags <==> Mentions(requestedCover, "sprinkler"))
            && flags <= {"high_tiv", "sprinklered"}
  {
    hide Contains, Mentions, Lower;
    ContainsMeans(requestedCover, "sprinkler");
  }

  // ----- which tables can be read

  predicate Readable(text: string) {
    Parse(text).Some?
  }

  predicate ReadableIfGiven(text: Option<string>) {
    text.Some? ==> Readable(text.value)
  }

  lemma {:induction false} AdjustmentsReadable(rules: seq<RuleAdjustment>)
    ensures ParseAdjustments(rules).Some? <==> forall i :: 0 <= i < |rules| ==> Readable(rules[i].factor)
    ensures ParseAdjustments(rules).Some? ==>
              && |ParseAdjustments(rules).value| == |rules|
              && forall i :: 0 <= i < |rules| ==>
                   var adj := ParseAdjustments(rules).value[i];
                   && adj.name == rules[i].name && adj.kind == rules[i].kind
                   && adj.appliesWhen == rules[i].appliesWhen && Some(adj.factor) == Parse(rules[i].factor)
  {
    hide Parse;
    if rules != [] {
      AdjustmentsReadable(rules[1..]);
      assert forall i :: 1 <= i < |rules| ==> rules[i] == rules[1..][i - 1];
    }
  }

  /** A stored table can be read exactly when each decimal it gives is one; a parameter it omits is never missed. */
  lemma ReadsIff(version: int, rules: RateRules)
    ensures FromRules(version, rules).Some? <==>
            && Readable(rules.baseRatePermille)
            && (forall k :: k in rules.occupancyFactors ==> Readable(rules.occupancyFactors[k]))
            && (forall i :: 0 <= i < |rules.adjustments| ==> Readable(rules.adjustments[i].factor))
            && ReadableIfGiven(rules.expenseLoading) && ReadableIfGiven(rules.riskMargin)
            && ReadableIfGiven(rules.catProvision) && ReadableIfGiven(rules.commercialMin)
            && ReadableIfGiven(rules.commercialMax) && ReadableIfGiven(rules.iptRate)
  {
    hide Parse, ParseAdjustments;
    AdjustmentsReadable(rules.adjustments);
    LoadingTextsRead();
  }
}
