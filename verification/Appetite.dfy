/**
 * The appetite engine: hard declines first, then referrals, otherwise accept, each with the codes of
 * the rules that decided.
 */
module Appetite {
  import opened Text

  datatype Outcome = Accept | Refer | Decline

  datatype ReasonCode =
    | LobOutOfAppetite
    | TivAboveAuthority
    | ExcludedOccupancy
    | SanctionedCountry
    | WithinAppetite

  /** The stored rule payload. */
  datatype AppetiteRules = AppetiteRules(
    allowedLobs: seq<string>,
    maxTivEur: int,
    excludedOccupancies: seq<string>,
    sanctionedCountries: seq<string>)

  datatype RulesetSpec = RulesetSpec(
    version: int,
    allowedLobs: set<string>,
    maxTivEur: int,
    excludedOccupancies: set<string>,
    sanctionedCountries: set<string>)

  datatype SubmissionFacts = SubmissionFacts(lineOfBusiness: string, tivEur: int, occupancy: string, country: string)

  /** The seeded ruleset; ten million euros in cents. */
  const V1_RULES :=
      AppetiteRules(["commercial_property"], 1_000_000_000, ["fireworks_manufacturing"], ["KP", "IR", "SY", "RU"])

  function FromRules(version: int, rules: AppetiteRules): RulesetSpec {
    RulesetSpec(
      version,
      (set lob | lob in rules.allowedLobs),
      rules.maxTivEur,
      (set occupancy | occupancy in rules.excludedOccupancies),
      (set country | country in rules.sanctionedCountries))
  }

  function UpperAll(countries: set<string>): set<string> {
    set country | country in countries :: Upper(country)
  }

  /** The facts break the rule this code stands for. */
  predicate Violates(facts: SubmissionFacts, ruleset: RulesetSpec, code: ReasonCode) {
    match code
    case SanctionedCountry => Upper(facts.country) in UpperAll(ruleset.sanctionedCountries)
    case ExcludedOccupancy => facts.occupancy in ruleset.excludedOccupancies
    case LobOutOfAppetite => facts.lineOfBusiness !in ruleset.allowedLobs
    case TivAboveAuthority => facts.tivEur > ruleset.maxTivEur
    case WithinAppetite => false
  }

  const DECLINES: seq<ReasonCode> := [SanctionedCountry, ExcludedOccupancy]
  const REFERRALS: seq<ReasonCode> := [LobOutOfAppetite, TivAboveAuthority]

  /** The codes of a tier that are violated, in the tier's order. */
  function Violations(facts: SubmissionFacts, ruleset: RulesetSpec, tier: seq<ReasonCode>): seq<ReasonCode> {
    if tier == [] then []
    else
      (if Violates(facts, ruleset, tier[0]) then [tier[0]] else []) + Violations(facts, ruleset, tier[1..])
  }

  function Assess(facts: SubmissionFacts, ruleset: RulesetSpec): (Outcome, seq<ReasonCode>) {
    var declines, referrals := Violations(facts, ruleset, DECLINES), Violations(facts, ruleset, REFERRALS);
    if declines != [] then (Decline, declines)
    else if referrals != [] then (Refer, referrals)
    else (Accept, [WithinAppetite])
  }

  lemma TwoRules(facts: SubmissionFacts, ruleset: RulesetSpec, first: ReasonCode, second: ReasonCode)
    ensures Violations(facts, ruleset, [first, second])
            == (if Violates(facts, ruleset, first) then [first] else [])
               + (if Violates(facts, ruleset, second) then [second] else [])
  {
    hide Violates;
    assert [first, second][1..] == [second] && [second][1..] == [];
    assert Violations(facts, ruleset, [second]) == if Violates(facts, ruleset, second) then [second] else [];
  }

  /** The country is on the list, in whatever letter case. */
  predicate Sanctioned(country: string, ruleset: RulesetSpec) {
    exists c :: c in ruleset.sanctionedCountries && Alike(c, country)
  }

  /**
   * A decline exactly when the country is sanctioned or the occupancy excluded, else a referral exactly when
   * the line of business is outside appetite or the insured value above authority. The reasons are the rules
   * of the deciding tier that are broken, in the engine's order.
   */
  predicate Decides(sanctioned: bool, excluded: bool, outside: bool, above: bool, outcome: Outcome,
          reasons: seq<ReasonCode>) {
    && (outcome == Decline <==> sanctioned || excluded)
    && (outcome == Refer <==> !sanctioned && !excluded && (outside || above))
    && (outcome == Decline ==>
          reasons == (if sanctioned then [SanctionedCountry] else []) + (if excluded then [ExcludedOccupancy] else []))
    && (outcome == Refer ==>
          reasons == (if outside then [LobOutOfAppetite] else []) + (if above then [TivAboveAuthority] else []))
    && (outcome == Accept ==> reasons == [WithinAppetite])
  }

  /** The verdict in terms of the risk and the fields of the ruleset. */
  predicate IsVerdict(facts: SubmissionFacts, ruleset: RulesetSpec, outcome: Outcome, reasons: seq<ReasonCode>) {
    Decides(Sanctioned(facts.country, ruleset), facts.occupancy in ruleset.excludedOccupancies,
        facts.lineOfBusiness !in ruleset.allowedLobs, facts.tivEur > ruleset.maxTivEur, outcome, reasons)
  }

  lemma SanctionedMeans(facts: SubmissionFacts, ruleset: RulesetSpec)
    ensures Violates(facts, ruleset, SanctionedCountry) <==> Sanctioned(facts.country, ruleset)
  {
    hide Alike, Upper;
    forall c ensures Upper(c) == Upper(facts.country) <==> Alike(c, facts.country) {
      SameCapitals(c, facts.country);
    }
  }

  /** The tiers give the verdict the fields call for. */
  lemma VerdictMeans(facts: SubmissionFacts, ruleset: RulesetSpec)
    ensures var (outcome, reasons) := Assess(facts, ruleset); IsVerdict(facts, ruleset, outcome, reasons)
  {
    hide UpperAll, Sanctioned;
    TwoRules(facts, ruleset, SanctionedCountry, ExcludedOccupancy);
    TwoRules(facts, ruleset, LobOutOfAppetite, TivAboveAuthority);
    SanctionedMeans(facts, ruleset);
  }

  /** `assess`: collect the codes tier by tier, and stop at the first tier that has any. */
  method AssessRisk(facts: SubmissionFacts, ruleset: RulesetSpec) returns (outcome: Outcome, reasons: seq<ReasonCode>)
    ensures (outcome, reasons) == Assess(facts, ruleset)
    ensures IsVerdict(facts, ruleset, outcome, reasons)
  {
    hide IsVerdict;
    VerdictMeans(facts, ruleset);
    TwoRules(facts, ruleset, SanctionedCountry, ExcludedOccupancy);
    TwoRules(facts, ruleset, LobOutOfAppetite, TivAboveAuthority);
    reasons := [];
    if Upper(facts.country) in (set c | c in ruleset.sanctionedCountries :: Upper(c)) {
      reasons := reasons + [SanctionedCountry];
    }
    if facts.occupancy in ruleset.excludedOccupancies {
      reasons := reasons + [ExcludedOccupancy];
    }
    assert reasons == Violations(facts, ruleset, DECLINES);
    if reasons != [] {
      return Decline, reasons;
    }
    if facts.lineOfBusiness !in ruleset.allowedLobs {
      reasons := reasons + [LobOutOfAppetite];
    }
    if facts.tivEur > ruleset.maxTivEur {
      reasons := reasons + [TivAboveAuthority];
    }
    assert reasons == Violations(facts, ruleset, REFERRALS);
    if reasons != [] {
      return Refer, reasons;
    }
    return Accept, [WithinAppetite];
  }

  // ----- what a verdict means

  predicate Distinct(codes: seq<ReasonCode>) {
    forall i, j :: 0 <= i < j < |codes| ==> codes[i] != codes[j]
  }

  function Tier(outcome: Outcome): seq<ReasonCode> {
    match outcome
    case Decline => DECLINES
    case Refer => REFERRALS
    case Accept => []
  }

  /** The deciding tier, and its codes, in terms of the rules that are broken. */
  lemma TiersDecide(facts: SubmissionFacts, ruleset: RulesetSpec)
    ensures var (outcome, reasons) := Assess(facts, ruleset);
            var hard := Violates(facts, ruleset, SanctionedCountry) || Violates(facts, ruleset, ExcludedOccupancy);
            var soft := Violates(facts, ruleset, LobOutOfAppetite) || Violates(facts, ruleset, TivAboveAuthority);
            && (outcome == Decline <==> hard)
            && (outcome == Refer <==> !hard && soft)
            && (outcome != Accept ==>
                  && Distinct(reasons)
                  && forall code :: code in reasons <==> code in Tier(outcome) && Violates(facts, ruleset, code))
            && (outcome == Accept ==> reasons == [WithinAppetite])
  {
    hide Violates;
    TwoRules(facts, ruleset, SanctionedCountry, ExcludedOccupancy);
    TwoRules(facts, ruleset, LobOutOfAppetite, TivAboveAuthority);
  }

  predicate Listed(country: string, countries: seq<string>) {
    exists c :: c in countries && Alike(c, country)
  }

  /** The verdict in terms of a stored payload, whose lists the ruleset is read from. */
  lemma StoredVerdictMeans(facts: SubmissionFacts, version: int, rules: AppetiteRules)
    ensures var (outcome, reasons) := Assess(facts, FromRules(version, rules));
            Decides(Listed(facts.country, rules.sanctionedCountries), facts.occupancy in rules.excludedOccupancies,
                facts.lineOfBusiness !in rules.allowedLobs, facts.tivEur > rules.maxTivEur, outcome, reasons)
  {
    hide Assess, Alike, Decides;
    VerdictMeans(facts, FromRules(version, rules));
    assert Sanctioned(facts.country, FromRules(version, rules)) <==> Listed(facts.country, rules.sanctionedCountries);
  }

  function Severity(outcome: Outcome): nat {
    match outcome
    case Accept => 0
    case Refer => 1
    case Decline => 2
  }

  /** `b` allows no more than `a`; countries are compared without letter case. */
  predicate Tighter(a: RulesetSpec, b: RulesetSpec) {
    && UpperAll(a.sanctionedCountries) <= UpperAll(b.sanctionedCountries)
    && a.excludedOccupancies <= b.excludedOccupancies
    && b.allowedLobs <= a.allowedLobs
    && b.maxTivEur <= a.maxTivEur
  }

  /** Tightening the ruleset, or raising the insured value, never moves a verdict toward acceptance. */
  lemma TighterNeverSofter(facts: SubmissionFacts, tiv: int, a: RulesetSpec, b: RulesetSpec)
    requires Tighter(a, b) && facts.tivEur <= tiv
    ensures Severity(Assess(facts, a).0) <= Severity(Assess(facts.(tivEur := tiv), b).0)
  {
    hide Assess, UpperAll;
    TiersDecide(facts, a);
    TiersDecide(facts.(tivEur := tiv), b);
  }

  /** Neither the letter case of the risk's country nor that of the sanctions list matters. */
  lemma CaseDoesNotMatter(facts: SubmissionFacts, country: string, a: RulesetSpec, sanctioned: set<string>)
    requires Upper(country) == Upper(facts.country) && UpperAll(sanctioned) == UpperAll(a.sanctionedCountries)
    ensures Assess(facts.(country := country), a.(sanctionedCountries := sanctioned)) == Assess(facts, a)
  {
    hide UpperAll, Upper;
    var facts', b := facts.(country := country), a.(sanctionedCountries := sanctioned);
    TwoRules(facts, a, SanctionedCountry, ExcludedOccupancy);
    TwoRules(facts, a, LobOutOfAppetite, TivAboveAuthority);
    TwoRules(facts', b, SanctionedCountry, ExcludedOccupancy);
    TwoRules(facts', b, LobOutOfAppetite, TivAboveAuthority);
  }

  /** A country spelled in lower or upper case gets the verdict of the country as it was entered. */
  lemma AnySpellingWillDo(facts: SubmissionFacts, a: RulesetSpec)
    ensures Assess(facts.(country := Lower(facts.country)), a) == Assess(facts, a)
    ensures Assess(facts.(country := Upper(facts.country)), a) == Assess(facts, a)
  {
    hide Assess, Upper, Lower, UpperAll;
    UpperOfLower(facts.country);
    CaseDoesNotMatter(facts, Lower(facts.country), a, a.sanctionedCountries);
    CaseDoesNotMatter(facts, Upper(facts.country), a, a.sanctionedCountries);
  }
}
