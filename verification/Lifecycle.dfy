/**
 * The use-cases of the workbench as functions over its tables: intake, assess, quote, rule versions,
 * startup seeds, and the row a bind commits. Each answers with the tables it commits, or with the
 * reason it commits nothing.
 */
module Lifecycle {
  import opened Wrappers
  import opened Text
  import opened Decimals
  import opened DecimalText
  import opened RatingEngine
  import opened Store
  import A = Appetite
  import T = RatingTables

  datatype Failure =
    | SubmissionNotFound
    | NoRuleset
    | NoDecision
    | DeclinedRisk
    | NoRateTable
    | UnreadableRateTable
    | NotPriced(why: RatingError)
    | AlreadyBound
    | NoAcceptedDecision
    | NoQuote
    | DuplicateKey

  datatype Intake = Intake(
    counterparty: string,
    lineOfBusiness: string,
    tivEur: int,
    occupancy: string,
    country: string,
    requestedCover: string)

  /** `create_submission`: the submission, with its country in upper case, and its first audit entry. */
  function CreateSubmission(db: Tables, id: string, intake: Intake, actor: string): Result<Tables, Failure> {
    if FindSubmission(db.submissions, id).Some? then Err(DuplicateKey)
    else
      var submission := Submission(
        id, db.clock, intake.counterparty, intake.lineOfBusiness, intake.tivEur, intake.occupancy,
        Upper(intake.country), intake.requestedCover);
      Ok(db.(
        submissions := db.submissions + [submission],
        audit := db.audit + [Row(id, db.clock + 1, Audit(actor, Created(intake.lineOfBusiness, intake.tivEur)))],
        clock := db.clock + 2))
  }

  function AppetiteFacts(s: Submission): A.SubmissionFacts {
    A.SubmissionFacts(s.lineOfBusiness, s.tivEur, s.occupancy, s.country)
  }

  /** The verdict of the current ruleset on a submission, as the decision row to insert. */
  function Decide(db: Tables, submission: string, actor: string): Result<Decision, Failure> {
    var s, ruleset := FindSubmission(db.submissions, submission), Current(db.rulesets);
    if s.None? then Err(SubmissionNotFound)
    else if ruleset.None? then Err(NoRuleset)
    else
      var verdict := A.Assess(AppetiteFacts(s.value), A.FromRules(ruleset.value.version, ruleset.value.rules));
      Ok(Decision(verdict.0, verdict.1, ruleset.value.version, actor))
  }

  function InsertDecision(db: Tables, submission: string, decision: Decision): Tables {
    var event := Assessed(decision.appetiteVersion, decision.outcome, decision.reasonCodes);
    db.(
      decisions := db.decisions + [Row(submission, db.clock, decision)],
      audit := db.audit + [Row(submission, db.clock + 1, Audit(decision.decidedBy, event))],
      clock := db.clock + 2)
  }

  /** `assess_submission`. */
  function AssessSubmission(db: Tables, submission: string, actor: string): Result<Tables, Failure> {
    var decision := Decide(db, submission, actor);
    if decision.Err? then Err(decision.error) else Ok(InsertDecision(db, submission, decision.value))
  }

  function PricedFacts(s: Submission): Facts {
    T.FactsOf(s.tivEur, s.occupancy, s.requestedCover)
  }

  function SortedFlags(flags: set<string>): seq<string> {
    (if "high_tiv" in flags then ["high_tiv"] else []) + (if "sprinklered" in flags then ["sprinklered"] else [])
  }

  /** The manifest stored with a quote. */
  function ManifestOf(facts: Facts): Manifest {
    Manifest(facts.tivEur, facts.occupancy, SortedFlags(facts.flags), Str(facts.commercialAdjustment))
  }

  /** Reading a manifest back. */
  function FactsFrom(m: Manifest): Option<Facts> {
    var adjustment := Parse(m.commercialAdjustment);
    if adjustment.Some? then Some(Facts(m.tivEur, m.occupancy, (set f | f in m.flags), adjustment.value)) else None
  }

  /** The price of a submission under the current table, as the quote row to insert. */
  function PriceQuote(db: Tables, submission: string, id: string, actor: string): Result<Quote, Failure> {
    var s, decision, stored := FindSubmission(db.submissions, submission), Latest(db.decisions, submission),
        Current(db.rateTables);
    if s.None? then Err(SubmissionNotFound)
    else if decision.None? then Err(NoDecision)
    else if decision.value.body.outcome == A.Decline then Err(DeclinedRisk)
    else if stored.None? then Err(NoRateTable)
    else
      var table, facts := T.FromRules(stored.value.version, stored.value.rules), PricedFacts(s.value);
      if table.None? then Err(UnreadableRateTable)
      else
        var price := Price(facts, table.value);
        if price.Err? then Err(NotPriced(price.error))
        else if exists i :: 0 <= i < |db.quotes| && db.quotes[i].body.id == id then Err(DuplicateKey)
        else Ok(Quote(id, price.value, ManifestOf(facts), actor))
  }

  function InsertQuote(db: Tables, submission: string, quote: Quote): Tables {
    var event := Quoted(quote.price.rateTableVersion, quote.price.premiumMinor, quote.price.currency);
    db.(
      quotes := db.quotes + [Row(submission, db.clock, quote)],
      audit := db.audit + [Row(submission, db.clock + 1, Audit(quote.createdBy, event))],
      clock := db.clock + 2)
  }

  /** `quote_submission`. */
  function QuoteSubmission(db: Tables, submission: string, id: string, actor: string): Result<Tables, Failure> {
    var quote := PriceQuote(db, submission, id, actor);
    if quote.Err? then Err(quote.error) else Ok(InsertQuote(db, submission, quote.value))
  }

  /** What `bind_submission` reads before it touches the policy service. */
  datatype BindGuard = Returns(binding: Binding) | Proceeds(quote: Row<Quote>)

  function GuardBind(db: Tables, submission: string): Result<BindGuard, Failure> {
    var binding, decision, quote :=
      BindingOf(db.bindings, submission), Latest(db.decisions, submission), Latest(db.quotes, submission);
    if FindSubmission(db.submissions, submission).None? then Err(SubmissionNotFound)
    else if binding.Some? then Ok(Returns(binding.value))
    else if decision.None? || decision.value.body.outcome != A.Accept then Err(NoAcceptedDecision)
    else if quote.None? then Err(NoQuote)
    else Ok(Proceeds(quote.value))
  }

  /** The rows a bind commits, or nothing when a unique key of the binding table refuses them. */
  function InsertBinding(db: Tables, quote: Row<Quote>, policyNumber: string, pasPolicyId: string, published: bool,
          actor: string)
    : Result<Tables, Failure>
  {
    if exists i :: 0 <= i < |db.bindings|
                   && (db.bindings[i].submission == quote.submission || db.bindings[i].policyNumber == policyNumber)
    then Err(DuplicateKey)
    else
      var binding :=
          Binding(quote.submission, quote.body.id, policyNumber, pasPolicyId, "bound", published, db.clock, actor);
      var price := quote.body.price;
      var event := Bound(policyNumber, pasPolicyId, quote.body.id, price.premiumMinor, price.currency, published);
      Ok(db.(
        bindings := db.bindings + [binding],
        audit := db.audit + [Row(quote.submission, db.clock + 1, Audit(actor, event))],
        clock := db.clock + 2))
  }

  /**
   * Startup: the first ruleset if there is none, the first rate table if there is none, and the second if
   * it is missing.
   */
  function Seed(db: Tables): Tables {
    var rulesets := if Current(db.rulesets).Some? then db.rulesets else CreateVersion(db.rulesets, 1, A.V1_RULES);
    var first := if Current(db.rateTables).Some? then db.rateTables else CreateVersion(db.rateTables, 1, T.V1_RULES);
    db.(rulesets := rulesets, rateTables := CreateVersion(first, 2, T.V2_RULES))
  }

  // ----- requests

  datatype Request =
    | Create(id: string, intake: Intake, actor: string)
    | Assess(submission: string, actor: string)
    | MakeQuote(submission: string, quoteId: string, actor: string)
    | NewRuleset(version: int, rules: A.AppetiteRules)
    | NewRateTable(version: int, rateRules: T.RateRules)
    | Restart

  /** What the service layer commits for a request, before any route has checked whether the risk is bound. */
  function Service(db: Tables, request: Request): Result<Tables, Failure> {
    match request
    case Create(id, intake, actor) => CreateSubmission(db, id, intake, actor)
    case Assess(submission, actor) => AssessSubmission(db, submission, actor)
    case MakeQuote(submission, id, actor) => QuoteSubmission(db, submission, id, actor)
    case NewRuleset(version, rules) =>
      if GetVersion(db.rulesets, version).Some? then Err(DuplicateKey)
      else Ok(db.(rulesets := CreateVersion(db.rulesets, version, rules)))
    case NewRateTable(version, rules) =>
      if GetVersion(db.rateTables, version).Some? then Err(DuplicateKey)
      else Ok(db.(rateTables := CreateVersion(db.rateTables, version, rules)))
    case Restart => Ok(Seed(db))
  }

  /** The route in front of it: a bound submission is neither assessed nor quoted again. */
  function Route(db: Tables, request: Request): Result<Tables, Failure> {
    if (request.Assess? || request.MakeQuote?)
        && BindingOf(db.bindings, request.submission).Some? then Err(AlreadyBound)
    else Service(db, request)
  }

  function Committed(db: Tables, result: Result<Tables, Failure>): Tables {
    if result.Ok? then result.value else db
  }

  /** The manifest of the facts a submission is priced on reads back as those facts. */
  lemma ManifestReadsBack(s: Submission)
    ensures FactsFrom(ManifestOf(PricedFacts(s))) == Some(PricedFacts(s))
  {
    hide Parse, Str, Contains, Lower;
    ParseStr(ONE);
    var flags := PricedFacts(s).flags;
    assert (set f | f in SortedFlags(flags)) == flags;
  }
}
