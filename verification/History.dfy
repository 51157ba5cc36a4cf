/**
 * What the tables remember. In every serial run the audit log of a submission replays to its current
 * state, every decision and every quote can be computed again from its recorded version, and a bound
 * submission never changes.
 */
module History {
  import opened Wrappers
  import opened RatingEngine
  import opened Store
  import opened Lifecycle
  import A = Appetite
  import T = RatingTables

  // ----- the audit log as a word

  /** What a submission's audit log says about it: its last entry of each kind, and how many there are. */
  datatype Summary = Summary(
    intake: AuditEvent,
    verdict: Option<Audit>,
    price: Option<Audit>,
    deal: Option<Audit>,
    assessed: nat,
    quoted: nat,
    binds: nat)

  predicate Says(verdict: Option<Audit>, outcome: A.Outcome) {
    verdict.Some? && verdict.value.event.Assessed? && verdict.value.event.outcome == outcome
  }

  /** One more entry; an entry that cannot follow gives nothing. */
  function Follow(s: Summary, entry: Audit): Option<Summary> {
    if s.deal.Some? then None
    else
      match entry.event
      case Created(_, _) => None
      case Assessed(_, _, _) => Some(s.(verdict := Some(entry), assessed := s.assessed + 1))
      case Quoted(_, _, _) =>
        if s.verdict.Some?
            && !Says(s.verdict, A.Decline) then Some(s.(price := Some(entry), quoted := s.quoted + 1)) else None
      case Bound(_, _, _, premium, currency, _) =>
        if Says(s.verdict, A.Accept) && s.price.Some? && s.price.value.event.Quoted?
           && s.price.value.event.premiumMinor == premium && s.price.value.event.currency == currency
        then Some(s.(deal := Some(entry), binds := s.binds + 1))
        else None
  }

  /**
   * Replaying a log: one creation first, then assessments and quotes, each quote under a latest
   * assessment that does not decline, then at most one bind, of the latest premium under an acceptance.
   */
  function Replay(entries: seq<Row<Audit>>): Option<Summary> {
    if entries == [] then None
    else if |entries| == 1 then
      if entries[0].body.event.Created? then Some(Summary(entries[0].body.event, None, None, None, 0, 0, 0)) else None
    else
      var before := Replay(entries[..|entries| - 1]);
      if before.Some? then Follow(before.value, entries[|entries| - 1].body) else None
  }

  function DecisionEntry(d: Decision): Audit {
    Audit(d.decidedBy, Assessed(d.appetiteVersion, d.outcome, d.reasonCodes))
  }

  function QuoteEntry(q: Quote): Audit {
    Audit(q.createdBy, Quoted(q.price.rateTableVersion, q.price.premiumMinor, q.price.currency))
  }

  function BindingEntry(b: Binding, q: Quote): Audit {
    Audit(b.boundBy,
        Bound(b.policyNumber, b.pasPolicyId, b.quote, q.price.premiumMinor, q.price.currency, b.eventPublished))
  }

  /** What the other tables say about a submission. */
  function SummaryOf(db: Tables, submission: string): Summary
    requires Known(db, submission)
  {
    var s := FindSubmission(db.submissions, submission).value;
    var decision, quote, binding :=
      Latest(db.decisions, submission), Latest(db.quotes, submission), BindingOf(db.bindings, submission);
    Summary(
      Created(s.lineOfBusiness, s.tivEur),
      if decision.Some? then Some(DecisionEntry(decision.value.body)) else None,
      if quote.Some? then Some(QuoteEntry(quote.value.body)) else None,
      if binding.Some? && quote.Some? then Some(BindingEntry(binding.value, quote.value.body)) else None,
      |Of(db.decisions, submission)|,
      |Of(db.quotes, submission)|,
      |BindingsOf(db.bindings, submission)|)
  }

  predicate AuditedFor(db: Tables, submission: string)
    requires Known(db, submission)
  {
    Replay(Of(db.audit, submission)) == Some(SummaryOf(db, submission))
  }

  // ----- the invariant of serial runs

  predicate Known(db: Tables, submission: string) {
    FindSubmission(db.submissions, submission).Some?
  }

  /** The decision is what its recorded ruleset version says of the submission. */
  predicate DecisionReplays(db: Tables, row: Row<Decision>) {
    var s, ruleset := FindSubmission(db.submissions, row.submission), GetVersion(db.rulesets, row.body.appetiteVersion);
    && s.Some? && ruleset.Some?
    && A.Assess(AppetiteFacts(s.value), A.FromRules(ruleset.value.version, ruleset.value.rules))
       == (row.body.outcome, row.body.reasonCodes)
  }

  /** The quote is what its recorded table version makes of its manifest, and the manifest is the submission's. */
  predicate QuoteReplays(db: Tables, row: Row<Quote>) {
    var s, stored := FindSubmission(db.submissions, row.submission),
        GetVersion(db.rateTables, row.body.price.rateTableVersion);
    && s.Some? && stored.Some?
    && FactsFrom(row.body.facts) == Some(PricedFacts(s.value))
    && var table := T.FromRules(stored.value.version, stored.value.rules);
    && table.Some?
    && Price(FactsFrom(row.body.facts).value, table.value) == Ok(row.body.price)
  }

  /** The binding is the only one of its submission, of its latest quote, under an acceptance. */
  predicate BindingFits(db: Tables, b: Binding) {
    var decision, quote := Latest(db.decisions, b.submission), Latest(db.quotes, b.submission);
    && Known(db, b.submission)
    && BindingsOf(db.bindings, b.submission) == [b]
    && decision.Some? && decision.value.body.outcome == A.Accept
    && quote.Some? && quote.value.body.id == b.quote
  }

  predicate Chronological(db: Tables) {
    && Ticking(db.decisions, db.clock) && Ticking(db.quotes, db.clock) && Ticking(db.audit, db.clock)
    && (forall i, j :: 0 <= i < j < |db.submissions| ==> db.submissions[i].at < db.submissions[j].at)
    && (forall i :: 0 <= i < |db.submissions| ==> db.submissions[i].at < db.clock)
  }

  predicate Keyed(db: Tables) {
    && (forall i, j :: 0 <= i < j < |db.submissions| ==> db.submissions[i].id != db.submissions[j].id)
    && (forall i, j :: 0 <= i < j < |db.quotes| ==> db.quotes[i].body.id != db.quotes[j].body.id)
    && VersionsDistinct(db.rulesets) && VersionsDistinct(db.rateTables)
  }

  predicate DecisionsReplay(db: Tables) {
    forall i :: 0 <= i < |db.decisions| ==> DecisionReplays(db, db.decisions[i])
  }

  predicate QuotesReplay(db: Tables) {
    forall i :: 0 <= i < |db.quotes| ==> QuoteReplays(db, db.quotes[i])
  }

  predicate BindingsFit(db: Tables) {
    forall i :: 0 <= i < |db.bindings| ==> BindingFits(db, db.bindings[i])
  }

  predicate AuditKnown(db: Tables) {
    forall i :: 0 <= i < |db.audit| ==> Known(db, db.audit[i].submission)
  }

  ghost predicate Audited(db: Tables) {
    forall id :: Known(db, id) ==> AuditedFor(db, id)
  }

  ghost predicate Valid(db: Tables) {
    && Chronological(db) && Keyed(db)
    && DecisionsReplay(db) && QuotesReplay(db) && BindingsFit(db)
    && AuditKnown(db) && Audited(db)
  }
}
