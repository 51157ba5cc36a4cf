/**
 * Serial runs: requests through the routes, and binds that commit or do not, in any order and any
 * number. Every step keeps the invariant of `History`, and a bound submission stays as it was.
 */
module HistoryRuns {
  import opened Wrappers
  import opened RatingEngine
  import opened Store
  import opened Lifecycle
  import opened History
  import A = Appetite
  import T = RatingTables

  /** What changes the tables: a request, or the commit at the end of a bind attempt. */
  datatype Action =
    | Ask(request: Request)
    | CommitBind(submission: string, policyNumber: string, pasPolicyId: string, published: bool, actor: string)

  function Perform(db: Tables, action: Action): Tables {
    match action
    case Ask(request) => Committed(db, Route(db, request))
    case CommitBind(submission, policyNumber, pasPolicyId, published, actor) =>
      var guard := GuardBind(db, submission);
      if guard.Ok? && guard.value.Proceeds? then
        Committed(db, InsertBinding(db, guard.value.quote, policyNumber, pasPolicyId, published, actor))
      else db
  }

  function Serve(db: Tables, actions: seq<Action>): Tables {
    if actions == [] then db else Perform(Serve(db, actions[..|actions| - 1]), actions[|actions| - 1])
  }

  // ----- small steps

  lemma ReplayAppend(entries: seq<Row<Audit>>, row: Row<Audit>)
    requires Replay(entries).Some?
    ensures Replay(entries + [row]) == Follow(Replay(entries).value, row.body)
  {
    assert (entries + [row])[..|entries|] == entries;
  }

  lemma NoRows<X>(rows: seq<Row<X>>, submission: string)
    requires forall i :: 0 <= i < |rows| ==> rows[i].submission != submission
    ensures Of(rows, submission) == [] && Latest(rows, submission) == None
  {
    LatestFound(rows, submission);
  }

  lemma UnknownIsEmpty(db: Tables, id: string)
    requires Valid(db) && !Known(db, id)
    ensures Of(db.decisions, id) == [] && Latest(db.decisions, id) == None
    ensures Of(db.quotes, id) == [] && Latest(db.quotes, id) == None
    ensures Of(db.audit, id) == [] && BindingsOf(db.bindings, id) == []
  {
    hide Of, Latest, BindingsOf, FindSubmission, GetVersion, Price, FactsFrom, A.Assess, Replay, SummaryOf;
    NoRows(db.decisions, id);
    NoRows(db.quotes, id);
    NoRows(db.audit, id);
    BindingsFound(db.bindings, id);
    assert forall i :: 0 <= i < |db.bindings| ==> BindingFits(db, db.bindings[i]);
  }

  lemma UnboundEverywhere(db: Tables, id: string)
    requires BindingOf(db.bindings, id).None?
    ensures BindingsOf(db.bindings, id) == []
    ensures forall i :: 0 <= i < |db.bindings| ==> db.bindings[i].submission != id
  {
    hide BindingsOf;
    BindingsFound(db.bindings, id);
  }

  /** Each submission and each version of `db` is still found, as it was, in `db'`. */
  ghost predicate Remembers(db: Tables, db': Tables) {
    && (forall x :: FindSubmission(db.submissions, x).Some? ==>
          FindSubmission(db'.submissions, x) == FindSubmission(db.submissions, x))
    && (forall v :: GetVersion(db.rulesets, v).Some? ==> GetVersion(db'.rulesets, v) == GetVersion(db.rulesets, v))
    && (forall v :: GetVersion(db.rateTables, v).Some? ==>
          GetVersion(db'.rateTables, v) == GetVersion(db.rateTables, v))
  }

  /** Where submissions and versions are remembered, what was decided or priced on them is still what they say. */
  lemma ReplaysRemembered(db: Tables, db': Tables)
    requires Remembers(db, db')
    ensures forall row :: DecisionReplays(db, row) ==> DecisionReplays(db', row)
    ensures forall row :: QuoteReplays(db, row) ==> QuoteReplays(db', row)
  {
    hide FindSubmission, GetVersion, Price, FactsFrom, PricedFacts, A.Assess, A.FromRules, T.FromRules;
  }

  lemma AllReplaysRemembered(db: Tables, db': Tables)
    requires Remembers(db, db') && DecisionsReplay(db) && QuotesReplay(db)
    ensures forall i :: 0 <= i < |db.decisions| ==> DecisionReplays(db', db.decisions[i])
    ensures forall i :: 0 <= i < |db.quotes| ==> QuoteReplays(db', db.quotes[i])
  {
    hide Remembers, DecisionReplays, QuoteReplays;
    ReplaysRemembered(db, db');
  }

  // ----- intake

  lemma IntakeKeepsValid(db: Tables, id: string, intake: Intake, actor: string)
    requires Valid(db) && FindSubmission(db.submissions, id).None?
    ensures Valid(CreateSubmission(db, id, intake, actor).value)
  {
    hide Of, Latest, BindingsOf, FindSubmission, GetVersion, Price, FactsFrom, PricedFacts, A.Assess, A.FromRules;
    hide T.FromRules;
    var db' := CreateSubmission(db, id, intake, actor).value;
    var s, entry := db'.submissions[|db.submissions|], db'.audit[|db.audit|];
    forall x ensures FindSubmission(db'.submissions, x) == if x
        == id then Some(s) else FindSubmission(db.submissions, x) {
      if FindSubmission(db.submissions, x).Some? {
        FindSubmissionStays(db.submissions, [s], x);
      } else {
        FindSubmissionNew(db.submissions, s, x);
      }
    }
    forall x | Known(db', x) ensures AuditedFor(db', x) {
      OfAppend(db.audit, entry, x);
      if x == id {
        UnknownIsEmpty(db, id);
        assert [] + [entry] == [entry];
      } else {
        assert AuditedFor(db, x);
      }
    }
    SubmissionsKeyed(db, s);
    AllReplaysRemembered(db, db');
    assert BindingsFit(db') by {
      forall i | 0 <= i < |db'.bindings| ensures BindingFits(db', db'.bindings[i]) {
        assert BindingFits(db, db.bindings[i]);
      }
    }
  }

  lemma SubmissionsKeyed(db: Tables, s: Submission)
    requires Keyed(db) && FindSubmission(db.submissions, s.id).None?
    ensures Keyed(db.(submissions := db.submissions + [s]))
  {
    hide FindSubmission;
    FoundSubmission(db.submissions, s.id);
  }

  // ----- assess

  lemma DecisionKeepsValid(db: Tables, submission: string, decision: Decision)
    requires Valid(db) && BindingOf(db.bindings, submission).None?
    requires DecisionReplays(db, Row(submission, db.clock, decision))
    ensures Valid(InsertDecision(db, submission, decision))
  {
    hide Of, Latest, BindingsOf, FindSubmission, GetVersion, Price, FactsFrom, PricedFacts, A.Assess, A.FromRules;
    hide T.FromRules;
    var db' := InsertDecision(db, submission, decision);
    var row, entry := db'.decisions[|db.decisions|], db'.audit[|db.audit|];
    LatestAppend(db.audit, entry, submission, db.clock);
    forall x ensures Latest(db'.decisions, x) == if x == submission then Some(row) else Latest(db.decisions, x)
             ensures Of(db'.decisions, x) == if x
                     == submission then Of(db.decisions, x) + [row] else Of(db.decisions, x) {
      LatestAppend(db.decisions, row, x, db.clock);
      OfAppend(db.decisions, row, x);
    }
    forall x | Known(db', x) ensures AuditedFor(db', x) {
      assert AuditedFor(db, x);
      OfAppend(db.audit, entry, x);
      if x == submission {
        ReplayAppend(Of(db.audit, x), entry);
      }
    }
    AllReplaysRemembered(db, db');
    UnboundEverywhere(db, submission);
    assert BindingsFit(db') by {
      forall i | 0 <= i < |db'.bindings| ensures BindingFits(db', db'.bindings[i]) {
        assert BindingFits(db, db.bindings[i]);
      }
    }
    LatestAppend(db.decisions, row, submission, db.clock);
  }

  // ----- quote

  lemma QuoteKeepsValid(db: Tables, submission: string, quote: Quote)
    requires Valid(db) && BindingOf(db.bindings, submission).None?
    requires Latest(db.decisions, submission).Some? && Latest(db.decisions, submission).value.body.outcome != A.Decline
    requires forall i :: 0 <= i < |db.quotes| ==> db.quotes[i].body.id != quote.id
    requires QuoteReplays(db, Row(submission, db.clock, quote))
    ensures Valid(InsertQuote(db, submission, quote))
  {
    hide Of, Latest, BindingsOf, FindSubmission, GetVersion, Price, FactsFrom, PricedFacts, A.Assess, A.FromRules;
    hide T.FromRules;
    var db' := InsertQuote(db, submission, quote);
    var row, entry := db'.quotes[|db.quotes|], db'.audit[|db.audit|];
    LatestAppend(db.audit, entry, submission, db.clock);
    forall x ensures Latest(db'.quotes, x) == if x == submission then Some(row) else Latest(db.quotes, x)
             ensures Of(db'.quotes, x) == if x == submission then Of(db.quotes, x) + [row] else Of(db.quotes, x) {
      LatestAppend(db.quotes, row, x, db.clock);
      OfAppend(db.quotes, row, x);
    }
    forall x | Known(db', x) ensures AuditedFor(db', x) {
      assert AuditedFor(db, x);
      OfAppend(db.audit, entry, x);
      if x == submission {
        ReplayAppend(Of(db.audit, x), entry);
      }
    }
    AllReplaysRemembered(db, db');
    UnboundEverywhere(db, submission);
    assert BindingsFit(db') by {
      forall i | 0 <= i < |db'.bindings| ensures BindingFits(db', db'.bindings[i]) {
        assert BindingFits(db, db.bindings[i]);
      }
    }
    LatestAppend(db.quotes, row, submission, db.clock);
  }

  // ----- versions

  lemma VersionKept<R>(rows: seq<Version<R>>, version: int, rules: R)
    requires VersionsDistinct(rows)
    ensures VersionsDistinct(CreateVersion(rows, version, rules))
    ensures forall v :: GetVersion(rows, v).Some? ==>
              GetVersion(CreateVersion(rows, version, rules), v) == GetVersion(rows, v)
  {
    hide GetVersion;
    VersionMissing(rows, version);
    forall v | GetVersion(rows, v).Some?
      ensures GetVersion(CreateVersion(rows, version, rules), v) == GetVersion(rows, v)
    {
      VersionStays(rows, [Version(version, rules)], v);
    }
  }

  /** More versions change nothing that was computed from the earlier ones. */
  lemma VersionsKeepValid(db: Tables, rulesets: seq<Version<A.AppetiteRules>>, rateTables: seq<Version<T.RateRules>>)
    requires Valid(db) && VersionsDistinct(rulesets) && VersionsDistinct(rateTables)
    requires forall v :: GetVersion(db.rulesets, v).Some? ==> GetVersion(rulesets, v) == GetVersion(db.rulesets, v)
    requires forall v :: GetVersion(db.rateTables, v).Some? ==>
               GetVersion(rateTables, v) == GetVersion(db.rateTables, v)
    ensures Valid(db.(rulesets := rulesets, rateTables := rateTables))
  {
    hide Of, Latest, BindingsOf, FindSubmission, GetVersion, Price, FactsFrom, PricedFacts, A.Assess, A.FromRules;
    hide T.FromRules;
    var db' := db.(rulesets := rulesets, rateTables := rateTables);
    forall x | Known(db', x) ensures AuditedFor(db', x) {
      assert AuditedFor(db, x);
    }
    AllReplaysRemembered(db, db');
    assert BindingsFit(db') by {
      forall i | 0 <= i < |db'.bindings| ensures BindingFits(db', db'.bindings[i]) {
        assert BindingFits(db, db.bindings[i]);
      }
    }
  }

  lemma NewRulesetKeepsValid(db: Tables, version: int, rules: A.AppetiteRules)
    requires Valid(db)
    ensures Valid(db.(rulesets := CreateVersion(db.rulesets, version, rules)))
  {
    hide CreateVersion, GetVersion, Chronological, DecisionsReplay, QuotesReplay, BindingsFit, AuditKnown, Audited;
    VersionKept(db.rulesets, version, rules);
    VersionsKeepValid(db, CreateVersion(db.rulesets, version, rules), db.rateTables);
  }

  lemma NewRateTableKeepsValid(db: Tables, version: int, rules: T.RateRules)
    requires Valid(db)
    ensures Valid(db.(rateTables := CreateVersion(db.rateTables, version, rules)))
  {
    hide CreateVersion, GetVersion, Chronological, DecisionsReplay, QuotesReplay, BindingsFit, AuditKnown, Audited;
    VersionKept(db.rateTables, version, rules);
    VersionsKeepValid(db, db.rulesets, CreateVersion(db.rateTables, version, rules));
  }

  lemma SeedKeepsValid(db: Tables)
    requires Valid(db)
    ensures Valid(Seed(db))
  {
    hide Valid, CreateVersion, Current;
    var first := if Current(db.rulesets).Some? then db else db.(rulesets := CreateVersion(db.rulesets, 1, A.V1_RULES));
    NewRulesetKeepsValid(db, 1, A.V1_RULES);
    var second :=
      if Current(db.rateTables).Some? then first else first.(rateTables := CreateVersion(db.rateTables, 1, T.V1_RULES));
    NewRateTableKeepsValid(first, 1, T.V1_RULES);
    NewRateTableKeepsValid(second, 2, T.V2_RULES);
    assert Seed(db) == second.(rateTables := CreateVersion(second.rateTables, 2, T.V2_RULES));
  }

  // ----- bind

  lemma ReplaysKept(db: Tables, db': Tables)
    requires DecisionsReplay(db) && QuotesReplay(db)
    requires db' == db.(bindings := db'.bindings, audit := db'.audit, clock := db'.clock)
    ensures DecisionsReplay(db') && QuotesReplay(db')
  {
    hide FindSubmission, GetVersion, DecisionReplays, QuoteReplays;
    AllReplaysRemembered(db, db');
  }

  lemma BindingsFitAppend(db: Tables, quote: Row<Quote>, binding: Binding, db': Tables)
    requires BindingsFit(db)
    requires GuardBind(db, quote.submission) == Ok(Proceeds(quote))
    requires binding.submission == quote.submission && binding.quote == quote.body.id
    requires db' == db.(bindings := db.bindings + [binding], audit := db'.audit, clock := db'.clock)
    ensures BindingsFit(db')
    ensures forall x :: BindingsOf(db'.bindings, x)
                        == if x == quote.submission then [binding] else BindingsOf(db.bindings, x)
  {
    hide Latest, BindingsOf, FindSubmission;
    forall x ensures BindingsOf(db'.bindings, x)
                     == if x == quote.submission then [binding] else BindingsOf(db.bindings, x) {
      BindingsAppend(db.bindings, binding, x);
      assert [] + [binding] == [binding];
    }
    UnboundEverywhere(db, quote.submission);
    forall i | 0 <= i < |db'.bindings| ensures BindingFits(db', db'.bindings[i]) {
      assert i < |db.bindings| ==> BindingFits(db, db.bindings[i]);
    }
  }

  lemma BindKeepsValid(db: Tables, quote: Row<Quote>, number: string, policy: string, published: bool, actor: string)
    requires Valid(db)
    requires GuardBind(db, quote.submission) == Ok(Proceeds(quote))
    requires InsertBinding(db, quote, number, policy, published, actor).Ok?
    ensures Valid(InsertBinding(db, quote, number, policy, published, actor).value)
  {
    hide Of, Latest, BindingsOf, FindSubmission, DecisionsReplay, QuotesReplay, BindingsFit;
    var db' := InsertBinding(db, quote, number, policy, published, actor).value;
    var binding, entry := db'.bindings[|db.bindings|], db'.audit[|db.audit|];
    ReplaysKept(db, db');
    BindingsFitAppend(db, quote, binding, db');
    LatestAppend(db.audit, entry, quote.submission, db.clock);
    forall x | Known(db', x) ensures AuditedFor(db', x) {
      assert AuditedFor(db, x);
      OfAppend(db.audit, entry, x);
      if x == quote.submission {
        ReplayAppend(Of(db.audit, x), entry);
      }
    }
  }

  // ----- every action

  lemma RequestKeepsValid(db: Tables, request: Request)
    requires Valid(db)
    ensures Valid(Committed(db, Route(db, request)))
  {
    hide Valid, CreateSubmission, InsertDecision, InsertQuote, Seed, CreateVersion, Decide, PriceQuote, BindingOf;
    hide FindSubmission;
    if Route(db, request).Ok? {
      match request
      case Create(id, intake, actor) =>
        IntakeRefusesDuplicates(db, id, intake, actor);
        IntakeKeepsValid(db, id, intake, actor);
      case Assess(submission, actor) =>
        HasKeys(db);
        DecidedReplays(db, submission, actor);
        DecisionKeepsValid(db, submission, Decide(db, submission, actor).value);
      case MakeQuote(submission, id, actor) =>
        HasKeys(db);
        PricedReplays(db, submission, id, actor);
        QuoteKeepsValid(db, submission, PriceQuote(db, submission, id, actor).value);
      case NewRuleset(version, rules) => NewRulesetKeepsValid(db, version, rules);
      case NewRateTable(version, rules) => NewRateTableKeepsValid(db, version, rules);
      case Restart => SeedKeepsValid(db);
    }
  }

  lemma HasKeys(db: Tables)
    requires Valid(db)
    ensures Keyed(db)
  {
  }

  lemma IntakeRefusesDuplicates(db: Tables, id: string, intake: Intake, actor: string)
    requires CreateSubmission(db, id, intake, actor).Ok?
    ensures FindSubmission(db.submissions, id).None?
  {
  }

  /** A fresh decision is what its recorded ruleset says. */
  lemma DecidedReplays(db: Tables, submission: string, actor: string)
    requires Keyed(db) && Decide(db, submission, actor).Ok?
    ensures DecisionReplays(db, Row(submission, db.clock, Decide(db, submission, actor).value))
  {
    hide FindSubmission, GetVersion, Current, A.Assess, A.FromRules, Chronological, DecisionsReplay, QuotesReplay;
    hide BindingsFit;
    hide AuditKnown, Audited;
    CurrentIsStored(db.rulesets);
    VersionFound(db.rulesets, Current(db.rulesets).value);
  }

  /** A fresh quote is what its recorded table makes of its stored manifest. */
  lemma PricedReplays(db: Tables, submission: string, id: string, actor: string)
    requires Keyed(db) && PriceQuote(db, submission, id, actor).Ok?
    ensures var quote := PriceQuote(db, submission, id, actor).value;
            && QuoteReplays(db, Row(submission, db.clock, quote))
            && Latest(db.decisions, submission).Some?
            && Latest(db.decisions, submission).value.body.outcome != A.Decline
            && forall i :: 0 <= i < |db.quotes| ==> db.quotes[i].body.id != quote.id
  {
    hide FindSubmission, GetVersion, Current, Latest, ManifestOf, PricedFacts, FactsFrom, T.FromRules, PriceOf, InBand;
    hide Printable, TechnicalPath, FullPath, Base;
    CurrentIsStored(db.rateTables);
    VersionFound(db.rateTables, Current(db.rateTables).value);
    ManifestReadsBack(FindSubmission(db.submissions, submission).value);
    var stored := Current(db.rateTables).value;
    PriceNamesVersion(PricedFacts(FindSubmission(db.submissions, submission).value), stored);
  }

  lemma PriceNamesVersion(facts: Facts, stored: Version<T.RateRules>)
    requires T.FromRules(stored.version, stored.rules).Some?
    requires Price(facts, T.FromRules(stored.version, stored.rules).value).Ok?
    ensures Price(facts, T.FromRules(stored.version, stored.rules).value).value.rateTableVersion == stored.version
  {
    hide TechnicalPath, FullPath, CommercialPath, LossSteps, Printable, InBand, Base, Trail, T.Or, T.ParseFactors;
    hide T.ParseAdjustments;
  }

  lemma PerformKeepsValid(db: Tables, action: Action)
    requires Valid(db)
    ensures Valid(Perform(db, action))
  {
    hide Valid, InsertBinding, GuardBind, Route;
    match action
    case Ask(request) => RequestKeepsValid(db, request);
    case CommitBind(submission, number, policy, published, actor) =>
      var guard := GuardBind(db, submission);
      if guard.Ok? && guard.value.Proceeds?
          && InsertBinding(db, guard.value.quote, number, policy, published, actor).Ok? {
        GuardedQuoteIsLatest(db, submission);
        BindKeepsValid(db, guard.value.quote, number, policy, published, actor);
      }
  }

  lemma GuardedQuoteIsLatest(db: Tables, submission: string)
    requires GuardBind(db, submission).Ok? && GuardBind(db, submission).value.Proceeds?
    ensures GuardBind(db, submission).value.quote.submission == submission
  {
    hide FindSubmission, Latest, BindingOf;
    LatestFound(db.quotes, submission);
  }

  /**
   * In every serial run from the empty tables: every stored decision and quote replays from its
   * recorded version, every audit log replays to the current state, and every binding fits.
   */
  lemma {:induction false} RunsAreValid(actions: seq<Action>)
    ensures Valid(Serve(EMPTY, actions))
  {
    hide Valid, Perform;
    if actions == [] {
      EmptyIsValid();
    } else {
      RunsAreValid(actions[..|actions| - 1]);
      PerformKeepsValid(Serve(EMPTY, actions[..|actions| - 1]), actions[|actions| - 1]);
    }
  }

  lemma EmptyIsValid()
    ensures Valid(EMPTY)
  {
  }
}
