/**
 * Stored decisions and quotes under interleaving. Whatever overlaps with whatever, and even where a
 * request slips past the freeze, every stored row is still computed by its recorded version.
 */
module BindHistory {
  import opened Wrappers
  import opened Store
  import opened Lifecycle
  import opened History
  import opened HistoryRuns
  import opened BindProtocol
  import opened BindSafety
  import A = Appetite
  import T = RatingTables

  predicate Replaying(db: Tables) {
    DecisionsReplay(db) && QuotesReplay(db)
  }

  predicate RowsStay(a: Tables, b: Tables) {
    a.decisions <= b.decisions && a.quotes <= b.quotes
  }

  // ----- requests behind no guard

  lemma IntakeRemembers(db: Tables, s: Submission, audit: seq<Row<Audit>>, clock: nat)
    ensures Remembers(db, db.(submissions := db.submissions + [s], audit := audit, clock := clock))
  {
    hide FindSubmission, GetVersion;
    forall x | FindSubmission(db.submissions, x).Some?
      ensures FindSubmission(db.submissions + [s], x) == FindSubmission(db.submissions, x)
    {
      FindSubmissionStays(db.submissions, [s], x);
    }
  }

  lemma VersionsRemember(db: Tables, rulesets: seq<Version<A.AppetiteRules>>, rateTables: seq<Version<T.RateRules>>)
    requires forall v :: GetVersion(db.rulesets, v).Some? ==> GetVersion(rulesets, v) == GetVersion(db.rulesets, v)
    requires forall v :: GetVersion(db.rateTables, v).Some? ==>
               GetVersion(rateTables, v) == GetVersion(db.rateTables, v)
    ensures Remembers(db, db.(rulesets := rulesets, rateTables := rateTables))
  {
    hide FindSubmission, GetVersion;
  }

  lemma SeedRemembers(db: Tables)
    requires Keyed(db)
    ensures Remembers(db, Seed(db))
  {
    hide CreateVersion, Current, GetVersion, Remembers;
    var first := if Current(db.rateTables).Some? then db.rateTables else CreateVersion(db.rateTables, 1, T.V1_RULES);
    VersionKept(db.rulesets, 1, A.V1_RULES);
    VersionKept(db.rateTables, 1, T.V1_RULES);
    VersionKept(first, 2, T.V2_RULES);
    VersionsRemember(db, Seed(db).rulesets, Seed(db).rateTables);
  }

  /** A row set that grows by a replaying row keeps replaying. */
  lemma GrowsReplaying(db: Tables, db': Tables)
    requires Replaying(db) && Remembers(db, db') && RowsStay(db, db')
    requires forall i :: |db.decisions| <= i < |db'.decisions| ==> DecisionReplays(db', db'.decisions[i])
    requires forall i :: |db.quotes| <= i < |db'.quotes| ==> QuoteReplays(db', db'.quotes[i])
    ensures Replaying(db')
  {
    hide Remembers, DecisionReplays, QuoteReplays;
    AllReplaysRemembered(db, db');
    assert forall i :: 0 <= i < |db.decisions| ==> db'.decisions[i] == db.decisions[i];
    assert forall i :: 0 <= i < |db.quotes| ==> db'.quotes[i] == db.quotes[i];
  }

  lemma SameRegisters(db: Tables, db': Tables)
    requires db'.submissions == db.submissions && db'.rulesets == db.rulesets && db'.rateTables == db.rateTables
    ensures Remembers(db, db')
    ensures forall row :: DecisionReplays(db, row) ==> DecisionReplays(db', row)
    ensures forall row :: QuoteReplays(db, row) ==> QuoteReplays(db', row)
  {
    hide FindSubmission, GetVersion, DecisionReplays, QuoteReplays;
    ReplaysRemembered(db, db');
  }

  lemma ServiceReplays(db: Tables, request: Request)
    requires Keyed(db) && Replaying(db)
    ensures Replaying(Committed(db, Service(db, request))) && RowsStay(db, Committed(db, Service(db, request)))
  {
    hide Keyed, Replaying, Remembers, DecisionReplays, QuoteReplays, FindSubmission, CreateVersion, Seed, Decide;
    hide PriceQuote;
    hide GetVersion;
    var db' := Committed(db, Service(db, request));
    if Service(db, request).Ok? {
      match request {
        case Create(id, intake, actor) =>
          IntakeRemembers(db, db'.submissions[|db.submissions|], db'.audit, db'.clock);
        case Assess(submission, actor) =>
          SameRegisters(db, db');
          DecidedReplays(db, submission, actor);
        case MakeQuote(submission, id, actor) =>
          SameRegisters(db, db');
          PricedReplays(db, submission, id, actor);
        case NewRuleset(version, rules) =>
          KeptVersions(db);
          VersionKept(db.rulesets, version, rules);
          VersionsRemember(db, db'.rulesets, db'.rateTables);
        case NewRateTable(version, rules) =>
          KeptVersions(db);
          VersionKept(db.rateTables, version, rules);
          VersionsRemember(db, db'.rulesets, db'.rateTables);
        case Restart =>
          SeedKeepsKeys(db);
          SeedRemembers(db);
      }
      GrowsReplaying(db, db');
    }
  }

  lemma KeptVersions(db: Tables)
    requires Keyed(db)
    ensures VersionsDistinct(db.rulesets) && VersionsDistinct(db.rateTables)
  {
  }

  // ----- every interleaved run

  lemma DoTables(config: Config, shared: Shared, a: Attempt, call: Call)
    ensures var db, db' := shared.db, Do(config, shared, a, call).0.db;
            db' == db.(bindings := db'.bindings, audit := db'.audit, clock := db'.clock)
  {
    hide Taken, Resolve, Transition;
  }

  lemma ApplyReplays(config: Config, w: World, step: Step)
    requires Inv(config, w) && Replaying(w.shared.db)
    ensures var db' := Apply(config, w, step).shared.db; Replaying(db') && RowsStay(w.shared.db, db')
  {
    hide Inv, Do, StartBind, Service, DecisionsReplay, QuotesReplay;
    match step
    case Begin(_, _, _) =>
    case Take(key, call) =>
      if key in w.attempts {
        DoTables(config, w.shared, w.attempts[key], call);
        ReplaysKept(w.shared.db, Do(config, w.shared, w.attempts[key], call).0.db);
      }
    case Crash(_) =>
    case Other(request) =>
      KeysFit(config, w);
      ServiceReplays(w.shared.db, request);
  }

  lemma {:induction false} RunReplays(config: Config, w: World, steps: seq<Step>)
    requires Inv(config, w) && Replaying(w.shared.db)
    ensures var db' := Run(config, w, steps).shared.db; Replaying(db') && RowsStay(w.shared.db, db')
  {
    hide Inv, Apply, Replaying;
    if steps != [] {
      RunReplays(config, w, steps[..|steps| - 1]);
      RunKeepsInv(config, w, steps[..|steps| - 1]);
      ApplyReplays(config, Run(config, w, steps[..|steps| - 1]), steps[|steps| - 1]);
    }
  }

  lemma StartReplays()
    ensures Replaying(START.shared.db)
  {
  }

  /**
   * In every interleaved run, freeze or no freeze, a decision or a quote once stored is still there and
   * still computed by its recorded version after any later steps.
   */
  lemma StoredRowsReplayForever(config: Config, before: seq<Step>, after: seq<Step>, d: nat, q: nat)
    requires var db := Run(config, START, before).shared.db; d < |db.decisions| && q < |db.quotes|
    ensures var w := Run(config, START, before);
            var db, later := w.shared.db, Run(config, w, after).shared.db;
            && d < |later.decisions| && later.decisions[d] == db.decisions[d] && DecisionReplays(later, db.decisions[d])
            && q < |later.quotes| && later.quotes[q] == db.quotes[q] && QuoteReplays(later, db.quotes[q])
  {
    hide Run, Inv, DecisionReplays, QuoteReplays;
    StartReplays();
    StartIsSafe(config);
    RunReplays(config, START, before);
    RunsAreSafe(config, before);
    RunReplays(config, Run(config, START, before), after);
  }
}
