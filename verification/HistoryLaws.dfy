/** What the invariant of serial runs says to a reader of the tables. */
module HistoryLaws {
  import opened Text
  import opened Wrappers
  import opened RatingEngine
  import opened Store
  import opened Lifecycle
  import opened History
  import opened HistoryRuns
  import opened DecimalValue
  import opened RatingValue
  import A = Appetite
  import T = RatingTables
  import V2 = RatingV2

  // ----- the shape of an audit log

  datatype Kind = Creation | Assessment | Quotation | Bind

  function KindOf(event: AuditEvent): Kind {
    match event
    case Created(_, _) => Creation
    case Assessed(_, _, _) => Assessment
    case Quoted(_, _, _) => Quotation
    case Bound(_, _, _, _, _, _) => Bind
  }

  function Count(entries: seq<Row<Audit>>, kind: Kind): nat {
    if entries == [] then 0
    else Count(entries[..|entries| - 1], kind) + if KindOf(entries[|entries| - 1].body.event) == kind then 1 else 0
  }

  /** The outcome of the last assessment in a log. */
  function LastOutcome(entries: seq<Row<Audit>>): Option<A.Outcome> {
    if entries == [] then None
    else
      match entries[|entries| - 1].body.event
      case Assessed(_, outcome, _) => Some(outcome)
      case _ => LastOutcome(entries[..|entries| - 1])
  }

  /** One creation first, every quote under a last assessment that does not decline, and a bind only at the very end. */
  predicate WellFormed(entries: seq<Row<Audit>>) {
    && entries != []
    && forall i :: 0 <= i < |entries| ==> FitsAt(entries, i)
  }

  predicate FitsAt(entries: seq<Row<Audit>>, i: nat)
    requires i < |entries|
  {
    match KindOf(entries[i].body.event)
    case Creation => i == 0
    case Assessment => i > 0
    case Quotation => i > 0 && LastOutcome(entries[..i]).Some? && LastOutcome(entries[..i]).value != A.Decline
    case Bind => i > 0 && i == |entries| - 1 && LastOutcome(entries[..i]) == Some(A.Accept)
  }

  /** A log that replays is well formed, and its replay counts its entries. */
  lemma {:induction false} ReplayMeans(entries: seq<Row<Audit>>)
    requires Replay(entries).Some?
    ensures WellFormed(entries)
    ensures var s := Replay(entries).value;
            && (forall outcome :: Says(s.verdict, outcome) <==> LastOutcome(entries) == Some(outcome))
            && (s.verdict.Some? <==> LastOutcome(entries).Some?)
            && (s.verdict.Some? ==> s.verdict.value.event.Assessed?)
            && s.assessed == Count(entries, Assessment)
            && s.quoted == Count(entries, Quotation)
            && s.binds == Count(entries, Bind)
            && (s.deal.Some? <==> s.binds == 1) && s.binds <= 1
            && Count(entries, Creation) == 1
            && (s.deal.Some? <==> KindOf(entries[|entries| - 1].body.event) == Bind)
  {
    var n := |entries| - 1;
    if n == 0 {
      assert entries[..0] == [];
    } else {
      ReplayMeans(entries[..n]);
      forall i | 0 <= i < |entries| ensures FitsAt(entries, i) {
        if i < n {
          assert entries[..n][i] == entries[i];
          assert entries[..n][..i] == entries[..i];
          assert FitsAt(entries[..n], i);
        }
      }
    }
  }

  /**
   * In every serial run the audit log of a submission is a creation, then assessments and quotes, each
   * quote under a last assessment that does not decline, then at most one bind. Its last entry of each
   * kind says what the latest row of that kind says, by whom, and it has as many entries as there are rows.
   */
  lemma AuditTellsTheState(actions: seq<Action>, id: string)
    requires Known(Serve(EMPTY, actions), id)
    ensures var db := Serve(EMPTY, actions);
            var log, decision, quote := Of(db.audit, id), Latest(db.decisions, id), Latest(db.quotes, id);
            && WellFormed(log)
            && Replay(log) == Some(SummaryOf(db, id))
            && LastOutcome(log) == (if decision.Some? then Some(decision.value.body.outcome) else None)
            && Count(log, Creation) == 1
            && Count(log, Assessment) == |Of(db.decisions, id)|
            && Count(log, Quotation) == |Of(db.quotes, id)|
            && Count(log, Bind) == |BindingsOf(db.bindings, id)| <= 1
            && (BindingOf(db.bindings, id).Some? <==> KindOf(log[|log| - 1].body.event) == Bind)
  {
    hide Serve, Of, Latest, BindingsOf, FindSubmission, WellFormed, Replay, Count, LastOutcome;
    hide Chronological, Keyed, DecisionsReplay, QuotesReplay, BindingsFit, AuditKnown;
    RunsAreValid(actions);
    var db := Serve(EMPTY, actions);
    assert AuditedFor(db, id);
    ReplayMeans(Of(db.audit, id));
    var decision := Latest(db.decisions, id);
    if decision.Some? {
      assert Says(SummaryOf(db, id).verdict, decision.value.body.outcome);
    }
  }

  // ----- nothing is ever taken back

  /** Every table of `b` starts with the rows of `a`. */
  predicate Extends(a: Tables, b: Tables) {
    && a.submissions <= b.submissions && a.decisions <= b.decisions && a.quotes <= b.quotes
    && a.bindings <= b.bindings && a.audit <= b.audit
    && a.rulesets <= b.rulesets && a.rateTables <= b.rateTables
    && a.clock <= b.clock
  }

  lemma PerformExtends(db: Tables, action: Action)
    ensures Extends(db, Perform(db, action))
  {
    hide FindSubmission, Latest, BindingOf, Current, GetVersion, Decide, PriceQuote;
  }

  /** Rows are only ever added: later decisions, versions or seeds never touch an earlier row. */
  lemma {:induction false} ServeExtends(db: Tables, actions: seq<Action>)
    ensures Extends(db, Serve(db, actions))
  {
    hide Perform;
    if actions != [] {
      ServeExtends(db, actions[..|actions| - 1]);
      PerformExtends(Serve(db, actions[..|actions| - 1]), actions[|actions| - 1]);
    }
  }

  lemma {:induction false} ServeKeepsValid(db: Tables, actions: seq<Action>)
    requires Valid(db)
    ensures Valid(Serve(db, actions))
  {
    hide Valid, Perform;
    if actions != [] {
      ServeKeepsValid(db, actions[..|actions| - 1]);
      PerformKeepsValid(Serve(db, actions[..|actions| - 1]), actions[|actions| - 1]);
    }
  }

  /**
   * A decision or a quote, once stored, is still computed by its recorded version after any later
   * actions, whatever versions those add and however often the service restarts.
   */
  lemma StoredRowsReplayForever(before: seq<Action>, after: seq<Action>, d: nat, q: nat)
    requires d < |Serve(EMPTY, before).decisions| && q < |Serve(EMPTY, before).quotes|
    ensures var db, later := Serve(EMPTY, before), Serve(Serve(EMPTY, before), after);
            && d < |later.decisions| && later.decisions[d] == db.decisions[d] && DecisionReplays(later, db.decisions[d])
            && q < |later.quotes| && later.quotes[q] == db.quotes[q] && QuoteReplays(later, db.quotes[q])
  {
    hide Serve, DecisionReplays, QuoteReplays, Chronological, Keyed, BindingsFit, AuditKnown, Audited;
    RunsAreValid(before);
    ServeExtends(Serve(EMPTY, before), after);
    ServeKeepsValid(Serve(EMPTY, before), after);
  }

  // ----- the frozen state

  /** The rows of a submission in every table. */
  predicate SameFor(a: Tables, b: Tables, id: string) {
    && Of(a.decisions, id) == Of(b.decisions, id) && Latest(a.decisions, id) == Latest(b.decisions, id)
    && Of(a.quotes, id) == Of(b.quotes, id) && Latest(a.quotes, id) == Latest(b.quotes, id)
    && Of(a.audit, id) == Of(b.audit, id)
    && BindingsOf(a.bindings, id) == BindingsOf(b.bindings, id)
    && FindSubmission(a.submissions, id) == FindSubmission(b.submissions, id)
  }

  lemma OtherRow<X>(rows: seq<Row<X>>, row: Row<X>, id: string)
    requires row.submission != id
    ensures Of(rows + [row], id) == Of(rows, id) && Latest(rows + [row], id) == Latest(rows, id)
  {
    assert (rows + [row])[..|rows|] == rows;
  }

  lemma RequestLeavesBound(db: Tables, request: Request, id: string)
    requires Valid(db) && BindingOf(db.bindings, id).Some?
    ensures SameFor(db, Committed(db, Route(db, request)), id)
  {
    hide Of, Latest, BindingsOf, FindSubmission, Current, GetVersion, Decide, PriceQuote, Seed, CreateVersion;
    hide Chronological, Keyed, DecisionsReplay, QuotesReplay, AuditKnown, Audited;
    BindingsFound(db.bindings, id);
    var db' := Committed(db, Route(db, request));
    if Route(db, request).Ok? {
      match request
      case Create(x, intake, actor) =>
        FindSubmissionStays(db.submissions, [db'.submissions[|db.submissions|]], id);
        OtherRow(db.audit, db'.audit[|db.audit|], id);
      case Assess(x, actor) =>
        OtherRow(db.audit, db'.audit[|db.audit|], id);
        OtherRow(db.decisions, db'.decisions[|db.decisions|], id);
      case MakeQuote(x, quoteId, actor) =>
        OtherRow(db.audit, db'.audit[|db.audit|], id);
        OtherRow(db.quotes, db'.quotes[|db.quotes|], id);
      case NewRuleset(_, _) =>
      case NewRateTable(_, _) =>
      case Restart => SeedOnlyVersions(db);
    }
  }

  lemma SeedOnlyVersions(db: Tables)
    ensures Seed(db) == db.(rulesets := Seed(db).rulesets, rateTables := Seed(db).rateTables)
  {
  }

  lemma CommitLeavesBound(db: Tables, action: Action, id: string)
    requires action.CommitBind? && BindingOf(db.bindings, id).Some?
    ensures SameFor(db, Perform(db, action), id)
  {
    hide Of, Latest, BindingsOf, FindSubmission;
    var db' := Perform(db, action);
    if db' != db {
      GuardedQuoteIsLatest(db, action.submission);
      BindingsAppend(db.bindings, db'.bindings[|db.bindings|], id);
      OtherRow(db.audit, db'.audit[|db.audit|], id);
    }
  }

  /**
   * Once a submission is bound, no action of any kind changes its decisions, its quotes, its audit log
   * or its binding.
   */
  lemma {:induction false} BoundIsFrozen(db: Tables, actions: seq<Action>, id: string)
    requires Valid(db) && BindingOf(db.bindings, id).Some?
    ensures SameFor(db, Serve(db, actions), id)
  {
    hide Valid, Of, Latest, BindingsOf, FindSubmission, Route, GuardBind, InsertBinding;
    if actions != [] {
      var before, last := Serve(db, actions[..|actions| - 1]), actions[|actions| - 1];
      BoundIsFrozen(db, actions[..|actions| - 1], id);
      ServeKeepsValid(db, actions[..|actions| - 1]);
      match last
      case Ask(request) => RequestLeavesBound(before, request, id);
      case CommitBind(_, _, _, _, _) => CommitLeavesBound(before, last, id);
    }
  }

  /**
   * In every serial run a binding is the only one of its submission, of its latest quote, and under a
   * latest decision whose recorded ruleset the risk still keeps: its line of business is allowed, its
   * insured value within authority, its occupancy not excluded and its country not sanctioned.
   */
  lemma BoundRisksAreWithinAppetite(actions: seq<Action>, b: Binding)
    requires b in Serve(EMPTY, actions).bindings
    ensures var db := Serve(EMPTY, actions);
            var s, decision := FindSubmission(db.submissions, b.submission), Latest(db.decisions, b.submission);
            && BindingFits(db, b)
            && s.Some? && decision.Some?
            && var ruleset := GetVersion(db.rulesets, decision.value.body.appetiteVersion);
            && ruleset.Some?
            && s.value.lineOfBusiness in ruleset.value.rules.allowedLobs
            && s.value.tivEur <= ruleset.value.rules.maxTivEur
            && s.value.occupancy !in ruleset.value.rules.excludedOccupancies
            && forall c :: c in ruleset.value.rules.sanctionedCountries ==> !Alike(c, s.value.country)
  {
    hide Serve, Of, Latest, BindingsOf, FindSubmission, GetVersion, A.Assess, A.FromRules, Alike;
    hide Chronological, Keyed, QuotesReplay, AuditKnown, Audited;
    RunsAreValid(actions);
    var db := Serve(EMPTY, actions);
    assert BindingFits(db, b);
    LatestFound(db.decisions, b.submission);
    var row := Latest(db.decisions, b.submission).value;
    assert DecisionReplays(db, row);
    var s, ruleset := FindSubmission(db.submissions, b.submission).value,
        GetVersion(db.rulesets, row.body.appetiteVersion).value;
    A.StoredVerdictMeans(AppetiteFacts(s), ruleset.version, ruleset.rules);
  }

  /**
   * A risk bound under the first ruleset and priced by the second table was priced without any rounding
   * but the last: its stored premium is the half-up of the exact one.
   */
  lemma BoundRisksArePricedExactly(actions: seq<Action>, b: Binding)
    requires b in Serve(EMPTY, actions).bindings
    requires var db := Serve(EMPTY, actions);
             var s, decision, quote :=
               FindSubmission(db.submissions, b.submission), Latest(db.decisions, b.submission),
                   Latest(db.quotes, b.submission);
             && s.Some? && s.value.tivEur >= 0 && V2.Listed(PricedFacts(s.value))
             && decision.Some?
             && GetVersion(db.rulesets, decision.value.body.appetiteVersion) == Some(Version(1, A.V1_RULES))
             && quote.Some?
             && GetVersion(db.rateTables, quote.value.body.price.rateTableVersion) == Some(Version(2, T.V2_RULES))
    ensures var db := Serve(EMPTY, actions);
            var facts := PricedFacts(FindSubmission(db.submissions, b.submission).value);
            && Latest(db.quotes, b.submission).Some?
            && facts.occupancy in T.V2_TABLE.occupancyFactors
            && Latest(db.quotes, b.submission).value.body.price.premiumMinor
               == HalfUpReal(ExactPremium(facts, T.V2_TABLE))
  {
    hide Serve, Latest, BindingsOf, FindSubmission, GetVersion, T.FromRules, Price, HalfUpReal, ExactPremium;
    hide FactsFrom, T.Flags;
    hide Chronological, Keyed, AuditKnown, Audited, Of, BindingsFit, DecisionsReplay, BindingFits, DecisionReplays;
    hide ExactPure, ExactTechnical, ExactCommercial, RealRun, RealBase, FullPath;
    var db := Serve(EMPTY, actions);
    BoundRisksAreWithinAppetite(actions, b);
    RunsAreValid(actions);
    var facts := PricedFacts(FindSubmission(db.submissions, b.submission).value);
    assert facts.tivEur <= 1_000_000_000;
    LatestFound(db.quotes, b.submission);
    assert QuoteReplays(db, Latest(db.quotes, b.submission).value);
    T.V2Reads();
    V2.V2PricedExactly(facts);
  }

  // ----- versions

  lemma CurrentAppend<R>(rows: seq<Version<R>>, row: Version<R>)
    ensures Current(rows + [row]) == if Current(rows).Some?
            && Current(rows).value.version > row.version then Current(rows) else Some(row)
  {
    assert (rows + [row])[..|rows|] == rows;
  }

  /** A new highest version is what is current from then on; a lower one is stored beside it. */
  lemma HighestVersionIsCurrent<R>(rows: seq<Version<R>>, version: int, rules: R)
    requires VersionsDistinct(rows) && GetVersion(rows, version).None?
    ensures GetVersion(CreateVersion(rows, version, rules), version) == Some(Version(version, rules))
    ensures var before, after := Current(rows), Current(CreateVersion(rows, version, rules));
            after == if before.Some? && before.value.version > version then before else Some(Version(version, rules))
  {
    hide GetVersion, Current;
    VersionMissing(rows, version);
    CurrentAppend(rows, Version(version, rules));
    VersionFound(rows + [Version(version, rules)], Version(version, rules));
  }

  /** Startup leaves a current ruleset and the second table, keeps what is there, and does nothing the second time. */
  lemma SeedSettles(db: Tables)
    requires VersionsDistinct(db.rulesets) && VersionsDistinct(db.rateTables)
    ensures var seeded := Seed(db);
            && seeded == db.(rulesets := seeded.rulesets, rateTables := seeded.rateTables)
            && db.rulesets <= seeded.rulesets && db.rateTables <= seeded.rateTables
            && Current(seeded.rulesets).Some? && GetVersion(seeded.rateTables, 2).Some?
            && (db.rulesets != [] ==> seeded.rulesets == db.rulesets)
            && Seed(seeded) == seeded
  {
    hide GetVersion, Current;
    CurrentIsStored(db.rulesets);
    CurrentIsStored(db.rateTables);
    var first := if Current(db.rateTables).Some? then db.rateTables else CreateVersion(db.rateTables, 1, T.V1_RULES);
    VersionMissing(db.rulesets, 1);
    VersionMissing(db.rateTables, 1);
    VersionKept(db.rateTables, 1, T.V1_RULES);
    VersionKept(first, 2, T.V2_RULES);
    if GetVersion(first, 2).None? {
      HighestVersionIsCurrent(first, 2, T.V2_RULES);
    }
    CurrentIsStored(Seed(db).rulesets);
    CurrentIsStored(Seed(db).rateTables);
  }
}
