/**
 * What each use-case answers, said of the stored rows and the fields of the request alone: when there is a
 * decision, a quote or a bind, what it holds, and which refusal there is otherwise.
 */
module UseCases {
  import opened Wrappers
  import opened Text
  import opened Decimals
  import opened DecimalText
  import opened RatingEngine
  import opened Store
  import opened Lifecycle
  import opened History
  import A = Appetite
  import T = RatingTables

  // ----- tables in order

  /** Keys are unique, decisions and quotes take their times in order, and no submission has two bindings. */
  predicate Orderly(db: Tables) {
    && Keyed(db) && Ticking(db.decisions, db.clock) && Ticking(db.quotes, db.clock)
    && forall i, j :: 0 <= i < j < |db.bindings| ==> db.bindings[i].submission != db.bindings[j].submission
  }

  lemma {:induction false} OwnBinding(rows: seq<Binding>, i: nat)
    requires i < |rows|
    ensures rows[i] in BindingsOf(rows, rows[i].submission)
  {
    if i < |rows| - 1 {
      OwnBinding(rows[..|rows| - 1], i);
    }
  }

  lemma {:induction false} TwoBindings(rows: seq<Binding>, i: nat, j: nat)
    requires i < j < |rows| && rows[i].submission == rows[j].submission
    ensures |BindingsOf(rows, rows[i].submission)| >= 2
  {
    if j < |rows| - 1 {
      TwoBindings(rows[..|rows| - 1], i, j);
    } else {
      OwnBinding(rows[..|rows| - 1], i);
    }
  }

  /** The tables of every serial run are in order. */
  lemma ValidIsOrderly(db: Tables)
    requires Valid(db)
    ensures Orderly(db)
  {
    hide BindingsOf, Latest, FindSubmission, DecisionsReplay, QuotesReplay, AuditKnown, Audited, Ticking, Keyed;
    forall i, j | 0 <= i < j < |db.bindings| ensures db.bindings[i].submission != db.bindings[j].submission {
      assert BindingFits(db, db.bindings[i]);
      if db.bindings[i].submission == db.bindings[j].submission {
        TwoBindings(db.bindings, i, j);
      }
    }
  }

  // ----- what is stored

  predicate Stored(db: Tables, id: string) {
    exists s :: s in db.submissions && s.id == id
  }

  predicate BoundTo(db: Tables, id: string) {
    exists b :: b in db.bindings && b.submission == id
  }

  predicate HasDecision(db: Tables, id: string) {
    exists d :: d in db.decisions && d.submission == id
  }

  /** The latest decision of the submission has this outcome. */
  predicate LatestIs(db: Tables, id: string, outcome: A.Outcome) {
    exists d :: d in db.decisions && IsLatest(db.decisions, id, d) && d.body.outcome == outcome
  }

  lemma FindsStored(db: Tables, id: string)
    requires Keyed(db)
    ensures FindSubmission(db.submissions, id).Some? <==> Stored(db, id)
    ensures forall s :: s in db.submissions && s.id == id ==> FindSubmission(db.submissions, id) == Some(s)
  {
    hide FindSubmission;
    FoundSubmission(db.submissions, id);
  }

  lemma FindsBound(db: Tables, id: string)
    requires Orderly(db)
    ensures BindingOf(db.bindings, id).Some? <==> BoundTo(db, id)
    ensures forall b :: BindingOf(db.bindings, id) == Some(b) <==> b in db.bindings && b.submission == id
  {
    hide BindingsOf, Keyed, Ticking;
    BindingsFound(db.bindings, id);
  }

  lemma FindsDecision(db: Tables, id: string)
    requires Orderly(db)
    ensures Latest(db.decisions, id).Some? <==> HasDecision(db, id)
    ensures forall outcome :: LatestIs(db, id, outcome) <==>
              Latest(db.decisions, id).Some? && Latest(db.decisions, id).value.body.outcome == outcome
  {
    hide Latest, Of, IsLatest, Ticking, Keyed;
    LatestFound(db.decisions, id);
    forall d: Row<Decision> ensures Latest(db.decisions, id) == Some(d) <==> IsLatest(db.decisions, id, d) {
      LatestIff(db.decisions, id, d, db.clock);
    }
  }

  // ----- intake

  /** The row an intake stores: its fields as entered, the country in capitals. */
  predicate HoldsIntake(s: Submission, id: string, intake: Intake) {
    && s.id == id && s.counterparty == intake.counterparty && s.lineOfBusiness == intake.lineOfBusiness
    && s.tivEur == intake.tivEur && s.occupancy == intake.occupancy && s.requestedCover == intake.requestedCover
    && Alike(s.country, intake.country) && forall i :: 0 <= i < |s.country| ==> !SmallLetter(s.country[i])
  }

  /**
   * An intake is refused exactly when its id is taken. Otherwise the row that holds it, and one audit entry of
   * its creation, are added to the tables; nothing else changes, and the id now finds that row.
   */
  lemma IntakeMeans(db: Tables, id: string, intake: Intake, actor: string)
    requires Keyed(db)
    ensures var r := CreateSubmission(db, id, intake, actor);
            && (r == Err(DuplicateKey) <==> Stored(db, id))
            && (!Stored(db, id) ==>
                  && r.Ok? && |r.value.submissions| > 0
                  && var s := r.value.submissions[|db.submissions|];
                  && r.value == db.(submissions := db.submissions + [s], audit := r.value.audit, clock := r.value.clock)
                  && HoldsIntake(s, id, intake) && FindSubmission(r.value.submissions, id) == Some(s)
                  && r.value.audit == db.audit
                     + [Row(id, db.clock + 1, Audit(actor, Created(intake.lineOfBusiness, intake.tivEur)))]
                  && s.at == db.clock < r.value.clock)
  {
    hide FindSubmission;
    FindsStored(db, id);
    if !Stored(db, id) {
      var s := CreateSubmission(db, id, intake, actor).value.submissions[|db.submissions|];
      UpperMeans(intake.country, s.country);
      AlikeSymmetric(intake.country, s.country);
      FindSubmissionNew(db.submissions, s, id);
    }
  }

  lemma AlikeSymmetric(s: string, t: string)
    requires Alike(s, t)
    ensures Alike(t, s)
  {
  }

  // ----- assessment

  /** The stored rules' verdict on a submission. */
  predicate VerdictOn(s: Submission, rules: A.AppetiteRules, outcome: A.Outcome, reasons: seq<A.ReasonCode>) {
    A.Decides(A.Listed(s.country, rules.sanctionedCountries), s.occupancy in rules.excludedOccupancies,
        s.lineOfBusiness !in rules.allowedLobs, s.tivEur > rules.maxTivEur, outcome, reasons)
  }

  predicate DecisionIs(db: Tables, id: string, actor: string, d: Decision) {
    exists s, v :: s in db.submissions && v in db.rulesets && s.id == id && IsHighest(db.rulesets, v)
                   && VerdictOn(s, v.rules, d.outcome, d.reasonCodes)
                   && d.appetiteVersion == v.version && d.decidedBy == actor
  }

  predicate AssessAnswers(db: Tables, id: string, actor: string, r: Result<Decision, Failure>) {
    match r
    case Err(SubmissionNotFound) => !Stored(db, id)
    case Err(NoRuleset) => Stored(db, id) && db.rulesets == []
    case Ok(d) => DecisionIs(db, id, actor, d)
    case Err(_) => false
  }

  /**
   * An assessment is refused when the submission is unknown, then when there is no ruleset, and for no other
   * reason. It records the verdict of the highest stored ruleset on the fields of the submission, that
   * ruleset's version, and who asked.
   */
  lemma AssessMeans(db: Tables, id: string, actor: string)
    requires Keyed(db)
    ensures AssessAnswers(db, id, actor, Decide(db, id, actor))
  {
    hide FindSubmission, Current, A.Assess, A.FromRules, A.Decides, A.Listed, IsHighest, VerdictOn;
    FindsStored(db, id);
    FoundSubmission(db.submissions, id);
    CurrentIsStored(db.rulesets);
    if Stored(db, id) && db.rulesets != [] {
      var s, v := FindSubmission(db.submissions, id).value, Current(db.rulesets).value;
      CurrentIff(db.rulesets, v);
      A.StoredVerdictMeans(AppetiteFacts(s), v.version, v.rules);
      VerdictIs(s, v.rules, v.version);
    }
  }

  lemma VerdictIs(s: Submission, rules: A.AppetiteRules, version: int)
    ensures var verdict := A.Assess(AppetiteFacts(s), A.FromRules(version, rules));
            VerdictOn(s, rules, verdict.0, verdict.1)
  {
    hide A.Assess, A.FromRules, A.Decides, A.Listed;
    A.StoredVerdictMeans(AppetiteFacts(s), version, rules);
  }

  // ----- quote

  /** The facts of a submission, from its fields: its value, its occupancy, the two flags and no adjustment. */
  predicate PricedOn(s: Submission, facts: Facts) {
    && facts.tivEur == s.tivEur && facts.occupancy == s.occupancy && facts.commercialAdjustment == ONE
    && ("high_tiv" in facts.flags <==> s.tivEur > 500_000_000)
    && ("sprinklered" in facts.flags <==> Mentions(s.requestedCover, "sprinkler"))
    && facts.flags <= {"high_tiv", "sprinklered"}
  }

  lemma FactsMean(s: Submission)
    ensures PricedOn(s, PricedFacts(s))
    ensures forall facts :: PricedOn(s, facts) ==> facts == PricedFacts(s)
  {
    hide Mentions, T.Flags;
    T.FlagsMean(s.tivEur, s.requestedCover);
    forall facts: Facts | PricedOn(s, facts) ensures facts == PricedFacts(s) {
      assert forall f :: f in facts.flags <==> f in PricedFacts(s).flags;
    }
  }

  /** The manifest stored with a quote: the value and the occupancy, the flags in alphabetical order, and "1". */
  lemma ManifestMeans(s: Submission)
    ensures var m, high, sprinklered :=
              ManifestOf(PricedFacts(s)), s.tivEur > 500_000_000, Mentions(s.requestedCover, "sprinkler");
            && m.tivEur == s.tivEur && m.occupancy == s.occupancy && m.commercialAdjustment == "1"
            && m.flags == (if high && sprinklered then ["high_tiv", "sprinklered"]
                           else if high then ["high_tiv"] else if sprinklered then ["sprinklered"] else [])
  {
    hide Mentions, T.Flags;
    T.FlagsMean(s.tivEur, s.requestedCover);
  }

  /** A text is a quote's id already. */
  predicate QuoteIdTaken(db: Tables, id: string) {
    exists q :: q in db.quotes && q.body.id == id
  }

  /** What pricing the submission on the highest stored table comes to. */
  predicate PricingAnswers(s: Submission, v: Version<T.RateRules>, taken: bool, quoteId: string, actor: string,
          r: Result<Quote, Failure>) {
    var table, facts := T.FromRules(v.version, v.rules), PricedFacts(s);
    match r
    case Err(UnreadableRateTable) => table.None?
    case Err(NotPriced(why)) => table.Some? && Price(facts, table.value) == Err(why)
    case Err(DuplicateKey) => table.Some? && Price(facts, table.value).Ok? && taken
    case Ok(q) =>
      && table.Some? && Price(facts, table.value) == Ok(q.price) && !taken
      && q.id == quoteId && q.createdBy == actor && q.facts == ManifestOf(facts)
    case Err(_) => false
  }

  predicate QuoteAnswers(db: Tables, id: string, quoteId: string, actor: string, r: Result<Quote, Failure>) {
    match r
    case Err(SubmissionNotFound) => !Stored(db, id)
    case Err(NoDecision) => Stored(db, id) && !HasDecision(db, id)
    case Err(DeclinedRisk) => Stored(db, id) && LatestIs(db, id, A.Decline)
    case Err(NoRateTable) => MayQuote(db, id) && db.rateTables == []
    case _ =>
      MayQuote(db, id)
      && exists s, v :: s in db.submissions && v in db.rateTables && s.id == id && IsHighest(db.rateTables, v)
                        && PricingAnswers(s, v, QuoteIdTaken(db, quoteId), quoteId, actor, r)
  }

  /** The submission is stored and assessed, and its latest decision does not decline it. */
  predicate MayQuote(db: Tables, id: string) {
    Stored(db, id) && HasDecision(db, id) && !LatestIs(db, id, A.Decline)
  }

  /**
   * A quote is refused to an unknown or unassessed submission, and to one whose latest decision is a decline
   * (a referred risk is quoted); otherwise the highest stored table prices the fields of the submission, and
   * the answer is that price, with its manifest and who asked, or the reason there is none.
   */
  lemma QuoteMeans(db: Tables, id: string, quoteId: string, actor: string)
    requires Orderly(db)
    ensures QuoteAnswers(db, id, quoteId, actor, PriceQuote(db, id, quoteId, actor))
  {
    hide FindSubmission, Latest, Current, T.FromRules, Price, PricedFacts, ManifestOf, IsLatest, IsHighest, Ticking;
    hide PricingAnswers;
    FindsStored(db, id);
    FindsDecision(db, id);
    FoundSubmission(db.submissions, id);
    CurrentIsStored(db.rateTables);
    if MayQuote(db, id) && db.rateTables != [] {
      var s, v := FindSubmission(db.submissions, id).value, Current(db.rateTables).value;
      CurrentIff(db.rateTables, v);
      PricingIs(db, s, v, id, quoteId, actor);
    }
  }

  lemma PricingIs(db: Tables, s: Submission, v: Version<T.RateRules>, id: string, quoteId: string, actor: string)
    requires FindSubmission(db.submissions, id) == Some(s) && Current(db.rateTables) == Some(v)
    requires Latest(db.decisions, id).Some? && Latest(db.decisions, id).value.body.outcome != A.Decline
    ensures var r := PriceQuote(db, id, quoteId, actor);
            && PricingAnswers(s, v, QuoteIdTaken(db, quoteId), quoteId, actor, r)
            && (r.Err? ==> r.error.UnreadableRateTable? || r.error.NotPriced? || r.error.DuplicateKey?)
  {
    hide FindSubmission, Latest, Current, T.FromRules, Price, PricedFacts, ManifestOf;
  }

  // ----- bind

  /**
   * The submission may be bound on this quote: it is stored and not bound, its latest decision accepts it,
   * and this is its latest quote.
   */
  predicate MayBind(db: Tables, id: string, q: Row<Quote>) {
    Stored(db, id) && !BoundTo(db, id) && LatestIs(db, id, A.Accept) && IsLatest(db.quotes, id, q)
  }

  predicate GuardAnswers(db: Tables, id: string, r: Result<BindGuard, Failure>) {
    match r
    case Err(SubmissionNotFound) => !Stored(db, id)
    case Ok(Returns(b)) => Stored(db, id) && b in db.bindings && b.submission == id
    case Err(NoAcceptedDecision) => Stored(db, id) && !BoundTo(db, id) && !LatestIs(db, id, A.Accept)
    case Err(NoQuote) =>
      && Stored(db, id) && !BoundTo(db, id) && LatestIs(db, id, A.Accept)
      && forall q :: q in db.quotes ==> q.submission != id
    case Ok(Proceeds(q)) => MayBind(db, id, q)
    case Err(_) => false
  }

  /**
   * The reads of a bind: a bound submission is answered with its own binding, and a bind proceeds on a quote
   * if and only if the submission may be bound on it.
   */
  lemma GuardMeans(db: Tables, id: string)
    requires Orderly(db)
    ensures GuardAnswers(db, id, GuardBind(db, id))
    ensures forall q :: MayBind(db, id, q) <==> GuardBind(db, id) == Ok(Proceeds(q))
  {
    hide FindSubmission, Latest, BindingOf, Ticking, IsLatest, Keyed, Stored, LatestIs, BoundTo, HasDecision, Of;
    assert Keyed(db) && Ticking(db.quotes, db.clock);
    FindsStored(db, id);
    FindsBound(db, id);
    FindsDecision(db, id);
    LatestFound(db.quotes, id);
    forall q: Row<Quote> ensures Latest(db.quotes, id) == Some(q) <==> IsLatest(db.quotes, id, q) {
      LatestIff(db.quotes, id, q, db.clock);
    }
  }

  // ----- the routes

  /** A route refuses as already bound exactly the assessment or quote of a bound submission, and nothing else. */
  lemma RouteMeans(db: Tables, request: Request)
    requires Orderly(db)
    ensures Route(db, request) == Err(AlreadyBound) <==>
            (request.Assess? || request.MakeQuote?) && BoundTo(db, request.submission)
    ensures Route(db, request) != Err(AlreadyBound) ==> Route(db, request) == Service(db, request)
  {
    hide FindSubmission, Latest, Current, BindingOf, T.FromRules, Price, PricedFacts, ManifestOf, Orderly, BoundTo;
    hide Seed, CreateVersion, GetVersion, A.Assess, A.FromRules;
    if request.Assess? || request.MakeQuote? {
      FindsBound(db, request.submission);
    }
  }

  // ----- startup

  predicate HasVersion<R(==)>(rows: seq<Version<R>>, version: int) {
    exists i :: 0 <= i < |rows| && rows[i].version == version
  }

  /** Startup in terms of what is stored: each seed adds its version where there is none, and only there. */
  lemma SeedMeans(db: Tables)
    ensures var seeded, first := Seed(db), if db.rateTables == [] then [Version(1, T.V1_RULES)] else db.rateTables;
            && seeded.rulesets == (if db.rulesets == [] then [Version(1, A.V1_RULES)] else db.rulesets)
            && seeded.rateTables
               == first + (if HasVersion(db.rateTables, 2) then [] else [Version(2, T.V2_RULES)])
            && seeded == db.(rulesets := seeded.rulesets, rateTables := seeded.rateTables)
  {
    hide GetVersion, Current;
    CurrentIsStored(db.rulesets);
    CurrentIsStored(db.rateTables);
    VersionMissing(db.rulesets, 1);
    VersionMissing(db.rateTables, 1);
    var first := if db.rateTables == [] then [Version(1, T.V1_RULES)] else db.rateTables;
    VersionMissing(first, 2);
    assert [] + [Version(1, T.V1_RULES)] == [Version(1, T.V1_RULES)] && first + [] == first;
    assert [] + [Version(1, A.V1_RULES)] == [Version(1, A.V1_RULES)];
    if db.rateTables == [] {
      assert first[0].version == 1;
    }
  }
}
